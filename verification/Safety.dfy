/** What holds of every receipt the authority service issues, in every interleaving with failures and restarts. */
module Safety {
  import opened Basics
  import opened Receipts
  import opened ReceiptLedger
  import opened LedgerLaws
  import ReplayLedger
  import opened Approval
  import opened Authority
  import opened Protocol
  import opened ProtocolLaws

  // ---------------------------------------------------------------- tracing records back to events

  /** The configuration in force after the given events. */
  function ConfigAfter(setup: Setup, events: seq<Event>): Config
  {
    if events == [] then setup.config
    else
      var last := events[|events| - 1];
      if last.Restart? then last.config else ConfigAfter(setup, events[..|events| - 1])
  }

  /** Event `b` is the request, and the context was made with the grants in force at that point. */
  predicate BegunAt(setup: Setup, events: seq<Event>, b: nat, r: Request, ctx: Context)
    requires b < |events|
  {
    var e := events[b];
    e.Begin? && SafeRequest(r) && e.req == r
    && ctx == MakeContext(ConfigAfter(setup, events[..b]).grants, r, e.policy, e.now)
  }

  predicate AnsweredBy(e: Event, id: nat, r: Request, ev: Evidence)
  {
    e.Resume? && e.id == id && e.lookup == Snapshot(Some(ev.entries), ev.author, r.commitSha, r.branch)
  }

  /** The context was made by a request event, and the evidence is what GitHub answered to this flight. */
  ghost predicate Traced(setup: Setup, events: seq<Event>, id: nat, r: Request, ctx: Context,
                         evidence: Option<Evidence>)
  {
    && (exists b :: 0 <= b < |events| && BegunAt(setup, events, b, r, ctx))
    && (evidence.Some? ==> exists a :: 0 <= a < |events| && AnsweredBy(events[a], id, r, evidence.value))
  }

  function EvidenceOf(f: Flight): Option<Evidence>
  {
    if f.Waiting? then None else f.evidence
  }

  ghost predicate AllTraced(setup: Setup, events: seq<Event>, s: State)
  {
    && s.config == ConfigAfter(setup, events)
    && FlightsTraced(setup, events, s)
  }

  ghost predicate FlightsTraced(setup: Setup, events: seq<Event>, s: State)
  {
    && (forall id :: id in s.flights ==>
          Traced(setup, events, id, s.flights[id].req, s.flights[id].ctx, EvidenceOf(s.flights[id])))
    && (forall k :: 0 <= k < |s.log| ==>
          Traced(setup, events, s.log[k].flight, s.log[k].req, s.log[k].ctx, s.log[k].evidence))
  }

  lemma TracedGrows(setup: Setup, events: seq<Event>, e: Event, s: State)
    requires FlightsTraced(setup, events, s)
    ensures FlightsTraced(setup, events + [e], s)
  {
    hide BegunAt, AnsweredBy, Traced;
    forall id, r, ctx, ev | Traced(setup, events, id, r, ctx, ev)
      ensures Traced(setup, events + [e], id, r, ctx, ev)
    {
      TracedGrowsOne(setup, events, e, id, r, ctx, ev);
    }
  }

  lemma TracedGrowsOne(setup: Setup, events: seq<Event>, e: Event, id: nat, r: Request, ctx: Context,
                       ev: Option<Evidence>)
    requires Traced(setup, events, id, r, ctx, ev)
    ensures Traced(setup, events + [e], id, r, ctx, ev)
  {
    hide AnsweredBy, MakeContext, SafeRequest, ConfigAfter;
    var longer := events + [e];
    var b :| 0 <= b < |events| && BegunAt(setup, events, b, r, ctx);
    assert longer[..b] == events[..b];
    assert BegunAt(setup, longer, b, r, ctx);
    if ev.Some? {
      var a :| 0 <= a < |events| && AnsweredBy(events[a], id, r, ev.value);
      assert AnsweredBy(longer[a], id, r, ev.value);
    }
  }

  lemma BeginTraced(setup: Setup, front: seq<Event>, s: State, r: Request, policy: seq<string>, now: int)
    requires s.config == ConfigAfter(setup, front)
    requires FlightsTraced(setup, front + [Begin(r, policy, now)], s)
    ensures FlightsTraced(setup, front + [Begin(r, policy, now)], BeginStep(setup, s, r, policy, now))
  {
    hide MakeContext, SafeRequest, FirstVerdict, AnsweredBy, ConfigAfter;
    if SafeRequest(r) {
      var f := FlightFor(r, MakeContext(s.config.grants, r, policy, now), s.mem.records);
      var events := front + [Begin(r, policy, now)];
      assert events[..|front|] == front && events[|front|] == Begin(r, policy, now);
      assert BegunAt(setup, events, |front|, r, f.ctx);
      assert Traced(setup, events, s.next, f.req, f.ctx, EvidenceOf(f));
      hide BegunAt, Traced;
    }
  }

  /** A permit after the lookup means GitHub showed the request's own commit and branch. */
  lemma PermitAnswered(configured: bool, digest: string -> string, r: Request, ctx: Context, lookup: Lookup,
                       spent: set<string>, io: ReplayLedger.SpendIO)
    requires ClaimsApproval(r) && r.priorReceiptId.Some?
    requires FinalVerdict(configured, digest, r, ctx, lookup, spent, io).1.Some?
    requires FinalVerdict(configured, digest, r, ctx, lookup, spent, io).1.value.Verdict?
    requires FinalVerdict(configured, digest, r, ctx, lookup, spent, io).1.value.decision == Permit
    ensures lookup.Snapshot? && lookup.entries.Some? && lookup.sha == r.commitSha && lookup.branch == r.branch
  {
    hide AssessApprovalHistory, IndependentlyApproved, ReplayLedger.Spend;
    if lookup.Snapshot? {
      VerifiedExactlyWhenIndependent(lookup.entries,
        Claim(r.commitSha, r.branch, r.invokingActor, r.approval.value.approvedBy),
        lookup.author, lookup.sha, lookup.branch);
    }
  }

  lemma ResumeTraced(setup: Setup, events: seq<Event>, s: State, id: nat, lookup: Lookup, io: ReplayLedger.SpendIO)
    requires FlightsTraced(setup, events, s) && Resume(id, lookup, io) in events
    requires id in s.flights && s.flights[id].Waiting?
    ensures FlightsTraced(setup, events, ResumeStep(setup, s, id, lookup, io))
  {
    hide FinalVerdict, BegunAt, ClaimsApproval, SpendName;
    var s', f := ResumeStep(setup, s, id, lookup, io), s.flights[id];
    if ClaimsApproval(f.req) && f.req.priorReceiptId.Some? {
      var verdict := FinalVerdict(s.config.replayConfigured, setup.digest, f.req, f.ctx, lookup, s.spent, io).1;
      if verdict.Some? && verdict.value.Verdict? {
        if verdict.value.decision == Permit {
          PermitAnswered(s.config.replayConfigured, setup.digest, f.req, f.ctx, lookup, s.spent, io);
          var a :| 0 <= a < |events| && events[a] == Resume(id, lookup, io);
          assert AnsweredBy(events[a], id, f.req, s'.flights[id].evidence.value);
        }
        assert Traced(setup, events, id, f.req, f.ctx, None);
        assert Traced(setup, events, id, f.req, f.ctx, EvidenceOf(s'.flights[id]));
      }
      hide Traced, AnsweredBy;
    }
  }

  lemma FinishTraced(setup: Setup, events: seq<Event>, s: State, id: nat, receiptId: string, now: int, io: AppendIO)
    requires FlightsTraced(setup, events, s)
    requires id in s.flights && s.flights[id].Decided?
    ensures FlightsTraced(setup, events, FinishStep(setup, s, id, receiptId, now, io))
  {
    hide Traced, AppendTo, MakePayload, FinalizeReceipt;
  }

  lemma StepTraced(setup: Setup, front: seq<Event>, s: State, e: Event)
    requires AllTraced(setup, front, s)
    ensures AllTraced(setup, front + [e], Step(setup, s, e))
  {
    var events := front + [e];
    TracedGrows(setup, front, e, s);
    ConfigStep(setup, front, s, e);
    assert events[|front|] == e;
    hide FlightsTraced, BeginStep, ResumeStep, FinishStep, RestartStep, ConfigAfter;
    match e
    case Restart(config, ready) => RestartTraced(setup, events, s, config, ready);
    case OtherSpend(name) => SpentTraced(setup, events, s, s.spent + {name});
    case Begin(r, policy, now) => BeginTraced(setup, front, s, r, policy, now);
    case Resume(id, lookup, io) =>
      if s.up && id in s.flights && s.flights[id].Waiting? {
        ResumeTraced(setup, events, s, id, lookup, io);
      }
    case Finish(id, receiptId, now, io) =>
      if s.up && id in s.flights && s.flights[id].Decided? {
        FinishTraced(setup, events, s, id, receiptId, now, io);
      }
  }

  lemma ConfigStep(setup: Setup, front: seq<Event>, s: State, e: Event)
    requires s.config == ConfigAfter(setup, front)
    ensures Step(setup, s, e).config == ConfigAfter(setup, front + [e])
  {
    hide SafeRequest, MakeContext, FinalVerdict, MakePayload, FinalizeReceipt, AppendTo, Open, FirstVerdict, SpendName;
    assert (front + [e])[..|front|] == front;
  }

  lemma SpentTraced(setup: Setup, events: seq<Event>, s: State, spent: set<string>)
    requires FlightsTraced(setup, events, s)
    ensures FlightsTraced(setup, events, s.(spent := spent))
  {
    hide Traced;
  }

  lemma RestartTraced(setup: Setup, events: seq<Event>, s: State, config: Config, ready: bool)
    requires FlightsTraced(setup, events, s)
    ensures FlightsTraced(setup, events, RestartStep(setup, s, config, ready))
  {
  }

  lemma {:induction false} RunTraced(setup: Setup, events: seq<Event>, states: seq<State>, n: nat)
    requires IsRun(setup, events, states) && n <= |events|
    ensures AllTraced(setup, events[..n], states[n])
  {
    hide Step, Traced;
    if n > 0 {
      RunTraced(setup, events, states, n - 1);
      assert events[..n] == events[..n - 1] + [events[n - 1]];
      StepTraced(setup, events[..n - 1], states[n - 1], events[n - 1]);
      assert states[(n - 1) + 1] == Step(setup, states[n - 1], events[n - 1]);
    }
  }

  lemma ReachedTraced(setup: Setup, events: seq<Event>, s: State)
    requires Reached(setup, events, s)
    ensures AllTraced(setup, events, s)
  {
    hide AllTraced, Step;
    var states :| IsRun(setup, events, states) && states[|events|] == s;
    RunTraced(setup, events, states, |events|);
    assert events[..|events|] == events;
  }

  // ---------------------------------------------------------------- permits

  predicate IssuedPermit(s: State, k: nat)
  {
    k < |s.log| && s.log[k].receipt.payload.decision == Permit
  }

  /**
   * `prior` is a stepped-up or escalated execution request for
   * exactly what `p` is about, at most ten minutes before.
   */
  predicate StepsUpFor(prior: Payload, p: Payload, begun: int)
  {
    && prior.timestamp.Some? && prior.timestamp.value <= begun <= prior.timestamp.value + 600000
    && prior.decision in {StepUp, Escalate} && prior.action == EXECUTE
    && p.priorReceiptId == Some(prior.receiptId)
    && prior.subject == p.subject && prior.repo == p.repo && prior.branch == p.branch && prior.resource == p.resource
    && prior.workflowRunId == p.workflowRunId && prior.commitSha == p.commitSha && prior.paths == p.paths
  }

  /** GitHub answered with the request's commit and branch, and with one approval by an outsider. */
  ghost predicate ApprovalSeen(e: Event, id: nat, p: Payload)
  {
    && e.Resume? && e.id == id && e.lookup.Snapshot? && e.lookup.entries.Some? && p.approvalReviewer.Some?
    && e.lookup.sha == p.commitSha && e.lookup.branch == p.branch
    && IndependentlyApproved(e.lookup.entries.value, p.approvalReviewer.value, e.lookup.author, p.invokingActor)
  }

  /** Event `b` is the request that the record answers. */
  predicate RequestedBy(setup: Setup, events: seq<Event>, b: nat, e: LogEntry)
    requires b < |events|
    ensures RequestedBy(setup, events, b, e) ==> events[b].Begin?
  {
    && BegunAt(setup, events, b, e.req, e.ctx)
    && e.receipt.payload.timestamp.Some?
    && Answers(e)
  }

  predicate Answers(e: LogEntry)
    requires e.receipt.payload.timestamp.Some?
  {
    var p := e.receipt.payload;
    p == MakePayload(e.req, e.ctx, p.decision, p.reason, p.receiptId, p.timestamp.value)
  }

  /** A permit on a critical risk, or on a reauthorization, redeems an earlier receipt with an independent approval. */
  lemma CriticalPermitsAreApproved(setup: Setup, events: seq<Event>, s: State, k: nat)
    requires FaithfulText(setup.lib) && Reached(setup, events, s)
    requires IssuedPermit(s, k)
    requires s.log[k].receipt.payload.risk == Critical || s.log[k].receipt.payload.action == REAUTHORIZE
    ensures var p := s.log[k].receipt.payload;
      && p.action == REAUTHORIZE
      && (exists b, j :: 0 <= b < |events| && 0 <= j < k && RequestedBy(setup, events, b, s.log[k])
            && StepsUpFor(s.log[j].receipt.payload, p, events[b].now))
      && (exists a :: 0 <= a < |events| && ApprovalSeen(events[a], s.log[k].flight, p))
  {
    hide *;
    ReachedKeeps(setup, events, s);
    ReachedTraced(setup, events, s);
    PermitHistory(setup, events, s, k);
  }

  lemma PermitHistory(setup: Setup, events: seq<Event>, s: State, k: nat)
    requires Invariant(setup, s) && AllTraced(setup, events, s)
    requires IssuedPermit(s, k)
    requires s.log[k].receipt.payload.risk == Critical || s.log[k].receipt.payload.action == REAUTHORIZE
    ensures var p := s.log[k].receipt.payload;
      && p.action == REAUTHORIZE
      && (exists b, j :: 0 <= b < |events| && 0 <= j < k && RequestedBy(setup, events, b, s.log[k])
            && StepsUpFor(s.log[j].receipt.payload, p, events[b].now))
      && (exists a :: 0 <= a < |events| && ApprovalSeen(events[a], s.log[k].flight, p))
  {
    hide Invariant, Granted, IndependentlyApproved, BegunAt;
    EntryOf(setup, s, k);
    var e := s.log[k];
    var ev := e.evidence.value;
    var j :| 0 <= j < k && ReceiptsOf(s.log[..k])[j] == ev.prior;
    assert s.log[..k][j].receipt == ev.prior;
    assert Traced(setup, events, e.flight, e.req, e.ctx, Some(ev));
    var b :| 0 <= b < |events| && BegunAt(setup, events, b, e.req, e.ctx);
    BeginTime(setup, events, b, e.req, e.ctx);
    assert RequestedBy(setup, events, b, e);
    assert StepsUpFor(s.log[j].receipt.payload, e.receipt.payload, events[b].now);
    var a :| 0 <= a < |events| && AnsweredBy(events[a], e.flight, e.req, ev);
    assert ApprovalSeen(events[a], e.flight, e.receipt.payload);
  }

  lemma BeginTime(setup: Setup, events: seq<Event>, b: nat, r: Request, ctx: Context)
    requires b < |events| && BegunAt(setup, events, b, r, ctx)
    ensures events[b].Begin? && ctx.begun == events[b].now
  {
  }

  lemma EntryOf(setup: Setup, s: State, k: nat)
    requires Invariant(setup, s) && k < |s.log|
    ensures EntryOk(s.log, k)
  {
  }

  /** Event `e` is the request, and `grants` hold the provisioned grant, that a permit rests on. */
  ghost predicate GrantedBy(grants: map<string, Grant>, e: Event, p: Payload)
  {
    && e.Begin? && SafeRequest(e.req) && e.req.grantRef == Some(p.grantRef) && p.grantRef in grants
    && GrantCovers(grants[p.grantRef], e.req, e.now)
    && e.now - grants[p.grantRef].verifiedAt.value <= 900000
    && p.trustScore == grants[p.grantRef].trustScore
    && p.risk == RiskClass(e.req, e.policy)
    && p.subject == e.req.subject && p.action == e.req.action && p.resource == e.req.resource && p.repo == e.req.repo
    && p.branch == e.req.branch && p.paths == e.req.paths && p.commitSha == e.req.commitSha
    && p.workflowRunId == e.req.workflowRunId && p.invokingActor == e.req.invokingActor
    && (p.action != REAUTHORIZE ==> p.risk != Critical && AtLeast(p.trustScore, TRUST_THRESHOLD))
  }

  /** A grant provisioned at the time of event `b` covers it. */
  ghost predicate PermitGranted(setup: Setup, events: seq<Event>, b: nat, p: Payload)
    requires b < |events|
  {
    GrantedBy(ConfigAfter(setup, events[..b]).grants, events[b], p)
  }

  /**
   * Every permit repeats a request that a fresh provisioned grant
   * covered, with that grant's score, not the caller's.
   */
  lemma PermitsRestOnGrants(setup: Setup, events: seq<Event>, s: State, k: nat)
    requires FaithfulText(setup.lib) && Reached(setup, events, s)
    requires IssuedPermit(s, k)
    ensures exists b :: 0 <= b < |events| && PermitGranted(setup, events, b, s.log[k].receipt.payload)
  {
    hide *;
    ReachedKeeps(setup, events, s);
    ReachedTraced(setup, events, s);
    PermitOrigin(setup, events, s, k);
  }

  lemma PermitOrigin(setup: Setup, events: seq<Event>, s: State, k: nat)
    requires Invariant(setup, s) && AllTraced(setup, events, s)
    requires IssuedPermit(s, k)
    ensures exists b :: 0 <= b < |events| && PermitGranted(setup, events, b, s.log[k].receipt.payload)
  {
    hide Invariant, Redeems, RiskClass, SafeRequest, VerifiedGrant;
    EntryOf(setup, s, k);
    var e := s.log[k];
    assert Traced(setup, events, e.flight, e.req, e.ctx, e.evidence);
    var b :| 0 <= b < |events| && BegunAt(setup, events, b, e.req, e.ctx);
    GrantFound(ConfigAfter(setup, events[..b]).grants, e.req, events[b].now);
    assert PermitGranted(setup, events, b, e.receipt.payload);
  }

  // ---------------------------------------------------------------- when requests succeed

  /** A pattern names one path, or, with the ending used in the code, everything that starts with the rest of it. */
  ghost predicate Covers(pattern: string, path: string)
  {
    (exists prefix :: pattern == prefix + "/**" && StartsWith(path, prefix))
    || (path == pattern && !exists prefix :: pattern == prefix + "/**")
  }

  lemma CoversExactlyWhen(path: string, pattern: string)
    ensures IsProtectedPath(path, pattern) <==> Covers(pattern, path)
  {
    if |pattern| >= 3 && pattern[|pattern| - 3..] == "/**" {
      assert pattern == pattern[..|pattern| - 3] + "/**";
    }
    forall prefix | pattern == prefix + "/**"
      ensures pattern[|pattern| - 3..] == "/**" && pattern[..|pattern| - 3] == prefix
    {
    }
  }

  /** The risk is critical exactly for two actions and for requests that touch a protected path. */
  lemma CriticalExactlyWhen(r: Request, policy: seq<string>)
    ensures RiskClass(r, policy) == Critical <==>
      || r.action in {"merge approval", "release tag request"}
      || exists path, pattern :: path in r.paths && pattern in policy && Covers(pattern, path)
  {
    hide Covers, IsProtectedPath;
    forall path: string, pattern: string
      ensures IsProtectedPath(path, pattern) <==> Covers(pattern, path)
    {
      CoversExactlyWhen(path, pattern);
    }
    if path, pattern :| path in r.paths && pattern in policy && Covers(pattern, path) {
      var i :| 0 <= i < |r.paths| && r.paths[i] == path;
      var j :| 0 <= j < |policy| && policy[j] == pattern;
      assert IsProtectedPath(r.paths[i], policy[j]);
    }
  }

  /** A fresh provisioned grant covers the request. */
  ghost predicate FreshlyGranted(grants: map<string, Grant>, r: Request, now: int)
  {
    && r.grantRef.Some? && r.grantRef.value != "" && r.grantRef.value in grants
    && GrantCovers(grants[r.grantRef.value], r, now)
    && now - grants[r.grantRef.value].verifiedAt.value <= 900000
  }

  /** A request is permitted without a human exactly when it is freshly granted, trusted at 0.85 and not critical. */
  lemma DirectPermitExactlyWhen(grants: map<string, Grant>, r: Request, policy: seq<string>, now: int,
                                records: map<string, Receipt>)
    ensures FirstVerdict(r, MakeContext(grants, r, policy, now), records) == Verdict(Permit, "policy_permit") <==>
      && r.subject != "" && r.action != "" && r.resource != "" && r.action != REAUTHORIZE
      && FreshlyGranted(grants, r, now)
      && RiskClass(r, policy) != Critical && AtLeast(grants[r.grantRef.value].trustScore, TRUST_THRESHOLD)
  {
    hide VerifiedGrant, RiskClass, BoundTo, ClaimsApproval;
    GrantFound(grants, r, now);
  }

  /** GitHub shows the request's head, a readable history, and an approval by somebody independent. */
  ghost predicate Approves(lookup: Lookup, r: Request)
    requires ClaimsApproval(r)
  {
    && lookup.Snapshot? && lookup.entries.Some? && lookup.sha == r.commitSha && lookup.branch == r.branch
    && (forall k :: 0 <= k < |lookup.entries.value| ==> !Unreadable(lookup.entries.value[k]))
    && IndependentlyApproved(lookup.entries.value, r.approval.value.approvedBy, lookup.author, r.invokingActor)
  }

  /**
   * A reauthorization is permitted exactly for an independent approval
   * of the same head, a fresh grant and a working spend.
   */
  lemma RedeemedPermitExactlyWhen(configured: bool, digest: string -> string, r: Request, ctx: Context, lookup: Lookup,
                                  spent: set<string>, io: ReplayLedger.SpendIO)
    requires ClaimsApproval(r) && r.priorReceiptId.Some?
    ensures var verdict := FinalVerdict(configured, digest, r, ctx, lookup, spent, io).1;
      verdict == Some(Verdict(Permit, "step_up_approved_reauthorize_permit")) <==>
      && Approves(lookup, r) && ctx.attestationValid
      && ReplayLedger.Spend(spent, configured, r.priorReceiptId.value, digest, io).1
           == ReplayLedger.SpendResult(true, "PRIOR_RECEIPT_CONSUMED")
  {
    hide ProofOf, Approves, ReplayLedger.IdShape;
    ReplayLedger.AcceptedExactlyWhen(spent, configured, r.priorReceiptId.value, digest, io);
    ApprovesExactlyWhen(lookup, r);
    hide ReplayLedger.Spend;
  }

  lemma ApprovesExactlyWhen(lookup: Lookup, r: Request)
    requires ClaimsApproval(r)
    ensures ProofOf(r, lookup).verified <==> Approves(lookup, r)
  {
    hide AssessApprovalHistory, IndependentlyApproved, Unreadable;
    if lookup.Snapshot? {
      VerifiedExactlyWhenIndependent(lookup.entries,
        Claim(r.commitSha, r.branch, r.invokingActor, r.approval.value.approvedBy),
        lookup.author, lookup.sha, lookup.branch);
    }
  }

  // ---------------------------------------------------------------- redemptions

  /** No prior receipt supports two step-up permits, and each support is on the spend record. */
  lemma EachPriorSupportsOnePermit(setup: Setup, events: seq<Event>, s: State, i: nat, j: nat)
    requires FaithfulText(setup.lib) && Reached(setup, events, s)
    requires i < j && IssuedPermit(s, i) && IssuedPermit(s, j)
    requires s.log[i].receipt.payload.action == s.log[j].receipt.payload.action == REAUTHORIZE
    ensures var p, q := s.log[i].receipt.payload, s.log[j].receipt.payload;
      && p.priorReceiptId.Some? && q.priorReceiptId.Some? && p.priorReceiptId != q.priorReceiptId
      && setup.digest(p.priorReceiptId.value) + ".spent" in s.spent
      && setup.digest(q.priorReceiptId.value) + ".spent" in s.spent
  {
    hide *;
    ReachedKeeps(setup, events, s);
    SupportsDiffer(setup, s, i, j);
  }

  lemma SupportsDiffer(setup: Setup, s: State, i: nat, j: nat)
    requires Invariant(setup, s)
    requires i < j && IssuedPermit(s, i) && IssuedPermit(s, j)
    requires s.log[i].receipt.payload.action == s.log[j].receipt.payload.action == REAUTHORIZE
    ensures var p, q := s.log[i].receipt.payload, s.log[j].receipt.payload;
      && p.priorReceiptId.Some? && q.priorReceiptId.Some? && p.priorReceiptId != q.priorReceiptId
      && setup.digest(p.priorReceiptId.value) + ".spent" in s.spent
      && setup.digest(q.priorReceiptId.value) + ".spent" in s.spent
  {
    hide FileOk, MemoryOk, FlightsOk, AcksOk, PermitOk;
    assert EntryOk(s.log, i) && EntryOk(s.log, j);
    assert OwnsSpend(setup, s, s.log[i].req, s.log[i].flight);
    assert OwnsSpend(setup, s, s.log[j].req, s.log[j].flight);
  }

  // ---------------------------------------------------------------- durability and progress

  /** Every acknowledged receipt is a completed record of the file, and is found again if the file is reopened. */
  lemma AcknowledgedIsDurable(setup: Setup, events: seq<Event>, s: State, r: Receipt)
    requires FaithfulText(setup.lib) && Reached(setup, events, s)
    requires r in s.acks
    ensures s.done <= |s.log| && r in ReceiptsOf(s.log)[..s.done]
    ensures Prefix(Render(setup.lib, ReceiptsOf(s.log)[..s.done]), s.file)
    ensures Open(setup.lib, s.file).Some? ==>
      Open(setup.lib, s.file) == Some(ReceiptsOf(s.log)) && r in Open(setup.lib, s.file).value
  {
    hide FaithfulText, Reached, FlightsOk, EntriesOk, Chained, Open, Render;
    ReachedKeeps(setup, events, s);
    if Open(setup.lib, s.file).Some? {
      RestartReads(setup.lib, s);
    }
  }

  /**
   * Whatever ran in between, a new receipt passes the chain check;
   * with working files it is appended and acknowledged.
   */
  lemma InterleavingNeverBreaksTheChain(setup: Setup, events: seq<Event>, s: State, id: nat, receiptId: string,
                                        now: int, io: AppendIO)
    requires FaithfulText(setup.lib) && Reached(setup, events, s)
    requires s.up && id in s.flights && s.flights[id].Decided?
    requires ReceiptIdShape(receiptId)
    ensures var r := ReceiptOf(setup, s, id, receiptId, now);
      var result := AppendTo(setup.lib, s.mem, s.file, r, io).2;
      && result != Threw("RECEIPT_LEDGER_CHAIN_BROKEN") && result != Threw("RECEIPT_LEDGER_SIGNATURE_INVALID")
      && (receiptId !in s.mem.records && s.done == |s.log| &&
          io.Written? && io.count > |setup.lib.line(r)| && io.synced && io.directorySynced ==>
            result == Appended && Step(setup, s, Finish(id, receiptId, now, io)).acks == s.acks + [r])
  {
    hide FaithfulText, Reached, FlightsOk, EntriesOk, Chained, ReceiptIdShape, Render, IndexOf, ChainHash, SignReceipt;
    ReachedKeeps(setup, events, s);
    var f := s.flights[id];
    FinalizedPasses(setup.lib, MakePayload(f.req, f.ctx, f.decision, f.reason, receiptId, now), s.mem.last);
    hide RecordProblem;
    if s.done == |s.log| {
      MemoryIndex(setup.lib, ReceiptsOf(s.log));
      assert ReceiptsOf(s.log)[..s.done] == ReceiptsOf(s.log);
      assert |s.file| == s.mem.bytes;
    }
  }

  // ---------------------------------------------------------------- requests that are served

  /** A service that can append: it is up, its file holds completed records only, and the operations work. */
  ghost predicate CanAppend(setup: Setup, s: State, receiptId: string, r: Receipt, io: AppendIO)
  {
    && s.up && s.done == |s.log| && receiptId !in s.mem.records
    && io.Written? && io.count > |setup.lib.line(r)| && io.synced && io.directorySynced
  }

  /** A decided request is answered with a receipt of the decision. */
  lemma DecidedIsServed(setup: Setup, events: seq<Event>, s: State, id: nat, receiptId: string, now: int, io: AppendIO)
    requires FaithfulText(setup.lib) && Reached(setup, events, s) && ReceiptIdShape(receiptId)
    requires id in s.flights && s.flights[id].Decided?
    requires CanAppend(setup, s, receiptId, ReceiptOf(setup, s, id, receiptId, now), io)
    ensures var acks := Step(setup, s, Finish(id, receiptId, now, io)).acks;
      && acks != [] && acks[..|acks| - 1] == s.acks
      && acks[|acks| - 1].payload.decision == s.flights[id].decision
      && acks[|acks| - 1].payload.receiptId == receiptId
  {
    hide FaithfulText, Reached, Step, ReceiptIdShape;
    InterleavingNeverBreaksTheChain(setup, events, s, id, receiptId, now, io);
  }

  /** Whatever happened before, a safe, granted, trusted and uncritical request begins with a permit. */
  lemma GrantedRequestIsPermitted(setup: Setup, s: State, r: Request, policy: seq<string>, now: int)
    requires s.up && SafeRequest(r) && r.action != "" && r.resource != "" && r.action != REAUTHORIZE
    requires FreshlyGranted(s.config.grants, r, now)
    requires RiskClass(r, policy) != Critical && AtLeast(s.config.grants[r.grantRef.value].trustScore, TRUST_THRESHOLD)
    ensures var s' := Step(setup, s, Begin(r, policy, now));
      s.next in s'.flights && s'.flights[s.next].Decided? && s'.flights[s.next].decision == Permit
  {
    hide FreshlyGranted, RiskClass, MakeContext, FirstVerdict;
    DirectPermitExactlyWhen(s.config.grants, r, policy, now, s.mem.records);
  }

  /** The request names a recorded receipt that it may redeem, and claims an approval. */
  ghost predicate MayRedeem(s: State, r: Request, now: int)
  {
    && r.action == REAUTHORIZE && r.resource != "" && ClaimsApproval(r)
    && r.priorReceiptId.Some? && r.priorReceiptId.value != "" && r.priorReceiptId.value in s.mem.records
    && Reauthorizable(s.mem.records[r.priorReceiptId.value])
    && BoundTo(s.mem.records[r.priorReceiptId.value], r, now)
  }

  lemma RedeemableAsks(s: State, r: Request, policy: seq<string>, now: int)
    requires r.subject != "" && MayRedeem(s, r, now) && FreshlyGranted(s.config.grants, r, now)
    ensures var ctx := MakeContext(s.config.grants, r, policy, now);
      FirstVerdict(r, ctx, s.mem.records) == AskGithub(s.mem.records[r.priorReceiptId.value]) && ctx.attestationValid
  {
    hide RiskClass, VerifiedGrant, BoundTo, Reauthorizable, ClaimsApproval;
    GrantFound(s.config.grants, r, now);
  }

  lemma RedeemableWaits(setup: Setup, s: State, r: Request, policy: seq<string>, now: int)
    requires s.up && SafeRequest(r) && MayRedeem(s, r, now) && FreshlyGranted(s.config.grants, r, now)
    ensures var s' := Step(setup, s, Begin(r, policy, now));
      && s.next in s'.flights && s'.flights[s.next].Waiting? && s'.flights[s.next].req == r
      && s'.flights[s.next].ctx.attestationValid
    ensures ClaimsApproval(r) && r.priorReceiptId.Some?
  {
    RedeemableAsks(s, r, policy, now);
    hide FreshlyGranted, MakeContext, FirstVerdict, Reauthorizable, BoundTo;
  }

  /** A redeemable request that GitHub approves ends in a permit, if the spend works, whatever ran in between. */
  lemma ApprovedRequestIsPermitted(setup: Setup, s: State, r: Request, policy: seq<string>, now: int, t: State,
                                   lookup: Lookup, io: ReplayLedger.SpendIO)
    requires s.up && SafeRequest(r) && MayRedeem(s, r, now) && FreshlyGranted(s.config.grants, r, now)
    requires var begun := Step(setup, s, Begin(r, policy, now));
      t.up && s.next in t.flights && t.flights[s.next] == begun.flights[s.next]
    requires Approves(lookup, r)
    requires ReplayLedger.Spend(t.spent, t.config.replayConfigured, r.priorReceiptId.value, setup.digest, io).1
          == ReplayLedger.SpendResult(true, "PRIOR_RECEIPT_CONSUMED")
    ensures var t' := Step(setup, t, Resume(s.next, lookup, io));
      s.next in t'.flights && t'.flights[s.next].Decided? && t'.flights[s.next].decision == Permit
  {
    hide BeginStep, FinalVerdict, SpendName, FreshlyGranted, MayRedeem, Approves;
    RedeemableWaits(setup, s, r, policy, now);
    var ctx := t.flights[s.next].ctx;
    RedeemedPermitExactlyWhen(t.config.replayConfigured, setup.digest, r, ctx, lookup, t.spent, io);
  }
}
