/**
 * Which decision each request gets, exactly; and the way of a critical
 * request from its step-up to the permit of its reauthorization.
 */
module Decisions {
  import opened Basics
  import opened Receipts
  import opened ReceiptLedger
  import ReplayLedger
  import opened Approval
  import opened Authority
  import opened Protocol
  import opened ProtocolLaws
  import opened Safety

  // ---------------------------------------------------------------- before the lookup

  predicate Named(r: Request)
  {
    r.subject != "" && r.action != "" && r.resource != ""
  }

  /** A provisioned grant covers the request, fresh or not. */
  ghost predicate Covered(grants: map<string, Grant>, r: Request, now: int)
  {
    && r.grantRef.Some? && r.grantRef.value != "" && r.grantRef.value in grants
    && GrantCovers(grants[r.grantRef.value], r, now)
  }

  ghost predicate IsCritical(r: Request, policy: seq<string>)
  {
    || r.action in {"merge approval", "release tag request"}
    || exists path, pattern :: path in r.paths && pattern in policy && Covers(pattern, path)
  }

  /** At least the double that 0.85 denotes. */
  predicate TrustedEnough(s: Score)
  {
    s.num * 9007199254740992 >= 7656119366529843 * s.den
  }

  /** The decision on a first request, each with its exact condition. */
  lemma FirstDecisionExactlyWhen(grants: map<string, Grant>, r: Request, policy: seq<string>, now: int,
                                 records: map<string, Receipt>)
    requires r.action != "merge request reauthorize"
    ensures var v := FirstVerdict(r, MakeContext(grants, r, policy, now), records);
      && (v == Verdict(Deny, "invalid_authority") <==> !(Named(r) && Covered(grants, r, now)))
      && (v == Verdict(Escalate, "stale_attestation") <==>
            Named(r) && Covered(grants, r, now) && !FreshlyGranted(grants, r, now))
      && (v == Verdict(StepUp, "protected_action_requires_human") <==>
            Named(r) && FreshlyGranted(grants, r, now) && IsCritical(r, policy))
      && (v == Verdict(Escalate, "trust_below_threshold") <==>
            && Named(r) && FreshlyGranted(grants, r, now) && !IsCritical(r, policy)
            && !TrustedEnough(grants[r.grantRef.value].trustScore))
      && (v == Verdict(Permit, "policy_permit") <==>
            && Named(r) && FreshlyGranted(grants, r, now) && !IsCritical(r, policy)
            && TrustedEnough(grants[r.grantRef.value].trustScore))
  {
    hide VerifiedGrant, RiskClass, GrantCovers, IsCritical;
    GrantFound(grants, r, now);
    CriticalIs(r, policy);
    if Covered(grants, r, now) {
      CoveredVerified(grants[r.grantRef.value], r, now);
    }
  }

  lemma CriticalIs(r: Request, policy: seq<string>)
    ensures RiskClass(r, policy) == Critical <==> IsCritical(r, policy)
  {
    hide RiskClass, Covers;
    CriticalExactlyWhen(r, policy);
  }

  /**
   * The request names a recorded receipt that stepped up or escalated
   * this very execution in the last ten minutes, and claims its approval.
   */
  ghost predicate Redeemable(records: map<string, Receipt>, r: Request, now: int)
  {
    && r.priorReceiptId.Some? && r.priorReceiptId.value != "" && r.priorReceiptId.value in records
    && StepsUp(records[r.priorReceiptId.value].payload, r, now)
    && ClaimsOne(r)
  }

  /** The request says who approved it, for the protected environment. */
  predicate ClaimsOne(r: Request)
  {
    && r.approval.Some? && r.approval.value.approved && r.approval.value.approvedBy != ""
    && r.approval.value.environment == "protected-execution"
  }

  predicate StepsUp(p: Payload, r: Request, now: int)
  {
    p.decision in {StepUp, Escalate} && SameExecution(p, r, now)
  }

  predicate SameExecution(p: Payload, r: Request, now: int)
  {
    && p.action == "pull_request.execute"
    && p.subject == r.subject && p.repo == r.repo && p.branch == r.branch && p.resource == r.resource
    && p.workflowRunId == r.workflowRunId && p.commitSha == r.commitSha && p.paths == r.paths
    && p.timestamp.Some? && p.timestamp.value <= now <= p.timestamp.value + 600000
  }

  /** A reauthorization is put to GitHub exactly when it is covered and redeemable, and denied otherwise. */
  lemma ReauthorizationExactlyWhen(grants: map<string, Grant>, r: Request, policy: seq<string>, now: int,
                                   records: map<string, Receipt>)
    requires r.action == "merge request reauthorize"
    ensures var v := FirstVerdict(r, MakeContext(grants, r, policy, now), records);
      && (v.AskGithub? <==> Named(r) && Covered(grants, r, now) && Redeemable(records, r, now))
      && (v.AskGithub? ==> v.prior == records[r.priorReceiptId.value])
      && (!v.AskGithub? ==> v.decision == Deny)
    ensures var v := FirstVerdict(r, MakeContext(grants, r, policy, now), records);
      var ok := Named(r) && Covered(grants, r, now);
      var named := ok && r.priorReceiptId.Some? && r.priorReceiptId.value != "";
      var recorded := named && r.priorReceiptId.value in records;
      var open := recorded && records[r.priorReceiptId.value].payload.decision in {StepUp, Escalate};
      var same := open && SameExecution(records[r.priorReceiptId.value].payload, r, now);
      && (v == Verdict(Deny, "invalid_authority") <==> !ok)
      && (v == Verdict(Deny, "missing_prior_receipt") <==> ok && !named)
      && (v == Verdict(Deny, "prior_receipt_not_found") <==> named && !recorded)
      && (v == Verdict(Deny, "prior_decision_not_reauthorizable") <==> recorded && !open)
      && (v == Verdict(Deny, "prior_receipt_binding_or_freshness_mismatch") <==> open && !same)
      && (v == Verdict(Deny, "step_up_approval_missing") <==> same && !ClaimsOne(r))
  {
    hide VerifiedGrant, RiskClass, GrantCovers;
    GrantFound(grants, r, now);
    if Covered(grants, r, now) {
      CoveredVerified(grants[r.grantRef.value], r, now);
    }
  }

  // ---------------------------------------------------------------- what can be asked

  predicate Hex(n: int) { 48 <= n <= 57 || 65 <= n <= 70 || 97 <= n <= 102 }

  /** The requests that are looked at: a subject, a commit, a run number, and 1 to 3000 paths of bounded length. */
  ghost predicate WellFormedRequest(r: Request)
  {
    && r.subject != "" && r.workflowRunId != ""
    && |r.commitSha| == 40 && (forall i :: 0 <= i < 40 ==> Hex(r.commitSha[i] as int))
    && (forall i :: 0 <= i < |r.workflowRunId| ==> 48 <= r.workflowRunId[i] as int <= 57)
    && 1 <= |r.paths| <= 3000 && (forall i :: 0 <= i < |r.paths| ==> 1 <= |r.paths[i]| <= 4095)
    && (r.approval.Some? ==> 1 <= |r.approval.value.approvedBy| <= 128)
  }

  lemma SafeExactlyWhen(r: Request)
    ensures SafeRequest(r) <==> WellFormedRequest(r)
  {
    if |r.commitSha| == 40 {
      forall i | 0 <= i < 40
        ensures HexDigit(r.commitSha[i]) <==> Hex(r.commitSha[i] as int)
      {
      }
    }
    hide HexDigit, Hex;
  }

  /** The lesser risks, of requests that are not critical. */
  lemma LesserRiskExactlyWhen(r: Request, policy: seq<string>)
    ensures RiskClass(r, policy) == High <==>
      !IsCritical(r, policy) &&
      r.action in {"workflow modification request", "policy modification request",
                   "receipt schema modification request", "trust model modification request"}
    ensures RiskClass(r, policy) == Medium <==>
      !IsCritical(r, policy) && r.action in {"pull_request.review", "workflow.dispatch", "merge request"}
  {
    hide IsCritical, TouchesProtected;
    CriticalIs(r, policy);
  }

  // ---------------------------------------------------------------- after the lookup

  /** Why GitHub's answer is not enough: it did not answer, or what is wrong with the history. */
  function Objection(lookup: Lookup, r: Request): string
    requires ClaimsApproval(r)
  {
    match lookup
    case Unavailable(reason) => reason
    case Snapshot(entries, author, sha, branch) =>
      AssessApprovalHistory(entries, Claim(r.commitSha, r.branch, r.invokingActor, r.approval.value.approvedBy),
                            author, sha, branch).reason
  }

  /** The decision on GitHub's answer, each with its exact condition; None stands for an exception. */
  lemma FinalDecisionExactlyWhen(configured: bool, digest: string -> string, r: Request, ctx: Context, lookup: Lookup,
                                 spent: set<string>, io: ReplayLedger.SpendIO)
    requires ClaimsApproval(r) && r.priorReceiptId.Some?
    ensures var (spent', v) := FinalVerdict(configured, digest, r, ctx, lookup, spent, io);
      var spend := ReplayLedger.Spend(spent, configured, r.priorReceiptId.value, digest, io);
      && (v == None <==> Approves(lookup, r) && ctx.attestationValid && spend.1.Threw?)
      && (v.Some? ==> v.value.Verdict?)
      && (v.Some? && v.value.decision == Permit <==>
            Approves(lookup, r) && ctx.attestationValid && spend.1.SpendResult? && spend.1.accepted)
      && (v == Some(Verdict(Escalate, "stale_attestation_after_step_up")) <==>
            Approves(lookup, r) && !ctx.attestationValid)
      && (v.Some? && v.value.decision == Deny <==>
            !Approves(lookup, r) || (ctx.attestationValid && spend.1.SpendResult? && !spend.1.accepted))
      && (!Approves(lookup, r) ==> v == Some(Verdict(Deny, Objection(lookup, r))))
      && (Approves(lookup, r) && ctx.attestationValid && spend.1.SpendResult? && !spend.1.accepted ==>
            v == Some(Verdict(Deny, spend.1.reason)))
      && spent' == if Approves(lookup, r) && ctx.attestationValid then spend.0 else spent
  {
    hide AssessApprovalHistory, IndependentlyApproved, Unreadable, ReplayLedger.Spend;
    if lookup.Snapshot? {
      VerifiedExactlyWhenIndependent(lookup.entries,
        Claim(r.commitSha, r.branch, r.invokingActor, r.approval.value.approvedBy),
        lookup.author, lookup.sha, lookup.branch);
    }
  }

  // ---------------------------------------------------------------- from the step-up to the permit

  /** A critical execution request is decided with a step-up, whatever state the service is in. */
  lemma CriticalRequestStepsUp(setup: Setup, s: State, r: Request, policy: seq<string>, now: int)
    requires s.up && SafeRequest(r) && Named(r) && r.action != REAUTHORIZE
    requires FreshlyGranted(s.config.grants, r, now) && IsCritical(r, policy)
    ensures var s' := Step(setup, s, Begin(r, policy, now));
      && s.next in s'.flights && s'.flights[s.next].Decided? && s'.flights[s.next].req == r
      && s'.flights[s.next].decision == StepUp
  {
    hide FreshlyGranted, IsCritical, MakeContext, FirstVerdict, Covered, Named;
    FirstDecisionExactlyWhen(s.config.grants, r, policy, now, s.mem.records);
  }

  /** Finishing a decided request on a working file records it under its identifier. */
  lemma FinishedIsRecorded(setup: Setup, events: seq<Event>, s: State, id: nat, receiptId: string, now: int,
                           io: AppendIO)
    requires FaithfulText(setup.lib) && Reached(setup, events, s) && ReceiptIdShape(receiptId)
    requires id in s.flights && s.flights[id].Decided?
    requires CanAppend(setup, s, receiptId, ReceiptOf(setup, s, id, receiptId, now), io)
    ensures var s', r := Step(setup, s, Finish(id, receiptId, now, io)), ReceiptOf(setup, s, id, receiptId, now);
      && s'.up && receiptId in s'.mem.records && s'.mem.records[receiptId] == r
      && r.payload == MakePayload(s.flights[id].req, s.flights[id].ctx, s.flights[id].decision, s.flights[id].reason,
                                  receiptId, now)
  {
    hide FaithfulText, Reached, ReceiptIdShape, RecordProblem;
    InterleavingNeverBreaksTheChain(setup, events, s, id, receiptId, now, io);
  }

  /** The reauthorization of `r` under its recorded identifier, with somebody's approval claimed. */
  predicate Reauthorizes(again: Request, r: Request, receiptId: string)
  {
    && again.action == "merge request reauthorize" && again.priorReceiptId == Some(receiptId)
    && again.subject == r.subject && again.repo == r.repo && again.branch == r.branch && again.resource == r.resource
    && again.workflowRunId == r.workflowRunId && again.commitSha == r.commitSha && again.paths == r.paths
    && ClaimsApproval(again)
  }

  /**
   * A critical execution request, once recorded, can be redeemed for ten minutes
   * in every state that still holds the record, whatever ran before it was
   * finished and since.
   */
  lemma CriticalRequestIsRedeemable(setup: Setup, s: State, r: Request, policy: seq<string>, now: int,
                                    events: seq<Event>, t: State, receiptId: string, later: int, io: AppendIO,
                                    u: State, again: Request, when: int)
    requires s.up && SafeRequest(r) && Named(r) && r.action == "pull_request.execute"
    requires FreshlyGranted(s.config.grants, r, now) && IsCritical(r, policy)
    requires FaithfulText(setup.lib) && Reached(setup, events, t) && ReceiptIdShape(receiptId)
    requires var begun := Step(setup, s, Begin(r, policy, now));
      s.next in t.flights && s.next in begun.flights && t.flights[s.next] == begun.flights[s.next]
    requires t.flights[s.next].Decided? ==>
      CanAppend(setup, t, receiptId, ReceiptOf(setup, t, s.next, receiptId, later), io)
    requires var recorded := Step(setup, t, Finish(s.next, receiptId, later, io)).mem.records;
      receiptId in recorded && receiptId in u.mem.records && u.mem.records[receiptId] == recorded[receiptId]
    requires Reauthorizes(again, r, receiptId) && later <= when <= later + 600000
    ensures MayRedeem(u, again, when)
  {
    hide FreshlyGranted, IsCritical, FaithfulText, Reached, ReceiptIdShape, Step, CanAppend, ClaimsApproval;
    CriticalRequestStepsUp(setup, s, r, policy, now);
    FinishedIsRecorded(setup, events, t, s.next, receiptId, later, io);
    assert |receiptId| > 0 by { ShapedNotEmpty(receiptId); }
  }

  lemma ShapedNotEmpty(id: string)
    requires ReceiptIdShape(id)
    ensures id != ""
  {
  }

  /** It then ends in a permit, when GitHub shows an independent approval and the spend works. */
  lemma CriticalRequestEndsInPermit(setup: Setup, s: State, r: Request, policy: seq<string>, now: int,
                                    events: seq<Event>, t: State, receiptId: string, later: int, io: AppendIO,
                                    u: State, again: Request, policy': seq<string>, when: int,
                                    v: State, lookup: Lookup, spend: ReplayLedger.SpendIO)
    requires s.up && SafeRequest(r) && Named(r) && r.action == "pull_request.execute"
    requires FreshlyGranted(s.config.grants, r, now) && IsCritical(r, policy)
    requires FaithfulText(setup.lib) && Reached(setup, events, t) && ReceiptIdShape(receiptId)
    requires var begun := Step(setup, s, Begin(r, policy, now));
      s.next in t.flights && s.next in begun.flights && t.flights[s.next] == begun.flights[s.next]
    requires t.flights[s.next].Decided? ==>
      CanAppend(setup, t, receiptId, ReceiptOf(setup, t, s.next, receiptId, later), io)
    requires var recorded := Step(setup, t, Finish(s.next, receiptId, later, io)).mem.records;
      receiptId in recorded && receiptId in u.mem.records && u.mem.records[receiptId] == recorded[receiptId]
    requires Reauthorizes(again, r, receiptId) && later <= when <= later + 600000
    requires u.up && SafeRequest(again) && FreshlyGranted(u.config.grants, again, when)
    requires var asked := Step(setup, u, Begin(again, policy', when));
      v.up && u.next in v.flights && u.next in asked.flights && v.flights[u.next] == asked.flights[u.next]
    requires Approves(lookup, again)
    requires ReplayLedger.Spend(v.spent, v.config.replayConfigured, receiptId, setup.digest, spend).1
          == ReplayLedger.SpendResult(true, "PRIOR_RECEIPT_CONSUMED")
    ensures var end := Step(setup, v, Resume(u.next, lookup, spend));
      u.next in end.flights && end.flights[u.next].Decided? && end.flights[u.next].decision == Permit
  {
    hide *;
    CriticalRequestIsRedeemable(setup, s, r, policy, now, events, t, receiptId, later, io, u, again, when);
    assert again.priorReceiptId == Some(receiptId) by { NamesRecord(again, r, receiptId); }
    ApprovedRequestIsPermitted(setup, u, again, policy', when, v, lookup, spend);
  }

  lemma NamesRecord(again: Request, r: Request, receiptId: string)
    requires Reauthorizes(again, r, receiptId)
    ensures again.priorReceiptId == Some(receiptId) && ClaimsApproval(again)
  {
  }

  // ---------------------------------------------------------------- what records say

  /** The record repeats the request, with the score of the grant that covered it, or 0. */
  ghost predicate Repeats(p: Payload, r: Request, policy: seq<string>, grants: map<string, Grant>, now: int)
  {
    && p.subject == r.subject && p.action == r.action && p.resource == r.resource && p.repo == r.repo
    && p.branch == r.branch && p.paths == r.paths && p.workflowRunId == r.workflowRunId
    && p.commitSha == r.commitSha && p.invokingActor == r.invokingActor && p.attestationRef == r.attestationRef
    && p.priorReceiptId == r.priorReceiptId && p.grantRef == (if r.grantRef.Some? then r.grantRef.value else "")
    && (r.approval.None? ==> p.approvalReviewer.None?)
    && (r.approval.Some? ==> p.approvalReviewer == Some(r.approval.value.approvedBy))
    && p.risk == RiskClass(r, policy)
    && p.trustScore == if Covered(grants, r, now) then grants[r.grantRef.value].trustScore else Ratio(0, 1)
  }

  /** Event `b` is such a request, judged by the grants provisioned at that point. */
  ghost predicate RepeatsEvent(setup: Setup, events: seq<Event>, b: nat, p: Payload)
    requires b < |events|
  {
    var e := events[b];
    e.Begin? && Repeats(p, e.req, e.policy, ConfigAfter(setup, events[..b]).grants, e.now)
  }

  /** Every record, whatever its decision, answers a request that was received. */
  lemma RecordsRepeatRequests(setup: Setup, events: seq<Event>, s: State, k: nat)
    requires FaithfulText(setup.lib) && Reached(setup, events, s) && k < |s.log|
    ensures exists b :: 0 <= b < |events| && RepeatsEvent(setup, events, b, s.log[k].receipt.payload)
  {
    hide *;
    ReachedKeeps(setup, events, s);
    ReachedTraced(setup, events, s);
    RecordRepeats(setup, events, s, k);
  }

  lemma RecordRepeats(setup: Setup, events: seq<Event>, s: State, k: nat)
    requires Invariant(setup, s) && AllTraced(setup, events, s) && k < |s.log|
    ensures exists b :: 0 <= b < |events| && RepeatsEvent(setup, events, b, s.log[k].receipt.payload)
  {
    hide Invariant, RiskClass, SafeRequest, VerifiedGrant, GrantCovers, PermitOk;
    EntryOf(setup, s, k);
    var e := s.log[k];
    assert Traced(setup, events, e.flight, e.req, e.ctx, e.evidence);
    var b :| 0 <= b < |events| && BegunAt(setup, events, b, e.req, e.ctx);
    GrantFound(ConfigAfter(setup, events[..b]).grants, e.req, events[b].now);
    assert RepeatsEvent(setup, events, b, e.receipt.payload);
  }
}
