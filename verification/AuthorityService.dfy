/** The authority service against its mutable ledgers: every handler step is a step of the transition system. */
module AuthorityService {
  import opened Basics
  import opened Receipts
  import opened ReceiptLedger
  import ReplayLedger
  import opened Authority
  import opened Protocol
  import opened ProtocolLaws
  import opened Safety

  class Service {
    const setup: Setup
    const config: Config
    const ledger: ReceiptLedger
    const replay: ReplayLedger.ReplayDirectory
    var flights: map<nat, Flight>
    var next: nat
    ghost var log: seq<LogEntry>
    ghost var done: nat
    ghost var redeemed: map<string, nat>
    ghost var acks: seq<Receipt>
    ghost var events: seq<Event>

    /** The parts fit together, and the events so far account for their state. */
    ghost predicate Valid()
      reads this, ledger, ledger.file, replay
    {
      Wired() && Reached(setup, events, Abstract())
    }

    ghost predicate Wired()
      reads this, ledger
    {
      && ledger.lib == setup.lib && !ledger.released
      && replay.configured == config.replayConfigured && replay.digest == setup.digest
      && forall id :: id in flights && flights[id].Waiting? ==> Suspended(flights[id].req)
    }

    /** The state of the transition system that this process is in. */
    ghost function Abstract(): State
      reads this, ledger, ledger.file, replay
    {
      State(true, config, ledger.Remembered(), ledger.file.content, replay.records, flights, next, log, done,
            redeemed, acks)
    }

    constructor (setup: Setup, config: Config, ledger: ReceiptLedger, replay: ReplayLedger.ReplayDirectory, next: nat,
                 ghost log: seq<LogEntry>, ghost done: nat, ghost redeemed: map<string, nat>, ghost acks: seq<Receipt>,
                 ghost events: seq<Event>)
      requires ledger.lib == setup.lib && !ledger.released
      requires replay.configured == config.replayConfigured && replay.digest == setup.digest
      ensures Wired() && this.setup == setup && this.config == config && this.ledger == ledger && this.replay == replay
      ensures Abstract() == State(true, config, ledger.Remembered(), ledger.file.content, replay.records, map[], next,
                                  log, done, redeemed, acks)
      ensures this.events == events
    {
      this.setup, this.config, this.ledger, this.replay := setup, config, ledger, replay;
      this.flights, this.next := map[], next;
      this.log, this.done, this.redeemed, this.acks := log, done, redeemed, acks;
      this.events := events;
    }

    /** From the arrival of a request to the GitHub lookup or the decision; None means it is malformed. */
    method Authorize(r: Request, policy: seq<string>, now: int) returns (id: Option<nat>)
      requires Valid()
      modifies this
      ensures Valid() && Abstract() == Step(setup, old(Abstract()), Begin(r, policy, now))
      ensures events == old(events) + [Begin(r, policy, now)]
      ensures id == if SafeRequest(r) then Some(old(next)) else None
    {
      hide SafeRequest, MakeContext, FirstVerdict, Reached;
      ReachedStep(setup, events, Abstract(), Begin(r, policy, now));
      events := events + [Begin(r, policy, now)];
      if !SafeRequest(r) {
        return None;
      }
      var ctx := MakeContext(config.grants, r, policy, now);
      var flight := Decide(r, ctx);
      WaitingIsSuspended(r, ctx, ledger.previousRecords);
      flights := flights[next := flight];
      id := Some(next);
      next := next + 1;
    }

    /** The decision as far as it goes without GitHub. */
    method Decide(r: Request, ctx: Context) returns (flight: Flight)
      ensures flight == FlightFor(r, ctx, ledger.previousRecords)
    {
      hide BoundTo, Reauthorizable, AtLeast, ClaimsApproval;
      if r.subject == "" || r.action == "" || r.resource == "" || ctx.grant.None? {
        return Decided(r, ctx, Deny, "invalid_authority", None);
      }
      if r.action == REAUTHORIZE {
        flight := FindPrior(r, ctx);
        return;
      }
      if !ctx.attestationValid {
        return Decided(r, ctx, Escalate, "stale_attestation", None);
      }
      if ctx.risk == Critical {
        return Decided(r, ctx, StepUp, "protected_action_requires_human", None);
      }
      if !AtLeast(TrustScore(ctx), TRUST_THRESHOLD) {
        return Decided(r, ctx, Escalate, "trust_below_threshold", None);
      }
      return Decided(r, ctx, Permit, "policy_permit", None);
    }

    /** What a reauthorization needs before GitHub is asked. */
    method FindPrior(r: Request, ctx: Context) returns (flight: Flight)
      requires r.subject != "" && r.action == REAUTHORIZE && r.resource != "" && ctx.grant.Some?
      ensures flight == FlightFor(r, ctx, ledger.previousRecords)
    {
      hide BoundTo, Reauthorizable, ClaimsApproval;
      if r.priorReceiptId.None? || r.priorReceiptId.value == "" {
        return Decided(r, ctx, Deny, "missing_prior_receipt", None);
      }
      if r.priorReceiptId.value !in ledger.previousRecords {
        return Decided(r, ctx, Deny, "prior_receipt_not_found", None);
      }
      var prior := ledger.previousRecords[r.priorReceiptId.value];
      if !Reauthorizable(prior) {
        return Decided(r, ctx, Deny, "prior_decision_not_reauthorizable", None);
      }
      if !BoundTo(prior, r, ctx.begun) {
        return Decided(r, ctx, Deny, "prior_receipt_binding_or_freshness_mismatch", None);
      }
      if !ClaimsApproval(r) {
        return Decided(r, ctx, Deny, "step_up_approval_missing", None);
      }
      return Waiting(r, ctx, prior);
    }

    /** Checks GitHub's answer and spends the prior receipt; None stands for an exception. */
    method Redeem(r: Request, ctx: Context, lookup: Lookup, io: ReplayLedger.SpendIO) returns (verdict: Option<Verdict>)
      requires Wired() && Suspended(r)
      modifies replay
      ensures (replay.records, verdict)
           == FinalVerdict(config.replayConfigured, setup.digest, r, ctx, lookup, old(replay.records), io)
    {
      hide ProofOf, ReplayLedger.Spend, ClaimsApproval;
      var proof := ProofOf(r, lookup);
      if !proof.verified {
        return Some(Verdict(Deny, proof.reason));
      }
      if !ctx.attestationValid {
        return Some(Verdict(Escalate, "stale_attestation_after_step_up"));
      }
      var spend := replay.ConsumeStepUpReceipt(r.priorReceiptId.value, io);
      if spend.Threw? {
        return None;
      }
      if !spend.accepted {
        return Some(Verdict(Deny, spend.reason));
      }
      return Some(Verdict(Permit, "step_up_approved_reauthorize_permit"));
    }

    /** From GitHub's answer to the decision; an exception drops the request. */
    method Continue(id: nat, lookup: Lookup, io: ReplayLedger.SpendIO)
      requires Valid() && id in flights && flights[id].Waiting?
      modifies this, replay
      ensures Valid() && Abstract() == Step(setup, old(Abstract()), Resume(id, lookup, io))
      ensures events == old(events) + [Resume(id, lookup, io)]
    {
      hide FinalVerdict, ClaimsApproval, SpendName, Reached;
      ReachedStep(setup, events, Abstract(), Resume(id, lookup, io));
      events := events + [Resume(id, lookup, io)];
      var f := flights[id];
      assert Suspended(f.req);
      var verdict := Redeem(f.req, f.ctx, lookup, io);
      match verdict
      case Some(Verdict(decision, reason)) =>
        var evidence := None;
        if decision == Permit && lookup.Snapshot? && lookup.entries.Some? {
          evidence := Some(Evidence(f.prior, lookup.entries.value, lookup.author));
          redeemed := redeemed[SpendName(setup, f.req) := id];
        }
        flights := flights[id := Decided(f.req, f.ctx, decision, reason, evidence)];
      case _ =>
        flights := flights - {id};
    }

    /** From the decision to the response: the receipt, if its append completed. */
    method Respond(id: nat, receiptId: string, now: int, io: AppendIO) returns (response: Option<Receipt>)
      requires Valid() && id in flights && flights[id].Decided?
      modifies this, ledger, ledger.file`content
      ensures Valid() && Abstract() == Step(setup, old(Abstract()), Finish(id, receiptId, now, io))
      ensures events == old(events) + [Finish(id, receiptId, now, io)]
      ensures acks == old(acks) + if response.Some? then [response.value] else []
    {
      hide AppendTo, FinalizeReceipt, MakePayload, Reached;
      ReachedStep(setup, events, Abstract(), Finish(id, receiptId, now, io));
      events := events + [Finish(id, receiptId, now, io)];
      var f := flights[id];
      ghost var before := ledger.file.content;
      var receipt :=
        FinalizeReceipt(setup.lib, MakePayload(f.req, f.ctx, f.decision, f.reason, receiptId, now), ledger.last);
      var result := ledger.Append(receipt, io);
      flights := flights - {id};
      if ledger.file.content != before {
        log := log + [LogEntry(receipt, id, f.req, f.ctx, f.evidence)];
      }
      if result.Threw? {
        return None;
      }
      done := |log|;
      acks := acks + [receipt];
      return Some(receipt);
    }

    /** Another process creates a spend record in the shared directory. */
    method ElsewhereSpent(name: string)
      requires Valid()
      modifies this`events, replay
      ensures Valid() && Abstract() == Step(setup, old(Abstract()), OtherSpend(name))
      ensures events == old(events) + [OtherSpend(name)]
    {
      hide Reached;
      ReachedStep(setup, events, Abstract(), OtherSpend(name));
      events := events + [OtherSpend(name)];
      replay.records := replay.records + {name};
    }
  }

  /** What holds of a request that waits for GitHub. */
  ghost predicate Suspended(r: Request)
  {
    ClaimsApproval(r) && r.priorReceiptId.Some?
  }

  lemma WaitingIsSuspended(r: Request, ctx: Context, records: map<string, Receipt>)
    ensures FlightFor(r, ctx, records).Waiting? ==> Suspended(r)
  {
  }

  /**
   * Starting is the restart step, ready when the lock is free and the file can
   * be read; null means that the service stays down.
   */
  method StartService(setup: Setup, config: Config, file: LogFile, io: OpenIO, replay: ReplayLedger.ReplayDirectory,
                      next: nat, ghost before: State, ghost events: seq<Event>) returns (service: Service?)
    requires Reached(setup, events, before)
    requires next == before.next && before.file == file.content && before.spent == replay.records
    requires replay.configured == config.replayConfigured && replay.digest == setup.digest
    modifies file`locked
    ensures var after := RestartStep(setup, before, config, Ready(io, old(file.locked), |file.content|));
      && (service == null <==> !after.up)
      && (service != null ==>
            && service.Valid() && service.setup == setup && service.Abstract() == after
            && service.events == events + [Restart(config, Ready(io, old(file.locked), |file.content|))])
  {
    hide Open, Reached;
    ghost var ready := Ready(io, file.locked, |file.content|);
    ReachedStep(setup, events, before, Restart(config, ready));
    var ledger := OpenReceiptLedger(setup.lib, file, io);
    if ledger == null {
      return null;
    }
    ghost var done := |Open(setup.lib, file.content).value|;
    service := new Service(setup, config, ledger, replay, next, before.log, done, before.redeemed, before.acks,
                           events + [Restart(config, ready)]);
  }

  /** Where a receipt stands in the log. */
  lemma AcknowledgedAt(service: Service, r: Receipt) returns (k: nat)
    requires FaithfulText(service.setup.lib) && service.Valid() && r in service.acks
    ensures k < |service.log| && service.log[k].receipt == r
  {
    hide FaithfulText, Reached;
    var s := service.Abstract();
    AcknowledgedIsDurable(service.setup, service.events, s, r);
    k :| 0 <= k < s.done && ReceiptsOf(s.log)[..s.done][k] == r;
  }

  /** Record k redeems record j, which it names, on the approval that GitHub showed to its flight. */
  ghost predicate RedeemsRecord(setup: Setup, events: seq<Event>, log: seq<LogEntry>, j: nat, k: nat, a: nat, b: nat)
    requires j < k < |log| && a < |events| && b < |events|
  {
    && RequestedBy(setup, events, b, log[k])
    && StepsUpFor(log[j].receipt.payload, log[k].receipt.payload, events[b].now)
    && ApprovalSeen(events[a], log[k].flight, log[k].receipt.payload)
  }

  /**
   * What a running service has answered: every permit rests on a grant, and a
   * critical or redeemed one on an earlier receipt and an independent approval.
   */
  lemma ServedPermits(service: Service, r: Receipt)
    requires FaithfulText(service.setup.lib) && service.Valid()
    requires r in service.acks && r.payload.decision == Permit
    ensures exists b :: 0 <= b < |service.events| && PermitGranted(service.setup, service.events, b, r.payload)
    ensures r.payload.risk == Critical || r.payload.action == REAUTHORIZE ==>
      && r.payload.action == REAUTHORIZE
      && exists j, k, a, b ::
           && 0 <= j < k < |service.log| && 0 <= a < |service.events| && 0 <= b < |service.events|
           && service.log[k].receipt == r
           && RedeemsRecord(service.setup, service.events, service.log, j, k, a, b)
  {
    hide FaithfulText, Reached, PermitGranted, StepsUpFor, ApprovalSeen, RequestedBy;
    var k := AcknowledgedAt(service, r);
    var s, events := service.Abstract(), service.events;
    PermitsRestOnGrants(service.setup, events, s, k);
    if r.payload.risk == Critical || r.payload.action == REAUTHORIZE {
      CriticalPermitsAreApproved(service.setup, events, s, k);
      var b, j :| 0 <= b < |events| && 0 <= j < k && RequestedBy(service.setup, events, b, s.log[k])
        && StepsUpFor(s.log[j].receipt.payload, r.payload, events[b].now);
      var a :| 0 <= a < |events| && ApprovalSeen(events[a], s.log[k].flight, r.payload);
      assert RedeemsRecord(service.setup, events, service.log, j, k, a, b);
    }
  }
}
