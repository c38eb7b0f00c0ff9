/** Interleaved runs of the authority service, with file failures and restarts. */
module Protocol {
  import opened Basics
  import opened Receipts
  import opened ReceiptLedger
  import opened LedgerLaws
  import ReplayLedger
  import opened Approval
  import opened Authority

  // ---------------------------------------------------------------- states

  /** What GitHub said about a redeemed approval. */
  datatype Evidence = Evidence(prior: Receipt, entries: seq<HistoryEntry>, author: string)

  datatype Flight =
    | Waiting(req: Request, ctx: Context, prior: Receipt)
    | Decided(req: Request, ctx: Context, decision: Decision, reason: string, evidence: Option<Evidence>)

  /** A record that has reached the ledger file, at least in part, and where it came from. */
  datatype LogEntry = LogEntry(receipt: Receipt, flight: nat, req: Request, ctx: Context, evidence: Option<Evidence>)

  /**
   * `config`, `mem`, `file`, `spent` and `flights` are the service's state. The rest is
   * history: `log` lists the records in the order they reached the file, of
   * which the first `done` completed; `redeemed` says which flight created a
   * spend record that was accepted; `acks` are the receipts sent to clients.
   */
  datatype State = State(
    up: bool, config: Config, mem: Memory, file: string, spent: set<string>, flights: map<nat, Flight>,
    next: nat, log: seq<LogEntry>, done: nat, redeemed: map<string, nat>, acks: seq<Receipt>)

  datatype Event =
    | Begin(req: Request, policy: seq<string>, now: int)
    | Resume(id: nat, lookup: Lookup, io: ReplayLedger.SpendIO)
    | Finish(id: nat, receiptId: string, now: int, appendIO: AppendIO)
    | Restart(config: Config, ready: bool)
    | OtherSpend(name: string)

  function Initial(setup: Setup): State
  {
    State(true, setup.config, MemoryOf(setup.lib, []), "", {}, map[], 0, [], 0, map[], [])
  }

  // ---------------------------------------------------------------- steps

  function SpendName(setup: Setup, r: Request): string
    requires r.priorReceiptId.Some?
  {
    setup.digest(r.priorReceiptId.value) + ".spent"
  }

  function FlightFor(r: Request, ctx: Context, records: map<string, Receipt>): (f: Flight)
    ensures f.req == r && f.ctx == ctx
  {
    match FirstVerdict(r, ctx, records)
    case AskGithub(prior) => Waiting(r, ctx, prior)
    case Verdict(decision, reason) => Decided(r, ctx, decision, reason, None)
  }

  function BeginStep(setup: Setup, s: State, r: Request, policy: seq<string>, now: int): State
  {
    if !SafeRequest(r) then s
    else
      var ctx := MakeContext(s.config.grants, r, policy, now);
      s.(flights := s.flights[s.next := FlightFor(r, ctx, s.mem.records)], next := s.next + 1)
  }

  function ResumeStep(setup: Setup, s: State, id: nat, lookup: Lookup, io: ReplayLedger.SpendIO): State
    requires id in s.flights && s.flights[id].Waiting?
  {
    var f := s.flights[id];
    if !ClaimsApproval(f.req) || f.req.priorReceiptId.None? then s
    else
      var (spent', verdict) := FinalVerdict(s.config.replayConfigured, setup.digest, f.req, f.ctx, lookup, s.spent, io);
      match verdict
      case Some(Verdict(decision, reason)) =>
        var permitted := decision == Permit && lookup.Snapshot? && lookup.entries.Some?;
        var evidence := if permitted then Some(Evidence(f.prior, lookup.entries.value, lookup.author)) else None;
        s.(spent := spent',
           flights := s.flights[id := Decided(f.req, f.ctx, decision, reason, evidence)],
           redeemed := if permitted then s.redeemed[SpendName(setup, f.req) := id] else s.redeemed)
      case _ => s.(spent := spent', flights := s.flights - {id})
  }

  function FinishStep(setup: Setup, s: State, id: nat, receiptId: string, now: int, io: AppendIO): State
    requires id in s.flights && s.flights[id].Decided?
  {
    var f := s.flights[id];
    var payload := MakePayload(f.req, f.ctx, f.decision, f.reason, receiptId, now);
    var receipt := FinalizeReceipt(setup.lib, payload, s.mem.last);
    var (mem', file', result) := AppendTo(setup.lib, s.mem, s.file, receipt, io);
    var log' := if file' == s.file then s.log else s.log + [LogEntry(receipt, id, f.req, f.ctx, f.evidence)];
    s.(mem := mem', file := file', flights := s.flights - {id}, log := log',
       done := if result.Appended? then |log'| else s.done,
       acks := if result.Appended? then s.acks + [receipt] else s.acks)
  }

  /**
   * The process is gone with its flights; the next one reads its configuration
   * and opens the file, or stays down. It is `ready` when it gets the lock and
   * can read the file.
   */
  function RestartStep(setup: Setup, s: State, config: Config, ready: bool): State
  {
    match if ready then Open(setup.lib, s.file) else None
    case None => s.(up := false, config := config, flights := map[])
    case Some(rs) =>
      s.(up := true, config := config, flights := map[], mem := Memory(IndexOf(rs), LastHash(rs), |s.file|),
         done := |rs|)
  }

  function Step(setup: Setup, s: State, e: Event): State
  {
    match e
    case Restart(config, ready) => RestartStep(setup, s, config, ready)
    case OtherSpend(name) => s.(spent := s.spent + {name})
    case Begin(r, policy, now) => if s.up then BeginStep(setup, s, r, policy, now) else s
    case Resume(id, lookup, io) =>
      if s.up && id in s.flights && s.flights[id].Waiting? then ResumeStep(setup, s, id, lookup, io) else s
    case Finish(id, receiptId, now, io) =>
      if s.up && id in s.flights && s.flights[id].Decided? then FinishStep(setup, s, id, receiptId, now, io) else s
  }

  /** The states of a run, from the start to after the last event. */
  ghost predicate IsRun(setup: Setup, events: seq<Event>, states: seq<State>)
  {
    && |states| == |events| + 1 && states[0] == Initial(setup)
    && forall i {:trigger Step(setup, states[i], events[i])} :: 0 <= i < |events| ==>
         states[i + 1] == Step(setup, states[i], events[i])
  }

  /** The service can be in state `s` after these events. */
  ghost predicate Reached(setup: Setup, events: seq<Event>, s: State)
  {
    exists states :: IsRun(setup, events, states) && states[|events|] == s
  }

  // ---------------------------------------------------------------- what every state satisfies

  function ReceiptsOf(log: seq<LogEntry>): (rs: seq<Receipt>)
    ensures |rs| == |log| && forall i :: 0 <= i < |rs| ==> rs[i] == log[i].receipt
  {
    seq(|log|, i requires 0 <= i < |log| => log[i].receipt)
  }

  /** The file holds the completed records in full, and possibly part or all of one more. */
  ghost predicate FileOk(lib: Libraries, file: string, log: seq<LogEntry>, done: nat)
  {
    var rs := ReceiptsOf(log);
    && Chained(lib, rs)
    && done <= |log| <= done + 1
    && Prefix(Render(lib, rs[..done]), file)
    && Prefix(file, Render(lib, rs))
    && (|log| == done + 1 ==> |file| > |Render(lib, rs[..done])|)
  }

  ghost predicate MemoryOk(lib: Libraries, s: State)
  {
    s.up ==> s.done <= |s.log| && s.mem == MemoryOf(lib, ReceiptsOf(s.log)[..s.done])
  }

  /** Permits rest on a covering grant with a fresh attestation. */
  ghost predicate Granted(r: Request, ctx: Context)
  {
    && ctx.grant.Some? && GrantCovers(ctx.grant.value, r, ctx.begun)
    && ctx.attestationValid && ctx.begun - ctx.grant.value.verifiedAt.value <= 900000
  }

  /** The chain of evidence behind a redeemed approval. */
  ghost predicate Redeems(r: Request, ctx: Context, ev: Evidence)
  {
    && r.priorReceiptId == Some(ev.prior.payload.receiptId)
    && Reauthorizable(ev.prior)
    && BoundTo(ev.prior, r, ctx.begun)
    && ClaimsApproval(r)
    && IndependentlyApproved(ev.entries, r.approval.value.approvedBy, ev.author, r.invokingActor)
  }

  ghost predicate PermitOk(r: Request, ctx: Context, evidence: Option<Evidence>, earlier: seq<Receipt>)
  {
    && Granted(r, ctx)
    && (r.action != REAUTHORIZE ==> ctx.risk != Critical && AtLeast(TrustScore(ctx), TRUST_THRESHOLD))
    && (r.action == REAUTHORIZE ==>
          evidence.Some? && Redeems(r, ctx, evidence.value) && evidence.value.prior in earlier)
  }

  ghost predicate EntryOk(log: seq<LogEntry>, k: nat)
    requires k < |log|
  {
    var e, p := log[k], log[k].receipt.payload;
    && p.timestamp.Some?
    && p == MakePayload(e.req, e.ctx, p.decision, p.reason, p.receiptId, p.timestamp.value)
    && (p.decision == Permit ==> PermitOk(e.req, e.ctx, e.evidence, ReceiptsOf(log[..k])))
  }

  ghost predicate FlightOk(f: Flight, completed: seq<Receipt>)
  {
    match f
    case Waiting(r, ctx, prior) =>
      && r.action == REAUTHORIZE && r.priorReceiptId == Some(prior.payload.receiptId)
      && ctx.grant.Some? && GrantCovers(ctx.grant.value, r, ctx.begun)
      && (ctx.attestationValid ==> ctx.begun - ctx.grant.value.verifiedAt.value <= 900000)
      && Reauthorizable(prior) && BoundTo(prior, r, ctx.begun) && ClaimsApproval(r) && prior in completed
    case Decided(r, ctx, decision, reason, evidence) =>
      decision == Permit ==> PermitOk(r, ctx, evidence, completed)
  }

  predicate IsRedemption(r: Request, decision: Decision)
  {
    r.action == REAUTHORIZE && decision == Permit
  }

  /** Flight `id` is the one that created the spend record for this request's prior receipt. */
  ghost predicate OwnsSpend(setup: Setup, s: State, r: Request, id: nat)
  {
    && r.priorReceiptId.Some?
    && SpendName(setup, r) in s.redeemed && s.redeemed[SpendName(setup, r)] == id
  }

  ghost predicate FlightsOk(setup: Setup, s: State)
  {
    forall id :: id in s.flights ==>
      && id < s.next
      && s.done <= |s.log|
      && FlightOk(s.flights[id], ReceiptsOf(s.log)[..s.done])
      && (s.flights[id].Decided? && IsRedemption(s.flights[id].req, s.flights[id].decision) ==>
            OwnsSpend(setup, s, s.flights[id].req, id))
  }

  ghost predicate EntriesOk(setup: Setup, s: State)
  {
    forall k :: 0 <= k < |s.log| ==>
      && EntryOk(s.log, k)
      && s.log[k].flight < s.next
      && s.log[k].flight !in s.flights
      && (IsRedemption(s.log[k].req, s.log[k].receipt.payload.decision) ==>
            OwnsSpend(setup, s, s.log[k].req, s.log[k].flight))
  }

  ghost predicate FlightsDistinct(log: seq<LogEntry>)
  {
    forall i, j :: 0 <= i < j < |log| ==> log[i].flight != log[j].flight
  }

  ghost predicate AcksOk(s: State)
  {
    s.done <= |s.log| && forall a :: a in s.acks ==> a in ReceiptsOf(s.log)[..s.done]
  }

  ghost predicate Invariant(setup: Setup, s: State)
  {
    && FileOk(setup.lib, s.file, s.log, s.done)
    && MemoryOk(setup.lib, s)
    && FlightsOk(setup, s)
    && EntriesOk(setup, s)
    && FlightsDistinct(s.log)
    && s.redeemed.Keys <= s.spent
    && AcksOk(s)
  }
}
