/** What every interleaving of the authority service keeps, and what follows for permits. */
module ProtocolLaws {
  import opened Basics
  import opened Receipts
  import opened ReceiptLedger
  import opened LedgerLaws
  import ReplayLedger
  import opened Approval
  import opened Authority
  import opened Protocol

  // ---------------------------------------------------------------- the request steps

  /** A grant is found exactly when the request names a provisioned one that covers it. */
  lemma GrantFound(grants: map<string, Grant>, r: Request, now: int)
    ensures VerifiedGrant(grants, r, now).Some? <==>
      && r.grantRef.Some? && r.grantRef.value != "" && r.grantRef.value in grants
      && GrantCovers(grants[r.grantRef.value], r, now)
    ensures VerifiedGrant(grants, r, now).Some? ==> VerifiedGrant(grants, r, now).value == grants[r.grantRef.value]
  {
  }

  lemma InitialOk(setup: Setup)
    ensures Invariant(setup, Initial(setup))
  {
  }

  /** A first verdict of permit is earned without redemption; a lookup is asked for only with a matching prior. */
  lemma FirstVerdictSound(grants: map<string, Grant>, r: Request, policy: seq<string>, now: int,
                          completed: seq<Receipt>)
    ensures var f := FlightFor(r, MakeContext(grants, r, policy, now), IndexOf(completed));
      FlightOk(f, completed) && (f.Decided? ==> !IsRedemption(r, f.decision))
  {
    hide RiskClass, VerifiedGrant, GrantCovers, BoundTo, Reauthorizable;
    var ctx := MakeContext(grants, r, policy, now);
    if ctx.grant.Some? {
      GrantFound(grants, r, now);
      CoveredVerified(ctx.grant.value, r, now);
    }
    if FirstVerdict(r, ctx, IndexOf(completed)).AskGithub? {
      IndexHolds(completed, r.priorReceiptId.value);
    }
  }

  lemma CoveredVerified(g: Grant, r: Request, now: int)
    requires GrantCovers(g, r, now)
    ensures g.verifiedAt.Some?
  {
  }

  lemma FlightAdded(setup: Setup, s: State, f: Flight)
    requires Invariant(setup, s)
    requires FlightOk(f, ReceiptsOf(s.log)[..s.done]) && (f.Decided? ==> !IsRedemption(f.req, f.decision))
    ensures Invariant(setup, s.(flights := s.flights[s.next := f], next := s.next + 1))
  {
    hide FlightOk, FileOk, EntryOk, MemoryOf, IsRedemption, SpendName;
  }

  lemma BeginKeeps(setup: Setup, s: State, r: Request, policy: seq<string>, now: int)
    requires Invariant(setup, s) && s.up
    ensures Invariant(setup, BeginStep(setup, s, r, policy, now))
  {
    hide *;
    BeginShape(setup, s, r, policy, now);
    RememberedRecords(setup, s);
    FirstVerdictSound(s.config.grants, r, policy, now, ReceiptsOf(s.log)[..s.done]);
    FlightAdded(setup, s, FlightFor(r, MakeContext(s.config.grants, r, policy, now), s.mem.records));
  }

  lemma BeginShape(setup: Setup, s: State, r: Request, policy: seq<string>, now: int)
    ensures var f := FlightFor(r, MakeContext(s.config.grants, r, policy, now), s.mem.records);
      BeginStep(setup, s, r, policy, now)
        == if SafeRequest(r) then s.(flights := s.flights[s.next := f], next := s.next + 1) else s
  {
    hide SafeRequest, MakeContext, FlightFor;
  }

  /** A running process finds exactly the completed records. */
  lemma RememberedRecords(setup: Setup, s: State)
    requires Invariant(setup, s) && s.up
    ensures s.done <= |s.log| && s.mem.records == IndexOf(ReceiptsOf(s.log)[..s.done])
  {
    hide FileOk, FlightsOk, EntriesOk, MemoryOf;
    MemoryIndex(setup.lib, ReceiptsOf(s.log)[..s.done]);
  }

  lemma MemoryIndex(lib: Libraries, completed: seq<Receipt>)
    ensures MemoryOf(lib, completed).records == IndexOf(completed)
    ensures MemoryOf(lib, completed).last == LastHash(completed)
    ensures MemoryOf(lib, completed).bytes == |Render(lib, completed)|
  {
  }

  /** A permit after the lookup follows an independent approval and creates the spend record. */
  lemma FinalVerdictSound(setup: Setup, configured: bool, r: Request, ctx: Context, prior: Receipt, lookup: Lookup,
                          spent: set<string>, io: ReplayLedger.SpendIO, completed: seq<Receipt>)
    requires FlightOk(Waiting(r, ctx, prior), completed)
    ensures ClaimsApproval(r) && r.priorReceiptId.Some?
    ensures var (spent', verdict) := FinalVerdict(configured, setup.digest, r, ctx, lookup, spent, io);
      && spent <= spent'
      && (verdict.Some? ==> verdict.value.Verdict?)
      && (verdict.Some? && verdict.value.decision == Permit ==>
            && lookup.Snapshot? && lookup.entries.Some?
            && SpendName(setup, r) !in spent && SpendName(setup, r) in spent'
            && PermitOk(r, ctx, Some(Evidence(prior, lookup.entries.value, lookup.author)), completed))
  {
    hide AssessApprovalHistory, IndependentlyApproved, BoundTo, Reauthorizable, GrantCovers, ReplayLedger.Spend;
    if lookup.Snapshot? {
      VerifiedExactlyWhenIndependent(lookup.entries,
        Claim(r.commitSha, r.branch, r.invokingActor, r.approval.value.approvedBy),
        lookup.author, lookup.sha, lookup.branch);
    }
    ReplayLedger.AcceptedCreates(spent, configured, r.priorReceiptId.value, setup.digest, io);
  }

  /** What a resumed flight changes: its own entry, and one fresh spend record if it is now a permit. */
  lemma ResumeShape(setup: Setup, s: State, id: nat, lookup: Lookup, io: ReplayLedger.SpendIO)
    requires id in s.flights && s.flights[id].Waiting?
    requires s.done <= |s.log| && FlightOk(s.flights[id], ReceiptsOf(s.log)[..s.done])
    ensures var s' := ResumeStep(setup, s, id, lookup, io);
      && s' == s.(spent := s'.spent, flights := s'.flights, redeemed := s'.redeemed)
      && s.spent <= s'.spent
      && (forall i :: i in s'.flights ==> i in s.flights && (i == id || s'.flights[i] == s.flights[i]))
      && (id in s'.flights ==> s'.flights[id].Decided? && FlightOk(s'.flights[id], ReceiptsOf(s.log)[..s.done]))
      && (if id in s'.flights && s'.flights[id].decision == Permit
          then s'.redeemed.Keys <= s.redeemed.Keys + (s'.spent - s.spent)
                && OwnsSpend(setup, s', s'.flights[id].req, id)
                && (forall n :: n in s.redeemed && n in s.spent ==> n in s'.redeemed && s'.redeemed[n] == s.redeemed[n])
          else s'.redeemed == s.redeemed)
  {
    hide FinalVerdict, PermitOk, IndependentlyApproved;
    var f := s.flights[id];
    var completed := ReceiptsOf(s.log)[..s.done];
    FinalVerdictSound(setup, s.config.replayConfigured, f.req, f.ctx, f.prior, lookup, s.spent, io, completed);
    var (spent', verdict) := FinalVerdict(s.config.replayConfigured, setup.digest, f.req, f.ctx, lookup, s.spent, io);
    hide ClaimsApproval, BoundTo, GrantCovers, Reauthorizable;
    if verdict.Some? && verdict.value.decision == Permit {
      assert SpendName(setup, f.req) !in s.spent;
    }
  }

  lemma ResumeKeeps(setup: Setup, s: State, id: nat, lookup: Lookup, io: ReplayLedger.SpendIO)
    requires Invariant(setup, s) && s.up
    requires id in s.flights && s.flights[id].Waiting?
    ensures Invariant(setup, ResumeStep(setup, s, id, lookup, io))
  {
    hide FlightOk, FileOk, EntryOk, MemoryOf, SpendName, ResumeStep;
    ResumeShape(setup, s, id, lookup, io);
    var s', f := ResumeStep(setup, s, id, lookup, io), s.flights[id];
  }

  // ---------------------------------------------------------------- appending

  lemma FlightOkGrows(f: Flight, a: seq<Receipt>, b: seq<Receipt>)
    requires FlightOk(f, a)
    requires forall r :: r in a ==> r in b
    ensures FlightOk(f, b)
  {
  }

  /** The receipt this flight would append now. */
  function ReceiptOf(setup: Setup, s: State, id: nat, receiptId: string, now: int): Receipt
    requires id in s.flights && s.flights[id].Decided?
  {
    var f := s.flights[id];
    FinalizeReceipt(setup.lib, MakePayload(f.req, f.ctx, f.decision, f.reason, receiptId, now), s.mem.last)
  }

  /** If the append wrote anything, the record extends the chain and the file accounts for it. */
  lemma FileAfterAppend(lib: Libraries, s: State, r: Receipt, e: LogEntry, io: AppendIO)
    requires FileOk(lib, s.file, s.log, s.done) && MemoryOk(lib, s) && s.up
    requires e.receipt == r
    ensures var (mem', file', result) := AppendTo(lib, s.mem, s.file, r, io);
      && (file' == s.file ==> result.Threw? && mem' == s.mem)
      && (file' != s.file ==>
            && s.done == |s.log|
            && FileOk(lib, file', s.log + [e], if result.Appended? then s.done + 1 else s.done)
            && mem' == if result.Appended? then MemoryOf(lib, ReceiptsOf(s.log + [e])) else s.mem)
  {
    hide RecordProblem, Chained, LastHash, Render, IndexOf;
    var (mem', file', result) := AppendTo(lib, s.mem, s.file, r, io);
    var rs, done := ReceiptsOf(s.log), ReceiptsOf(s.log)[..s.done];
    MemoryIndex(lib, done);
    if file' != s.file {
      assert s.file == Render(lib, done);
      assert done == rs;
      assert ReceiptsOf(s.log + [e]) == rs + [r];
      assert (rs + [r])[..|rs|] == rs && (rs + [r])[..|rs| + 1] == rs + [r];
      RenderPush(lib, rs, r);
      IndexPush(rs, r);
      IndexKeys(rs);
      ChainedStep(lib, rs, r);
    }
  }

  lemma FinishKeeps(setup: Setup, s: State, id: nat, receiptId: string, now: int, io: AppendIO)
    requires Invariant(setup, s) && s.up
    requires id in s.flights && s.flights[id].Decided?
    ensures Invariant(setup, FinishStep(setup, s, id, receiptId, now, io))
  {
    hide FlightOk, FileOk, EntryOk, MemoryOf, AppendTo, MakePayload, IsRedemption, FinalizeReceipt, SpendName;
    var s', f := FinishStep(setup, s, id, receiptId, now, io), s.flights[id];
    var r := ReceiptOf(setup, s, id, receiptId, now);
    var e := LogEntry(r, id, f.req, f.ctx, f.evidence);
    FileAfterAppend(setup.lib, s, r, e, io);
    var before, after := ReceiptsOf(s.log)[..s.done], ReceiptsOf(s'.log)[..s'.done];
    CompletedGrows(s, s', e);
    forall i | i in s'.flights
      ensures FlightOk(s'.flights[i], after)
    {
      FlightOkGrows(s'.flights[i], before, after);
    }
    if s'.log != s.log {
      NewEntryOk(setup, s, id, receiptId, now);
      forall k | 0 <= k < |s'.log|
        ensures EntryOk(s'.log, k)
      {
        if k < |s.log| {
          EntryOkKept(s.log, e, k);
        }
      }
      NewEntryDecision(setup, s, id, receiptId, now);
    }
    if s'.acks != s.acks {
      assert ReceiptsOf(s'.log)[s'.done - 1] == r;
    }
    if s'.done == s.done {
      assert after == before;
    } else {
      assert after == ReceiptsOf(s'.log);
    }
  }

  lemma CompletedGrows(s: State, s': State, e: LogEntry)
    requires s.done <= |s.log|
    requires s'.log == s.log || s'.log == s.log + [e]
    requires s.done <= s'.done <= |s'.log|
    ensures forall r :: r in ReceiptsOf(s.log)[..s.done] ==> r in ReceiptsOf(s'.log)[..s'.done]
  {
    forall r | r in ReceiptsOf(s.log)[..s.done]
      ensures r in ReceiptsOf(s'.log)[..s'.done]
    {
      var k :| 0 <= k < s.done && ReceiptsOf(s.log)[..s.done][k] == r;
      assert ReceiptsOf(s'.log)[..s'.done][k] == r;
    }
  }

  lemma EntryOkKept(log: seq<LogEntry>, e: LogEntry, k: nat)
    requires k < |log| && EntryOk(log, k)
    ensures EntryOk(log + [e], k)
  {
    hide PermitOk, MakePayload;
    assert (log + [e])[..k] == log[..k];
  }

  lemma NewEntryOk(setup: Setup, s: State, id: nat, receiptId: string, now: int)
    requires FlightsOk(setup, s) && s.done == |s.log|
    requires id in s.flights && s.flights[id].Decided?
    ensures var f, r := s.flights[id], ReceiptOf(setup, s, id, receiptId, now);
      EntryOk(s.log + [LogEntry(r, id, f.req, f.ctx, f.evidence)], |s.log|)
  {
  }

  lemma NewEntryDecision(setup: Setup, s: State, id: nat, receiptId: string, now: int)
    requires id in s.flights && s.flights[id].Decided?
    ensures ReceiptOf(setup, s, id, receiptId, now).payload.decision == s.flights[id].decision
  {
  }

  // ---------------------------------------------------------------- restarting

  /** A file of the service opens only when its last record is complete, and then yields the whole log. */
  lemma RestartReads(lib: Libraries, s: State)
    requires FaithfulText(lib) && FileOk(lib, s.file, s.log, s.done)
    requires Open(lib, s.file).Some?
    ensures Open(lib, s.file) == Some(ReceiptsOf(s.log)) && s.file == Render(lib, ReceiptsOf(s.log))
  {
    hide FaithfulText, Chained, Open, Render;
    var rs := ReceiptsOf(s.log);
    if |s.log| == s.done {
      assert rs[..s.done] == rs;
      assert s.file == Render(lib, rs);
    } else {
      var r, front := rs[s.done], rs[..s.done];
      assert rs == front + [r];
      RenderPush(lib, front, r);
      var text := lib.line(r) + "\n";
      var n := |s.file| - |Render(lib, front)|;
      assert s.file == Render(lib, front) + Upto(text, n);
      if n < |text| {
        TornTailRefused(lib, front, r, n);
      }
      assert s.file == Render(lib, rs);
    }
    Reopen(lib, rs);
  }

  lemma RestartKeeps(setup: Setup, s: State, config: Config, ready: bool)
    requires FaithfulText(setup.lib) && Invariant(setup, s)
    ensures Invariant(setup, RestartStep(setup, s, config, ready))
  {
    hide FaithfulText, Open, EntryOk, FlightOk, SpendName, IsRedemption, FileOk, MemoryOf, IndexOf, LastHash, Render;
    var s' := RestartStep(setup, s, config, ready);
    if ready && Open(setup.lib, s.file).Some? {
      RestartReads(setup.lib, s);
      RestartFile(setup.lib, s);
    }
  }

  /**
   * The service comes up again exactly when it gets the lock and the last
   * record of its file is complete; then it remembers the whole log, also a
   * record whose append had failed. Requests in flight are lost.
   */
  lemma ComesUpExactlyWhen(setup: Setup, s: State, config: Config, ready: bool)
    requires FaithfulText(setup.lib) && Invariant(setup, s)
    ensures var s' := RestartStep(setup, s, config, ready);
      && (s'.up <==> ready && s.file == Render(setup.lib, ReceiptsOf(s.log)))
      && (s'.up ==> s'.mem == MemoryOf(setup.lib, ReceiptsOf(s.log)) && s'.done == |s.log|)
      && s'.config == config && s'.flights == map[]
      && s'.log == s.log && s'.file == s.file && s'.spent == s.spent && s'.acks == s.acks
  {
    hide FaithfulText, Open, EntryOk, FlightOk, MemoryOf, IndexOf, LastHash, Render;
    var rs := ReceiptsOf(s.log);
    if ready && Open(setup.lib, s.file).Some? {
      RestartReads(setup.lib, s);
      RestartFile(setup.lib, s);
      assert rs[..|s.log|] == rs;
    }
    if s.file == Render(setup.lib, rs) {
      Reopen(setup.lib, rs);
    }
  }

  lemma RestartFile(lib: Libraries, s: State)
    requires FileOk(lib, s.file, s.log, s.done) && AcksOk(s)
    requires s.file == Render(lib, ReceiptsOf(s.log))
    ensures FileOk(lib, s.file, s.log, |s.log|)
    ensures Memory(IndexOf(ReceiptsOf(s.log)), LastHash(ReceiptsOf(s.log)), |s.file|)
         == MemoryOf(lib, ReceiptsOf(s.log)[..|s.log|])
    ensures forall a :: a in s.acks ==> a in ReceiptsOf(s.log)[..|s.log|]
  {
    hide Render, Chained;
    assert ReceiptsOf(s.log)[..|s.log|] == ReceiptsOf(s.log);
  }

  lemma OtherSpendKeeps(setup: Setup, s: State, name: string)
    requires Invariant(setup, s)
    ensures Invariant(setup, s.(spent := s.spent + {name}))
  {
    hide FileOk, FlightOk, EntryOk, MemoryOf;
  }

  // ---------------------------------------------------------------- every run

  lemma StepKeeps(setup: Setup, s: State, e: Event)
    requires FaithfulText(setup.lib) && Invariant(setup, s)
    ensures Invariant(setup, Step(setup, s, e))
  {
    hide FaithfulText, Invariant, BeginStep, ResumeStep, FinishStep, RestartStep;
    match e
    case Restart(config, ready) => RestartKeeps(setup, s, config, ready);
    case OtherSpend(name) => OtherSpendKeeps(setup, s, name);
    case Begin(r, policy, now) =>
      if s.up {
        BeginKeeps(setup, s, r, policy, now);
      }
    case Resume(id, lookup, io) =>
      if s.up && id in s.flights && s.flights[id].Waiting? {
        ResumeKeeps(setup, s, id, lookup, io);
      }
    case Finish(id, receiptId, now, io) =>
      if s.up && id in s.flights && s.flights[id].Decided? {
        FinishKeeps(setup, s, id, receiptId, now, io);
      }
  }

  lemma {:induction false} RunKeeps(setup: Setup, events: seq<Event>, states: seq<State>, n: nat)
    requires FaithfulText(setup.lib) && IsRun(setup, events, states) && n <= |events|
    ensures Invariant(setup, states[n])
  {
    hide FaithfulText, Invariant, Step;
    if n == 0 {
      InitialOk(setup);
    } else {
      RunKeeps(setup, events, states, n - 1);
      StepKeeps(setup, states[n - 1], events[n - 1]);
      assert states[(n - 1) + 1] == Step(setup, states[n - 1], events[n - 1]);
    }
  }

  /** Every sequence of events is possible: the steps are total. */
  lemma {:induction false} SomeStateReached(setup: Setup, events: seq<Event>)
    ensures exists states :: IsRun(setup, events, states)
  {
    hide Step, Initial;
    if events == [] {
      assert IsRun(setup, events, [Initial(setup)]);
    } else {
      var front, e := events[..|events| - 1], events[|events| - 1];
      SomeStateReached(setup, front);
      var states :| IsRun(setup, front, states);
      var longer := states + [Step(setup, states[|front|], e)];
      assert events == front + [e];
      assert IsRun(setup, events, longer);
    }
  }

  /** A step from a reachable state leads to a reachable state. */
  lemma ReachedStep(setup: Setup, events: seq<Event>, s: State, e: Event)
    requires Reached(setup, events, s)
    ensures Reached(setup, events + [e], Step(setup, s, e))
  {
    hide Step, Initial;
    var states :| IsRun(setup, events, states) && states[|events|] == s;
    var longer := states + [Step(setup, s, e)];
    assert IsRun(setup, events + [e], longer);
    assert longer[|events + [e]|] == Step(setup, s, e);
  }

  /** Every interleaving, with failures and restarts anywhere, keeps the invariant. */
  lemma ReachedKeeps(setup: Setup, events: seq<Event>, s: State)
    requires FaithfulText(setup.lib) && Reached(setup, events, s)
    ensures Invariant(setup, s)
  {
    hide FaithfulText, Invariant, Step;
    var states :| IsRun(setup, events, states) && states[|events|] == s;
    RunKeeps(setup, events, states, |events|);
  }
}
