/** The quarantine state of one agent over arbitrary runs of administration and token requests. */
module QuarantineLaws {
  import opened Basics
  import opened TrustStore
  import opened TrustTokens

  datatype AgentEvent =
    | Register(apiKey: string)
    | BlockBy(reason: string)
    | QuarantineBy(mode: Mode, reason: string, expiresAt: Option<int>, now: int)
    | LiftBy(now: int)
    | StatusRead(now: int)
    | TokenRequest(score: real, why: string, now: int)

  /** The record after the event; a blocked agent gets neither quarantine, lift nor token. */
  function After(a: AgentRecord, e: AgentEvent): AgentRecord
  {
    match e
    case Register(apiKey) => NewAgent(apiKey)
    case BlockBy(reason) => Block(a, reason)
    case QuarantineBy(mode, reason, expiresAt, now) => Quarantine(a, mode, reason, now, expiresAt)
    case LiftBy(now) => if StatusOf(a, now) == Quarantined then Lift(a) else AfterStatus(a, now)
    case StatusRead(now) => AfterStatus(a, now)
    case TokenRequest(score, why, now) => if a.blocked then a else AutoAdjust(a, score, why, now)
  }

  function AfterAll(a: AgentRecord, events: seq<AgentEvent>): AgentRecord
  {
    if events == [] then a else After(AfterAll(a, events[..|events| - 1]), events[|events| - 1])
  }

  // ---------------------------------------------------------------- blocks

  /** The last registration or block in the run is a block; with neither, the initial state decides. */
  ghost predicate BlockedLast(initially: bool, events: seq<AgentEvent>)
  {
    (exists k :: 0 <= k < |events| && events[k].BlockBy? && NoRegister(events[k..]))
    || (initially && NoRegister(events))
  }

  ghost predicate NoRegister(events: seq<AgentEvent>)
  {
    forall e :: e in events ==> !e.Register?
  }

  lemma BlockedAfter(a: AgentRecord, e: AgentEvent)
    ensures After(a, e).blocked <==> !e.Register? && (a.blocked || e.BlockBy?)
  {
  }

  lemma NoRegisterPush(events: seq<AgentEvent>, e: AgentEvent)
    ensures NoRegister(events + [e]) <==> NoRegister(events) && !e.Register?
  {
  }

  lemma BlockedLastPush(initially: bool, events: seq<AgentEvent>, e: AgentEvent)
    ensures BlockedLast(initially, events + [e]) <==> !e.Register? && (e.BlockBy? || BlockedLast(initially, events))
  {
    hide NoRegister;
    var longer := events + [e];
    NoRegisterPush(events, e);
    forall k | 0 <= k <= |events|
      ensures NoRegister(longer[k..]) <==> NoRegister(events[k..]) && !e.Register?
    {
      assert longer[k..] == events[k..] + [e];
      NoRegisterPush(events[k..], e);
    }
    if e.BlockBy? {
      assert events[|events|..] == [];
      assert NoRegister([]) by { NothingRegisters(); }
      assert longer[|events|] == e && NoRegister(longer[|events|..]);
    }
    if BlockedLast(initially, events) && !e.Register? {
      if k :| 0 <= k < |events| && events[k].BlockBy? && NoRegister(events[k..]) {
        assert longer[k].BlockBy? && NoRegister(longer[k..]);
      }
    }
    if BlockedLast(initially, longer) && !e.BlockBy? {
      if k :| 0 <= k < |longer| && longer[k].BlockBy? && NoRegister(longer[k..]) {
        assert events[k].BlockBy? && NoRegister(events[k..]);
      }
    }
  }

  lemma NothingRegisters()
    ensures NoRegister([])
  {
  }

  /** A block ends by re-registration, and by nothing else. */
  lemma {:induction false} BlockedExactlyWhen(a: AgentRecord, events: seq<AgentEvent>)
    ensures AfterAll(a, events).blocked <==> BlockedLast(a.blocked, events)
  {
    hide After;
    if events == [] {
      NothingRegisters();
    } else {
      var front, e := events[..|events| - 1], events[|events| - 1];
      BlockedExactlyWhen(a, front);
      BlockedAfter(AfterAll(a, front), e);
      BlockedLastPush(a.blocked, front, e);
      assert events == front + [e];
    }
  }

  // ---------------------------------------------------------------- manual quarantines

  predicate ScoresOnly(events: seq<AgentEvent>)
  {
    forall e :: e in events ==> e.TokenRequest? || e.StatusRead?
  }

  predicate AutoOrNone(a: AgentRecord)
  {
    !a.blocked && (a.mode.None? || (a.mode == Some(Auto) && a.expiresAt.None?))
  }

  /** No score, however good or bad, changes a manual or supervised quarantine that has not expired. */
  lemma {:induction false} ScoresLeaveManualAlone(a: AgentRecord, events: seq<AgentEvent>)
    requires a.mode in {Some(Manual), Some(Supervised)}
    requires ScoresOnly(events) && forall e :: e in events ==> !Expired(a, e.now)
    ensures AfterAll(a, events) == a
  {
    if events != [] {
      ScoresLeaveManualAlone(a, events[..|events| - 1]);
      assert events[|events| - 1] in events;
    }
  }

  // ---------------------------------------------------------------- hysteresis

  predicate Decisive(e: AgentEvent)
  {
    e.TokenRequest? && !(0.35 <= e.score < 0.65)
  }

  /** The status follows from the last score outside [0.35, 0.65); without one it stays what it was. */
  ghost predicate StatusFollows(initial: Status, events: seq<AgentEvent>, status: Status)
  {
    (forall k :: 0 <= k < |events| && Decisive(events[k]) && (forall j :: k < j < |events| ==> !Decisive(events[j])) ==>
       status == if events[k].score < 0.35 then Quarantined else Active)
    && ((forall k :: 0 <= k < |events| ==> !Decisive(events[k])) ==> status == initial)
  }

  lemma OneScore(a: AgentRecord, e: AgentEvent, now: int)
    requires AutoOrNone(a) && (e.TokenRequest? || e.StatusRead?)
    ensures AutoOrNone(After(a, e))
    ensures StatusOf(After(a, e), now) ==
      if !Decisive(e) then StatusOf(a, now) else if e.score < 0.35 then Quarantined else Active
  {
  }

  lemma ScoresOnlyFront(events: seq<AgentEvent>)
    requires events != [] && ScoresOnly(events)
    ensures ScoresOnly(events[..|events| - 1])
    ensures events[|events| - 1].TokenRequest? || events[|events| - 1].StatusRead?
  {
  }

  lemma NothingFollows(status: Status)
    ensures StatusFollows(status, [], status)
  {
  }

  lemma {:induction false} LastDecisiveScoreDecides(a: AgentRecord, events: seq<AgentEvent>, now: int)
    requires AutoOrNone(a) && ScoresOnly(events)
    ensures AutoOrNone(AfterAll(a, events))
    ensures StatusFollows(StatusOf(a, now), events, StatusOf(AfterAll(a, events), now))
  {
    if events == [] {
      NothingFollows(StatusOf(a, now));
    } else {
      var front, e := events[..|events| - 1], events[|events| - 1];
      ScoresOnlyFront(events);
      AfterAllStep(a, events);
      hide *;
      LastDecisiveScoreDecides(a, front, now);
      OneScore(AfterAll(a, front), e, now);
      FollowsPush(StatusOf(a, now), front, e, StatusOf(AfterAll(a, front), now), StatusOf(AfterAll(a, events), now));
    }
  }

  lemma AfterAllStep(a: AgentRecord, events: seq<AgentEvent>)
    requires events != []
    ensures AfterAll(a, events) == After(AfterAll(a, events[..|events| - 1]), events[|events| - 1])
    ensures events == events[..|events| - 1] + [events[|events| - 1]]
  {
    hide After;
  }

  lemma FollowsPush(initial: Status, front: seq<AgentEvent>, e: AgentEvent, before: Status, after: Status)
    requires StatusFollows(initial, front, before)
    requires Decisive(e) ==> after == if e.score < 0.35 then Quarantined else Active
    requires !Decisive(e) ==> after == before
    ensures StatusFollows(initial, front + [e], after)
  {
    hide Decisive;
    var longer := front + [e];
    assert forall k :: 0 <= k < |front| ==> longer[k] == front[k];
    assert longer[|front|] == e;
  }

  // ---------------------------------------------------------------- token lifetimes

  /** No token outlives ten minutes; one minute is the limit in quarantine and for any score below 0.35. */
  lemma LifetimeLimits(a: AgentRecord, score: real, why: string, now: int, requested: Option<int>)
    requires !a.blocked
    ensures var after := AutoAdjust(a, score, why, now);
      var lifetime := Lifetime(requested, StatusOf(after, now) == Quarantined);
      && lifetime <= 600
      && (lifetime > 60 ==> score >= 0.35 && after.mode.None? && !after.blocked)
      && (requested.None? && StatusOf(after, now) == Active ==> lifetime == 300)
  {
  }
}
