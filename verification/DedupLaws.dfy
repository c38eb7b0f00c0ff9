/** No receipt identifier counts twice in one aggregation, although identifiers are forgotten. */
module DedupLaws {
  import opened Basics
  import opened TrustStore
  import opened TrustRoutes
  import opened TrustTokens
  import Aggregate

  // ---------------------------------------------------------------- runs of the authority

  datatype Event =
    | RegisterIssuer(id: string, issuer: Issuer, now: int)
    | SubmitOne(sub: Submission, now: int)
    | SubmitMany(subs: seq<Submission>, now: int)
    | PeerBegin(sub: Submission, token: Option<AttesterToken>, now: int)
    | PeerConfirmed(pendingId: nat, approved: bool, now: int)
    | Provision(grant: Grant, ids: seq<string>, now: int)
    | PruneAll(now: int)

  /** `pending` are the peer receipts waiting for their confirmation; `clock` is the time of the last event. */
  datatype State = State(
    held: Holdings, issuers: map<string, Issuer>, pending: map<nat, Submission>, next: nat, clock: int)

  function PeerStart(verify: Verifier, s: State, sub: Submission, token: Option<AttesterToken>, now: int): State
  {
    var check := PeerCheck(s.issuers, verify, sub, token, now);
    if check.Refused? then s
    else
      PeerPassesExactlyWhen(s.issuers, verify, sub, token, now);
      if check.Ready? then s.(held := StoreOnce(s.held, sub, now).0)
      else s.(pending := s.pending[s.next := sub], next := s.next + 1)
  }

  function PeerEnd(s: State, id: nat, approved: bool, now: int): State
  {
    if id !in s.pending then s
    else
      var sub, rest := s.pending[id], s.pending - {id};
      if approved && Storable(sub) then s.(held := StoreOnce(s.held, sub, now).0, pending := rest)
      else s.(pending := rest)
  }

  function Step(verify: Verifier, maxAge: int, s: State, e: Event): State
  {
    var s' :=
      match e
      case RegisterIssuer(id, issuer, _) => s.(issuers := s.issuers[id := issuer])
      case SubmitOne(sub, now) => s.(held := Submit(s.held, s.issuers, verify, sub, now).0)
      case SubmitMany(subs, now) => s.(held := SubmitBatch(s.held, s.issuers, verify, subs, now))
      case PeerBegin(sub, token, now) => PeerStart(verify, s, sub, token, now)
      case PeerConfirmed(id, approved, now) => PeerEnd(s, id, approved, now)
      case Provision(g, ids, now) =>
        if g.durationS > 0.0 then s.(held := ProvisionAll(s.held, g, ids, now)) else s
      case PruneAll(now) => s.(held := Prune(s.held, now, maxAge));
    s'.(clock := e.now)
  }

  function Start(clock: int): State
  {
    State(Holdings(map[], map[]), map[], map[], 0, clock)
  }

  function Run(verify: Verifier, maxAge: int, clock: int, events: seq<Event>): State
  {
    if events == [] then Start(clock)
    else Step(verify, maxAge, Run(verify, maxAge, clock, events[..|events| - 1]), events[|events| - 1])
  }

  ghost predicate AllDistinct(ids: seq<string>)
  {
    forall i, j :: 0 <= i < j < |ids| ==> ids[i] != ids[j]
  }

  /** Time does not go back, and provisioned identifiers are distinct and not currently remembered. */
  ghost predicate Possible(s: State, e: Event)
  {
    && s.clock <= e.now
    && (e.Provision? ==> AllDistinct(e.ids) && forall i :: 0 <= i < |e.ids| ==> Text(e.ids[i]) !in s.held.seen)
  }

  /** The identifiers of the receipts that clients submit. */
  function Sent(e: Event): seq<Identifier>
  {
    match e
    case SubmitOne(sub, _) => SentBy([sub])
    case SubmitMany(subs, _) => SentBy(subs)
    case PeerBegin(sub, _, _) => SentBy([sub])
    case _ => []
  }

  function SentBy(subs: seq<Submission>): (ids: seq<Identifier>)
    ensures |ids| == |subs|
    ensures forall i :: 0 <= i < |subs| ==> ids[i] == if subs[i].Submission? then subs[i].id else Null
  {
    seq(|subs|, i requires 0 <= i < |subs| => if subs[i].Submission? then subs[i].id else Null)
  }

  ghost predicate Plain(ids: seq<Identifier>)
  {
    forall i :: 0 <= i < |ids| ==> !ids[i].Structured?
  }

  /** No client sends an array or an object as identifier. */
  ghost predicate PlainRun(events: seq<Event>)
  {
    forall i :: 0 <= i < |events| ==> Plain(Sent(events[i]))
  }

  ghost predicate Legal(verify: Verifier, maxAge: int, clock: int, events: seq<Event>)
  {
    events == [] ||
    (var front := events[..|events| - 1];
     Legal(verify, maxAge, clock, front) && Possible(Run(verify, maxAge, clock, front), events[|events| - 1]))
  }

  // ---------------------------------------------------------------- what every run keeps

  /** The age at which the store prunes, and whether clients may send arrays and objects as identifiers. */
  datatype Rules = Rules(maxAge: int, structured: bool)

  predicate Sendable(sub: Submission, rules: Rules)
  {
    sub.Submission? && sub.id.Structured? ==> rules.structured
  }

  /** Copies of one identifier, unless it is an array or object, were accepted more than `maxAge` apart. */
  ghost predicate Gaps(rs: seq<StoredReceipt>, maxAge: int)
  {
    rs == [] ||
    (var front, last := rs[..|rs| - 1], rs[|rs| - 1];
     && Gaps(front, maxAge)
     && forall r :: r in front && r.id == last.id && !r.id.Structured? ==> last.acceptedAt - r.acceptedAt > maxAge)
  }

  ghost predicate OneSound(r: StoredReceipt, seen: map<Identifier, int>, clock: int, rules: Rules)
  {
    && (r.timestamp.Some? ==> r.timestamp.value <= r.acceptedAt + MAX_FUTURE)
    && r.acceptedAt <= clock
    && (r.id.Structured? ==> rules.structured)
    && (r.id.Structured? || (r.id in seen && seen[r.id] >= r.acceptedAt) || clock - r.acceptedAt > rules.maxAge)
  }

  ghost predicate BucketSound(rs: seq<StoredReceipt>, seen: map<Identifier, int>, clock: int, rules: Rules)
  {
    Gaps(rs, rules.maxAge) && forall r :: r in rs ==> OneSound(r, seen, clock, rules)
  }

  ghost predicate Sound(h: Holdings, clock: int, rules: Rules)
  {
    forall key :: key in h.receipts ==> BucketSound(h.receipts[key], h.seen, clock, rules)
  }

  ghost predicate PendingSound(sub: Submission, clock: int, rules: Rules)
  {
    Storable(sub) && Sendable(sub, rules) && (sub.timestamp.Some? ==> sub.timestamp.value <= clock + MAX_FUTURE)
  }

  ghost predicate Invariant(s: State, rules: Rules)
  {
    && Sound(s.held, s.clock, rules)
    && forall id :: id in s.pending ==> PendingSound(s.pending[id], s.clock, rules)
  }

  lemma Later(h: Holdings, clock: int, clock': int, rules: Rules)
    requires Sound(h, clock, rules) && clock <= clock'
    ensures Sound(h, clock', rules)
  {
  }

  lemma BucketRemembers(rs: seq<StoredReceipt>, seen: map<Identifier, int>, id: Identifier, clock: int, rules: Rules)
    requires BucketSound(rs, seen, clock, rules)
    ensures BucketSound(rs, Remember(seen, id, clock), clock, rules)
  {
    hide Gaps;
  }

  lemma BucketPush(rs: seq<StoredReceipt>, seen: map<Identifier, int>, r: StoredReceipt, clock: int, rules: Rules)
    requires BucketSound(rs, seen, clock, rules) && rules.maxAge >= 0
    requires r.acceptedAt == clock && !Remembered(seen, r.id) && (r.id.Structured? ==> rules.structured)
    requires r.timestamp.Some? ==> r.timestamp.value <= clock + MAX_FUTURE
    ensures BucketSound(rs + [r], Remember(seen, r.id, clock), clock, rules)
  {
    BucketRemembers(rs, seen, r.id, clock, rules);
    forall x | x in rs && x.id == r.id && !x.id.Structured?
      ensures r.acceptedAt - x.acceptedAt > rules.maxAge
    {
      assert OneSound(x, seen, clock, rules);
    }
    GapsPush(rs, r, rules.maxAge);
    hide Gaps;
    assert OneSound(r, Remember(seen, r.id, clock), clock, rules);
  }

  lemma GapsPush(rs: seq<StoredReceipt>, r: StoredReceipt, maxAge: int)
    requires Gaps(rs, maxAge)
    requires forall x :: x in rs && x.id == r.id && !x.id.Structured? ==> r.acceptedAt - x.acceptedAt > maxAge
    ensures Gaps(rs + [r], maxAge)
  {
    assert (rs + [r])[..|rs|] == rs;
  }

  /** Storing an identifier that is not remembered keeps copies apart. */
  lemma StoreKeeps(h: Holdings, r: StoredReceipt, clock: int, rules: Rules)
    requires Sound(h, clock, rules) && rules.maxAge >= 0
    requires r.acceptedAt == clock && !Remembered(h.seen, r.id) && (r.id.Structured? ==> rules.structured)
    requires r.timestamp.Some? ==> r.timestamp.value <= clock + MAX_FUTURE
    ensures Sound(Store(h, r), clock, rules)
  {
    var h', key := Store(h, r), Key(r.agentId, r.domain);
    NothingSound(h.seen, clock, rules);
    hide Key, BucketSound, Remember;
    forall k | k in h'.receipts
      ensures BucketSound(h'.receipts[k], h'.seen, clock, rules)
    {
      if k == key {
        BucketPush(Lookup(h.receipts, k), h.seen, r, clock, rules);
      } else {
        BucketRemembers(h.receipts[k], h.seen, r.id, clock, rules);
      }
    }
  }

  lemma NothingSound(seen: map<Identifier, int>, clock: int, rules: Rules)
    ensures BucketSound([], seen, clock, rules)
  {
  }

  lemma {:induction false} FreshKeeps(rs: seq<StoredReceipt>, now: int, maxAge: int)
    ensures forall r :: r in Fresh(rs, now, maxAge) ==> r in rs
    ensures Gaps(rs, maxAge) ==> Gaps(Fresh(rs, now, maxAge), maxAge)
  {
    if rs != [] {
      var front, r := rs[..|rs| - 1], rs[|rs| - 1];
      FreshKeeps(front, now, maxAge);
      var kept := Fresh(front, now, maxAge);
      assert (kept + [r])[..|kept|] == kept;
    }
  }

  lemma PruneKeeps(h: Holdings, now: int, rules: Rules)
    requires Sound(h, now, rules)
    ensures Sound(Prune(h, now, rules.maxAge), now, rules)
  {
    hide Fresh, Gaps;
    var h' := Prune(h, now, rules.maxAge);
    forall k | k in h'.receipts
      ensures BucketSound(h'.receipts[k], h'.seen, now, rules)
    {
      FreshKeeps(h.receipts[k], now, rules.maxAge);
      assert BucketSound(h.receipts[k], h.seen, now, rules);
    }
  }

  lemma SubmitKeeps(h: Holdings, issuers: map<string, Issuer>, verify: Verifier, sub: Submission, now: int,
                    rules: Rules)
    requires Sound(h, now, rules) && rules.maxAge >= 0 && Sendable(sub, rules)
    ensures Sound(Submit(h, issuers, verify, sub, now).0, now, rules)
  {
    hide Sound, Store;
    if Validate(sub, issuers, now).None? && !Remembered(h.seen, sub.id) {
      StoreKeeps(h, Stored(sub, now), now, rules);
    }
  }

  lemma {:induction false} SubmitAllKeeps(h: Holdings, issuers: map<string, Issuer>, verify: Verifier,
                                          subs: seq<Submission>, now: int, rules: Rules)
    requires Sound(h, now, rules) && rules.maxAge >= 0
    requires forall i :: 0 <= i < |subs| ==> Sendable(subs[i], rules)
    ensures Sound(SubmitAll(h, issuers, verify, subs, now), now, rules)
  {
    hide Sound, Submit;
    if subs != [] {
      SubmitAllKeeps(h, issuers, verify, subs[..|subs| - 1], now, rules);
      SubmitKeeps(SubmitAll(h, issuers, verify, subs[..|subs| - 1], now), issuers, verify, subs[|subs| - 1], now,
                  rules);
    }
  }

  lemma {:induction false} ProvisionKeeps(h: Holdings, g: Grant, ids: seq<string>, now: int, rules: Rules)
    requires Sound(h, now, rules) && rules.maxAge >= 0 && g.durationS > 0.0
    requires AllDistinct(ids) && forall i :: 0 <= i < |ids| ==> Text(ids[i]) !in h.seen
    ensures Sound(ProvisionAll(h, g, ids, now), now, rules)
    ensures forall id :: id in ProvisionAll(h, g, ids, now).seen ==> id in h.seen || (id.Text? && id.text in ids)
  {
    hide Sound;
    if ids != [] {
      var n := |ids| - 1;
      ProvisionKeeps(h, g, ids[..n], now, rules);
      StaggeredBack(g.durationS, n);
      StoreKeeps(ProvisionAll(h, g, ids[..n], now), Provisioned(g, ids[n], n, now), now, rules);
    }
  }

  lemma StaggeredBack(durationS: real, i: nat)
    requires durationS > 0.0
    ensures (durationS * 1000.0 * i as real / 6.0).Floor >= 0
  {
  }

  lemma StepKeeps(verify: Verifier, rules: Rules, s: State, e: Event)
    requires Invariant(s, rules) && Possible(s, e) && rules.maxAge >= 0 && (rules.structured || Plain(Sent(e)))
    ensures Invariant(Step(verify, rules.maxAge, s, e), rules)
  {
    hide Sound, Store, Submit, SubmitBatch, SubmitAll, PeerCheck, ProvisionAll, Prune;
    Later(s.held, s.clock, e.now, rules);
    SentSendable(e, rules);
    match e
    case SubmitOne(sub, now) => SubmitKeeps(s.held, s.issuers, verify, sub, now, rules);
    case SubmitMany(subs, now) =>
      SubmitAllKeeps(s.held, s.issuers, verify, subs, now, rules);
      BatchOrNot(s.held, s.issuers, verify, subs, now);
    case PeerBegin(sub, token, now) =>
      if !PeerCheck(s.issuers, verify, sub, token, now).Refused? {
        PeerPassesExactlyWhen(s.issuers, verify, sub, token, now);
        StoreOnceKeeps(s.held, sub, now, rules);
      }
    case PeerConfirmed(id, approved, now) =>
      if id in s.pending {
        StoreOnceKeeps(s.held, s.pending[id], now, rules);
      }
    case Provision(g, ids, now) =>
      if g.durationS > 0.0 {
        ProvisionKeeps(s.held, g, ids, now, rules);
      }
    case PruneAll(now) => PruneKeeps(s.held, now, rules);
    case RegisterIssuer(_, _, _) =>
  }

  lemma BatchOrNot(h: Holdings, issuers: map<string, Issuer>, verify: Verifier, subs: seq<Submission>, now: int)
    ensures SubmitBatch(h, issuers, verify, subs, now) in {h, SubmitAll(h, issuers, verify, subs, now)}
  {
  }

  lemma StoreOnceKeeps(h: Holdings, sub: Submission, now: int, rules: Rules)
    requires Sound(h, now, rules) && rules.maxAge >= 0 && PendingSound(sub, now, rules)
    ensures Sound(StoreOnce(h, sub, now).0, now, rules)
  {
    hide Sound, Store;
    if !Remembered(h.seen, sub.id) {
      StoreKeeps(h, Stored(sub, now), now, rules);
    }
  }

  lemma SentSendable(e: Event, rules: Rules)
    requires rules.structured || Plain(Sent(e))
    ensures e.SubmitOne? || e.PeerBegin? ==> Sendable(e.sub, rules)
    ensures e.SubmitMany? ==> forall i :: 0 <= i < |e.subs| ==> Sendable(e.subs[i], rules)
  {
    var ids := Sent(e);
    if (e.SubmitOne? || e.PeerBegin?) && !rules.structured {
      assert !ids[0].Structured?;
    }
    if e.SubmitMany? && !rules.structured {
      forall i | 0 <= i < |e.subs|
        ensures Sendable(e.subs[i], rules)
      {
        assert !ids[i].Structured?;
      }
    }
  }

  lemma {:induction false} RunKeeps(verify: Verifier, rules: Rules, clock: int, events: seq<Event>)
    requires Legal(verify, rules.maxAge, clock, events) && rules.maxAge >= 0 && (rules.structured || PlainRun(events))
    ensures Invariant(Run(verify, rules.maxAge, clock, events), rules)
  {
    hide Step, Invariant, Possible;
    if events == [] {
      StartSound(clock, rules);
    } else {
      RunKeeps(verify, rules, clock, events[..|events| - 1]);
      StepKeeps(verify, rules, Run(verify, rules.maxAge, clock, events[..|events| - 1]), events[|events| - 1]);
    }
  }

  lemma StartSound(clock: int, rules: Rules)
    ensures Invariant(Start(clock), rules)
  {
  }

  // ---------------------------------------------------------------- what one aggregation sees

  const WINDOW := 300000

  ghost predicate EachIdOnce(rs: seq<StoredReceipt>)
  {
    forall i, j :: 0 <= i < j < |rs| ==> rs[i].id != rs[j].id
  }

  /** Only arrays and objects occur twice. */
  ghost predicate PlainIdsOnce(rs: seq<StoredReceipt>)
  {
    forall i, j :: 0 <= i < j < |rs| && rs[i].id == rs[j].id ==> rs[i].id.Structured?
  }

  /** The aggregation window selects exactly the stored receipts that `Fresh` selects for 300 seconds. */
  lemma {:induction false} WindowSelects(p: Aggregate.Params, now: int, rs: seq<StoredReceipt>)
    requires p.windowS == 300.0
    ensures Aggregate.Window(p, now, Aggregated(rs)) == Aggregated(Fresh(rs, now, WINDOW))
  {
    if rs != [] {
      var front, r := rs[..|rs| - 1], rs[|rs| - 1];
      WindowSelects(p, now, front);
      var all, kept := Aggregated(front), Fresh(front, now, WINDOW);
      if r.timestamp.Some? {
        var a := AsAggregated(r);
        assert (all + [a])[..|all|] == all;
        assert Aggregate.InWindow(p, now, a) <==> YoungEnough(r, now, WINDOW);
        assert (kept + [r])[..|kept|] == kept;
      }
    }
  }

  lemma {:induction false} FreshAreYoung(rs: seq<StoredReceipt>, now: int, maxAge: int)
    ensures forall r :: r in Fresh(rs, now, maxAge) ==> r in rs && YoungEnough(r, now, maxAge)
  {
    if rs != [] {
      FreshAreYoung(rs[..|rs| - 1], now, maxAge);
    }
  }

  /** Two copies far enough apart never lie in one window, however far ahead their timestamps are. */
  lemma {:induction false} GapsMakeDistinct(rs: seq<StoredReceipt>, seen: map<Identifier, int>, clock: int, now: int,
                                            rules: Rules)
    requires BucketSound(rs, seen, clock, rules)
    requires rules.maxAge >= WINDOW + MAX_FUTURE && clock <= now
    ensures PlainIdsOnce(Fresh(rs, now, WINDOW))
    ensures !rules.structured ==> EachIdOnce(Fresh(rs, now, WINDOW))
  {
    if rs != [] {
      var front, r := rs[..|rs| - 1], rs[|rs| - 1];
      GapsMakeDistinct(front, seen, clock, now, rules);
      FreshAreYoung(front, now, WINDOW);
      assert OneSound(r, seen, clock, rules);
      var kept := Fresh(front, now, WINDOW);
      forall i | 0 <= i < |kept| && YoungEnough(r, now, WINDOW)
        ensures kept[i].id == r.id ==> r.id.Structured?
      {
        assert kept[i] in front && OneSound(kept[i], seen, clock, rules);
      }
    }
  }

  ghost predicate CountsOnce(s: State, key: string, now: int)
  {
    EachIdOnce(Fresh(Lookup(s.held.receipts, key), now, WINDOW))
  }

  ghost predicate PlainCountsOnce(s: State, key: string, now: int)
  {
    PlainIdsOnce(Fresh(Lookup(s.held.receipts, key), now, WINDOW))
  }

  /** In no legal run does any aggregation, at any later time, see an identifier twice. */
  ghost predicate Safe(verify: Verifier, rules: Rules)
  {
    forall clock, events, key, now {:trigger CountsOnce(Run(verify, rules.maxAge, clock, events), key, now)} ::
      Legal(verify, rules.maxAge, clock, events) && (rules.structured || PlainRun(events)) &&
      Run(verify, rules.maxAge, clock, events).clock <= now ==>
        CountsOnce(Run(verify, rules.maxAge, clock, events), key, now)
  }

  /** From 600 seconds on, whatever clients send, only arrays and objects can count twice. */
  lemma CountsOnceInRuns(verify: Verifier, rules: Rules, clock: int, events: seq<Event>, key: string, now: int)
    requires Legal(verify, rules.maxAge, clock, events) && rules.maxAge >= WINDOW + MAX_FUTURE
    requires rules.structured || PlainRun(events)
    requires Run(verify, rules.maxAge, clock, events).clock <= now
    ensures PlainCountsOnce(Run(verify, rules.maxAge, clock, events), key, now)
    ensures !rules.structured ==> CountsOnce(Run(verify, rules.maxAge, clock, events), key, now)
  {
    hide Run, Legal, Fresh, Gaps, PlainRun;
    RunKeeps(verify, rules, clock, events);
    var s := Run(verify, rules.maxAge, clock, events);
    if key in s.held.receipts {
      assert BucketSound(s.held.receipts[key], s.held.seen, s.clock, rules);
      GapsMakeDistinct(s.held.receipts[key], s.held.seen, s.clock, now, rules);
    } else {
      NothingFresh(now);
    }
  }

  lemma NothingFresh(now: int)
    ensures Fresh([], now, WINDOW) == []
  {
  }

  /** A receipt stamped as far ahead as is allowed at time zero. */
  function FarAhead(id: Identifier, signature: string): Submission
  {
    Submission("1.0", false, id, "agent", "issuer", "domain", "event", Some(MAX_FUTURE), Some(1.0), signature)
  }

  const PLAIN := Text("r")

  /** Submit it, prune once its identifier is old enough to go but the receipt is not, and submit it again. */
  function Resubmission(signature: string, publicKey: string, later: int): seq<Event>
  {
    [RegisterIssuer("issuer", Issuer(publicKey, Infrastructure, None, None), 0),
     SubmitOne(FarAhead(PLAIN, signature), 0),
     PruneAll(later), SubmitOne(FarAhead(PLAIN, signature), later)]
  }

  lemma RunPush(verify: Verifier, maxAge: int, clock: int, events: seq<Event>, e: Event)
    ensures Run(verify, maxAge, clock, events + [e]) == Step(verify, maxAge, Run(verify, maxAge, clock, events), e)
    ensures Legal(verify, maxAge, clock, events + [e]) <==>
      Legal(verify, maxAge, clock, events) && Possible(Run(verify, maxAge, clock, events), e)
  {
  }

  /** The state after the receipt was submitted, and after its identifier was forgotten. */
  function SubmittedState(signature: string, publicKey: string): State
  {
    var r := Stored(FarAhead(PLAIN, signature), 0);
    State(Holdings(map[Key("agent", "domain") := [r]], map[PLAIN := 0]),
          map["issuer" := Issuer(publicKey, Infrastructure, None, None)], map[], 0, 0)
  }

  function ForgottenState(signature: string, publicKey: string, later: int): State
  {
    var s := SubmittedState(signature, publicKey);
    s.(held := Holdings(s.held.receipts, map[]), clock := later)
  }

  lemma SubmittedOnce(verify: Verifier, maxAge: int, signature: string, publicKey: string, later: int)
    requires verify(FarAhead(PLAIN, signature), publicKey)
    ensures var es := Resubmission(signature, publicKey, later);
      var s1 := Step(verify, maxAge, Start(0), es[0]);
      && Possible(Start(0), es[0]) && Possible(s1, es[1])
      && Step(verify, maxAge, s1, es[1]) == SubmittedState(signature, publicKey)
  {
    hide Key;
    var es := Resubmission(signature, publicKey, later);
    var s1 := Step(verify, maxAge, Start(0), es[0]);
    var s2 := Step(verify, maxAge, s1, es[1]);
    assert Validate(FarAhead(PLAIN, signature), s1.issuers, 0).None?;
    var r := Stored(FarAhead(PLAIN, signature), 0);
    assert [] + [r] == [r];
    assert s2.held.receipts == map[Key("agent", "domain") := [] + [r]];
    assert s2.held.seen == map[PLAIN := 0];
    assert s2.issuers == SubmittedState(signature, publicKey).issuers;
  }

  lemma PruneForgets(key: string, r: StoredReceipt, now: int, maxAge: int)
    requires YoungEnough(r, now, maxAge) && now - r.acceptedAt > maxAge
    ensures Prune(Holdings(map[key := [r]], map[r.id := r.acceptedAt]), now, maxAge) == Holdings(map[key := [r]], map[])
  {
    FreshOf(r, r, now, maxAge);
    hide Fresh, YoungEnough;
    var h := Prune(Holdings(map[key := [r]], map[r.id := r.acceptedAt]), now, maxAge);
    assert h.receipts == map[key := [r]] && h.seen == map[];
  }

  lemma Forgotten(verify: Verifier, maxAge: int, signature: string, publicKey: string, later: int)
    requires 0 <= maxAge < later <= maxAge + MAX_FUTURE
    ensures Step(verify, maxAge, SubmittedState(signature, publicKey), PruneAll(later))
         == ForgottenState(signature, publicKey, later)
  {
    hide Key, Prune;
    PruneForgets(Key("agent", "domain"), Stored(FarAhead(PLAIN, signature), 0), later, maxAge);
  }

  lemma SubmittedTwice(verify: Verifier, maxAge: int, signature: string, publicKey: string, later: int)
    requires verify(FarAhead(PLAIN, signature), publicKey) && 0 <= later <= WINDOW + MAX_FUTURE
    ensures var again := SubmitOne(FarAhead(PLAIN, signature), later);
      var s := Step(verify, maxAge, ForgottenState(signature, publicKey, later), again);
      && s.clock == later
      && Lookup(s.held.receipts, Key("agent", "domain"))
           == [Stored(FarAhead(PLAIN, signature), 0), Stored(FarAhead(PLAIN, signature), later)]
  {
  }

  lemma ResubmissionCountsTwice(verify: Verifier, maxAge: int, signature: string, publicKey: string, later: int)
    requires verify(FarAhead(PLAIN, signature), publicKey)
    requires later == if maxAge < MAX_FUTURE then MAX_FUTURE else WINDOW + MAX_FUTURE
    requires 0 <= maxAge < WINDOW + MAX_FUTURE
    ensures Legal(verify, maxAge, 0, Resubmission(signature, publicKey, later))
    ensures Run(verify, maxAge, 0, Resubmission(signature, publicKey, later)).clock == later
    ensures !CountsOnce(Run(verify, maxAge, 0, Resubmission(signature, publicKey, later)),
                        Key("agent", "domain"), later)
  {
    hide Step, Key;
    var es := Resubmission(signature, publicKey, later);
    SubmittedOnce(verify, maxAge, signature, publicKey, later);
    Forgotten(verify, maxAge, signature, publicKey, later);
    SubmittedTwice(verify, maxAge, signature, publicKey, later);
    RunPush(verify, maxAge, 0, [], es[0]);
    RunPush(verify, maxAge, 0, [] + [es[0]], es[1]);
    RunPush(verify, maxAge, 0, [] + [es[0]] + [es[1]], es[2]);
    RunPush(verify, maxAge, 0, [] + [es[0]] + [es[1]] + [es[2]], es[3]);
    assert es == [] + [es[0]] + [es[1]] + [es[2]] + [es[3]];
    FreshOf(Stored(FarAhead(PLAIN, signature), 0), Stored(FarAhead(PLAIN, signature), later), later, maxAge);
    hide Run, Legal, Fresh;
  }

  lemma FreshOf(r: StoredReceipt, r': StoredReceipt, now: int, maxAge: int)
    ensures YoungEnough(r, now, maxAge) ==> Fresh([r], now, maxAge) == [r]
    ensures YoungEnough(r, now, WINDOW) && YoungEnough(r', now, WINDOW) ==> Fresh([r, r'], now, WINDOW) == [r, r']
  {
    assert [r][..0] == [] && [r, r'][..1] == [r];
    assert YoungEnough(r, now, WINDOW) ==> Fresh([r, r'][..1], now, WINDOW) == [r];
  }

  const ARRAY := Structured("[]")

  /** Submit a receipt whose identifier is an array twice in a row. */
  function ArrayTwice(signature: string, publicKey: string): seq<Event>
  {
    [RegisterIssuer("issuer", Issuer(publicKey, Infrastructure, None, None), 0),
     SubmitOne(FarAhead(ARRAY, signature), 0),
     SubmitOne(FarAhead(ARRAY, signature), 0)]
  }

  lemma IssuerRegistered(verify: Verifier, maxAge: int, publicKey: string)
    ensures var s := Step(verify, maxAge, Start(0), ArrayTwice("", publicKey)[0]);
      && s.issuers == map["issuer" := Issuer(publicKey, Infrastructure, None, None)]
      && s.held == Holdings(map[], map[]) && s.clock == 0
  {
  }

  /** However often it was submitted before, the receipt is stored. */
  lemma ArrayStored(verify: Verifier, maxAge: int, s: State, signature: string, publicKey: string)
    requires verify(FarAhead(ARRAY, signature), publicKey)
    requires s.issuers == map["issuer" := Issuer(publicKey, Infrastructure, None, None)] && s.clock == 0
    ensures var s' := Step(verify, maxAge, s, SubmitOne(FarAhead(ARRAY, signature), 0));
      && s'.held == Store(s.held, Stored(FarAhead(ARRAY, signature), 0))
      && s'.issuers == s.issuers && s'.clock == 0
  {
    hide Store;
  }

  lemma StoredTwice(r: StoredReceipt)
    requires r.agentId == "agent" && r.domain == "domain"
    ensures Lookup(Store(Store(Holdings(map[], map[]), r), r).receipts, Key("agent", "domain")) == [r, r]
  {
    hide Key;
    assert [] + [r] == [r] && [r] + [r] == [r, r];
  }

  /** Whatever the prune age, the copies are not recognised and both count. */
  lemma ArraysCountTwice(verify: Verifier, maxAge: int, signature: string, publicKey: string)
    requires verify(FarAhead(ARRAY, signature), publicKey)
    ensures Legal(verify, maxAge, 0, ArrayTwice(signature, publicKey))
    ensures Run(verify, maxAge, 0, ArrayTwice(signature, publicKey)).clock == 0
    ensures !CountsOnce(Run(verify, maxAge, 0, ArrayTwice(signature, publicKey)), Key("agent", "domain"), 0)
  {
    var es, r := ArrayTwice(signature, publicKey), Stored(FarAhead(ARRAY, signature), 0);
    hide Key, Step, Store;
    assert es == [] + [es[0]] + [es[1]] + [es[2]];
    RunPush(verify, maxAge, 0, [], es[0]);
    RunPush(verify, maxAge, 0, [] + [es[0]], es[1]);
    RunPush(verify, maxAge, 0, [] + [es[0]] + [es[1]], es[2]);
    FreshOf(r, r, 0, maxAge);
    StoredTwice(r);
    assert Run(verify, maxAge, 0, []) == Start(0) && Legal(verify, maxAge, 0, []);
    hide Run, Legal, Fresh;
    IssuerRegistered(verify, maxAge, publicKey);
    var s1 := Step(verify, maxAge, Start(0), es[0]);
    ArrayStored(verify, maxAge, s1, signature, publicKey);
    ArrayStored(verify, maxAge, Step(verify, maxAge, s1, es[1]), signature, publicKey);
  }

  /**
   * No identifier ever counts twice exactly when the prune age covers the
   * window and the permitted clock skew, 600 seconds together, and clients do
   * not send arrays or objects as identifiers. (Signatures for two receipts
   * are what the failing runs need.)
   */
  lemma SafeExactlyWhen(verify: Verifier, rules: Rules, signedPlain: string, signedArray: string, publicKey: string)
    requires verify(FarAhead(PLAIN, signedPlain), publicKey) && verify(FarAhead(ARRAY, signedArray), publicKey)
    requires rules.maxAge >= 0
    ensures Safe(verify, rules) <==> rules.maxAge >= WINDOW + MAX_FUTURE && !rules.structured
  {
    hide Run, Legal, CountsOnce, PlainRun;
    if rules.structured {
      ArraysCountTwice(verify, rules.maxAge, signedArray, publicKey);
    } else if rules.maxAge >= WINDOW + MAX_FUTURE {
      forall clock, events, key, now
        | Legal(verify, rules.maxAge, clock, events) && PlainRun(events) &&
          Run(verify, rules.maxAge, clock, events).clock <= now
        ensures CountsOnce(Run(verify, rules.maxAge, clock, events), key, now)
      {
        CountsOnceInRuns(verify, rules, clock, events, key, now);
      }
    } else {
      var later := if rules.maxAge < MAX_FUTURE then MAX_FUTURE else WINDOW + MAX_FUTURE;
      ResubmissionCountsTwice(verify, rules.maxAge, signedPlain, publicKey, later);
      ResubmissionIsPlain(signedPlain, publicKey, later);
    }
  }

  lemma ResubmissionIsPlain(signature: string, publicKey: string, later: int)
    ensures PlainRun(Resubmission(signature, publicKey, later))
  {
  }

  const PRUNE_AGE := 86400000

  /**
   * At the age the service prunes at (24 hours) the aggregation sees exactly
   * the young receipts, and if two of them have one identifier, it is an array or object.
   */
  lemma ServicePruneAge(verify: Verifier, clock: int, events: seq<Event>, agentId: string, domain: string, now: int,
                        p: Aggregate.Params)
    requires Legal(verify, PRUNE_AGE, clock, events)
    requires Run(verify, PRUNE_AGE, clock, events).clock <= now
    requires p.windowS == 300.0
    ensures var stored := Lookup(Run(verify, PRUNE_AGE, clock, events).held.receipts, Key(agentId, domain));
      var young := Fresh(stored, now, WINDOW);
      && Aggregate.Window(p, now, Aggregated(stored)) == Aggregated(young) && |Aggregated(young)| == |young|
      && PlainIdsOnce(young)
      && (PlainRun(events) ==> EachIdOnce(young))
  {
    hide Run, Legal, Aggregate.Window, Fresh, Aggregated, PlainRun;
    CountsOnceInRuns(verify, Rules(PRUNE_AGE, true), clock, events, Key(agentId, domain), now);
    if PlainRun(events) {
      CountsOnceInRuns(verify, Rules(PRUNE_AGE, false), clock, events, Key(agentId, domain), now);
    }
    var stored := Lookup(Run(verify, PRUNE_AGE, clock, events).held.receipts, Key(agentId, domain));
    WindowSelects(p, now, stored);
    FreshAreYoung(stored, now, WINDOW);
    AllAggregated(Fresh(stored, now, WINDOW));
  }

  lemma {:induction false} AllAggregated(rs: seq<StoredReceipt>)
    requires forall r :: r in rs ==> r.timestamp.Some?
    ensures |Aggregated(rs)| == |rs|
  {
    if rs != [] {
      AllAggregated(rs[..|rs| - 1]);
      assert rs[|rs| - 1] in rs;
    }
  }
}
