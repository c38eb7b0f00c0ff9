/** Where the receipts come from that the Trust Authority holds, and whose they are. */
module ReceiptOrigins {
  import opened Basics
  import opened TrustStore
  import opened TrustRoutes
  import opened DedupLaws

  // ---------------------------------------------------------------- one bucket, one agent and domain

  ghost predicate Mixes(a: string, b: string)
  {
    exists d, e :: Key(a, d) == Key(b, e)
  }

  /** Receipts of two agents can share a bucket exactly when one name continues the other after a colon. */
  lemma MixesExactlyWhen(a: string, b: string)
    requires a != b
    ensures Mixes(a, b) <==> StartsWith(b, a + ":") || StartsWith(a, b + ":")
  {
    if StartsWith(b, a + ":") {
      var rest := b[|a| + 1..];
      assert b == a + ":" + rest;
      assert Key(a, rest + ":") == Key(b, "");
    }
    if StartsWith(a, b + ":") {
      var rest := a[|b| + 1..];
      assert a == b + ":" + rest;
      assert Key(a, "") == Key(b, rest + ":");
    }
    if d, e :| Key(a, d) == Key(b, e) {
      SharedKey(a, d, b, e);
    }
  }

  lemma SharedKey(a: string, d: string, b: string, e: string)
    requires a != b && Key(a, d) == Key(b, e)
    ensures StartsWith(b, a + ":") || StartsWith(a, b + ":")
  {
    var k := Key(a, d);
    assert k[..|a|] == a && k[..|b|] == b && k[|a|] == ':' && k[|b|] == ':';
    if |a| < |b| {
      assert b[..|a| + 1] == k[..|a| + 1] == a + ":";
    } else if |b| < |a| {
      assert a[..|b| + 1] == k[..|b| + 1] == b + ":";
    }
  }

  lemma SameKey(a: string, d: string, e: string)
    ensures Key(a, d) == Key(a, e) <==> d == e
  {
    assert Key(a, d)[|a| + 1..] == d && Key(a, e)[|a| + 1..] == e;
  }

  predicate NoColon(s: string)
  {
    forall i :: 0 <= i < |s| ==> s[i] != ':'
  }

  /** Between agents whose names hold no colon, a receipt is found under its own agent and domain only. */
  lemma StoredForItsOwner(h: Holdings, r: StoredReceipt, agentId: string, domain: string)
    requires NoColon(r.agentId) && NoColon(agentId)
    ensures Lookup(Store(h, r).receipts, Key(agentId, domain))
         == Lookup(h.receipts, Key(agentId, domain)) + if agentId == r.agentId && domain == r.domain then [r] else []
  {
    if agentId == r.agentId {
      SameKey(agentId, domain, r.domain);
    } else {
      MixesExactlyWhen(agentId, r.agentId);
      ColonInside(agentId, r.agentId);
      ColonInside(r.agentId, agentId);
      assert Key(agentId, domain) == Key(r.agentId, r.domain) ==> Mixes(agentId, r.agentId);
    }
  }

  lemma ColonInside(a: string, b: string)
    ensures StartsWith(b, a + ":") ==> !NoColon(b)
  {
    if StartsWith(b, a + ":") {
      assert b[..|a| + 1][|a|] == ':';
    }
  }

  // ---------------------------------------------------------------- every receipt has been earned

  /** A peer receipt that passed all checks on arrival, and how its peer wants to be asked. */
  ghost predicate PeerPassed(verify: Verifier, issuers: map<string, Issuer>, e: Event, asked: bool)
  {
    && e.PeerBegin? && Acceptable(e.sub, issuers, verify, e.now)
    && Attested(issuers[e.sub.issuerId], e.sub, e.token, e.now)
    && (asked <==> HasAddress(issuers[e.sub.issuerId]))
  }

  /** Event `b` is the arrival of the peer receipt that waits under `id`. */
  ghost predicate Arrived(verify: Verifier, maxAge: int, clock: int, events: seq<Event>, b: nat, id: nat,
                          sub: Submission)
    requires b < |events|
  {
    var s := Run(verify, maxAge, clock, events[..b]);
    PeerPassed(verify, s.issuers, events[b], true) && events[b].sub == sub && s.next == id
  }

  ghost predicate Taken(sub: Submission, issuers: map<string, Issuer>, verify: Verifier, now: int, r: StoredReceipt)
  {
    Acceptable(sub, issuers, verify, now) && r == Stored(sub, now)
  }

  /**
   * Event `k` stored the receipt: an acceptable submission, an attested peer
   * receipt that needs no confirmation or got it, or a provisioned one.
   */
  ghost predicate StoredBy(verify: Verifier, maxAge: int, clock: int, events: seq<Event>, k: nat, r: StoredReceipt)
    requires k < |events|
  {
    var s := Run(verify, maxAge, clock, events[..k]);
    match events[k]
    case SubmitOne(sub, now) => Taken(sub, s.issuers, verify, now, r)
    case SubmitMany(subs, now) =>
      |subs| <= 100 && exists i :: 0 <= i < |subs| && Taken(subs[i], s.issuers, verify, now, r)
    case PeerBegin(sub, token, now) => PeerPassed(verify, s.issuers, events[k], false) && r == Stored(sub, now)
    case PeerConfirmed(id, approved, now) =>
      approved && exists b :: 0 <= b < k && ConfirmedFrom(verify, maxAge, clock, events, b, id, now, r)
    case Provision(g, ids, now) => exists i :: 0 <= i < |ids| && r == Provisioned(g, ids[i], i, now)
    case _ => false
  }

  ghost predicate ConfirmedFrom(verify: Verifier, maxAge: int, clock: int, events: seq<Event>, b: nat, id: nat,
                                now: int, r: StoredReceipt)
    requires b < |events|
  {
    && events[b].PeerBegin? && Storable(events[b].sub)
    && Arrived(verify, maxAge, clock, events, b, id, events[b].sub) && r == Stored(events[b].sub, now)
  }

  ghost predicate HasOrigin(verify: Verifier, maxAge: int, clock: int, events: seq<Event>, r: StoredReceipt)
  {
    exists k :: 0 <= k < |events| && StoredBy(verify, maxAge, clock, events, k, r)
  }

  ghost predicate AllOriginate(verify: Verifier, maxAge: int, clock: int, events: seq<Event>, h: Holdings)
  {
    forall key, r :: key in h.receipts && r in h.receipts[key] ==>
      key == Key(r.agentId, r.domain) && HasOrigin(verify, maxAge, clock, events, r)
  }

  ghost predicate HasArrived(verify: Verifier, maxAge: int, clock: int, events: seq<Event>, id: nat, sub: Submission)
  {
    Storable(sub) && exists b :: 0 <= b < |events| && Arrived(verify, maxAge, clock, events, b, id, sub)
  }

  ghost predicate AllArrived(verify: Verifier, maxAge: int, clock: int, events: seq<Event>, s: State)
  {
    forall id :: id in s.pending ==> HasArrived(verify, maxAge, clock, events, id, s.pending[id])
  }

  lemma PrefixKept(events: seq<Event>, e: Event, k: nat)
    requires k < |events|
    ensures (events + [e])[..k] == events[..k] && (events + [e])[k] == events[k]
  {
  }

  lemma OriginKept(verify: Verifier, maxAge: int, clock: int, events: seq<Event>, e: Event, r: StoredReceipt)
    requires HasOrigin(verify, maxAge, clock, events, r)
    ensures HasOrigin(verify, maxAge, clock, events + [e], r)
  {
    hide Run, Acceptable, Attested, Stored, Provisioned, PeerPassed, ConfirmedFrom;
    var k :| 0 <= k < |events| && StoredBy(verify, maxAge, clock, events, k, r);
    PrefixKept(events, e, k);
    if events[k].PeerConfirmed? {
      var b :| 0 <= b < k && ConfirmedFrom(verify, maxAge, clock, events, b, events[k].pendingId, events[k].now, r);
      ConfirmedKept(verify, maxAge, clock, events, e, b, events[k].pendingId, events[k].now, r);
    }
    assert StoredBy(verify, maxAge, clock, events + [e], k, r);
  }

  lemma ConfirmedKept(verify: Verifier, maxAge: int, clock: int, events: seq<Event>, e: Event, b: nat, id: nat,
                      now: int, r: StoredReceipt)
    requires b < |events| && ConfirmedFrom(verify, maxAge, clock, events, b, id, now, r)
    ensures ConfirmedFrom(verify, maxAge, clock, events + [e], b, id, now, r)
  {
    hide Run, PeerPassed, Stored;
    PrefixKept(events, e, b);
  }

  lemma ArrivalKept(verify: Verifier, maxAge: int, clock: int, events: seq<Event>, e: Event, id: nat, sub: Submission)
    requires HasArrived(verify, maxAge, clock, events, id, sub)
    ensures HasArrived(verify, maxAge, clock, events + [e], id, sub)
  {
    hide Run, PeerPassed;
    var b :| 0 <= b < |events| && Arrived(verify, maxAge, clock, events, b, id, sub);
    PrefixKept(events, e, b);
    assert Arrived(verify, maxAge, clock, events + [e], b, id, sub);
  }

  lemma AllKept(verify: Verifier, maxAge: int, clock: int, events: seq<Event>, e: Event, h: Holdings)
    requires AllOriginate(verify, maxAge, clock, events, h)
    ensures AllOriginate(verify, maxAge, clock, events + [e], h)
  {
    hide HasOrigin;
    forall key, r | key in h.receipts && r in h.receipts[key]
      ensures HasOrigin(verify, maxAge, clock, events + [e], r)
    {
      OriginKept(verify, maxAge, clock, events, e, r);
    }
  }

  /** Storing a receipt with an origin, unless its identifier is remembered. */
  lemma StoringKeeps(verify: Verifier, maxAge: int, clock: int, events: seq<Event>, h: Holdings, r: StoredReceipt)
    requires AllOriginate(verify, maxAge, clock, events, h) && HasOrigin(verify, maxAge, clock, events, r)
    ensures AllOriginate(verify, maxAge, clock, events, Store(h, r))
  {
    hide HasOrigin, Key;
  }

  lemma SubmittingKeeps(verify: Verifier, maxAge: int, clock: int, events: seq<Event>, h: Holdings,
                        issuers: map<string, Issuer>, sub: Submission, now: int)
    requires AllOriginate(verify, maxAge, clock, events, h)
    requires Acceptable(sub, issuers, verify, now) ==> HasOrigin(verify, maxAge, clock, events, Stored(sub, now))
    ensures AllOriginate(verify, maxAge, clock, events, Submit(h, issuers, verify, sub, now).0)
  {
    AcceptedExactlyWhen(h, issuers, verify, sub, now);
    hide HasOrigin, Store, Submit, AllOriginate;
    if Submit(h, issuers, verify, sub, now).1.Accepted? {
      StoringKeeps(verify, maxAge, clock, events, h, Stored(sub, now));
    }
  }

  lemma {:induction false} BatchKeeps(verify: Verifier, maxAge: int, clock: int, events: seq<Event>, h: Holdings,
                                      issuers: map<string, Issuer>, subs: seq<Submission>, now: int)
    requires AllOriginate(verify, maxAge, clock, events, h)
    requires forall i :: 0 <= i < |subs| && Acceptable(subs[i], issuers, verify, now) ==>
               HasOrigin(verify, maxAge, clock, events, Stored(subs[i], now))
    ensures AllOriginate(verify, maxAge, clock, events, SubmitAll(h, issuers, verify, subs, now))
  {
    hide HasOrigin, AllOriginate, Acceptable, Submit;
    if subs != [] {
      var n := |subs| - 1;
      assert forall i :: 0 <= i < n ==> subs[..n][i] == subs[i];
      BatchKeeps(verify, maxAge, clock, events, h, issuers, subs[..n], now);
      var before := SubmitAll(h, issuers, verify, subs[..n], now);
      SubmittingKeeps(verify, maxAge, clock, events, before, issuers, subs[n], now);
    }
  }

  lemma {:induction false} ProvisioningKeeps(verify: Verifier, maxAge: int, clock: int, events: seq<Event>, h: Holdings,
                                             g: Grant, ids: seq<string>, now: int)
    requires AllOriginate(verify, maxAge, clock, events, h)
    requires forall i :: 0 <= i < |ids| ==> HasOrigin(verify, maxAge, clock, events, Provisioned(g, ids[i], i, now))
    ensures AllOriginate(verify, maxAge, clock, events, ProvisionAll(h, g, ids, now))
  {
    hide HasOrigin, AllOriginate, Provisioned, Store;
    if ids != [] {
      var n := |ids| - 1;
      assert forall i :: 0 <= i < n ==> ids[..n][i] == ids[i];
      ProvisioningKeeps(verify, maxAge, clock, events, h, g, ids[..n], now);
      StoringKeeps(verify, maxAge, clock, events, ProvisionAll(h, g, ids[..n], now), Provisioned(g, ids[n], n, now));
    }
  }

  lemma {:induction false} FreshMembers(rs: seq<StoredReceipt>, now: int, maxAge: int)
    ensures forall r :: r in Fresh(rs, now, maxAge) ==> r in rs
  {
    if rs != [] {
      FreshMembers(rs[..|rs| - 1], now, maxAge);
    }
  }

  lemma PruningKeeps(verify: Verifier, maxAge: int, clock: int, events: seq<Event>, h: Holdings, now: int)
    requires AllOriginate(verify, maxAge, clock, events, h)
    ensures AllOriginate(verify, maxAge, clock, events, Prune(h, now, maxAge))
  {
    hide HasOrigin, Fresh;
    forall key, r | key in Prune(h, now, maxAge).receipts && r in Prune(h, now, maxAge).receipts[key]
      ensures key in h.receipts && r in h.receipts[key]
    {
      FreshMembers(h.receipts[key], now, maxAge);
    }
  }

  ghost predicate Traced(verify: Verifier, maxAge: int, clock: int, events: seq<Event>, s: State)
  {
    AllOriginate(verify, maxAge, clock, events, s.held) && AllArrived(verify, maxAge, clock, events, s)
  }

  lemma BeginTraced(verify: Verifier, maxAge: int, clock: int, front: seq<Event>, s: State, sub: Submission,
                    token: Option<AttesterToken>, now: int)
    requires s == Run(verify, maxAge, clock, front)
    requires Traced(verify, maxAge, clock, front + [PeerBegin(sub, token, now)], s)
    ensures Traced(verify, maxAge, clock, front + [PeerBegin(sub, token, now)], PeerStart(verify, s, sub, token, now))
  {
    var e := PeerBegin(sub, token, now);
    var events := front + [e];
    assert events[..|front|] == front && events[|front|] == e;
    ConfirmationAskedExactlyWhen(s.issuers, verify, sub, token, now);
    var check := PeerCheck(s.issuers, verify, sub, token, now);
    hide PeerCheck, Run, Attested, HasAddress, AllOriginate, Store;
    if check.Ready? {
      assert StoredBy(verify, maxAge, clock, events, |front|, Stored(sub, now));
      StoringKeeps(verify, maxAge, clock, events, s.held, Stored(sub, now));
    } else if check.AskConfirmation? {
      assert Arrived(verify, maxAge, clock, events, |front|, s.next, sub);
      assert HasArrived(verify, maxAge, clock, events, s.next, sub);
    }
  }

  lemma EndTraced(verify: Verifier, maxAge: int, clock: int, front: seq<Event>, s: State, id: nat, approved: bool,
                  now: int)
    requires Traced(verify, maxAge, clock, front, s)
    requires Traced(verify, maxAge, clock, front + [PeerConfirmed(id, approved, now)], s)
    ensures Traced(verify, maxAge, clock, front + [PeerConfirmed(id, approved, now)], PeerEnd(s, id, approved, now))
  {
    hide Run, PeerPassed, AllOriginate, Store;
    var events := front + [PeerConfirmed(id, approved, now)];
    assert events[|front|] == PeerConfirmed(id, approved, now);
    if id in s.pending && approved {
      var sub := s.pending[id];
      assert HasArrived(verify, maxAge, clock, front, id, sub);
      var b :| 0 <= b < |front| && Arrived(verify, maxAge, clock, front, b, id, sub);
      PrefixKept(front, PeerConfirmed(id, approved, now), b);
      ArrivalIsPeer(verify, maxAge, clock, events, b, id, sub);
      assert ConfirmedFrom(verify, maxAge, clock, events, b, id, now, Stored(sub, now));
      assert StoredBy(verify, maxAge, clock, events, |front|, Stored(sub, now));
      StoringKeeps(verify, maxAge, clock, events, s.held, Stored(sub, now));
    }
  }

  lemma ArrivalIsPeer(verify: Verifier, maxAge: int, clock: int, events: seq<Event>, b: nat, id: nat, sub: Submission)
    requires b < |events| && Arrived(verify, maxAge, clock, events, b, id, sub)
    ensures events[b].PeerBegin? && events[b].sub == sub
  {
  }

  lemma StepTraced(verify: Verifier, maxAge: int, clock: int, front: seq<Event>, e: Event)
    requires Traced(verify, maxAge, clock, front, Run(verify, maxAge, clock, front))
    ensures Traced(verify, maxAge, clock, front + [e], Step(verify, maxAge, Run(verify, maxAge, clock, front), e))
  {
    var s, events := Run(verify, maxAge, clock, front), front + [e];
    assert events[..|front|] == front && events[|front|] == e;
    AllKept(verify, maxAge, clock, front, e, s.held);
    forall id | id in s.pending
      ensures HasArrived(verify, maxAge, clock, events, id, s.pending[id])
    {
      ArrivalKept(verify, maxAge, clock, front, e, id, s.pending[id]);
    }
    hide AllOriginate, Run, Submit, SubmitAll, ProvisionAll, Prune, PeerStart, PeerEnd, Acceptable, Stored, Provisioned;
    match e
    case RegisterIssuer(_, _, _) =>
    case SubmitOne(sub, now) =>
      SubmittedHere(verify, maxAge, clock, front, [sub], e, now);
      SubmittingKeeps(verify, maxAge, clock, events, s.held, s.issuers, sub, now);
    case SubmitMany(subs, now) =>
      if 1 <= |subs| <= 100 {
        SubmittedHere(verify, maxAge, clock, front, subs, e, now);
        BatchKeeps(verify, maxAge, clock, events, s.held, s.issuers, subs, now);
      }
    case PeerBegin(sub, token, now) => BeginTraced(verify, maxAge, clock, front, s, sub, token, now);
    case PeerConfirmed(id, approved, now) => EndTraced(verify, maxAge, clock, front, s, id, approved, now);
    case Provision(g, ids, now) =>
      if g.durationS > 0.0 {
        ProvisionedHere(verify, maxAge, clock, front, g, ids, now);
        ProvisioningKeeps(verify, maxAge, clock, events, s.held, g, ids, now);
      }
    case PruneAll(now) => PruningKeeps(verify, maxAge, clock, events, s.held, now);
  }

  lemma SubmittedHere(verify: Verifier, maxAge: int, clock: int, front: seq<Event>, subs: seq<Submission>, e: Event,
                      now: int)
    requires (e == SubmitMany(subs, now) && |subs| <= 100) || (|subs| == 1 && e == SubmitOne(subs[0], now))
    ensures var issuers := Run(verify, maxAge, clock, front).issuers;
            forall i :: 0 <= i < |subs| && Acceptable(subs[i], issuers, verify, now) ==>
              HasOrigin(verify, maxAge, clock, front + [e], Stored(subs[i], now))
  {
    var events, issuers := front + [e], Run(verify, maxAge, clock, front).issuers;
    assert events[..|front|] == front && events[|front|] == e;
    hide Run;
    forall i | 0 <= i < |subs| && Acceptable(subs[i], issuers, verify, now)
      ensures HasOrigin(verify, maxAge, clock, events, Stored(subs[i], now))
    {
      assert Taken(subs[i], issuers, verify, now, Stored(subs[i], now));
      assert StoredBy(verify, maxAge, clock, events, |front|, Stored(subs[i], now));
    }
  }

  lemma ProvisionedHere(verify: Verifier, maxAge: int, clock: int, front: seq<Event>, g: Grant, ids: seq<string>,
                        now: int)
    ensures forall i :: 0 <= i < |ids| ==>
              HasOrigin(verify, maxAge, clock, front + [Provision(g, ids, now)], Provisioned(g, ids[i], i, now))
  {
    hide Run, Provisioned;
    var events := front + [Provision(g, ids, now)];
    assert events[|front|] == Provision(g, ids, now);
    forall i | 0 <= i < |ids|
      ensures HasOrigin(verify, maxAge, clock, events, Provisioned(g, ids[i], i, now))
    {
      assert StoredBy(verify, maxAge, clock, events, |front|, Provisioned(g, ids[i], i, now));
    }
  }

  lemma {:induction false} RunTraced(verify: Verifier, maxAge: int, clock: int, events: seq<Event>)
    ensures Traced(verify, maxAge, clock, events, Run(verify, maxAge, clock, events))
  {
    if events != [] {
      hide Traced, Step;
      var front, e := events[..|events| - 1], events[|events| - 1];
      RunTraced(verify, maxAge, clock, front);
      StepTraced(verify, maxAge, clock, front, e);
      assert events == front + [e];
    }
  }

  /**
   * After any run, whatever is held for an agent and domain was stored for them
   * by an event that earned it; peer receipts whose peer confirms have been approved.
   */
  lemma HeldIsEarned(verify: Verifier, maxAge: int, clock: int, events: seq<Event>, key: string, r: StoredReceipt)
    requires r in Lookup(Run(verify, maxAge, clock, events).held.receipts, key)
    ensures key == Key(r.agentId, r.domain)
    ensures exists k :: 0 <= k < |events| && StoredBy(verify, maxAge, clock, events, k, r)
  {
    hide StoredBy, Run, Key;
    RunTraced(verify, maxAge, clock, events);
  }
}
