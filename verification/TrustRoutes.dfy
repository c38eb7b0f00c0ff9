/** Receipt submission and provisioning at the Trust Authority. */
module TrustRoutes {
  import opened Basics
  import opened TrustStore

  const MAX_RECEIPT_AGE := 86400000
  const MAX_FUTURE := 300000
  const PROVISIONED_ISSUER_ID := "ttp-authority-provisioned"
  const PEER_MIN_ATTESTER_SCORE := 0.90

  /**
   * A submitted receipt: `missing` when a required field is absent, `score` is
   * None when it is not a number. The timestamp is only ever used in arithmetic:
   * `timestamp` is the number it converts to there (null to 0, numeric text to
   * its value), and None when it converts to none.
   */
  datatype Submission =
    | NotAnObject
    | Submission(version: string, missing: bool, id: Identifier, agentId: string, issuerId: string, domain: string,
                 eventType: string, timestamp: Option<int>, score: Option<real>, signature: string)

  datatype Response = Accepted(id: Identifier) | Duplicate(id: Identifier) | Rejected(status: int, code: string)

  /** Signature verification: an arbitrary function of the receipt and the issuer's key. */
  type Verifier = (Submission, string) -> bool

  function Validate(sub: Submission, issuers: map<string, Issuer>, now: int): Option<Response>
  {
    if sub.NotAnObject? then Some(Rejected(400, "INVALID_SCHEMA"))
    else if sub.version != "1.0" then Some(Rejected(400, "UNSUPPORTED_VERSION"))
    else if sub.missing then Some(Rejected(400, "INVALID_SCHEMA"))
    else if sub.score.None? || sub.score.value < 0.0 || sub.score.value > 1.0
    then Some(Rejected(400, "SCORE_OUT_OF_RANGE"))
    else if sub.timestamp.Some? && sub.timestamp.value - now > MAX_FUTURE
    then Some(Rejected(400, "RECEIPT_FUTURE_DATED"))
    else if sub.timestamp.Some? && now - sub.timestamp.value > MAX_RECEIPT_AGE
    then Some(Rejected(400, "RECEIPT_TOO_OLD"))
    else if sub.issuerId !in issuers then Some(Rejected(401, "ISSUER_NOT_REGISTERED"))
    else None
  }

  predicate Storable(sub: Submission)
  {
    sub.Submission? && sub.score.Some?
  }

  function Stored(sub: Submission, now: int): StoredReceipt
    requires Storable(sub)
  {
    StoredReceipt(sub.id, sub.agentId, sub.issuerId, sub.domain, sub.timestamp, sub.score.value, now)
  }

  /** Store unless the identifier is still remembered. */
  function StoreOnce(h: Holdings, sub: Submission, now: int): (Holdings, Response)
    requires Storable(sub)
  {
    if Remembered(h.seen, sub.id) then (h, Duplicate(sub.id)) else (Store(h, Stored(sub, now)), Accepted(sub.id))
  }

  function Submit(h: Holdings, issuers: map<string, Issuer>, verify: Verifier, sub: Submission, now: int)
    : (Holdings, Response)
  {
    var problem := Validate(sub, issuers, now);
    if problem.Some? then (h, problem.value)
    else if !verify(sub, issuers[sub.issuerId].publicKey) then (h, Rejected(400, "INVALID_SIGNATURE"))
    else StoreOnce(h, sub, now)
  }

  /**
   * A complete receipt of the current version with a score in [0, 1]
   * and a timestamp at most a day old, or 300 s ahead.
   */
  ghost predicate Acceptable(sub: Submission, issuers: map<string, Issuer>, verify: Verifier, now: int)
  {
    && Storable(sub) && sub.version == "1.0" && !sub.missing && 0.0 <= sub.score.value <= 1.0
    && (sub.timestamp.Some? ==> now - 86400000 <= sub.timestamp.value <= now + 300000)
    && sub.issuerId in issuers && verify(sub, issuers[sub.issuerId].publicKey)
  }

  /** A receipt is stored exactly when it is acceptable and its identifier is not remembered. */
  lemma AcceptedExactlyWhen(h: Holdings, issuers: map<string, Issuer>, verify: Verifier, sub: Submission, now: int)
    ensures var (h', response) := Submit(h, issuers, verify, sub, now);
      && (response.Accepted? <==> Acceptable(sub, issuers, verify, now) && !Remembered(h.seen, sub.id))
      && (response.Duplicate? <==> Acceptable(sub, issuers, verify, now) && Remembered(h.seen, sub.id))
      && h' == if response.Accepted? then Store(h, Stored(sub, now)) else h
  {
    hide Store;
  }

  /** Each way to be rejected, with its exact condition: the first requirement that fails. */
  lemma RejectedExactlyWhen(h: Holdings, issuers: map<string, Issuer>, verify: Verifier, sub: Submission, now: int)
    ensures var response := Submit(h, issuers, verify, sub, now).1;
      var complete := sub.Submission? && sub.version == "1.0" && !sub.missing;
      var inRange := complete && sub.score.Some? && 0.0 <= sub.score.value <= 1.0;
      var late := inRange && sub.timestamp.Some? && sub.timestamp.value < now - 86400000;
      var early := inRange && sub.timestamp.Some? && sub.timestamp.value > now + 300000;
      var known := inRange && !late && !early && sub.issuerId in issuers;
      && (response == Rejected(400, "UNSUPPORTED_VERSION") <==> sub.Submission? && sub.version != "1.0")
      && (response == Rejected(400, "INVALID_SCHEMA") <==>
            sub.NotAnObject? || (sub.version == "1.0" && sub.missing))
      && (response == Rejected(400, "SCORE_OUT_OF_RANGE") <==> complete && !inRange)
      && (response == Rejected(400, "RECEIPT_FUTURE_DATED") <==> early)
      && (response == Rejected(400, "RECEIPT_TOO_OLD") <==> late)
      && (response == Rejected(401, "ISSUER_NOT_REGISTERED") <==> inRange && !late && !early && !known)
      && (response == Rejected(400, "INVALID_SIGNATURE") <==>
            known && !verify(sub, issuers[sub.issuerId].publicKey))
  {
    hide Store;
  }

  method SubmitReceipt(store: TTPStore, verify: Verifier, sub: Submission, now: int) returns (response: Response)
    modifies store`receipts, store`seenReceiptIds
    ensures (store.Held(), response) == Submit(old(store.Held()), store.issuers, verify, sub, now)
  {
    var problem := Validate(sub, store.issuers, now);
    if problem.Some? {
      return problem.value;
    }
    if !verify(sub, store.issuers[sub.issuerId].publicKey) {
      return Rejected(400, "INVALID_SIGNATURE");
    }
    if store.IsReceiptDuplicate(sub.id) {
      return Duplicate(sub.id);
    }
    store.StoreReceipt(Stored(sub, now));
    return Accepted(sub.id);
  }

  // ---------------------------------------------------------------- batches

  function SubmitAll(h: Holdings, issuers: map<string, Issuer>, verify: Verifier, subs: seq<Submission>,
                     now: int): Holdings
  {
    if subs == [] then h
    else Submit(SubmitAll(h, issuers, verify, subs[..|subs| - 1], now), issuers, verify, subs[|subs| - 1], now).0
  }

  function SubmitBatch(h: Holdings, issuers: map<string, Issuer>, verify: Verifier, subs: seq<Submission>,
                       now: int): Holdings
  {
    if 1 <= |subs| <= 100 then SubmitAll(h, issuers, verify, subs, now) else h
  }

  function ResponseAt(h: Holdings, issuers: map<string, Issuer>, verify: Verifier, subs: seq<Submission>, i: nat,
                      now: int)
    : Response
    requires i < |subs|
  {
    Submit(SubmitAll(h, issuers, verify, subs[..i], now), issuers, verify, subs[i], now).1
  }

  /** The receipts of a batch are taken in order, each as if submitted alone; None when the batch is refused. */
  method SubmitReceiptBatch(store: TTPStore, verify: Verifier, subs: seq<Submission>, now: int)
    returns (results: Option<seq<Response>>)
    modifies store`receipts, store`seenReceiptIds
    ensures store.Held() == SubmitBatch(old(store.Held()), store.issuers, verify, subs, now)
    ensures results.Some? <==> 1 <= |subs| <= 100
    ensures results.Some? ==>
      && |results.value| == |subs|
      && forall i :: 0 <= i < |subs| ==>
           results.value[i] == ResponseAt(old(store.Held()), store.issuers, verify, subs, i, now)
  {
    if |subs| == 0 || |subs| > 100 {
      return None;
    }
    hide Submit;
    var out: seq<Response> := [];
    for i := 0 to |subs|
      invariant |out| == i && store.issuers == old(store.issuers)
      invariant store.Held() == SubmitAll(old(store.Held()), store.issuers, verify, subs[..i], now)
      invariant forall j :: 0 <= j < i ==> out[j] == ResponseAt(old(store.Held()), store.issuers, verify, subs, j, now)
    {
      var response := SubmitReceipt(store, verify, subs[i], now);
      assert subs[..i + 1][..i] == subs[..i];
      out := out + [response];
    }
    assert subs[..|subs|] == subs;
    return Some(out);
  }

  /** Nothing that is held or remembered is lost. */
  ghost predicate Grows(h: Holdings, h': Holdings)
  {
    && (forall key, r :: r in Lookup(h.receipts, key) ==> r in Lookup(h'.receipts, key))
    && (forall id :: id in h.seen ==> id in h'.seen)
  }

  lemma SubmitGrows(h: Holdings, issuers: map<string, Issuer>, verify: Verifier, sub: Submission, now: int)
    ensures var (h', response) := Submit(h, issuers, verify, sub, now);
      && Grows(h, h')
      && (response.Accepted? ==>
            sub.Submission? && Storable(sub) && Stored(sub, now) in Lookup(h'.receipts, Key(sub.agentId, sub.domain)))
  {
    hide Key, Submit;
    AcceptedExactlyWhen(h, issuers, verify, sub, now);
  }

  lemma {:induction false} BatchGrows(h: Holdings, issuers: map<string, Issuer>, verify: Verifier,
                                      subs: seq<Submission>, now: int, n: nat)
    requires n <= |subs|
    ensures Grows(SubmitAll(h, issuers, verify, subs[..n], now), SubmitAll(h, issuers, verify, subs, now))
    decreases |subs|
  {
    hide Submit;
    if n == |subs| {
      assert subs[..n] == subs;
    } else {
      var last := |subs| - 1;
      assert subs[..last][..n] == subs[..n];
      BatchGrows(h, issuers, verify, subs[..last], now, n);
      SubmitGrows(SubmitAll(h, issuers, verify, subs[..last], now), issuers, verify, subs[last], now);
    }
  }

  /** What a batch of up to 100 receipts answers for one of them holds of the store; larger ones do nothing. */
  lemma BatchHolds(h: Holdings, issuers: map<string, Issuer>, verify: Verifier, subs: seq<Submission>, i: nat, now: int)
    requires i < |subs|
    ensures |subs| > 100 ==> SubmitBatch(h, issuers, verify, subs, now) == h
    ensures var h', sub := SubmitBatch(h, issuers, verify, subs, now), subs[i];
      |subs| <= 100 && ResponseAt(h, issuers, verify, subs, i, now).Accepted? ==>
        && Acceptable(sub, issuers, verify, now)
        && Stored(sub, now) in Lookup(h'.receipts, Key(sub.agentId, sub.domain))
    ensures |subs| <= 100 && Acceptable(subs[i], issuers, verify, now) && !Remembered(h.seen, subs[i].id)
            && (forall j :: 0 <= j < i && subs[j].Submission? ==> subs[j].id != subs[i].id) ==>
              ResponseAt(h, issuers, verify, subs, i, now).Accepted?
  {
    var before := SubmitAll(h, issuers, verify, subs[..i], now);
    assert subs[..i + 1][..i] == subs[..i];
    assert SubmitAll(h, issuers, verify, subs[..i + 1], now) == Submit(before, issuers, verify, subs[i], now).0;
    SubmitGrows(before, issuers, verify, subs[i], now);
    AcceptedExactlyWhen(before, issuers, verify, subs[i], now);
    BatchGrows(h, issuers, verify, subs, now, i + 1);
    if Acceptable(subs[i], issuers, verify, now) {
      StillNew(h, issuers, verify, subs[..i], now, subs[i].id);
    }
    hide Submit, Acceptable, SubmitAll, Stored, Key;
  }

  lemma {:induction false} StillNew(h: Holdings, issuers: map<string, Issuer>, verify: Verifier, subs: seq<Submission>,
                                    now: int, id: Identifier)
    ensures !Remembered(h.seen, id) && (forall j :: 0 <= j < |subs| && subs[j].Submission? ==> subs[j].id != id) ==>
      !Remembered(SubmitAll(h, issuers, verify, subs, now).seen, id)
  {
    if subs != [] {
      var n := |subs| - 1;
      StillNew(h, issuers, verify, subs[..n], now, id);
      AcceptedExactlyWhen(SubmitAll(h, issuers, verify, subs[..n], now), issuers, verify, subs[n], now);
      assert forall j :: 0 <= j < n ==> subs[..n][j] == subs[j];
      hide Submit;
    }
  }

  // ---------------------------------------------------------------- peer receipts

  /** The claims of an attester token that could be decoded. */
  datatype AttesterToken = AttesterToken(score: real, subject: string, exp: int)

  datatype PeerStep = Refused(response: Response) | AskConfirmation(url: string) | Ready

  /** Everything up to the confirmation call. */
  function PeerCheck(issuers: map<string, Issuer>, verify: Verifier, sub: Submission, token: Option<AttesterToken>,
                     now: int)
    : PeerStep
  {
    var problem := Validate(sub, issuers, now);
    if problem.Some? then Refused(problem.value)
    else if sub.eventType != "agent_peer_observation" then Refused(Rejected(400, "INVALID_EVENT_TYPE"))
    else
      var issuer := issuers[sub.issuerId];
      if issuer.issuerType != AgentPeer then Refused(Rejected(403, "PEER_ATTESTER_INELIGIBLE"))
      else if !verify(sub, issuer.publicKey) then Refused(Rejected(400, "INVALID_SIGNATURE"))
      else if token.None? || token.value.score == 0.0 || token.value.subject == "" || token.value.exp == 0 then
        Refused(Rejected(400, "INVALID_REQUEST"))
      else if token.value.exp * 1000 < now then Refused(Rejected(403, "PEER_ATTESTER_INELIGIBLE"))
      else if token.value.subject != sub.issuerId then Refused(Rejected(403, "PEER_ATTESTER_INELIGIBLE"))
      else if token.value.score < MinAttesterScore(issuer) then Refused(Rejected(403, "PEER_ATTESTER_INELIGIBLE"))
      else if issuer.confirmationUrl.Some? && issuer.confirmationUrl.value != "" then
        AskConfirmation(issuer.confirmationUrl.value)
      else Ready
  }

  function MinAttesterScore(issuer: Issuer): real
  {
    if issuer.minAttesterScore.Some? then issuer.minAttesterScore.value else PEER_MIN_ATTESTER_SCORE
  }

  /** The attester is a registered peer issuer with a live token of its own and enough trust. */
  ghost predicate Attested(issuer: Issuer, sub: Submission, token: Option<AttesterToken>, now: int)
    requires sub.Submission?
  {
    && issuer.issuerType == AgentPeer && sub.eventType == "agent_peer_observation"
    && token.Some? && token.value.score != 0.0 && token.value.score >= MinAttesterScore(issuer)
    && token.value.subject == sub.issuerId != "" && token.value.exp != 0 && now <= token.value.exp * 1000
  }

  /** A peer receipt gets past the checks exactly when it is acceptable and its attester qualifies. */
  lemma PeerPassesExactlyWhen(issuers: map<string, Issuer>, verify: Verifier, sub: Submission,
                              token: Option<AttesterToken>, now: int)
    ensures !PeerCheck(issuers, verify, sub, token, now).Refused? <==>
      Acceptable(sub, issuers, verify, now) && Attested(issuers[sub.issuerId], sub, token, now)
  {
  }

  /** Why a peer receipt is refused, beyond what refuses any receipt. */
  lemma PeerRefusedExactlyWhen(issuers: map<string, Issuer>, verify: Verifier, sub: Submission,
                               token: Option<AttesterToken>, now: int)
    requires sub.Submission? && sub.issuerId in issuers && Acceptable(sub, issuers, verify, now)
    ensures var check := PeerCheck(issuers, verify, sub, token, now);
      var peer := issuers[sub.issuerId].issuerType == AgentPeer;
      var observed := sub.eventType == "agent_peer_observation";
      var complete := token.Some? && token.value.score != 0.0 && token.value.subject != "" && token.value.exp != 0;
      var least := if issuers[sub.issuerId].minAttesterScore.Some? then issuers[sub.issuerId].minAttesterScore.value
                   else 0.90;
      && (check == Refused(Rejected(400, "INVALID_EVENT_TYPE")) <==> !observed)
      && (check == Refused(Rejected(400, "INVALID_REQUEST")) <==> observed && peer && !complete)
      && (check == Refused(Rejected(403, "PEER_ATTESTER_INELIGIBLE")) <==>
            && observed
            && (!peer || (complete && !(now <= token.value.exp * 1000 && token.value.subject == sub.issuerId
                                        && token.value.score >= least))))
      && (check.Refused? ==> check.response.Rejected?)
      && (check.Refused? ==>
            check.response.code in {"INVALID_EVENT_TYPE", "INVALID_REQUEST", "PEER_ATTESTER_INELIGIBLE"})
  {
  }

  /** A signature is looked at, and refused, exactly when nothing else than the attester token could be wrong. */
  lemma ForgedPeerRefusedExactlyWhen(issuers: map<string, Issuer>, verify: Verifier, sub: Submission,
                                     token: Option<AttesterToken>, now: int)
    requires sub.Submission? && sub.issuerId in issuers
    requires Acceptable(sub, issuers, (s: Submission, key: string) => true, now)
    ensures var issuer := issuers[sub.issuerId];
      PeerCheck(issuers, verify, sub, token, now) == Refused(Rejected(400, "INVALID_SIGNATURE")) <==>
        sub.eventType == "agent_peer_observation" && issuer.issuerType == AgentPeer && !verify(sub, issuer.publicKey)
  {
  }

  /** The peer has registered an address at which it confirms receipts. */
  predicate HasAddress(issuer: Issuer)
  {
    issuer.confirmationUrl.Some? && |issuer.confirmationUrl.value| > 0
  }

  /** A passing receipt waits for the peer exactly when the peer has registered a confirmation address. */
  lemma ConfirmationAskedExactlyWhen(issuers: map<string, Issuer>, verify: Verifier, sub: Submission,
                                     token: Option<AttesterToken>, now: int)
    ensures var check := PeerCheck(issuers, verify, sub, token, now);
      && (check.AskConfirmation? <==>
            && Acceptable(sub, issuers, verify, now) && Attested(issuers[sub.issuerId], sub, token, now)
            && HasAddress(issuers[sub.issuerId]))
      && (check.AskConfirmation? ==> issuers[sub.issuerId].confirmationUrl == Some(check.url))
      && (check.Ready? <==>
            && Acceptable(sub, issuers, verify, now) && Attested(issuers[sub.issuerId], sub, token, now)
            && !HasAddress(issuers[sub.issuerId]))
  {
  }

  /** The part after the confirmation call, or right away when there is none. */
  method AcceptPeerReceipt(store: TTPStore, sub: Submission, approved: bool, now: int) returns (response: Response)
    requires Storable(sub)
    modifies store`receipts, store`seenReceiptIds
    ensures approved ==> (store.Held(), response) == StoreOnce(old(store.Held()), sub, now)
    ensures !approved ==> store.Held() == old(store.Held()) && response == Rejected(403, "PEER_CONFIRMATION_DENIED")
  {
    if !approved {
      return Rejected(403, "PEER_CONFIRMATION_DENIED");
    }
    if store.IsReceiptDuplicate(sub.id) {
      return Duplicate(sub.id);
    }
    store.StoreReceipt(Stored(sub, now));
    return Accepted(sub.id);
  }

  // ---------------------------------------------------------------- provisioning

  datatype Grant = Grant(agentId: string, domain: string, score: real, durationS: real)

  function ProvisionProblem(domain: string, score: Option<real>, durationS: real): Option<Response>
  {
    if domain == "" || score.None? || score.value < 0.0 || score.value > 1.0 then Some(Rejected(400, "INVALID_REQUEST"))
    else if durationS <= 0.0 || durationS > 604800.0 then Some(Rejected(400, "INVALID_REQUEST"))
    else None
  }

  /** What can be provisioned: a domain, a score in [0, 1], and a duration of at most a week. */
  lemma ProvisionableExactlyWhen(domain: string, score: Option<real>, durationS: real)
    ensures ProvisionProblem(domain, score, durationS) == None <==>
      domain != "" && score.Some? && 0.0 <= score.value <= 1.0 && 0.0 < durationS <= 604800.0
    ensures ProvisionProblem(domain, score, durationS) in {None, Some(Rejected(400, "INVALID_REQUEST"))}
  {
  }

  function Provisioned(g: Grant, id: string, i: nat, now: int): StoredReceipt
  {
    StoredReceipt(Text(id), g.agentId, PROVISIONED_ISSUER_ID, g.domain,
                  Some(now - (g.durationS * 1000.0 * i as real / 6.0).Floor), g.score, now)
  }

  /** Stores a receipt for each identifier, staggered into the past. */
  function ProvisionAll(h: Holdings, g: Grant, ids: seq<string>, now: int): Holdings
  {
    if ids == [] then h
    else
      var n := |ids| - 1;
      Store(ProvisionAll(h, g, ids[..n], now), Provisioned(g, ids[n], n, now))
  }

  /** The provisioned receipts are the last ones held for the agent and domain, one for each identifier, in order. */
  lemma {:induction false} ProvisionedAreHeld(h: Holdings, g: Grant, ids: seq<string>, now: int)
    ensures var key := Key(g.agentId, g.domain);
      var before, after := Lookup(h.receipts, key), Lookup(ProvisionAll(h, g, ids, now).receipts, key);
      && |after| == |before| + |ids| && after[..|before|] == before
      && forall i :: 0 <= i < |ids| ==>
           ProvisionedFor(after[|before| + i], g, ids[i], i, now)
  {
    hide Key, Provisioned, ProvisionedFor, Store;
    if ids != [] {
      var n := |ids| - 1;
      var key, earlier := Key(g.agentId, g.domain), ProvisionAll(h, g, ids[..n], now);
      ProvisionedAreHeld(h, g, ids[..n], now);
      ProvisionedIs(g, ids[n], n, now);
      StoredIsLast(earlier, Provisioned(g, ids[n], n, now));
      assert Lookup(ProvisionAll(h, g, ids, now).receipts, key)
          == Lookup(earlier.receipts, key) + [Provisioned(g, ids[n], n, now)];
    }
  }

  lemma StoredIsLast(h: Holdings, r: StoredReceipt)
    ensures var key := Key(r.agentId, r.domain);
      Lookup(Store(h, r).receipts, key) == Lookup(h.receipts, key) + [r]
  {
  }

  /** In the authority's own name, and older by another sixth of the duration, in whole milliseconds, each. */
  ghost predicate ProvisionedFor(r: StoredReceipt, g: Grant, id: string, i: nat, now: int)
  {
    && r.id == Text(id) && r.agentId == g.agentId && r.domain == g.domain && r.score == g.score
    && r.issuerId == "ttp-authority-provisioned" && r.acceptedAt == now
    && r.timestamp.Some?
    && (now - r.timestamp.value) as real <= g.durationS * 1000.0 * i as real / 6.0
         < (now - r.timestamp.value) as real + 1.0
  }

  lemma ProvisionedIs(g: Grant, id: string, i: nat, now: int)
    ensures var r := Provisioned(g, id, i, now);
      r.agentId == g.agentId && r.domain == g.domain && ProvisionedFor(r, g, id, i, now)
  {
  }

  /** `ids` are the three identifiers drawn for the receipts. */
  method ProvisionTrust(store: TTPStore, agentId: string, domain: string, score: Option<real>, durationS: real,
                        ids: seq<string>, now: int) returns (problem: Option<Response>)
    requires |ids| == 3
    modifies store`receipts, store`seenReceiptIds
    ensures var malformed := ProvisionProblem(domain, score, durationS);
            problem == if malformed.Some? then malformed
                       else if agentId !in store.agents then Some(Rejected(404, "AGENT_NOT_FOUND"))
                       else None
    ensures problem.Some? ==> store.Held() == old(store.Held())
    ensures problem.None? ==>
      store.Held() == ProvisionAll(old(store.Held()), Grant(agentId, domain, score.value, durationS), ids, now)
  {
    problem := ProvisionProblem(domain, score, durationS);
    if problem.Some? {
      return;
    }
    if agentId !in store.agents {
      return Some(Rejected(404, "AGENT_NOT_FOUND"));
    }
    hide Store, Provisioned;
    var g := Grant(agentId, domain, score.value, durationS);
    for i := 0 to 3
      invariant store.Held() == ProvisionAll(old(store.Held()), g, ids[..i], now)
    {
      store.StoreReceipt(Provisioned(g, ids[i], i, now));
      assert ids[..i + 1][..i] == ids[..i];
    }
    assert ids[..3] == ids;
  }

  /**
   * Three receipts are to contribute at once, but they all lie in the 300-second
   * window exactly when the grant lasts little more than a quarter of an hour;
   * by default (3600 seconds) only the first one does.
   */
  lemma AllThreeContributeExactlyWhen(g: Grant, ids: seq<string>, now: int)
    requires |ids| == 3 && g.durationS > 0.0
    ensures (forall i :: 0 <= i < 3 ==> YoungEnough(Provisioned(g, ids[i], i, now), now, 300000))
      <==> g.durationS < 900.003
    ensures g.durationS == 3600.0 ==>
      forall i :: 1 <= i < 3 ==> !YoungEnough(Provisioned(g, ids[i], i, now), now, 300000)
  {
    var first, second, third := g.durationS * 1000.0 * 0 as real / 6.0, g.durationS * 1000.0 * 1 as real / 6.0,
                                g.durationS * 1000.0 * 2 as real / 6.0;
    assert 0.0 == first <= second <= third && third == g.durationS * 1000.0 / 3.0;
    assert third.Floor <= 300000 <==> third < 300001.0;
    assert YoungEnough(Provisioned(g, ids[0], 0, now), now, 300000) && second.Floor <= third.Floor;
    assert YoungEnough(Provisioned(g, ids[1], 1, now), now, 300000) <==> second.Floor <= 300000;
    assert YoungEnough(Provisioned(g, ids[2], 2, now), now, 300000) <==> third.Floor <= 300000;
  }
}
