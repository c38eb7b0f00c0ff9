/** Token issuance at the Trust Authority, with automatic quarantine. */
module TrustTokens {
  import opened Basics
  import opened TrustStore
  import TrustRoutes
  import WaterFill
  import Sums
  import Aggregate
  import AggregateV10

  const AUTO_QUARANTINE_THRESHOLD := 0.35
  const AUTO_LIFT_THRESHOLD := 0.65
  const PEER_MAX_ISSUER_WEIGHT := 0.20
  const PROVISIONED_MAX_ISSUER_WEIGHT := 0.30

  /** The aggregation does not look at identifiers. */
  function AsAggregated(r: StoredReceipt): Aggregate.Receipt
    requires r.timestamp.Some?
  {
    Aggregate.Receipt(if r.id.Text? then r.id.text else "", r.issuerId, r.score, r.timestamp.value)
  }

  /** The receipts the aggregation is given, without those whose timestamp converts to no number. */
  function Aggregated(rs: seq<StoredReceipt>): seq<Aggregate.Receipt>
  {
    if rs == [] then []
    else
      var front, r := Aggregated(rs[..|rs| - 1]), rs[|rs| - 1];
      if r.timestamp.None? then front else front + [AsAggregated(r)]
  }

  /** The registered peer issuers among those of the receipts. */
  function PeerIssuers(rs: seq<StoredReceipt>, issuers: map<string, Issuer>): set<string>
  {
    set r | r in rs && r.issuerId in issuers && issuers[r.issuerId].issuerType == AgentPeer :: r.issuerId
  }

  /** Peers and the authority itself have caps of their own, below the general one; nobody else has. */
  function Overrides(rs: seq<StoredReceipt>, issuers: map<string, Issuer>): map<string, real>
  {
    map id | id in PeerIssuers(rs, issuers) + {TrustRoutes.PROVISIONED_ISSUER_ID} ::
      if id in PeerIssuers(rs, issuers) then PEER_MAX_ISSUER_WEIGHT else PROVISIONED_MAX_ISSUER_WEIGHT
  }

  /** The agent after a token request that computed `score`. */
  function AutoAdjust(a: AgentRecord, score: real, why: string, now: int): AgentRecord
  {
    var current := AfterStatus(a, now);
    if StatusOf(a, now) == Active && score < AUTO_QUARANTINE_THRESHOLD then Quarantine(current, Auto, why, now, None)
    else if StatusOf(a, now) == Quarantined && current.mode == Some(Auto) && score >= AUTO_LIFT_THRESHOLD
    then Lift(current)
    else current
  }

  function Lifetime(requested: Option<int>, quarantined: bool): int
  {
    var wanted := if requested.Some? then requested.value else 300;
    var limit := if quarantined then 60 else 600;
    if wanted < limit then wanted else limit
  }

  /** The requested lifetime, five minutes by default, up to ten minutes, or one while quarantined. */
  lemma LifetimeIs(requested: Option<int>, quarantined: bool)
    ensures requested.None? ==> Lifetime(requested, quarantined) == if quarantined then 60 else 300
    ensures requested.Some? && requested.value <= (if quarantined then 60 else 600) ==>
      Lifetime(requested, quarantined) == requested.value
    ensures requested.Some? && requested.value > (if quarantined then 60 else 600) ==>
      Lifetime(requested, quarantined) == if quarantined then 60 else 600
  {
  }

  datatype Response =
    | Refused(status: int, code: string)
    | Token(subject: string, domain: string, score: real, issuerCount: nat, expiresAt: int, quarantined: Option<Mode>)

  function RefusalFor(agents: map<string, AgentRecord>, agentId: string, domain: string, apiKey: string)
    : Option<Response>
  {
    if agentId == "" || domain == "" then Some(Refused(400, "INVALID_REQUEST"))
    else if agentId !in agents then Some(Refused(404, "AGENT_NOT_FOUND"))
    else if agents[agentId].blocked then Some(Refused(403, "AGENT_BLOCKED"))
    else if apiKey == "" || apiKey != agents[agentId].apiKey then Some(Refused(401, "UNAUTHORIZED"))
    else None
  }

  /** The agent is known, not blocked, and asks with its own key. */
  ghost predicate Entitled(agents: map<string, AgentRecord>, agentId: string, domain: string, apiKey: string)
  {
    && agentId != "" && domain != "" && agentId in agents && !agents[agentId].blocked
    && apiKey != "" && agents[agentId].apiKey == apiKey
  }

  /** Whoever is not entitled is told why: the first of these that applies. */
  lemma RefusedExactlyWhen(agents: map<string, AgentRecord>, agentId: string, domain: string, apiKey: string)
    ensures var refusal := RefusalFor(agents, agentId, domain, apiKey);
      var named := agentId != "" && domain != "";
      && (refusal == None <==> Entitled(agents, agentId, domain, apiKey))
      && (refusal == Some(Refused(400, "INVALID_REQUEST")) <==> !named)
      && (refusal == Some(Refused(404, "AGENT_NOT_FOUND")) <==> named && agentId !in agents)
      && (refusal == Some(Refused(403, "AGENT_BLOCKED")) <==> named && agentId in agents && agents[agentId].blocked)
      && (refusal == Some(Refused(401, "UNAUTHORIZED")) <==>
            && named && agentId in agents && !agents[agentId].blocked
            && !Entitled(agents, agentId, domain, apiKey))
  {
  }

  /** The parameters the token route aggregates with. */
  function RouteParams(decay: int -> real): Aggregate.Params
  {
    Aggregate.Params(300.0, 0.4, 1.5, decay)
  }

  /** In the token route, scores below 0.5 weigh one and a half times as much. */
  lemma NegativeWeighsMore(decay: int -> real, now: int, r: Aggregate.Receipt)
    ensures Aggregate.SignalWeight(RouteParams(decay), now, r)
         == if r.score < 0.5 then 1.5 * decay(now - r.timestamp) else decay(now - r.timestamp)
  {
  }

  lemma OverridesStep(rs: seq<StoredReceipt>, i: nat, issuers: map<string, Issuer>)
    requires i < |rs|
    ensures var before, id := Overrides(rs[..i], issuers), rs[i].issuerId;
      Overrides(rs[..i + 1], issuers)
        == if id in issuers && issuers[id].issuerType == AgentPeer then before[id := PEER_MAX_ISSUER_WEIGHT] else before
  {
    assert rs[..i + 1] == rs[..i] + [rs[i]];
    var id := rs[i].issuerId;
    assert PeerIssuers(rs[..i + 1], issuers) == PeerIssuers(rs[..i], issuers) +
      if id in issuers && issuers[id].issuerType == AgentPeer then {id} else {};
    hide PeerIssuers;
  }

  method BuildOverrides(store: TTPStore, receipts: seq<StoredReceipt>) returns (overrides: map<string, real>)
    ensures overrides == Overrides(receipts, store.issuers)
  {
    overrides := map[TrustRoutes.PROVISIONED_ISSUER_ID := PROVISIONED_MAX_ISSUER_WEIGHT];
    for i := 0 to |receipts|
      invariant overrides == Overrides(receipts[..i], store.issuers)
    {
      hide Overrides;
      OverridesStep(receipts, i, store.issuers);
      var id := receipts[i].issuerId;
      if id in store.issuers && store.issuers[id].issuerType == AgentPeer {
        overrides := overrides[id := PEER_MAX_ISSUER_WEIGHT];
      }
    }
    assert receipts[..|receipts|] == receipts;
  }

  /** `score` is the aggregate of the receipts in the window, over the issuers listed. */
  ghost predicate Scored(rs: seq<StoredReceipt>, registered: map<string, Issuer>, decay: int -> real, now: int,
                         score: real, issuerCount: nat, issuers: seq<WaterFill.Issuer>)
  {
    var p, overrides := RouteParams(decay), Overrides(rs, registered);
    var window := Aggregate.Window(p, now, Aggregated(rs));
    && Aggregate.FromWindow(p, now, window, issuers)
    && Sums.Sum(AggregateV10.CappedFractions(issuers, p, overrides)) > 0.0
    && score == Clamp01(AggregateV10.Score(issuers, p, overrides))
    && issuerCount == |Aggregate.IssuerIds(window)|
  }

  /** How much of the weight one issuer may hold before renormalising. */
  function TokenCap(registered: map<string, Issuer>, id: string): real
  {
    if id in registered && registered[id].issuerType == AgentPeer then 0.20
    else if id == "ttp-authority-provisioned" then 0.30
    else 0.40
  }

  function TokenWeights(registered: map<string, Issuer>, issuers: seq<WaterFill.Issuer>): seq<real>
    requires Sums.Sum(Aggregate.Raws(issuers)) > 0.0
  {
    var total := Sums.Sum(Aggregate.Raws(issuers));
    Sums.Map(issuers, (i: WaterFill.Issuer) => Min(i.raw / total, TokenCap(registered, i.id)))
  }

  /** The score is the mean of the issuers' scores, weighted with their fractions up to these caps. */
  lemma ScoredIsCappedMean(rs: seq<StoredReceipt>, registered: map<string, Issuer>, decay: int -> real, now: int,
                           score: real, issuerCount: nat, issuers: seq<WaterFill.Issuer>)
    requires forall age :: decay(age) > 0.0
    requires Scored(rs, registered, decay, now, score, issuerCount, issuers)
    ensures Sums.Sum(TokenWeights(registered, issuers)) > 0.0
    ensures var w := TokenWeights(registered, issuers);
      score == Clamp01(Sums.Sum(Sums.Products(AggregateV10.ScoresOf(issuers), w)) / Sums.Sum(w))
  {
    var p, overrides := RouteParams(decay), Overrides(rs, registered);
    var window := Aggregate.Window(p, now, Aggregated(rs));
    SomeIssuer(p, now, window, issuers);
    hide Sums.Sum, Aggregate.TotalWeight, Aggregate.WeightedSum, Aggregate.Window, Aggregated, Overrides, TokenCap;
    forall i | 0 <= i < |issuers|
      ensures issuers[i].raw > 0.0
      ensures TokenWeights(registered, issuers)[i] == AggregateV10.CappedFractions(issuers, p, overrides)[i]
    {
      assert Aggregate.Summarises(p, now, window, issuers[i]) && Aggregate.Ids(issuers)[i] == issuers[i].id;
      TokenCapIs(rs, registered, decay, now, issuers[i].id);
    }
    assert TokenWeights(registered, issuers) == AggregateV10.CappedFractions(issuers, p, overrides);
    AggregateV10.ScoreIsCappedMean(issuers, p, overrides);
  }

  lemma TokenCapIs(rs: seq<StoredReceipt>, registered: map<string, Issuer>, decay: int -> real, now: int, id: string)
    requires id in Aggregate.IssuerIds(Aggregate.Window(RouteParams(decay), now, Aggregated(rs)))
    ensures AggregateV10.CapFor(RouteParams(decay), Overrides(rs, registered), id) == TokenCap(registered, id)
  {
    WindowMembers(rs, decay, now);
  }

  /** The scores of the receipts of the last 300 s. */
  ghost predicate RecentBetween(rs: seq<StoredReceipt>, now: int, lo: real, hi: real)
  {
    forall r :: r in rs && r.timestamp.Some? && now - r.timestamp.value <= 300000 ==> lo <= r.score <= hi
  }

  /** The score of a token lies between the scores of the receipts it rests on. */
  lemma ScoredBetween(rs: seq<StoredReceipt>, registered: map<string, Issuer>, decay: int -> real, now: int,
                      score: real, issuerCount: nat, issuers: seq<WaterFill.Issuer>, lo: real, hi: real)
    requires forall age :: decay(age) > 0.0
    requires Scored(rs, registered, decay, now, score, issuerCount, issuers)
    requires 0.0 <= lo && hi <= 1.0
    requires RecentBetween(rs, now, lo, hi)
    ensures lo <= score <= hi
  {
    hide Aggregate.FromWindow, AggregateV10.Score;
    var p := RouteParams(decay);
    SomeIssuer(p, now, Aggregate.Window(p, now, Aggregated(rs)), issuers);
    hide Sums.Sum, AggregateV10.CappedFractions;
    WindowMembers(rs, decay, now);
    AggregateV10.ScoreBetweenReceipts(p, now, Aggregate.Window(p, now, Aggregated(rs)), issuers,
                                      Overrides(rs, registered), lo, hi);
  }

  lemma SomeIssuer(p: Aggregate.Params, now: int, window: seq<Aggregate.Receipt>, issuers: seq<WaterFill.Issuer>)
    requires Aggregate.FromWindow(p, now, window, issuers)
    ensures issuers != []
  {
  }

  /** What is aggregated are receipts at most 300 s old. */
  lemma {:induction false} WindowMembers(rs: seq<StoredReceipt>, decay: int -> real, now: int)
    ensures forall x :: x in Aggregate.Window(RouteParams(decay), now, Aggregated(rs)) ==>
      exists r :: r in rs && r.timestamp.Some? && now - r.timestamp.value <= 300000 && x == AsAggregated(r)
  {
    if rs != [] {
      var front, r := rs[..|rs| - 1], rs[|rs| - 1];
      WindowMembers(front, decay, now);
      assert rs == front + [r];
      if r.timestamp.Some? {
        assert Aggregated(rs)[..|Aggregated(rs)| - 1] == Aggregated(front);
      }
    }
  }

  /** There is something to aggregate exactly when some receipt is at most 300 s old. */
  lemma {:induction false} RecentExactlyWhen(rs: seq<StoredReceipt>, decay: int -> real, now: int)
    ensures Aggregate.Window(RouteParams(decay), now, Aggregated(rs)) != [] <==>
      exists r :: r in rs && r.timestamp.Some? && now - r.timestamp.value <= 300000
  {
    if rs != [] {
      var front, r := rs[..|rs| - 1], rs[|rs| - 1];
      RecentExactlyWhen(front, decay, now);
      assert rs == front + [r];
      if r.timestamp.Some? {
        assert Aggregated(rs)[..|Aggregated(rs)| - 1] == Aggregated(front);
      }
    }
  }

  method ComputeScore(store: TTPStore, agentId: string, domain: string, now: int, decay: int -> real)
    returns (aggregation: AggregateV10.Result, ghost issuers: seq<WaterFill.Issuer>)
    requires forall age :: decay(age) > 0.0
    ensures aggregation.InsufficientTrustData? <==>
      Aggregate.Window(RouteParams(decay), now, Aggregated(store.GetReceipts(agentId, domain))) == []
    ensures aggregation.Result? ==>
      Scored(store.GetReceipts(agentId, domain), store.issuers, decay, now, aggregation.score,
             aggregation.contributingIssuers, issuers)
  {
    hide Aggregate.FromWindow, AggregateV10.CappedFractions, AggregateV10.Score, Sums.Sum, Aggregate.Window;
    var receipts := store.GetReceipts(agentId, domain);
    var overrides := BuildOverrides(store, receipts);
    aggregation, issuers := AggregateV10.AggregateTrustScore(Aggregated(receipts), now, RouteParams(decay), overrides);
  }

  lemma RecordOf(store: TTPStore, id: string)
    requires id in store.agents
    ensures id in store.Records() && store.Records()[id] == store.agents[id].Record()
  {
  }

  method AdjustQuarantine(store: TTPStore, agentId: string, score: real, now: int, why: string)
    requires store.Valid() && agentId in store.agents
    modifies store.agents.Values
    ensures store.Records()
         == old(store.Records())[agentId := AutoAdjust(old(store.Records())[agentId], score, why, now)]
  {
    hide StatusOf, AfterStatus, Expired, Quarantine, Lift, TTPStore.Records;
    RecordOf(store, agentId);
    var agent := store.agents[agentId];
    var currentStatus := store.GetAgentStatus(agentId, now);
    RecordOf(store, agentId);
    if currentStatus == Active && score < AUTO_QUARANTINE_THRESHOLD {
      var done := store.QuarantineAgent(agentId, Auto, why, now, None);
    } else if currentStatus == Quarantined && agent.mode == Some(Auto) {
      if score >= AUTO_LIFT_THRESHOLD {
        var done := store.LiftQuarantine(agentId);
      }
    }
  }

  lemma AdjustedUnexpired(a: AgentRecord, score: real, why: string, now: int)
    ensures AfterStatus(AutoAdjust(a, score, why, now), now) == AutoAdjust(a, score, why, now)
  {
  }

  /** The trust of the agent decides its token, and may quarantine it or lift an automatic quarantine. */
  method IssueToken(store: TTPStore, agentId: string, domain: string, apiKey: string, requestedTtl: Option<int>,
                    now: int, decay: int -> real, describe: real -> string)
    returns (response: Response, ghost issuers: seq<WaterFill.Issuer>)
    requires store.Valid()
    requires forall age :: decay(age) > 0.0
    modifies store.agents.Values
    ensures var refusal := RefusalFor(old(store.Records()), agentId, domain, apiKey);
      if refusal.Some? then response == refusal.value
      else if Aggregate.Window(RouteParams(decay), now, Aggregated(store.GetReceipts(agentId, domain))) == []
      then response == Refused(403, "INSUFFICIENT_TRUST_DATA")
      else
        && response.Token? && response.subject == agentId && response.domain == domain
        && Scored(store.GetReceipts(agentId, domain), store.issuers, decay, now, response.score, response.issuerCount,
                  issuers)
    ensures response.Token? <==>
      && Entitled(old(store.Records()), agentId, domain, apiKey)
      && exists r :: r in store.GetReceipts(agentId, domain) && r.timestamp.Some? && now - r.timestamp.value <= 300000
    ensures response.Token? ==>
      forall lo, hi :: 0.0 <= lo && hi <= 1.0 && RecentBetween(store.GetReceipts(agentId, domain), now, lo, hi) ==>
        lo <= response.score <= hi
    ensures response.Refused? ==> store.Records() == old(store.Records())
    ensures response.Token? ==>
      && agentId in old(store.Records())
      && var agent := AutoAdjust(old(store.Records())[agentId], response.score, describe(response.score), now);
      var quarantined := StatusOf(agent, now) == Quarantined;
      && store.Records() == old(store.Records())[agentId := agent]
      && response.expiresAt == now / 1000 + Lifetime(requestedTtl, quarantined)
      && response.quarantined == if quarantined then agent.mode else None
  {
    hide Scored, Aggregate.Window, AutoAdjust, Aggregated, RecentBetween;
    issuers := [];
    RefusedExactlyWhen(store.Records(), agentId, domain, apiKey);
    RecentExactlyWhen(store.GetReceipts(agentId, domain), decay, now);
    if agentId == "" || domain == "" {
      return Refused(400, "INVALID_REQUEST"), issuers;
    }
    if agentId !in store.agents {
      return Refused(404, "AGENT_NOT_FOUND"), issuers;
    }
    var agent := store.agents[agentId];
    if agent.blocked {
      return Refused(403, "AGENT_BLOCKED"), issuers;
    }
    if apiKey == "" || apiKey != agent.apiKey {
      return Refused(401, "UNAUTHORIZED"), issuers;
    }
    var aggregation: AggregateV10.Result;
    aggregation, issuers := ComputeScore(store, agentId, domain, now, decay);
    if aggregation.InsufficientTrustData? {
      return Refused(403, "INSUFFICIENT_TRUST_DATA"), issuers;
    }
    var score := aggregation.score;
    ghost var receipts := store.GetReceipts(agentId, domain);
    forall lo, hi | 0.0 <= lo && hi <= 1.0 && RecentBetween(receipts, now, lo, hi)
      ensures lo <= score <= hi
    {
      ScoredBetween(receipts, store.issuers, decay, now, score, aggregation.contributingIssuers, issuers, lo, hi);
    }
    AdjustedUnexpired(agent.Record(), score, describe(score), now);
    AdjustQuarantine(store, agentId, score, now, describe(score));
    var effectiveStatus := store.GetAgentStatus(agentId, now);
    assert agent.Record() == store.Records()[agentId];
    var quarantined := effectiveStatus == Quarantined;
    response := Token(agentId, domain, score, aggregation.contributingIssuers,
                      now / 1000 + Lifetime(requestedTtl, quarantined), if quarantined then agent.mode else None);
  }
}
