/**
 * Trust score aggregation v1.1 (the Python binding) over exact reals.
 * Exponential decay is an arbitrary positive function of the receipt's age.
 */
module Aggregate {
  import opened Basics
  import opened Sums
  import opened WaterFill

  datatype Receipt = Receipt(id: string, issuer: string, score: real, timestamp: int)

  /** `decay` maps an age in milliseconds to the time-decay weight for the half-life in force. */
  datatype Params = Params(windowS: real, maxIssuerWeight: real, negativeMultiplier: real, decay: int -> real)

  const SLACK := 0.000000000001

  ghost predicate ValidParams(p: Params)
  {
    p.negativeMultiplier > 0.0 && forall age :: p.decay(age) > 0.0
  }

  // ---------------------------------------------------------------- steps 1 to 4

  predicate InWindow(p: Params, now: int, r: Receipt)
  {
    (now - r.timestamp) as real <= p.windowS * 1000.0
  }

  function Window(p: Params, now: int, receipts: seq<Receipt>): seq<Receipt>
  {
    if |receipts| == 0 then []
    else
      var front := Window(p, now, receipts[..|receipts| - 1]);
      var r := receipts[|receipts| - 1];
      if InWindow(p, now, r) then front + [r] else front
  }

  function SignalWeight(p: Params, now: int, r: Receipt): real
  {
    var decay := p.decay(now - r.timestamp);
    if r.score < 0.5 then decay * p.negativeMultiplier else decay
  }

  /** The weight of a receipt as far as issuer `id` is concerned. */
  function WeightFor(p: Params, now: int, id: string): Receipt -> real
  {
    (r: Receipt) => if r.issuer == id then SignalWeight(p, now, r) else 0.0
  }

  function ScoreFor(p: Params, now: int, id: string): Receipt -> real
  {
    (r: Receipt) => if r.issuer == id then Times(r.score, SignalWeight(p, now, r)) else 0.0
  }

  function TotalWeight(p: Params, now: int, window: seq<Receipt>, id: string): real
  {
    Sum(Map(window, WeightFor(p, now, id)))
  }

  function WeightedSum(p: Params, now: int, window: seq<Receipt>, id: string): real
  {
    Sum(Map(window, ScoreFor(p, now, id)))
  }

  /** `issuer` carries the total weight and the weighted mean score of its receipts in the window. */
  ghost predicate Summarises(p: Params, now: int, window: seq<Receipt>, issuer: Issuer)
  {
    && issuer.raw == TotalWeight(p, now, window, issuer.id) > 0.0
    && issuer.score == WeightedSum(p, now, window, issuer.id) / issuer.raw
  }

  function IssuerIds(window: seq<Receipt>): set<string>
  {
    set r | r in window :: r.issuer
  }

  ghost predicate ListsIssuers(ids: seq<string>, window: seq<Receipt>)
  {
    NoDuplicates(ids) && forall id :: id in ids <==> id in IssuerIds(window)
  }

  lemma SignalPositive(p: Params, now: int, r: Receipt)
    requires ValidParams(p)
    ensures SignalWeight(p, now, r) > 0.0
  {
  }

  lemma {:induction false} TotalWeightPositive(p: Params, now: int, window: seq<Receipt>, id: string)
    requires ValidParams(p)
    requires id in IssuerIds(window)
    ensures TotalWeight(p, now, window, id) > 0.0
  {
    hide SignalWeight;
    var k :| 0 <= k < |window| && window[k].issuer == id;
    forall i | 0 <= i < |window|
      ensures SignalWeight(p, now, window[i]) > 0.0
    {
      SignalPositive(p, now, window[i]);
    }
    TermAtMostSum(Map(window, WeightFor(p, now, id)), k);
  }

  /** An issuer's score lies between the scores of its own receipts. */
  lemma {:induction false} IssuerScoreBetween(p: Params, now: int, window: seq<Receipt>, id: string, lo: real, hi: real)
    requires ValidParams(p)
    requires id in IssuerIds(window)
    requires forall r :: r in window && r.issuer == id ==> lo <= r.score <= hi
    ensures TotalWeight(p, now, window, id) > 0.0
    ensures lo <= WeightedSum(p, now, window, id) / TotalWeight(p, now, window, id) <= hi
  {
    hide SignalWeight, Times;
    TotalWeightPositive(p, now, window, id);
    var w := Map(window, WeightFor(p, now, id));
    var x := Map(window, (r: Receipt) => r.score);
    forall i | 0 <= i < |window|
      ensures w[i] >= 0.0 && (w[i] > 0.0 ==> window[i].issuer == id)
      ensures Map(window, ScoreFor(p, now, id))[i] == Products(x, w)[i]
    {
      SignalPositive(p, now, window[i]);
      TimesZero(x[i]);
    }
    assert Map(window, ScoreFor(p, now, id)) == Products(x, w);
    SumAtMost(x, w, hi);
    SumAtLeast(x, w, lo);
    QuotientBetween(lo, Sum(Products(x, w)), hi, Sum(w));
  }

  lemma QuotientBetween(lo: real, x: real, hi: real, w: real)
    requires w > 0.0 && Times(lo, w) <= x <= Times(hi, w)
    ensures lo <= x / w <= hi
  {
  }

  /** The running sums of one issuer, as kept in the dictionary. */
  datatype Entry = Entry(weightedSum: real, totalWeight: real)

  ghost predicate Grouped(p: Params, now: int, window: seq<Receipt>, ids: seq<string>, byIssuer: map<string, Entry>)
  {
    && ListsIssuers(ids, window)
    && byIssuer.Keys == IssuerIds(window)
    && forall id :: id in byIssuer ==>
      byIssuer[id] == Entry(WeightedSum(p, now, window, id), TotalWeight(p, now, window, id))
  }

  /** The entry of an issuer before the current receipt, created on first sight. */
  function EntryOf(byIssuer: map<string, Entry>, id: string): Entry
  {
    if id in byIssuer then byIssuer[id] else Entry(0.0, 0.0)
  }

  function Accumulate(p: Params, now: int, e: Entry, r: Receipt): Entry
  {
    var w := SignalWeight(p, now, r);
    Entry(e.weightedSum + Times(r.score, w), e.totalWeight + w)
  }

  /** Step 4: one pass over the window; `ids` records the order in which issuers were first met. */
  method GroupByIssuer(p: Params, now: int, window: seq<Receipt>)
    returns (ids: seq<string>, byIssuer: map<string, Entry>)
    ensures Grouped(p, now, window, ids, byIssuer)
  {
    ids, byIssuer := [], map[];
    for i := 0 to |window|
      invariant Grouped(p, now, window[..i], ids, byIssuer)
    {
      hide Grouped, Accumulate;
      var r := window[i];
      GroupingStep(p, now, window, i, ids, byIssuer);
      var e := EntryOf(byIssuer, r.issuer);
      if r.issuer !in byIssuer {
        ids := ids + [r.issuer];
      }
      byIssuer := byIssuer[r.issuer := Accumulate(p, now, e, r)];
    }
    assert window[..|window|] == window;
  }

  lemma {:induction false} GroupingStep(p: Params, now: int, window: seq<Receipt>, i: nat, ids: seq<string>,
                                        byIssuer: map<string, Entry>)
    requires i < |window|
    requires Grouped(p, now, window[..i], ids, byIssuer)
    ensures var r := window[i];
            Grouped(p, now, window[..i + 1], if r.issuer in byIssuer then ids else ids + [r.issuer],
                    byIssuer[r.issuer := Accumulate(p, now, EntryOf(byIssuer, r.issuer), r)])
  {
    hide SignalWeight, Times, WeightedSum, TotalWeight;
    var r := window[i];
    var byIssuer' := byIssuer[r.issuer := Accumulate(p, now, EntryOf(byIssuer, r.issuer), r)];
    IdsStep(window, i, ids, byIssuer.Keys);
    if r.issuer !in byIssuer {
      UnseenIssuer(p, now, window[..i], r.issuer);
    }
    forall id | id in byIssuer'
      ensures byIssuer'[id] == Entry(WeightedSum(p, now, window[..i + 1], id), TotalWeight(p, now, window[..i + 1], id))
    {
      EntryStep(p, now, window, i, id);
    }
  }

  lemma IdsStep(window: seq<Receipt>, i: nat, ids: seq<string>, keys: set<string>)
    requires i < |window|
    requires ListsIssuers(ids, window[..i]) && keys == IssuerIds(window[..i])
    ensures ListsIssuers(if window[i].issuer in keys then ids else ids + [window[i].issuer], window[..i + 1])
    ensures IssuerIds(window[..i + 1]) == keys + {window[i].issuer}
  {
  }

  lemma EntryStep(p: Params, now: int, window: seq<Receipt>, i: nat, id: string)
    requires i < |window|
    ensures Entry(WeightedSum(p, now, window[..i + 1], id), TotalWeight(p, now, window[..i + 1], id))
         == var e := Entry(WeightedSum(p, now, window[..i], id), TotalWeight(p, now, window[..i], id));
            if window[i].issuer == id then Accumulate(p, now, e, window[i]) else e
  {
    SumMapStep(window, i, WeightFor(p, now, id));
    SumMapStep(window, i, ScoreFor(p, now, id));
  }

  lemma {:induction false} UnseenIssuer(p: Params, now: int, window: seq<Receipt>, id: string)
    requires id !in IssuerIds(window)
    ensures TotalWeight(p, now, window, id) == 0.0 == WeightedSum(p, now, window, id)
  {
    SumConstant(Map(window, WeightFor(p, now, id)), 0.0);
    SumConstant(Map(window, ScoreFor(p, now, id)), 0.0);
  }

  // ---------------------------------------------------------------- steps 5 and 6

  function EffectiveCap(p: Params, n: nat): real
    requires n > 0
  {
    var floor := 1.0 / n as real;
    if p.maxIssuerWeight > floor then p.maxIssuerWeight else floor
  }

  function LimitsFor(p: Params, n: nat): Limits
    requires n > 0
  {
    Limits(EffectiveCap(p, n), SLACK)
  }

  function Raws(issuers: seq<Issuer>): seq<real>
  {
    Map(issuers, (i: Issuer) => i.raw)
  }

  /** The weights before any capping: raw weights as fractions of their total. */
  function Fractions(issuers: seq<Issuer>): (r: seq<real>)
    requires Sum(Raws(issuers)) > 0.0
    ensures |r| == |issuers| && forall i :: 0 <= i < |r| ==> r[i] == issuers[i].raw / Sum(Raws(issuers))
  {
    var total := Sum(Raws(issuers));
    Map(issuers, (i: Issuer) => i.raw / total)
  }

  function Issuers(slots: seq<Slot>): seq<Issuer>
  {
    Map(slots, (s: Slot) => s.issuer)
  }

  function Ids(issuers: seq<Issuer>): seq<string>
  {
    Map(issuers, (i: Issuer) => i.id)
  }

  function Contributions(slots: seq<Slot>): (r: seq<real>)
    ensures |r| == |slots| && forall i :: 0 <= i < |r| ==> r[i] == Times(slots[i].issuer.score, slots[i].weight)
  {
    Map(slots, (s: Slot) => Times(s.issuer.score, s.weight))
  }

  function RawScore(slots: seq<Slot>): real
  {
    Sum(Contributions(slots))
  }

  /** `issuers` is what step 4 makes of the window, in some order. */
  ghost predicate FromWindow(p: Params, now: int, window: seq<Receipt>, issuers: seq<Issuer>)
  {
    && ListsIssuers(Ids(issuers), window)
    && Sum(Raws(issuers)) > 0.0
    && forall i :: 0 <= i < |issuers| ==> Summarises(p, now, window, issuers[i])
  }

  /** `slots` is the outcome of step 5 on the window. */
  ghost predicate Allocates(p: Params, now: int, window: seq<Receipt>, slots: seq<Slot>, lim: Limits, level: real)
  {
    && FromWindow(p, now, window, Issuers(slots))
    && Filled(slots, Fractions(Issuers(slots)), lim, level)
  }

  datatype Aggregation =
    | InsufficientTrustData
    | Aggregated(score: real, contributingReceipts: nat, contributingIssuers: nat, oldestReceiptAgeS: int,
                 detail: seq<Slot>, issuers: seq<IssuerReport>)

  /** What is returned of an issuer: score and weight in millionths. */
  datatype IssuerReport = IssuerReport(id: string, score: int, weight: int, capped: bool)

  /** To the nearest whole number, halves to the even one. */
  function RoundEven(x: real): (r: int)
    ensures -0.5 <= r as real - x <= 0.5
    ensures r as real - x in {-0.5, 0.5} ==> r % 2 == 0
  {
    var below := x.Floor;
    if x - below as real < 0.5 then below
    else if x - below as real > 0.5 then below + 1
    else if below % 2 == 0 then below
    else below + 1
  }

  function Report(slots: seq<Slot>): (r: seq<IssuerReport>)
    ensures |r| == |slots|
    ensures forall i :: 0 <= i < |r| ==> r[i].id == slots[i].issuer.id && r[i].capped == slots[i].capped
    ensures forall i :: 0 <= i < |r| ==> -0.5 <= r[i].weight as real - slots[i].weight * 1000000.0 <= 0.5
    ensures forall i :: 0 <= i < |r| ==> -0.5 <= r[i].score as real - slots[i].issuer.score * 1000000.0 <= 0.5
  {
    Map(slots, (s: Slot) =>
      IssuerReport(s.issuer.id, RoundEven(s.issuer.score * 1000000.0), RoundEven(s.weight * 1000000.0), s.capped))
  }

  /** `age` is that of the oldest receipt in the window, in milliseconds. */
  ghost predicate OldestAge(now: int, window: seq<Receipt>, age: int)
  {
    && (exists r :: r in window && now - r.timestamp == age)
    && (forall r :: r in window ==> now - r.timestamp <= age)
  }

  method FindOldestAge(now: int, window: seq<Receipt>) returns (age: int)
    requires window != []
    ensures OldestAge(now, window, age)
  {
    age := now - window[0].timestamp;
    assert window[0] in window[..1];
    for i := 1 to |window|
      invariant OldestAge(now, window[..i], age)
    {
      assert window[..i + 1] == window[..i] + [window[i]];
      if now - window[i].timestamp > age {
        age := now - window[i].timestamp;
      }
      assert forall r :: r in window[..i + 1] ==> r in window[..i] || r == window[i];
      assert window[i] in window[..i + 1];
    }
    assert window[..|window|] == window;
  }

  lemma {:induction false} FractionsSumToOne(issuers: seq<Issuer>)
    requires Sum(Raws(issuers)) > 0.0
    ensures Sum(Fractions(issuers)) == 1.0
  {
    var total := Sum(Raws(issuers));
    forall i | 0 <= i < |issuers|
      ensures Fractions(issuers)[i] == Scale(1.0 / total, Raws(issuers))[i]
    {
    }
    assert Fractions(issuers) == Scale(1.0 / total, Raws(issuers));
    SumScaled(1.0 / total, Raws(issuers));
  }

  lemma {:induction false} RawsPositive(issuers: seq<Issuer>)
    requires |issuers| > 0
    requires forall i :: 0 <= i < |issuers| ==> issuers[i].raw > 0.0
    ensures Sum(Raws(issuers)) > 0.0
    ensures forall i :: 0 <= i < |issuers| ==> Fractions(issuers)[i] > 0.0
  {
    TermAtMostSum(Raws(issuers), 0);
  }

  lemma CapFeasible(p: Params, n: nat)
    requires n > 0
    ensures n as real * EffectiveCap(p, n) >= 1.0
  {
  }

  /** At the start every issuer is free and holds its fraction: the level is 1. */
  lemma {:induction false} StartsAtLevelOne(slots: seq<Slot>, lim: Limits)
    requires Sum(Raws(Issuers(slots))) > 0.0
    requires var f := Fractions(Issuers(slots));
             forall i :: 0 <= i < |slots| ==> !slots[i].capped && slots[i].weight == f[i]
    ensures AtLevel(slots, Fractions(Issuers(slots)), lim, 1.0)
  {
    var f := Fractions(Issuers(slots));
    FractionsSumToOne(Issuers(slots));
    assert Weights(slots) == f;
  }

  method MakeIssuers(p: Params, now: int, window: seq<Receipt>) returns (issuers: seq<Issuer>)
    requires ValidParams(p)
    requires window != []
    ensures FromWindow(p, now, window, issuers)
    ensures |issuers| == |IssuerIds(window)| > 0
  {
    hide WeightedSum, TotalWeight, ValidParams;
    var ids, byIssuer := GroupByIssuer(p, now, window);
    issuers := [];
    assert window[0].issuer in IssuerIds(window);
    for i := 0 to |ids|
      invariant |issuers| == i
      invariant forall k :: 0 <= k < i ==> issuers[k].id == ids[k] && Summarises(p, now, window, issuers[k])
    {
      var e := byIssuer[ids[i]];
      TotalWeightPositive(p, now, window, ids[i]);
      issuers := issuers + [Issuer(ids[i], e.weightedSum / e.totalWeight, e.totalWeight)];
    }
    assert Ids(issuers) == ids;
    CountIds(ids, IssuerIds(window));
    RawsPositive(issuers);
  }

  /** The cap in force is the configured one, or an equal share where that is more. */
  lemma CapInForce(p: Params, n: nat)
    requires n > 0
    ensures EffectiveCap(p, n) == Max(p.maxIssuerWeight, 1.0 / n as real)
  {
  }

  /**
   * What is left of the raw weights, without reference to the loop: everybody
   * is scaled up alike and held at the cap, which is an equal share when the
   * configured cap is too low for all the weight to be handed out.
   */
  ghost predicate CappedShares(p: Params, detail: seq<Slot>, level: real)
    requires detail != []
  {
    var cap, total := Max(p.maxIssuerWeight, 1.0 / |detail| as real), Sum(Raws(Issuers(detail)));
    && total > 0.0 && level >= 1.0 && Sum(Weights(detail)) == 1.0
    && forall i :: 0 <= i < |detail| ==>
         var wanted := Times(level, detail[i].issuer.raw / total);
         && (detail[i].capped <==> wanted > cap + 0.000000000001)
         && detail[i].weight == if detail[i].capped then cap else wanted
  }

  lemma FilledIsCappedShares(p: Params, detail: seq<Slot>, level: real)
    requires detail != [] && Sum(Raws(Issuers(detail))) > 0.0
    requires Filled(detail, Fractions(Issuers(detail)), LimitsFor(p, |detail|), level)
    ensures CappedShares(p, detail, level)
  {
    hide Times, Sum;
    CapInForce(p, |detail|);
    var f := Fractions(Issuers(detail));
    forall i | 0 <= i < |detail|
      ensures SlotFilled(detail[i], detail[i].issuer.raw / Sum(Raws(Issuers(detail))), LimitsFor(p, |detail|), level)
    {
      assert f[i] == Issuers(detail)[i].raw / Sum(Raws(Issuers(detail)));
    }
  }

  /** Steps 5 and 6 up to the clamp. */
  method AllocateAndCombine(p: Params, issuers: seq<Issuer>)
    returns (detail: seq<Slot>, score: real, ghost level: real)
    requires |issuers| > 0 && Sum(Raws(issuers)) > 0.0
    requires forall i :: 0 <= i < |issuers| ==> issuers[i].raw > 0.0
    ensures Issuers(detail) == issuers
    ensures Filled(detail, Fractions(issuers), LimitsFor(p, |issuers|), level)
    ensures CappedShares(p, detail, level)
    ensures score == RawScore(detail)
  {
    hide Filled, AtLevel, Sum;
    var slots, totalRaw := InitialSlots(issuers);
    var lim := LimitsFor(p, |issuers|);
    CapFeasible(p, |issuers|);
    RawsPositive(issuers);
    assert Issuers(slots[..]) == issuers;
    StartsAtLevelOne(slots[..], lim);
    var exit;
    exit, level := CapLoop(slots, Fractions(issuers), lim);
    assert Issuers(slots[..]) == issuers;
    score := Combine(slots);
    detail := slots[..];
    FilledIsCappedShares(p, detail, level);
  }

  /** The whole algorithm. The clamp of step 6 is applied to the exact weighted sum. */
  method AggregateTrust(receipts: seq<Receipt>, now: int, p: Params)
    returns (result: Aggregation, ghost level: real)
    requires ValidParams(p)
    ensures result.InsufficientTrustData? <==> Window(p, now, receipts) == []
    ensures result.Aggregated? ==>
      && result.contributingReceipts == |Window(p, now, receipts)|
      && result.contributingIssuers == |IssuerIds(Window(p, now, receipts))| == |result.detail| > 0
      && Allocates(p, now, Window(p, now, receipts), result.detail, LimitsFor(p, |result.detail|), level)
      && CappedShares(p, result.detail, level)
      && result.issuers == Report(result.detail)
      && (exists age :: OldestAge(now, Window(p, now, receipts), age)
            && result.oldestReceiptAgeS == RoundEven(age as real / 1000.0))
      && result.score == Clamp01(RawScore(result.detail))
  {
    level := 1.0;
    var window := Window(p, now, receipts);
    if window == [] {
      return InsufficientTrustData, level;
    }
    hide Filled, RawScore, Sum, TotalWeight, WeightedSum, CappedShares;
    var issuers := MakeIssuers(p, now, window);
    var detail, score;
    detail, score, level := AllocateAndCombine(p, issuers);
    var age := FindOldestAge(now, window);
    result :=
      Aggregated(Clamp01(score), |window|, |issuers|, RoundEven(age as real / 1000.0), detail, Report(detail));
  }

  method InitialSlots(issuers: seq<Issuer>) returns (slots: array<Slot>, totalRaw: real)
    requires Sum(Raws(issuers)) > 0.0
    ensures fresh(slots) && slots.Length == |issuers|
    ensures totalRaw == Sum(Raws(issuers))
    ensures forall i :: 0 <= i < slots.Length ==> slots[i] == Slot(issuers[i], Fractions(issuers)[i], false)
  {
    totalRaw := 0.0;
    for i := 0 to |issuers|
      invariant totalRaw == Sum(Raws(issuers)[..i])
    {
      assert Raws(issuers)[..i + 1][..i] == Raws(issuers)[..i];
      totalRaw := totalRaw + issuers[i].raw;
    }
    assert Raws(issuers)[..|issuers|] == Raws(issuers);
    slots := new Slot[|issuers|](i requires 0 <= i < |issuers| => Slot(issuers[i], issuers[i].raw / totalRaw, false));
  }

  method Combine(slots: array<Slot>) returns (score: real)
    ensures score == RawScore(slots[..])
  {
    score := 0.0;
    for i := 0 to slots.Length
      invariant score == Sum(Contributions(slots[..])[..i])
    {
      assert Contributions(slots[..])[..i + 1][..i] == Contributions(slots[..])[..i];
      score := score + Times(slots[i].issuer.score, slots[i].weight);
    }
    assert Contributions(slots[..])[..slots.Length] == Contributions(slots[..]);
  }

  lemma {:induction false} CountIds(ids: seq<string>, all: set<string>)
    requires NoDuplicates(ids)
    requires forall id :: id in ids <==> id in all
    ensures |ids| == |all|
  {
    if ids == [] {
      assert all == {};
    } else {
      var last := ids[|ids| - 1];
      CountIds(ids[..|ids| - 1], all - {last});
    }
  }
}
