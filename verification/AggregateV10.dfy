/**
 * The Trust Authority's aggregation, which still caps and then renormalises
 * everyone (v1.0), with its per-issuer cap overrides; and how it relates to v1.1.
 */
module AggregateV10 {
  import opened Basics
  import opened Sums
  import opened WaterFill
  import opened Aggregate
  import opened AggregateLaws

  function CapFor(p: Params, overrides: map<string, real>, id: string): real
  {
    if id in overrides then overrides[id] else p.maxIssuerWeight
  }

  predicate PositiveCaps(p: Params, overrides: map<string, real>)
  {
    p.maxIssuerWeight > 0.0 && forall id :: id in overrides ==> overrides[id] > 0.0
  }

  function CappedFractions(issuers: seq<Issuer>, p: Params, overrides: map<string, real>): (r: seq<real>)
    requires Sum(Raws(issuers)) > 0.0
    ensures |r| == |issuers|
    ensures forall i :: 0 <= i < |r| ==> r[i] == Min(Fractions(issuers)[i], CapFor(p, overrides, issuers[i].id))
  {
    var total := Sum(Raws(issuers));
    Map(issuers, (i: Issuer) => Min(i.raw / total, CapFor(p, overrides, i.id)))
  }

  function NormalizedWeights(issuers: seq<Issuer>, p: Params, overrides: map<string, real>): (r: seq<real>)
    requires Sum(Raws(issuers)) > 0.0
    requires Sum(CappedFractions(issuers, p, overrides)) != 0.0
    ensures |r| == |issuers|
    ensures var c := CappedFractions(issuers, p, overrides);
            forall i :: 0 <= i < |r| ==> r[i] == c[i] / Sum(c)
  {
    var c := CappedFractions(issuers, p, overrides);
    var factor := Sum(c);
    Map(c, (x: real) => x / factor)
  }

  function ScoresOf(issuers: seq<Issuer>): (r: seq<real>)
    ensures |r| == |issuers| && forall i :: 0 <= i < |r| ==> r[i] == issuers[i].score
  {
    Map(issuers, (i: Issuer) => i.score)
  }

  function Score(issuers: seq<Issuer>, p: Params, overrides: map<string, real>): real
    requires Sum(Raws(issuers)) > 0.0
    requires Sum(CappedFractions(issuers, p, overrides)) != 0.0
  {
    Sum(Products(ScoresOf(issuers), NormalizedWeights(issuers, p, overrides)))
  }

  datatype Result =
    | InsufficientTrustData
    | Result(score: real, contributingReceipts: nat, contributingIssuers: nat, oldestReceiptAgeS: int)

  lemma {:induction false} CappedPositive(issuers: seq<Issuer>, p: Params, overrides: map<string, real>)
    requires issuers != [] && Sum(Raws(issuers)) > 0.0 && PositiveCaps(p, overrides)
    requires forall i :: 0 <= i < |issuers| ==> issuers[i].raw > 0.0
    ensures Sum(CappedFractions(issuers, p, overrides)) > 0.0
    ensures forall i :: 0 <= i < |issuers| ==> CappedFractions(issuers, p, overrides)[i] > 0.0
  {
    RawsPositive(issuers);
    TermAtMostSum(CappedFractions(issuers, p, overrides), 0);
  }

  // ---------------------------------------------------------------- the score as a mean

  /** The final weights are non-negative and add up to 1, whatever was capped. */
  lemma WeightsSumToOne(issuers: seq<Issuer>, p: Params, overrides: map<string, real>)
    requires issuers != [] && Sum(Raws(issuers)) > 0.0 && PositiveCaps(p, overrides)
    requires forall i :: 0 <= i < |issuers| ==> issuers[i].raw > 0.0
    ensures Sum(CappedFractions(issuers, p, overrides)) > 0.0
    ensures Sum(NormalizedWeights(issuers, p, overrides)) == 1.0
    ensures forall i :: 0 <= i < |issuers| ==> NormalizedWeights(issuers, p, overrides)[i] >= 0.0
  {
    hide Sum, Times;
    CappedPositive(issuers, p, overrides);
    var c, w := CappedFractions(issuers, p, overrides), NormalizedWeights(issuers, p, overrides);
    var factor := Sum(c);
    forall i | 0 <= i < |issuers|
      ensures Scale(factor, w)[i] == c[i] && w[i] >= 0.0
    {
      Shared(c[i], factor);
    }
    assert Scale(factor, w) == c;
    SumScaled(factor, w);
    OnlyOne(factor, Sum(w));
  }

  lemma Shared(x: real, factor: real)
    requires x > 0.0 && factor > 0.0
    ensures x / factor >= 0.0 && Times(factor, x / factor) == x
  {
    Quotient(x, factor);
  }

  lemma OnlyOne(factor: real, x: real)
    requires factor > 0.0 && Times(factor, x) == factor
    ensures x == 1.0
  {
  }

  /** The score is the mean of the issuers' scores, weighted with their capped fractions. */
  lemma ScoreIsCappedMean(issuers: seq<Issuer>, p: Params, overrides: map<string, real>)
    requires issuers != [] && Sum(Raws(issuers)) > 0.0 && PositiveCaps(p, overrides)
    requires forall i :: 0 <= i < |issuers| ==> issuers[i].raw > 0.0
    ensures Sum(CappedFractions(issuers, p, overrides)) > 0.0
    ensures Score(issuers, p, overrides)
         == Sum(Products(ScoresOf(issuers), CappedFractions(issuers, p, overrides)))
            / Sum(CappedFractions(issuers, p, overrides))
  {
    hide Sum, Times;
    CappedPositive(issuers, p, overrides);
    var c, w, x := CappedFractions(issuers, p, overrides), NormalizedWeights(issuers, p, overrides), ScoresOf(issuers);
    var factor := Sum(c);
    forall i | 0 <= i < |issuers|
      ensures Scale(factor, Products(x, w))[i] == Products(x, c)[i]
    {
      Spread(factor, x[i], c[i]);
    }
    assert Scale(factor, Products(x, w)) == Products(x, c);
    SumScaled(factor, Products(x, w));
    Divided(factor, Sum(Products(x, w)));
  }

  lemma Spread(factor: real, x: real, c: real)
    requires factor > 0.0
    ensures Times(factor, Times(x, c / factor)) == Times(x, c)
  {
    Quotient(c, factor);
    assert Times(factor, Times(x, c / factor)) == Times(x, Times(c / factor, factor));
  }

  lemma Divided(factor: real, x: real)
    requires factor > 0.0
    ensures Times(factor, x) / factor == x
  {
  }

  /** The result lies between the scores of the contributing receipts, whatever the caps: equal scores are returned. */
  lemma ScoreBetweenReceipts(p: Params, now: int, window: seq<Receipt>, issuers: seq<Issuer>,
                             overrides: map<string, real>, lo: real, hi: real)
    requires ValidParams(p) && PositiveCaps(p, overrides) && issuers != []
    requires FromWindow(p, now, window, issuers)
    requires forall r :: r in window ==> lo <= r.score <= hi
    ensures Sum(CappedFractions(issuers, p, overrides)) > 0.0
    ensures lo <= Score(issuers, p, overrides) <= hi
    ensures 0.0 <= lo && hi <= 1.0 ==> Clamp01(Score(issuers, p, overrides)) == Score(issuers, p, overrides)
  {
    hide Sum, TotalWeight, WeightedSum;
    forall i | 0 <= i < |issuers|
      ensures issuers[i].raw > 0.0 && lo <= ScoresOf(issuers)[i] <= hi
    {
      assert Summarises(p, now, window, issuers[i]) && Ids(issuers)[i] == issuers[i].id;
      IssuerScoreBetween(p, now, window, issuers[i].id, lo, hi);
    }
    WeightsSumToOne(issuers, p, overrides);
    SumAtMost(ScoresOf(issuers), NormalizedWeights(issuers, p, overrides), hi);
    SumAtLeast(ScoresOf(issuers), NormalizedWeights(issuers, p, overrides), lo);
  }

  ghost predicate AllBetween(window: seq<Receipt>, lo: real, hi: real)
  {
    forall r :: r in window ==> lo <= r.score <= hi
  }

  method AggregateTrustScore(receipts: seq<Receipt>, now: int, p: Params, overrides: map<string, real>)
    returns (result: Result, ghost issuers: seq<Issuer>)
    requires ValidParams(p) && PositiveCaps(p, overrides)
    ensures result.InsufficientTrustData? <==> Window(p, now, receipts) == []
    ensures result.Result? ==>
      && FromWindow(p, now, Window(p, now, receipts), issuers)
      && Sum(CappedFractions(issuers, p, overrides)) > 0.0
      && result.score == Clamp01(Score(issuers, p, overrides))
      && result.contributingReceipts == |Window(p, now, receipts)|
      && result.contributingIssuers == |IssuerIds(Window(p, now, receipts))|
      && exists age :: OldestAge(now, Window(p, now, receipts), age) && result.oldestReceiptAgeS == age / 1000
    ensures result.Result? ==>
      forall lo, hi :: 0.0 <= lo && hi <= 1.0 && AllBetween(Window(p, now, receipts), lo, hi) ==>
        lo <= result.score <= hi
  {
    issuers := [];
    var window := Window(p, now, receipts);
    if window == [] {
      return Result.InsufficientTrustData, issuers;
    }
    hide Sum, TotalWeight, WeightedSum;
    var found := MakeIssuers(p, now, window);
    issuers := found;
    assert forall i :: 0 <= i < |issuers| ==> Summarises(p, now, window, issuers[i]);
    CappedPositive(found, p, overrides);
    var age := FindOldestAge(now, window);
    forall lo, hi | 0.0 <= lo && hi <= 1.0 && AllBetween(window, lo, hi)
      ensures lo <= Clamp01(Score(found, p, overrides)) <= hi
    {
      ScoreBetweenReceipts(p, now, window, found, overrides, lo, hi);
    }
    result := Result(Clamp01(Score(found, p, overrides)), |window|, |found|, age / 1000);
  }

  // ---------------------------------------------------------------- does the cap hold?

  /** Renormalising multiplies everybody's capped fraction by at least 1, strictly if anyone was over a cap. */
  lemma {:induction false} FactorAtMostOne(issuers: seq<Issuer>, p: Params, overrides: map<string, real>)
    requires Sum(Raws(issuers)) > 0.0
    ensures Sum(CappedFractions(issuers, p, overrides)) <= 1.0
    ensures forall k :: 0 <= k < |issuers| && Fractions(issuers)[k] > CapFor(p, overrides, issuers[k].id)
              ==> Sum(CappedFractions(issuers, p, overrides)) < 1.0
  {
    var c, f := CappedFractions(issuers, p, overrides), Fractions(issuers);
    FractionsSumToOne(issuers);
    SumLessEqual(c, f);
    forall k | 0 <= k < |issuers| && f[k] > CapFor(p, overrides, issuers[k].id)
      ensures Sum(c) < 1.0
    {
      SumLess(c, f, k);
    }
  }

  /**
   * The v1.0 weights respect the caps exactly on the inputs where no issuer was
   * over its cap to begin with: on every input on which the cap is needed, it fails.
   */
  lemma {:induction false} CapHoldsIffNotNeeded(issuers: seq<Issuer>, p: Params, overrides: map<string, real>)
    requires issuers != [] && Sum(Raws(issuers)) > 0.0 && PositiveCaps(p, overrides)
    requires forall i :: 0 <= i < |issuers| ==> issuers[i].raw > 0.0
    ensures Sum(CappedFractions(issuers, p, overrides)) > 0.0
    ensures
      (forall i :: 0 <= i < |issuers| ==>
        NormalizedWeights(issuers, p, overrides)[i] <= CapFor(p, overrides, issuers[i].id))
      <==>
      (forall i :: 0 <= i < |issuers| ==> Fractions(issuers)[i] <= CapFor(p, overrides, issuers[i].id))
  {
    hide Sum;
    CappedPositive(issuers, p, overrides);
    FactorAtMostOne(issuers, p, overrides);
    var c, f := CappedFractions(issuers, p, overrides), Fractions(issuers);
    if k :| 0 <= k < |issuers| && f[k] > CapFor(p, overrides, issuers[k].id) {
      Inflates(c[k], Sum(c));
    } else {
      FractionsSumToOne(issuers);
      assert c == f;
    }
  }

  /** The larger of two issuers is capped at 0.4 and given back 0.8. */
  lemma CapFails(p: Params, issuers: seq<Issuer>)
    requires p.maxIssuerWeight == 0.4
    requires |issuers| == 2 && issuers[0].raw == 0.9 && issuers[1].raw == 0.1
    ensures Sum(Raws(issuers)) == 1.0
    ensures CappedFractions(issuers, p, map[]) == [0.4, 0.1]
    ensures Sum(CappedFractions(issuers, p, map[])) == 0.5
    ensures NormalizedWeights(issuers, p, map[])[0] == 0.8 > CapFor(p, map[], issuers[0].id)
    ensures Score(issuers, p, map[]) == 0.8 * issuers[0].score + 0.2 * issuers[1].score
  {
    SumOfTwo(0.9, 0.1);
    SumOfTwo(0.4, 0.1);
    assert Raws(issuers) == [0.9, 0.1];
    assert CappedFractions(issuers, p, map[]) == [0.4, 0.1];
    SumOfTwo(Times(issuers[0].score, 0.8), Times(issuers[1].score, 0.2));
    assert NormalizedWeights(issuers, p, map[]) == [0.8, 0.2];
    assert Products(ScoresOf(issuers), [0.8, 0.2]) == [Times(issuers[0].score, 0.8), Times(issuers[1].score, 0.2)];
  }

  lemma SumOfTwo(x: real, y: real)
    ensures Sum([x, y]) == x + y
  {
    assert [x, y][..1] == [x] && [x][..0] == [];
    assert Sum([x]) == x;
  }

  lemma Inflates(x: real, factor: real)
    requires x > 0.0 && 0.0 < factor < 1.0
    ensures x / factor > x
  {
    Quotient(x, factor);
    if x / factor <= x {
      TimesOrder(x / factor, x, factor);
      TimesStrict(factor, 1.0, x);
    }
  }

  // ---------------------------------------------------------------- v1.0 against v1.1

  ghost predicate NobodyOver(issuers: seq<Issuer>, p: Params)
    requires Sum(Raws(issuers)) > 0.0
  {
    forall i :: 0 <= i < |issuers| ==> Fractions(issuers)[i] <= p.maxIssuerWeight
  }

  lemma {:induction false} V11IsUncapped(p: Params, now: int, window: seq<Receipt>, slots: seq<Slot>, level: real)
    requires Outcome(p, now, window, slots, level)
    requires Sum(Raws(Issuers(slots))) > 0.0 && NobodyOver(Issuers(slots), p)
    ensures Weights(slots) == Fractions(Issuers(slots))
  {
    hide Sum;
    var lim, f := LimitsFor(p, |slots|), Fractions(Issuers(slots));
    FractionsSumToOne(Issuers(slots));
    forall i | 0 <= i < |slots|
      ensures FillAll(f, lim, 1.0)[i] == f[i]
    {
    }
    assert FillAll(f, lim, 1.0) == f;
    assert Handed(f, lim, 1.0) == 1.0;
    assert level == 1.0;
    forall i | 0 <= i < |slots|
      ensures slots[i].weight == f[i]
    {
      assert SlotFilled(slots[i], f[i], lim, level);
    }
  }

  function ShareOfScore(total: real): Issuer -> real
    requires total > 0.0
  {
    (i: Issuer) => Times(i.score, i.raw / total)
  }

  /** With no overrides and nobody over the cap, both versions return the same score. */
  lemma {:induction false} VersionsAgree(p: Params, now: int, window: seq<Receipt>, issuers: seq<Issuer>,
                                         slots: seq<Slot>, level: real)
    requires Outcome(p, now, window, slots, level)
    requires FromWindow(p, now, window, issuers)
    requires NobodyOver(issuers, p)
    ensures Sum(CappedFractions(issuers, p, map[])) == 1.0
    ensures Score(issuers, p, map[]) == RawScore(slots)
  {
    hide Sum, Times, Filled, Summarises;
    var f := Fractions(issuers);
    FractionsSumToOne(issuers);
    assert CappedFractions(issuers, p, map[]) == f;
    assert NormalizedWeights(issuers, p, map[]) == f;
    var total := Sum(Raws(issuers));
    assert Products(ScoresOf(issuers), f) == Map(issuers, ShareOfScore(total));
    SameNobodyOver(p, now, window, issuers, Issuers(slots));
    V11IsUncapped(p, now, window, slots, level);
    assert Contributions(slots) == Map(Issuers(slots), ShareOfScore(total));
    MapIgnoresOrder(issuers, Issuers(slots), ShareOfScore(total));
    SumIgnoresOrder(Map(issuers, ShareOfScore(total)), Map(Issuers(slots), ShareOfScore(total)));
  }

  lemma {:induction false} SameNobodyOver(p: Params, now: int, window: seq<Receipt>, x: seq<Issuer>, y: seq<Issuer>)
    requires FromWindow(p, now, window, x) && FromWindow(p, now, window, y)
    requires NobodyOver(x, p)
    ensures multiset(x) == multiset(y)
    ensures Sum(Raws(x)) == Sum(Raws(y))
    ensures NobodyOver(y, p)
  {
    SameIssuersInAnyOrder(p, now, window, window, x, y);
    MapIgnoresOrder(x, y, (i: Issuer) => i.raw);
    SumIgnoresOrder(Raws(x), Raws(y));
    forall i | 0 <= i < |y|
      ensures Fractions(y)[i] <= p.maxIssuerWeight
    {
      assert y[i] in multiset(y);
      var k :| 0 <= k < |x| && x[k] == y[i];
      assert Fractions(x)[k] == Fractions(y)[i];
    }
  }

  /**
   * With a feasible cap, an issuer over it gets exactly the cap from v1.1 and
   * strictly more than the cap from v1.0.
   */
  lemma {:induction false} OverweightIssuer(p: Params, now: int, window: seq<Receipt>, slots: seq<Slot>, level: real,
                                            k: nat)
    requires Outcome(p, now, window, slots, level)
    requires p.maxIssuerWeight * |slots| as real >= 1.0
    requires k < |slots| && Sum(Raws(Issuers(slots))) > 0.0
    requires Fractions(Issuers(slots))[k] > p.maxIssuerWeight + SLACK
    ensures Sum(CappedFractions(Issuers(slots), p, map[])) > 0.0
    ensures slots[k].capped && slots[k].weight == p.maxIssuerWeight
    ensures NormalizedWeights(Issuers(slots), p, map[])[k] > p.maxIssuerWeight
  {
    hide Sum;
    var lim, f := LimitsFor(p, |slots|), Fractions(Issuers(slots));
    FeasibleCap(p, |slots|);
    assert SlotFilled(slots[k], f[k], lim, level);
    TimesOrder(1.0, level, f[k]);
    assert forall i :: 0 <= i < |slots| ==> Summarises(p, now, window, Issuers(slots)[i]);
    CappedPositive(Issuers(slots), p, map[]);
    FactorAtMostOne(Issuers(slots), p, map[]);
    Inflates(p.maxIssuerWeight, Sum(CappedFractions(Issuers(slots), p, map[])));
  }

  lemma FeasibleCap(p: Params, n: nat)
    requires n > 0 && p.maxIssuerWeight * n as real >= 1.0
    ensures EffectiveCap(p, n) == p.maxIssuerWeight > 0.0
  {
  }
}
