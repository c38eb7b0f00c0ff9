/** Better receipts make a better score, as long as none crosses the line at which negative signals weigh more. */
module AggregateMonotone {
  import opened Sums
  import opened WaterFill
  import opened Aggregate
  import opened AggregateLaws

  /** The same receipts with scores at least as high, on the same side of 0.5 unless both sides weigh the same. */
  ghost predicate Improves(p: Params, a: seq<Receipt>, b: seq<Receipt>)
  {
    && |a| == |b|
    && forall i :: 0 <= i < |a| ==> Better(p, a[i], b[i])
  }

  predicate Better(p: Params, r: Receipt, r': Receipt)
  {
    && r'.issuer == r.issuer && r'.timestamp == r.timestamp
    && r.score <= r'.score
    && (p.negativeMultiplier == 1.0 || (r.score < 0.5 <==> r'.score < 0.5))
  }

  lemma {:induction false} WindowImproves(p: Params, now: int, a: seq<Receipt>, b: seq<Receipt>)
    requires Improves(p, a, b)
    ensures Improves(p, Window(p, now, a), Window(p, now, b))
  {
    if a != [] {
      WindowImproves(p, now, a[..|a| - 1], b[..|b| - 1]);
    }
  }

  lemma SameSignal(p: Params, now: int, r: Receipt, r': Receipt)
    requires Better(p, r, r')
    ensures SignalWeight(p, now, r) == SignalWeight(p, now, r')
  {
  }

  lemma SameWeights(p: Params, now: int, a: seq<Receipt>, b: seq<Receipt>, id: string)
    requires Improves(p, a, b)
    ensures TotalWeight(p, now, a, id) == TotalWeight(p, now, b, id)
  {
    forall i | 0 <= i < |a|
      ensures WeightFor(p, now, id)(a[i]) == WeightFor(p, now, id)(b[i])
    {
      SameSignal(p, now, a[i], b[i]);
    }
    assert Map(a, WeightFor(p, now, id)) == Map(b, WeightFor(p, now, id));
  }

  lemma MoreScore(p: Params, now: int, a: seq<Receipt>, b: seq<Receipt>, id: string)
    requires Improves(p, a, b) && ValidParams(p)
    ensures WeightedSum(p, now, a, id) <= WeightedSum(p, now, b, id)
  {
    var x, y := Map(a, ScoreFor(p, now, id)), Map(b, ScoreFor(p, now, id));
    hide Times, SignalWeight;
    forall i | 0 <= i < |a|
      ensures x[i] <= y[i]
    {
      SameSignal(p, now, a[i], b[i]);
      SignalPositive(p, now, a[i]);
      TimesOrder(a[i].score, b[i].score, SignalWeight(p, now, a[i]));
    }
    SumLessEqual(x, y);
  }

  lemma SameIds(p: Params, a: seq<Receipt>, b: seq<Receipt>, id: string)
    requires Improves(p, a, b)
    ensures id in IssuerIds(a) <==> id in IssuerIds(b)
  {
    if id in IssuerIds(a) {
      var i :| 0 <= i < |a| && a[i].issuer == id;
      assert Better(p, a[i], b[i]) && b[i] in b;
    }
    if id in IssuerIds(b) {
      var i :| 0 <= i < |b| && b[i].issuer == id;
      assert Better(p, a[i], b[i]) && a[i] in a;
    }
  }

  function RawOf(p: Params, now: int, window: seq<Receipt>): string -> real
  {
    (id: string) => TotalWeight(p, now, window, id)
  }

  /** What an issuer contributes at the given level and total. */
  function ShareOf(p: Params, now: int, window: seq<Receipt>, lim: Limits, level: real, total: real): string -> real
    requires total > 0.0
  {
    (id: string) =>
      Times(IssuerFor(p, now, window)(id).score, Fill(lim, Times(level, TotalWeight(p, now, window, id) / total)))
  }

  lemma RawsAreImage(p: Params, now: int, window: seq<Receipt>, issuers: seq<Issuer>)
    requires FromWindow(p, now, window, issuers)
    ensures Raws(issuers) == Map(Ids(issuers), RawOf(p, now, window))
  {
  }

  lemma SharesAreImage(p: Params, now: int, window: seq<Receipt>, slots: seq<Slot>, lim: Limits, level: real)
    requires Allocates(p, now, window, slots, lim, level)
    ensures var issuers := Issuers(slots);
      Contributions(slots) == Map(Ids(issuers), ShareOf(p, now, window, lim, level, Sum(Raws(issuers))))
  {
    hide Filled, Times, TotalWeight, WeightedSum, Sum, Fill;
    var issuers := Issuers(slots);
    IssuersAreImage(p, now, window, issuers);
    SlotsAreImage(slots, lim, level);
  }

  /** The two windows list the same issuers, with the same weights, hence at the same level. */
  lemma SameLevel(p: Params, now: int, a: seq<Receipt>, b: seq<Receipt>, x: seq<Slot>, la: real, y: seq<Slot>, lb: real)
    requires Improves(p, a, b)
    requires Outcome(p, now, a, x, la) && Outcome(p, now, b, y, lb)
    ensures |x| == |y| && la == lb && Sum(Raws(Issuers(x))) == Sum(Raws(Issuers(y)))
    ensures multiset(Ids(Issuers(x))) == multiset(Ids(Issuers(y)))
  {
    hide Filled, IsWaterLevel, Sum, TotalWeight, WeightedSum, Times;
    var ix, iy := Issuers(x), Issuers(y);
    forall id
      ensures id in Ids(ix) <==> id in Ids(iy)
    {
      SameIds(p, a, b, id);
    }
    SameElementsSameMultiset(Ids(ix), Ids(iy));
    assert |multiset(Ids(ix))| == |Ids(ix)| && |multiset(Ids(iy))| == |Ids(iy)|;
    RawsAreImage(p, now, a, ix);
    RawsAreImage(p, now, b, iy);
    assert Map(Ids(iy), RawOf(p, now, b)) == Map(Ids(iy), RawOf(p, now, a)) by {
      forall i | 0 <= i < |Ids(iy)|
        ensures RawOf(p, now, b)(Ids(iy)[i]) == RawOf(p, now, a)(Ids(iy)[i])
      {
        SameWeights(p, now, a, b, Ids(iy)[i]);
      }
    }
    MapIgnoresOrder(Ids(ix), Ids(iy), RawOf(p, now, a));
    SumIgnoresOrder(Raws(ix), Raws(iy));
    var total := Sum(Raws(ix));
    MapIgnoresOrder(Raws(ix), Raws(iy), (raw: real) => raw / total);
    assert Fractions(ix) == Map(Raws(ix), (raw: real) => raw / total);
    assert Fractions(iy) == Map(Raws(iy), (raw: real) => raw / total);
    FilledAtWaterLevel(x, Fractions(ix), LimitsFor(p, |x|), la);
    FilledAtWaterLevel(y, Fractions(iy), LimitsFor(p, |y|), lb);
    LevelIgnoresOrder(Fractions(ix), Fractions(iy), LimitsFor(p, |x|), la, lb);
  }

  lemma ShareImproves(p: Params, now: int, a: seq<Receipt>, b: seq<Receipt>, lim: Limits, level: real, total: real,
                      id: string)
    requires Improves(p, a, b) && ValidParams(p)
    requires total > 0.0 && level >= 1.0 && lim.cap >= 0.0 && TotalWeight(p, now, a, id) > 0.0
    ensures ShareOf(p, now, a, lim, level, total)(id) <= ShareOf(p, now, b, lim, level, total)(id)
  {
    hide TotalWeight, WeightedSum;
    SameWeights(p, now, a, b, id);
    MoreScore(p, now, a, b, id);
    var raw := TotalWeight(p, now, a, id);
    HeightPositive(level, raw, total);
    QuotientOrder(WeightedSum(p, now, a, id), WeightedSum(p, now, b, id), raw);
    var weight := Fill(lim, Times(level, raw / total));
    TimesOrder(IssuerFor(p, now, a)(id).score, IssuerFor(p, now, b)(id).score, weight);
  }

  lemma QuotientOrder(x: real, y: real, d: real)
    requires x <= y && d > 0.0
    ensures x / d <= y / d
  {
  }

  /** Raising scores without crossing 0.5 never lowers the aggregate. */
  lemma BetterReceiptsBetterScore(p: Params, now: int, a: seq<Receipt>, b: seq<Receipt>, x: seq<Slot>, la: real,
                                  y: seq<Slot>, lb: real)
    requires Improves(p, a, b)
    requires Outcome(p, now, Window(p, now, a), x, la) && Outcome(p, now, Window(p, now, b), y, lb)
    ensures RawScore(x) <= RawScore(y)
  {
    hide Filled, Sum, TotalWeight, WeightedSum, Times, Window;
    WindowImproves(p, now, a, b);
    var wa, wb := Window(p, now, a), Window(p, now, b);
    SameLevel(p, now, wa, wb, x, la, y, lb);
    var lim, total := LimitsFor(p, |x|), Sum(Raws(Issuers(x)));
    var ids := Ids(Issuers(x));
    SharesAreImage(p, now, wa, x, lim, la);
    SharesAreImage(p, now, wb, y, lim, la);
    MapIgnoresOrder(ids, Ids(Issuers(y)), ShareOf(p, now, wb, lim, la, total));
    var s, t := Map(ids, ShareOf(p, now, wa, lim, la, total)), Map(ids, ShareOf(p, now, wb, lim, la, total));
    SumIgnoresOrder(t, Contributions(y));
    FilledAtWaterLevel(x, Fractions(Issuers(x)), lim, la);
    forall i | 0 <= i < |ids|
      ensures s[i] <= t[i]
    {
      assert Summarises(p, now, wa, Issuers(x)[i]);
      ShareImproves(p, now, wa, wb, lim, la, total, ids[i]);
    }
    SumLessEqual(s, t);
  }
}
