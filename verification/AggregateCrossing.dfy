/**
 * When raising scores across 0.5, where negative signals stop weighing more,
 * is harmless: exact conditions for single receipts and for the multiplier.
 */
module AggregateCrossing {
  import opened Sums
  import opened WaterFill
  import opened Aggregate
  import opened AggregateMonotone

  // ---------------------------------------------------------------- one issuer's share

  function Exact(c: real): Limits
  {
    Limits(c, 0.0)
  }

  /** The weight of an issuer per unit of its raw weight never falls when the level rises or the raw weight falls. */
  lemma DensityRises(c: real, x: real, y: real, r: real, r': real)
    requires c > 0.0 && 0.0 < x <= y && 0.0 < r' <= r
    ensures Fill(Exact(c), Times(x, r)) / r <= Fill(Exact(c), Times(y, r')) / r'
  {
    hide Times;
    ProductOver(x, r);
    ProductOver(y, r');
    if Times(x, r) > c && Times(y, r') > c {
      SmallerDivisor(c, r, r');
    } else if Times(x, r) > c {
      TimesOrder(x, y, r);
      OverAtMost(c, y, r);
    } else if Times(y, r') > c {
      FactorOrder(x, r', r);
      OverAtLeast(c, x, r');
    }
  }

  lemma FactorOrder(f: real, a: real, b: real)
    requires a <= b && f >= 0.0
    ensures Times(f, a) <= Times(f, b)
  {
  }

  lemma ProductOver(x: real, r: real)
    requires r > 0.0
    ensures Times(x, r) / r == x
  {
  }

  lemma SmallerDivisor(c: real, r: real, r': real)
    requires c > 0.0 && 0.0 < r' <= r
    ensures c / r <= c / r'
  {
    var q := c / r;
    Quotient(c, r);
    FactorOrder(q, r', r);
    OverAtLeast(c, q, r');
  }

  lemma OverAtMost(c: real, y: real, r: real)
    requires r > 0.0 && c <= Times(y, r)
    ensures c / r <= y
  {
    Quotient(c, r);
    if y < c / r {
      TimesStrict(y, c / r, r);
    }
  }

  lemma OverAtLeast(c: real, x: real, r: real)
    requires r > 0.0 && Times(x, r) <= c
    ensures x <= c / r
  {
    Quotient(c, r);
    if c / r < x {
      TimesStrict(c / r, x, r);
    }
  }

  lemma Regroup(n: real, r: real, w: real)
    requires r > 0.0
    ensures Times(n / r, w) == Times(n, w / r)
  {
  }

  lemma PositiveProduct(x: real, r: real)
    requires x > 0.0 && r > 0.0
    ensures Times(x, r) > 0.0
  {
  }

  lemma PositiveQuotient(w: real, r: real)
    requires w >= 0.0 && r > 0.0
    ensures w / r >= 0.0
  {
  }

  /** The tolerance gives an issuer at most that much more. */
  lemma FillWithin(lim: Limits, v: real)
    requires lim.cap > 0.0 && lim.slack >= 0.0 && v > 0.0
    ensures 0.0 < Fill(Exact(lim.cap), v) <= Fill(lim, v) <= Fill(Exact(lim.cap), v) + lim.slack
  {
  }

  lemma AtMostAll(n: real, r: real, d: real)
    requires 0.0 <= n <= r && r > 0.0 && d >= 0.0
    ensures Times(n / r, d) <= d
  {
    OverAtMost(n, 1.0, r);
    TimesOrder(n / r, 1.0, d);
  }

  /** Where the level rises, a lighter and richer issuer carries more, up to the tolerance. */
  lemma ShareRises(lim: Limits, x: real, y: real, r: real, r': real, n: real, n': real)
    requires lim.cap > 0.0 && lim.slack >= 0.0
    requires 0.0 < x <= y && 0.0 < r' <= r && 0.0 <= n <= n' && n <= r
    ensures Times(n / r, Fill(lim, Times(x, r))) <= Times(n' / r', Fill(lim, Times(y, r'))) + lim.slack
  {
    hide Times, Fill;
    PositiveProduct(x, r);
    PositiveProduct(y, r');
    FillWithin(lim, Times(x, r));
    FillWithin(lim, Times(y, r'));
    var w, w' := Fill(Exact(lim.cap), Times(x, r)), Fill(Exact(lim.cap), Times(y, r'));
    var over := Fill(lim, Times(x, r)) - w;
    Distribute(n / r, w, over);
    AtMostAll(n, r, over);
    DensityRises(lim.cap, x, y, r, r');
    PositiveQuotient(w, r);
    Regroup(n, r, w);
    Regroup(n', r', w');
    TimesOrder(n, n', w / r);
    FactorOrder(n', w / r, w' / r');
    PositiveQuotient(n', r');
    FactorOrder(n' / r', w', Fill(lim, Times(y, r')));
  }

  /** Where the level falls, it loses no more than its weight does, up to the tolerance. */
  lemma ShareFalls(lim: Limits, x: real, y: real, r: real, r': real, n: real, n': real)
    requires lim.cap > 0.0 && lim.slack >= 0.0
    requires 0.0 < y <= x && 0.0 < r' <= r && 0.0 <= n <= n' && n <= r
    ensures var w, w' := Fill(lim, Times(x, r)), Fill(lim, Times(y, r'));
            Times(n / r, w) + w' <= Times(n' / r', w') + w + lim.slack
  {
    hide Times, Fill;
    PositiveProduct(x, r);
    PositiveProduct(y, r');
    FillWithin(lim, Times(x, r));
    FillWithin(lim, Times(y, r'));
    FillFalls(lim.cap, x, y, r, r');
    var w, w' := Fill(lim, Times(x, r)), Fill(lim, Times(y, r'));
    var d := w + lim.slack - w';
    ScoreRises(n, n', r, r', w');
    AtMostAll(n, r, d);
    Distribute(n / r, w', d);
    PositiveQuotient(n, r);
    FactorOrder(n / r, w, w' + d);
  }

  lemma FillFalls(c: real, x: real, y: real, r: real, r': real)
    requires c > 0.0 && 0.0 < y <= x && 0.0 < r' <= r
    ensures Fill(Exact(c), Times(y, r')) <= Fill(Exact(c), Times(x, r))
  {
    FactorOrder(y, r', r);
    TimesOrder(y, x, r);
  }

  lemma ScoreRises(n: real, n': real, r: real, r': real, w: real)
    requires 0.0 < r' <= r && 0.0 <= n <= n' && w >= 0.0
    ensures Times(n / r, w) <= Times(n' / r', w)
  {
    QuotientOrder(n, n', r);
    if n' > 0.0 {
      SmallerDivisor(n', r, r');
    }
    TimesOrder(n / r, n' / r', w);
  }

  // ---------------------------------------------------------------- all issuers together

  function Pour(lim: Limits, x: real, r: string -> real): string -> real
  {
    (id: string) => Fill(lim, Times(x, r(id)))
  }

  function Share(lim: Limits, x: real, r: string -> real, n: string -> real): string -> real
  {
    (id: string) => if r(id) == 0.0 then 0.0 else Times(n(id) / r(id), Fill(lim, Times(x, r(id))))
  }

  /** Every issuer is at least as light, and carries at least as much. */
  ghost predicate LighterRicher(ids: seq<string>, r: string -> real, n: string -> real, r': string -> real,
                                n': string -> real)
  {
    forall i :: 0 <= i < |ids| ==>
      && 0.0 < r'(ids[i]) <= r(ids[i])
      && 0.0 <= n(ids[i]) <= n'(ids[i])
      && n(ids[i]) <= r(ids[i])
  }

  /**
   * When the same weight is poured in both cases, lighter and richer issuers
   * carry more altogether, up to the tolerance of each comparison.
   */
  lemma ShareSumRises(ids: seq<string>, lim: Limits, x: real, r: string -> real, n: string -> real,
                      y: real, r': string -> real, n': string -> real)
    requires lim.cap > 0.0 && lim.slack >= 0.0 && x > 0.0 && y > 0.0 && LighterRicher(ids, r, n, r', n')
    requires Sum(Map(ids, Pour(lim, x, r))) == Sum(Map(ids, Pour(lim, y, r')))
    ensures Sum(Map(ids, Share(lim, x, r, n)))
         <= Sum(Map(ids, Share(lim, y, r', n'))) + |ids| as real * lim.slack
  {
    hide Times, Fill, Sum;
    var s, s' := Map(ids, Share(lim, x, r, n)), Map(ids, Share(lim, y, r', n'));
    var slacks := seq(|ids|, i => lim.slack);
    SumConstant(slacks, lim.slack);
    var upper := seq(|ids|, i requires 0 <= i < |ids| => s'[i] + slacks[i]);
    SumPlus(s', slacks, upper);
    if x <= y {
      forall i | 0 <= i < |ids|
        ensures s[i] <= upper[i]
      {
        ShareRises(lim, x, y, r(ids[i]), r'(ids[i]), n(ids[i]), n'(ids[i]));
      }
      SumLessEqual(s, upper);
    } else {
      var w, w' := Map(ids, Pour(lim, x, r)), Map(ids, Pour(lim, y, r'));
      var before := seq(|ids|, i requires 0 <= i < |ids| => s[i] + w'[i]);
      var after := seq(|ids|, i requires 0 <= i < |ids| => upper[i] + w[i]);
      SumPlus(s, w', before);
      SumPlus(upper, w, after);
      forall i | 0 <= i < |ids|
        ensures before[i] <= after[i]
      {
        ShareFalls(lim, x, y, r(ids[i]), r'(ids[i]), n(ids[i]), n'(ids[i]));
      }
      SumLessEqual(before, after);
    }
  }

  // ---------------------------------------------------------------- gentle raises

  /** What a raise from s to s' must meet to be harmless when negative signals weigh m times as much. */
  predicate GentleStep(m: real, s: real, s': real)
  {
    (s < 0.5 <==> s' < 0.5) || (Times(m, s) <= s' && 1.0 - s' <= Times(m, 1.0 - s))
  }

  predicate GentleReceipt(p: Params, r: Receipt, r': Receipt)
  {
    && r'.issuer == r.issuer && r'.timestamp == r.timestamp
    && 0.0 <= r.score <= r'.score <= 1.0
    && GentleStep(p.negativeMultiplier, r.score, r'.score)
  }

  ghost predicate Gentle(p: Params, a: seq<Receipt>, b: seq<Receipt>)
  {
    |a| == |b| && forall i :: 0 <= i < |a| ==> GentleReceipt(p, a[i], b[i])
  }

  lemma {:induction false} WindowGentle(p: Params, now: int, a: seq<Receipt>, b: seq<Receipt>)
    requires Gentle(p, a, b)
    ensures Gentle(p, Window(p, now, a), Window(p, now, b))
  {
    hide GentleStep;
    if a != [] {
      WindowGentle(p, now, a[..|a| - 1], b[..|b| - 1]);
    }
  }

  /** A raise makes a receipt lighter and richer, or, with a multiplier below 1, heavier and less lacking. */
  lemma ReceiptGentle(p: Params, now: int, r: Receipt, r': Receipt)
    requires ValidParams(p) && GentleReceipt(p, r, r')
    ensures var w, w' := SignalWeight(p, now, r), SignalWeight(p, now, r');
      && 0.0 <= Times(r.score, w) <= w && 0.0 <= Times(r'.score, w') <= w'
      && (p.negativeMultiplier >= 1.0 ==> w' <= w && Times(r.score, w) <= Times(r'.score, w'))
      && (p.negativeMultiplier <= 1.0 ==> w <= w' && w' - Times(r'.score, w') <= w - Times(r.score, w))
  {
    hide Times, SignalWeight;
    var m, d := p.negativeMultiplier, p.decay(now - r.timestamp);
    var w, w' := SignalWeight(p, now, r), SignalWeight(p, now, r');
    SideWeight(p, now, r);
    SideWeight(p, now, r');
    SignalPositive(p, now, r);
    SignalPositive(p, now, r');
    Fraction(r.score, w);
    Fraction(r'.score, w');
    if r.score < 0.5 <==> r'.score < 0.5 {
      TimesOrder(r.score, r'.score, w);
    } else {
      LighterSide(m, d, r.score, r'.score);
      LackingSide(m, d, r.score, r'.score);
    }
  }

  lemma SideWeight(p: Params, now: int, r: Receipt)
    ensures var d := p.decay(now - r.timestamp);
      SignalWeight(p, now, r) == if r.score < 0.5 then Times(d, p.negativeMultiplier) else d
  {
  }

  lemma Fraction(s: real, w: real)
    requires 0.0 <= s <= 1.0 && w >= 0.0
    ensures 0.0 <= Times(s, w) <= w
  {
    TimesOrder(0.0, s, w);
    TimesOrder(s, 1.0, w);
  }

  lemma LighterSide(m: real, d: real, s: real, s': real)
    requires d > 0.0 && Times(m, s) <= s'
    ensures Times(s, Times(d, m)) <= Times(s', d)
    ensures m >= 1.0 ==> d <= Times(d, m)
  {
    TimesOrder(Times(m, s), s', d);
  }

  lemma LackingSide(m: real, d: real, s: real, s': real)
    requires d > 0.0 && 1.0 - s' <= Times(m, 1.0 - s)
    ensures d - Times(s', d) <= Times(d, m) - Times(s, Times(d, m))
    ensures m <= 1.0 ==> Times(d, m) <= d
  {
    TimesOrder(1.0 - s', Times(m, 1.0 - s), d);
  }

  /** What issuer `id` falls short of carrying. */
  function LackFor(p: Params, now: int, id: string): Receipt -> real
  {
    (r: Receipt) => WeightFor(p, now, id)(r) - ScoreFor(p, now, id)(r)
  }

  function GainOf(p: Params, now: int, window: seq<Receipt>): string -> real
  {
    (id: string) => WeightedSum(p, now, window, id)
  }

  function LackOf(p: Params, now: int, window: seq<Receipt>): string -> real
  {
    (id: string) => Sum(Map(window, LackFor(p, now, id)))
  }

  lemma GainAndLack(p: Params, now: int, window: seq<Receipt>, id: string)
    ensures WeightedSum(p, now, window, id) + LackOf(p, now, window)(id) == TotalWeight(p, now, window, id)
  {
    SumPlus(Map(window, ScoreFor(p, now, id)), Map(window, LackFor(p, now, id)), Map(window, WeightFor(p, now, id)));
  }

  lemma TermsGentle(p: Params, now: int, r: Receipt, r': Receipt, id: string)
    requires ValidParams(p) && GentleReceipt(p, r, r')
    ensures 0.0 <= ScoreFor(p, now, id)(r) <= WeightFor(p, now, id)(r)
    ensures 0.0 <= LackFor(p, now, id)(r') <= WeightFor(p, now, id)(r')
    ensures p.negativeMultiplier >= 1.0 ==>
      && WeightFor(p, now, id)(r') <= WeightFor(p, now, id)(r)
      && ScoreFor(p, now, id)(r) <= ScoreFor(p, now, id)(r')
    ensures p.negativeMultiplier <= 1.0 ==>
      && WeightFor(p, now, id)(r) <= WeightFor(p, now, id)(r')
      && LackFor(p, now, id)(r') <= LackFor(p, now, id)(r)
  {
    hide SignalWeight, Times;
    ReceiptGentle(p, now, r, r');
  }

  lemma IssuerGentle(p: Params, now: int, a: seq<Receipt>, b: seq<Receipt>, id: string)
    requires ValidParams(p) && Gentle(p, a, b)
    ensures 0.0 <= GainOf(p, now, a)(id) <= RawOf(p, now, a)(id)
    ensures 0.0 <= LackOf(p, now, b)(id) <= RawOf(p, now, b)(id)
    ensures p.negativeMultiplier >= 1.0 ==>
      RawOf(p, now, b)(id) <= RawOf(p, now, a)(id) && GainOf(p, now, a)(id) <= GainOf(p, now, b)(id)
    ensures p.negativeMultiplier <= 1.0 ==>
      RawOf(p, now, a)(id) <= RawOf(p, now, b)(id) && LackOf(p, now, b)(id) <= LackOf(p, now, a)(id)
  {
    hide ValidParams, GentleReceipt, WeightFor, ScoreFor, LackFor, Sum;
    forall i | 0 <= i < |a|
      ensures 0.0 <= ScoreFor(p, now, id)(a[i]) <= WeightFor(p, now, id)(a[i])
      ensures 0.0 <= LackFor(p, now, id)(b[i]) <= WeightFor(p, now, id)(b[i])
      ensures p.negativeMultiplier >= 1.0 ==> WeightFor(p, now, id)(b[i]) <= WeightFor(p, now, id)(a[i])
      ensures p.negativeMultiplier >= 1.0 ==> ScoreFor(p, now, id)(a[i]) <= ScoreFor(p, now, id)(b[i])
      ensures p.negativeMultiplier <= 1.0 ==> WeightFor(p, now, id)(a[i]) <= WeightFor(p, now, id)(b[i])
      ensures p.negativeMultiplier <= 1.0 ==> LackFor(p, now, id)(b[i]) <= LackFor(p, now, id)(a[i])
    {
      TermsGentle(p, now, a[i], b[i], id);
    }
    SumBetween(a, ScoreFor(p, now, id), WeightFor(p, now, id));
    SumBetween(b, LackFor(p, now, id), WeightFor(p, now, id));
    if p.negativeMultiplier >= 1.0 {
      SumLessEqual(Map(b, WeightFor(p, now, id)), Map(a, WeightFor(p, now, id)));
      SumLessEqual(Map(a, ScoreFor(p, now, id)), Map(b, ScoreFor(p, now, id)));
    }
    if p.negativeMultiplier <= 1.0 {
      SumLessEqual(Map(a, WeightFor(p, now, id)), Map(b, WeightFor(p, now, id)));
      SumLessEqual(Map(b, LackFor(p, now, id)), Map(a, LackFor(p, now, id)));
    }
  }

  lemma SumBetween<T>(s: seq<T>, g: T -> real, h: T -> real)
    requires forall i :: 0 <= i < |s| ==> 0.0 <= g(s[i]) <= h(s[i])
    ensures 0.0 <= Sum(Map(s, g)) <= Sum(Map(s, h))
  {
    var zeros := Map(s, (_: T) => 0.0);
    SumConstant(zeros, 0.0);
    SumLessEqual(zeros, Map(s, g));
    SumLessEqual(Map(s, g), Map(s, h));
  }

  // ---------------------------------------------------------------- the score as a sum of shares

  /** The allocation of step 5 under the cap of the source and some tolerance. */
  ghost predicate OutcomeWithin(p: Params, now: int, window: seq<Receipt>, slots: seq<Slot>, level: real, slack: real)
  {
    && slots != [] && ValidParams(p) && slack >= 0.0
    && Allocates(p, now, window, slots, Limits(EffectiveCap(p, |slots|), slack), level)
  }

  /** Listed in any order, the issuers are poured a weight of 1 and carry the score. */
  lemma ScoreAsShares(p: Params, now: int, window: seq<Receipt>, slots: seq<Slot>, level: real, slack: real,
                      ids: seq<string>)
    requires OutcomeWithin(p, now, window, slots, level, slack)
    requires multiset(ids) == multiset(Ids(Issuers(slots)))
    ensures var lim, total := Limits(EffectiveCap(p, |slots|), slack), Sum(Raws(Issuers(slots)));
      && total > 0.0 && level / total > 0.0 && lim.cap > 0.0
      && (forall i :: 0 <= i < |ids| ==> RawOf(p, now, window)(ids[i]) > 0.0)
      && Sum(Map(ids, Pour(lim, level / total, RawOf(p, now, window)))) == 1.0
      && Sum(Map(ids, Share(lim, level / total, RawOf(p, now, window), GainOf(p, now, window)))) == RawScore(slots)
  {
    hide Times, Fill, TotalWeight, WeightedSum, Sum, Handed;
    var lim, total := Limits(EffectiveCap(p, |slots|), slack), Sum(Raws(Issuers(slots)));
    var x, raw, gain := level / total, RawOf(p, now, window), GainOf(p, now, window);
    var own := Ids(Issuers(slots));
    Lifted(level, total);
    CapPositive(p, |slots|);
    forall id | id in ids
      ensures raw(id) > 0.0
    {
      assert id in multiset(ids);
      var i :| 0 <= i < |own| && own[i] == id;
      assert Summarises(p, now, window, Issuers(slots)[i]);
    }
    forall i | 0 <= i < |own|
      ensures Weights(slots)[i] == Pour(lim, x, raw)(own[i])
      ensures Contributions(slots)[i] == Share(lim, x, raw, gain)(own[i])
    {
      assert Summarises(p, now, window, Issuers(slots)[i]);
      assert SlotFilled(slots[i], Fractions(Issuers(slots))[i], lim, level);
      Spread(level, slots[i].issuer.raw, total);
    }
    assert Weights(slots) == Map(own, Pour(lim, x, raw));
    assert Contributions(slots) == Map(own, Share(lim, x, raw, gain));
    MapIgnoresOrder(ids, own, Pour(lim, x, raw));
    MapIgnoresOrder(ids, own, Share(lim, x, raw, gain));
    SumIgnoresOrder(Map(ids, Pour(lim, x, raw)), Weights(slots));
    SumIgnoresOrder(Map(ids, Share(lim, x, raw, gain)), Contributions(slots));
  }

  lemma Lifted(level: real, total: real)
    requires level >= 1.0 && total > 0.0
    ensures level / total > 0.0
  {
  }

  lemma CapPositive(p: Params, n: nat)
    requires n > 0
    ensures EffectiveCap(p, n) > 0.0
  {
  }

  lemma Spread(level: real, raw: real, total: real)
    requires total > 0.0
    ensures Times(level, raw / total) == Times(level / total, raw)
  {
  }

  /** What an issuer carries and what it lacks make up its weight. */
  lemma LackingShares(ids: seq<string>, lim: Limits, x: real, r: string -> real, n: string -> real, l: string -> real)
    requires forall i :: 0 <= i < |ids| ==> r(ids[i]) > 0.0 && n(ids[i]) + l(ids[i]) == r(ids[i])
    ensures Sum(Map(ids, Share(lim, x, r, n))) + Sum(Map(ids, Share(lim, x, r, l))) == Sum(Map(ids, Pour(lim, x, r)))
  {
    hide Times, Fill, Sum;
    var carried, lacking := Map(ids, Share(lim, x, r, n)), Map(ids, Share(lim, x, r, l));
    var poured := Map(ids, Pour(lim, x, r));
    forall i | 0 <= i < |ids|
      ensures poured[i] == carried[i] + lacking[i]
    {
      TwoParts(n(ids[i]), l(ids[i]), r(ids[i]), poured[i]);
    }
    SumPlus(carried, lacking, poured);
  }

  lemma TwoParts(n: real, l: real, r: real, w: real)
    requires r > 0.0 && n + l == r
    ensures Times(n / r, w) + Times(l / r, w) == w
  {
    assert n / r + l / r == 1.0;
  }

  lemma GentleIds(p: Params, a: seq<Receipt>, b: seq<Receipt>)
    requires Gentle(p, a, b)
    ensures IssuerIds(a) == IssuerIds(b)
  {
    hide GentleStep;
    forall i | 0 <= i < |a|
      ensures b[i].issuer == a[i].issuer && a[i] in a && b[i] in b
    {
      assert GentleReceipt(p, a[i], b[i]);
    }
  }

  lemma SameOrder(p: Params, now: int, a: seq<Receipt>, b: seq<Receipt>, x: seq<Slot>, y: seq<Slot>)
    requires Gentle(p, a, b)
    requires FromWindow(p, now, a, Issuers(x)) && FromWindow(p, now, b, Issuers(y))
    ensures multiset(Ids(Issuers(x))) == multiset(Ids(Issuers(y))) && |x| == |y|
  {
    hide Gentle, IssuerIds, Summarises, Sum;
    var s, t := Ids(Issuers(x)), Ids(Issuers(y));
    GentleIds(p, a, b);
    SameElementsSameMultiset(s, t);
    assert |multiset(s)| == |s| && |multiset(t)| == |t|;
  }

  /**
   * Raises that meet the condition never lower the aggregate, however many
   * there are, except by the tolerance of each issuer's comparison.
   */
  lemma GentleRaisesNeverLower(p: Params, now: int, a: seq<Receipt>, b: seq<Receipt>, slack: real,
                               x: seq<Slot>, la: real, y: seq<Slot>, lb: real)
    requires Gentle(p, a, b)
    requires OutcomeWithin(p, now, Window(p, now, a), x, la, slack)
    requires OutcomeWithin(p, now, Window(p, now, b), y, lb, slack)
    ensures RawScore(x) <= RawScore(y) + |x| as real * slack
  {
    hide Window, Gentle, Filled, TotalWeight, WeightedSum, Sum, RawScore, Share, Pour, LackOf, Map;
    WindowGentle(p, now, a, b);
    var wa, wb := Window(p, now, a), Window(p, now, b);
    SameOrder(p, now, wa, wb, x, y);
    var ids, lim := Ids(Issuers(x)), Limits(EffectiveCap(p, |x|), slack);
    var u, v := la / Sum(Raws(Issuers(x))), lb / Sum(Raws(Issuers(y)));
    ScoreAsShares(p, now, wa, x, la, slack, ids);
    ScoreAsShares(p, now, wb, y, lb, slack, ids);
    var (r, n, l) := (RawOf(p, now, wa), GainOf(p, now, wa), LackOf(p, now, wa));
    var (r', n', l') := (RawOf(p, now, wb), GainOf(p, now, wb), LackOf(p, now, wb));
    forall id
      ensures n(id) + l(id) == r(id) && n'(id) + l'(id) == r'(id)
    {
      GainAndLack(p, now, wa, id);
      GainAndLack(p, now, wb, id);
    }
    forall i | 0 <= i < |ids|
      ensures 0.0 <= n(ids[i]) <= r(ids[i]) && 0.0 <= l'(ids[i]) <= r'(ids[i])
      ensures p.negativeMultiplier >= 1.0 ==> r'(ids[i]) <= r(ids[i]) && n(ids[i]) <= n'(ids[i])
      ensures p.negativeMultiplier <= 1.0 ==> r(ids[i]) <= r'(ids[i]) && l'(ids[i]) <= l(ids[i])
    {
      IssuerGentle(p, now, wa, wb, ids[i]);
    }
    if p.negativeMultiplier >= 1.0 {
      ShareSumRises(ids, lim, u, r, n, v, r', n');
    } else {
      ShareSumRises(ids, lim, v, r', l', u, r, l);
      LackingShares(ids, lim, u, r, n, l);
      LackingShares(ids, lim, v, r', n', l');
    }
  }
}
