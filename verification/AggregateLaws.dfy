/** What the v1.1 aggregation promises, stated about the window and the allocation alone. */
module AggregateLaws {
  import opened Basics
  import opened Sums
  import opened WaterFill
  import opened Aggregate

  // ---------------------------------------------------------------- order independence

  lemma {:induction false} WindowCount(p: Params, now: int, receipts: seq<Receipt>, r: Receipt)
    ensures multiset(Window(p, now, receipts))[r] == if InWindow(p, now, r) then multiset(receipts)[r] else 0
  {
    if |receipts| != 0 {
      var front, last := receipts[..|receipts| - 1], receipts[|receipts| - 1];
      WindowCount(p, now, front, r);
      assert receipts == front + [last];
    }
  }

  lemma WindowIgnoresOrder(p: Params, now: int, a: seq<Receipt>, b: seq<Receipt>)
    requires multiset(a) == multiset(b)
    ensures multiset(Window(p, now, a)) == multiset(Window(p, now, b))
  {
    forall r
      ensures multiset(Window(p, now, a))[r] == multiset(Window(p, now, b))[r]
    {
      WindowCount(p, now, a, r);
      WindowCount(p, now, b, r);
    }
  }

  lemma SameSums(p: Params, now: int, a: seq<Receipt>, b: seq<Receipt>, id: string)
    requires multiset(a) == multiset(b)
    ensures TotalWeight(p, now, a, id) == TotalWeight(p, now, b, id)
    ensures WeightedSum(p, now, a, id) == WeightedSum(p, now, b, id)
  {
    MapIgnoresOrder(a, b, WeightFor(p, now, id));
    MapIgnoresOrder(a, b, ScoreFor(p, now, id));
    SumIgnoresOrder(Map(a, WeightFor(p, now, id)), Map(b, WeightFor(p, now, id)));
    SumIgnoresOrder(Map(a, ScoreFor(p, now, id)), Map(b, ScoreFor(p, now, id)));
  }

  /** The issuer with identifier `id`, as a function of the window. */
  function IssuerFor(p: Params, now: int, window: seq<Receipt>): string -> Issuer
  {
    (id: string) =>
      var total := TotalWeight(p, now, window, id);
      Issuer(id, if total == 0.0 then 0.0 else WeightedSum(p, now, window, id) / total, total)
  }

  lemma IssuersAreImage(p: Params, now: int, window: seq<Receipt>, issuers: seq<Issuer>)
    requires FromWindow(p, now, window, issuers)
    ensures issuers == Map(Ids(issuers), IssuerFor(p, now, window))
  {
  }

  lemma {:induction false} SameIssuersInAnyOrder(p: Params, now: int, a: seq<Receipt>, b: seq<Receipt>,
                                                 x: seq<Issuer>, y: seq<Issuer>)
    requires multiset(a) == multiset(b)
    requires FromWindow(p, now, a, x) && FromWindow(p, now, b, y)
    ensures multiset(x) == multiset(y)
  {
    hide TotalWeight, WeightedSum;
    forall id
      ensures id in Ids(x) <==> id in Ids(y)
    {
      assert forall r :: r in a <==> r in multiset(a);
      assert forall r :: r in b <==> r in multiset(b);
    }
    SameElementsSameMultiset(Ids(x), Ids(y));
    IssuersAreImage(p, now, a, x);
    IssuersAreImage(p, now, b, y);
    MapIgnoresOrder(Ids(x), Ids(y), IssuerFor(p, now, a));
    forall i | 0 <= i < |y|
      ensures y[i] == IssuerFor(p, now, a)(Ids(y)[i])
    {
      SameSums(p, now, a, b, Ids(y)[i]);
    }
    assert y == Map(Ids(y), IssuerFor(p, now, a));
  }

  function SlotFor(lim: Limits, level: real, total: real): Issuer -> Slot
    requires total > 0.0
  {
    (i: Issuer) =>
      var x := Times(level, i.raw / total);
      Slot(i, Fill(lim, x), x > lim.cap + lim.slack)
  }

  lemma SlotsAreImage(slots: seq<Slot>, lim: Limits, level: real)
    requires Sum(Raws(Issuers(slots))) > 0.0
    requires Filled(slots, Fractions(Issuers(slots)), lim, level)
    ensures slots == Map(Issuers(slots), SlotFor(lim, level, Sum(Raws(Issuers(slots)))))
  {
  }

  /**
   * The order in which receipts (and so issuers) arrive changes nothing: the
   * same issuers are capped, at the same level, with the same weights, and the
   * combined score is the same number. This holds for the slack of the source.
   */
  lemma {:induction false} ScoreIgnoresOrder(p: Params, now: int, a: seq<Receipt>, b: seq<Receipt>, lim: Limits,
                                             x: seq<Slot>, la: real, y: seq<Slot>, lb: real)
    requires multiset(a) == multiset(b)
    requires Allocates(p, now, Window(p, now, a), x, lim, la)
    requires Allocates(p, now, Window(p, now, b), y, lim, lb)
    ensures la == lb
    ensures multiset(x) == multiset(y)
    ensures RawScore(x) == RawScore(y)
  {
    hide Filled, IsWaterLevel, Sum;
    WindowIgnoresOrder(p, now, a, b);
    var ix, iy := Issuers(x), Issuers(y);
    SameIssuersInAnyOrder(p, now, Window(p, now, a), Window(p, now, b), ix, iy);
    MapIgnoresOrder(ix, iy, (i: Issuer) => i.raw);
    SumIgnoresOrder(Raws(ix), Raws(iy));
    var total := Sum(Raws(ix));
    MapIgnoresOrder(ix, iy, (i: Issuer) => i.raw / total);
    assert multiset(Fractions(ix)) == multiset(Fractions(iy));
    FilledAtWaterLevel(x, Fractions(ix), lim, la);
    FilledAtWaterLevel(y, Fractions(iy), lim, lb);
    LevelIgnoresOrder(Fractions(ix), Fractions(iy), lim, la, lb);
    SlotsAreImage(x, lim, la);
    SlotsAreImage(y, lim, lb);
    MapIgnoresOrder(ix, iy, SlotFor(lim, la, total));
    MapIgnoresOrder(x, y, (s: Slot) => Times(s.issuer.score, s.weight));
    SumIgnoresOrder(Contributions(x), Contributions(y));
  }

  lemma FilledAtWaterLevel(slots: seq<Slot>, fractions: seq<real>, lim: Limits, level: real)
    requires Filled(slots, fractions, lim, level)
    ensures IsWaterLevel(fractions, lim, level)
  {
  }

  // ---------------------------------------------------------------- bounds

  function Scores(slots: seq<Slot>): (r: seq<real>)
    ensures |r| == |slots| && forall i :: 0 <= i < |r| ==> r[i] == slots[i].issuer.score
  {
    Map(slots, (s: Slot) => s.issuer.score)
  }

  /** The allocation of step 5 under the cap and slack of the source. */
  ghost predicate Outcome(p: Params, now: int, window: seq<Receipt>, slots: seq<Slot>, level: real)
  {
    slots != [] && ValidParams(p) && Allocates(p, now, window, slots, LimitsFor(p, |slots|), level)
  }

  lemma {:induction false} WeightsNonNegative(p: Params, now: int, window: seq<Receipt>, slots: seq<Slot>, level: real)
    requires Outcome(p, now, window, slots, level)
    ensures forall i :: 0 <= i < |slots| ==> 
              0.0 <= slots[i].weight <= Max(p.maxIssuerWeight, 1.0 / |slots| as real) + SLACK
    ensures Sum(Weights(slots)) == 1.0
    ensures RawScore(slots) == Sum(Products(Scores(slots), Weights(slots)))
  {
    hide Times, TotalWeight, WeightedSum, Sum, IsWaterLevel, ListsIssuers;
    var lim, f := LimitsFor(p, |slots|), Fractions(Issuers(slots));
    LevelAtLeastOne(f, lim, level);
    CapInForce(p, |slots|);
    forall i | 0 <= i < |slots|
      ensures 0.0 <= slots[i].weight <= lim.cap + lim.slack
    {
      assert SlotFilled(slots[i], f[i], lim, level);
      assert Summarises(p, now, window, Issuers(slots)[i]);
      HeightPositive(level, slots[i].issuer.raw, Sum(Raws(Issuers(slots))));
    }
    assert Contributions(slots) == Products(Scores(slots), Weights(slots));
  }

  lemma LevelAtLeastOne(fractions: seq<real>, lim: Limits, level: real)
    requires IsWaterLevel(fractions, lim, level)
    ensures level >= 1.0
  {
  }

  lemma HeightPositive(level: real, raw: real, total: real)
    requires level >= 1.0 && raw > 0.0 && total > 0.0
    ensures Times(level, raw / total) > 0.0
  {
  }

  lemma ScoreOfIssuer(p: Params, now: int, window: seq<Receipt>, slots: seq<Slot>, level: real, i: nat,
                      lo: real, hi: real)
    requires Outcome(p, now, window, slots, level)
    requires i < |slots|
    requires forall r :: r in window && r.issuer == slots[i].issuer.id ==> lo <= r.score <= hi
    ensures lo <= slots[i].issuer.score <= hi
  {
    hide TotalWeight, WeightedSum, Filled;
    assert Issuers(slots)[i] == slots[i].issuer;
    assert Summarises(p, now, window, Issuers(slots)[i]);
    assert Ids(Issuers(slots))[i] == slots[i].issuer.id;
    IssuerScoreBetween(p, now, window, slots[i].issuer.id, lo, hi);
  }

  /** The score lies between the extreme receipt scores, so on unit scores the clamp changes nothing. */
  lemma {:induction false} ScoreBetweenReceipts(p: Params, now: int, window: seq<Receipt>, slots: seq<Slot>,
                                                level: real, lo: real, hi: real)
    requires Outcome(p, now, window, slots, level)
    requires forall r :: r in window ==> lo <= r.score <= hi
    ensures lo <= RawScore(slots) <= hi
    ensures 0.0 <= lo && hi <= 1.0 ==> Clamp01(RawScore(slots)) == RawScore(slots)
  {
    hide Allocates, RawScore, Sum;
    WeightsNonNegative(p, now, window, slots, level);
    forall i | 0 <= i < |slots|
      ensures lo <= Scores(slots)[i] <= hi
    {
      ScoreOfIssuer(p, now, window, slots, level, i, lo, hi);
    }
    SumAtMost(Scores(slots), Weights(slots), hi);
    SumAtLeast(Scores(slots), Weights(slots), lo);
  }

  /**
   * However many receipts one issuer sends, it moves the score by at most its
   * cap: the others keep the rest of the weight, upwards and downwards.
   */
  lemma {:induction false} NoIssuerDominates(p: Params, now: int, window: seq<Receipt>, slots: seq<Slot>,
                                             level: real, k: nat, worst: real, best: real)
    requires Outcome(p, now, window, slots, level)
    requires k < |slots|
    requires forall r :: r in window ==> 0.0 <= r.score <= 1.0
    requires forall r :: r in window && r.issuer != slots[k].issuer.id ==> worst <= r.score <= best
    requires 0.0 <= worst && best <= 1.0
    ensures var c := Max(p.maxIssuerWeight, 1.0 / |slots| as real) + SLACK;
            (1.0 - c) * worst <= RawScore(slots) <= c * 1.0 + (1.0 - c) * best
  {
    hide RawScore, Sum, Times, Outcome;
    WeightsNonNegative(p, now, window, slots, level);
    DistinctIssuers(p, now, window, slots, level);
    var x, w := Scores(slots), Weights(slots);
    forall i | 0 <= i < |slots|
      ensures 0.0 <= x[i] <= 1.0 && (i != k ==> worst <= x[i] <= best)
    {
      ScoreOfIssuer(p, now, window, slots, level, i, 0.0, 1.0);
      if i != k {
        ScoreOfIssuer(p, now, window, slots, level, i, worst, best);
      }
    }
    SumAtMostBut(x, w, best, k, 1.0);
    SumAtLeastBut(x, w, worst, k, 0.0);
    CapBounds(best, worst, w[k], Max(p.maxIssuerWeight, 1.0 / |slots| as real) + SLACK);
  }

  /** Where the configured cap cannot be met, everybody gets an equal share, up to the tolerance. */
  lemma InfeasibleCapEqualises(p: Params, now: int, window: seq<Receipt>, slots: seq<Slot>, level: real, k: nat)
    requires Outcome(p, now, window, slots, level)
    requires p.maxIssuerWeight * |slots| as real <= 1.0
    requires k < |slots|
    ensures var n := |slots| as real;
            1.0 / n - n * 0.000000000001 <= slots[k].weight <= 1.0 / n + n * 0.000000000001
  {
    hide Outcome, Sum, Max;
    var n := |slots| as real;
    var share := 1.0 / n;
    WeightsNonNegative(p, now, window, slots, level);
    InfeasibleCap(p.maxIssuerWeight, n);
    var w, most := Weights(slots), share + SLACK;
    var bound := seq(|slots|, i => most);
    SumConstant(bound, most);
    var rest := bound[k := w[k]];
    SumLessEqual(w, rest);
    SumReplaced(bound, k, w[k]);
    Spare(n, share, w[k]);
  }

  lemma InfeasibleCap(cap: real, n: real)
    requires n >= 1.0 && cap * n <= 1.0
    ensures Max(cap, 1.0 / n) == 1.0 / n
  {
    Quotient(1.0, n);
    if cap > 1.0 / n {
      TimesStrict(1.0 / n, cap, n);
    }
  }

  lemma Spare(n: real, share: real, w: real)
    requires n >= 1.0 && share == 1.0 / n
    requires w <= share + SLACK && 1.0 <= n * (share + SLACK) - (share + SLACK) + w
    ensures share - n * SLACK <= w <= share + n * SLACK
  {
    assert n * share == 1.0;
    assert n * (share + SLACK) == n * share + n * SLACK;
  }

  lemma DistinctIssuers(p: Params, now: int, window: seq<Receipt>, slots: seq<Slot>, level: real)
    requires Outcome(p, now, window, slots, level)
    ensures forall i, j :: 0 <= i < j < |slots| ==> slots[i].issuer.id != slots[j].issuer.id
  {
    hide Filled, Summarises;
    assert forall i :: 0 <= i < |slots| ==> Ids(Issuers(slots))[i] == slots[i].issuer.id;
  }

  lemma CapBounds(best: real, worst: real, w: real, c: real)
    requires worst >= 0.0 && best <= 1.0 && w <= c
    ensures Times(best, 1.0) + Times(1.0 - best, w) <= c * 1.0 + (1.0 - c) * best
    ensures (1.0 - c) * worst <= Times(worst, 1.0) + Times(0.0 - worst, w)
  {
  }

  // ---------------------------------------------------------------- the tolerance

  /**
   * The float tolerance moves no weight by more than n * slack away from the
   * unique allocation min(cap, level * fraction).
   */
  lemma {:induction false} SlackIsHarmless(fractions: seq<real>, cap: real, slack: real, a: real, b: real)
    requires forall i :: 0 <= i < |fractions| ==> fractions[i] > 0.0
    requires slack >= 0.0
    requires Handed(fractions, Limits(cap, slack), a) == 1.0
    requires Handed(fractions, Limits(cap, 0.0), b) == 1.0
    ensures var w, v := FillAll(fractions, Limits(cap, slack), a), FillAll(fractions, Limits(cap, 0.0), b);
            forall i :: 0 <= i < |fractions| ==>
              -(|fractions| as real * slack) <= w[i] - v[i] <= |fractions| as real * slack
  {
    hide Times, Sum, FillAll;
    var u := FillAll(fractions, Limits(cap, 0.0), a);
    GapToLevel(fractions, cap, slack, a);
    GapToOptimum(fractions, cap, a, b);
  }

  /** At one level, the slack changes each weight by at most the missing total. */
  lemma {:induction false} GapToLevel(fractions: seq<real>, cap: real, slack: real, a: real)
    requires slack >= 0.0
    requires Handed(fractions, Limits(cap, slack), a) == 1.0
    ensures 0.0 <= 1.0 - Handed(fractions, Limits(cap, 0.0), a) <= |fractions| as real * slack
    ensures var w, u := FillAll(fractions, Limits(cap, slack), a), FillAll(fractions, Limits(cap, 0.0), a);
            forall i :: 0 <= i < |fractions| ==>
              0.0 <= w[i] - u[i] <= 1.0 - Handed(fractions, Limits(cap, 0.0), a)
  {
    hide Times, Fill, Sum;
    var w, u := FillAll(fractions, Limits(cap, slack), a), FillAll(fractions, Limits(cap, 0.0), a);
    forall i | 0 <= i < |fractions|
      ensures 0.0 <= w[i] - u[i] <= slack
    {
      FillGap(cap, slack, Times(a, fractions[i]));
    }
    var gap := seq(|fractions|, i requires 0 <= i < |fractions| => w[i] - u[i]);
    var slacks := seq(|fractions|, i => slack);
    SumPlus(u, gap, w);
    SumConstant(slacks, slack);
    SumLessEqual(gap, slacks);
    SumLessEqual(u, w);
    forall i | 0 <= i < |fractions|
      ensures w[i] - u[i] <= Sum(gap)
    {
      TermAtMostSum(gap, i);
    }
  }

  lemma FillGap(cap: real, slack: real, x: real)
    requires slack >= 0.0
    ensures 0.0 <= Fill(Limits(cap, slack), x) - Fill(Limits(cap, 0.0), x) <= slack
  {
  }

  /** The same level without slack stays below the optimum, by at most the missing total. */
  lemma {:induction false} GapToOptimum(fractions: seq<real>, cap: real, a: real, b: real)
    requires forall i :: 0 <= i < |fractions| ==> fractions[i] > 0.0
    requires Handed(fractions, Limits(cap, 0.0), a) <= 1.0
    requires Handed(fractions, Limits(cap, 0.0), b) == 1.0
    ensures var u, v := FillAll(fractions, Limits(cap, 0.0), a), FillAll(fractions, Limits(cap, 0.0), b);
            forall i :: 0 <= i < |fractions| ==>
              0.0 <= v[i] - u[i] <= 1.0 - Handed(fractions, Limits(cap, 0.0), a)
  {
    hide Times;
    var u, v := FillAll(fractions, Limits(cap, 0.0), a), FillAll(fractions, Limits(cap, 0.0), b);
    var rise := seq(|fractions|, i requires 0 <= i < |fractions| => v[i] - u[i]);
    SumPlus(u, rise, v);
    if a <= b {
      FillAllMonotone(fractions, cap, a, b);
    } else {
      FillAllMonotone(fractions, cap, b, a);
      SumTight(v, u);
    }
    forall i | 0 <= i < |fractions|
      ensures v[i] - u[i] <= Sum(rise)
    {
      TermAtMostSum(rise, i);
    }
  }
}
