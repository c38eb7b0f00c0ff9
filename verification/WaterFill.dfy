/**
 * The issuer cap of aggregation v1.1: cap the over-weight issuers, share their
 * excess among the others in proportion to what they hold, repeat.
 *
 * The loop is compared with a description that mentions no loop at all: a
 * "water level" L turns each initial fraction f into Fill(L * f), and the loop
 * stops at the least level that hands out a total weight of exactly 1.
 */
module WaterFill {
  import opened Sums

  /** What step 4 computes for one issuer. */
  datatype Issuer = Issuer(id: string, score: real, raw: real)

  /** The same issuer while its weight is being adjusted. */
  datatype Slot = Slot(issuer: Issuer, weight: real, capped: bool)

  /** The cap in force and the float tolerance of the comparison against it. */
  datatype Limits = Limits(cap: real, slack: real)

  // ---------------------------------------------------------------- levels

  function Fill(lim: Limits, x: real): real
  {
    if x > lim.cap + lim.slack then lim.cap else x
  }

  function FillOf(lim: Limits, level: real): real -> real
  {
    (f: real) => Fill(lim, Times(level, f))
  }

  function FillAll(fractions: seq<real>, lim: Limits, level: real): (r: seq<real>)
    ensures |r| == |fractions| && forall i :: 0 <= i < |r| ==> r[i] == Fill(lim, Times(level, fractions[i]))
  {
    Map(fractions, FillOf(lim, level))
  }

  /** The weight handed out in all when the level is `level`. */
  function Handed(fractions: seq<real>, lim: Limits, level: real): real
  {
    Sum(FillAll(fractions, lim, level))
  }

  ghost predicate IsWaterLevel(fractions: seq<real>, lim: Limits, level: real)
  {
    && level >= 1.0
    && Handed(fractions, lim, level) == 1.0
    && forall m :: m >= 1.0 && Handed(fractions, lim, m) == 1.0 ==> level <= m
  }

  ghost predicate Feasible(fractions: seq<real>, lim: Limits)
  {
    && |fractions| > 0
    && (forall i :: 0 <= i < |fractions| ==> fractions[i] > 0.0)
    && lim.slack >= 0.0
    && |fractions| as real * lim.cap >= 1.0
  }

  /** The level is a property of the fractions as a collection: their order is irrelevant. */
  lemma LevelIgnoresOrder(a: seq<real>, b: seq<real>, lim: Limits, la: real, lb: real)
    requires multiset(a) == multiset(b)
    requires IsWaterLevel(a, lim, la) && IsWaterLevel(b, lim, lb)
    ensures la == lb
  {
    HandedIgnoresOrder(a, b, lim, la);
    HandedIgnoresOrder(a, b, lim, lb);
  }

  lemma HandedIgnoresOrder(a: seq<real>, b: seq<real>, lim: Limits, level: real)
    requires multiset(a) == multiset(b)
    ensures Handed(a, lim, level) == Handed(b, lim, level)
  {
    MapIgnoresOrder(a, b, FillOf(lim, level));
    SumIgnoresOrder(FillAll(a, lim, level), FillAll(b, lim, level));
  }

  /**
   * Without slack the allocation is unique whatever level produced it, and it
   * is min(cap, level * fraction) for every issuer.
   */
  lemma {:induction false} ClosedFormUnique(fractions: seq<real>, cap: real, a: real, b: real)
    requires forall i :: 0 <= i < |fractions| ==> fractions[i] > 0.0
    requires Handed(fractions, Limits(cap, 0.0), a) == 1.0 && Handed(fractions, Limits(cap, 0.0), b) == 1.0
    ensures FillAll(fractions, Limits(cap, 0.0), a) == FillAll(fractions, Limits(cap, 0.0), b)
  {
    var lim := Limits(cap, 0.0);
    if a <= b {
      FillAllMonotone(fractions, cap, a, b);
      SumTight(FillAll(fractions, lim, a), FillAll(fractions, lim, b));
    } else {
      FillAllMonotone(fractions, cap, b, a);
      SumTight(FillAll(fractions, lim, b), FillAll(fractions, lim, a));
    }
  }

  lemma {:induction false} FillAllMonotone(fractions: seq<real>, cap: real, a: real, b: real)
    requires forall i :: 0 <= i < |fractions| ==> fractions[i] > 0.0
    requires a <= b
    ensures var lo, hi := FillAll(fractions, Limits(cap, 0.0), a), FillAll(fractions, Limits(cap, 0.0), b);
            forall i :: 0 <= i < |fractions| ==> lo[i] <= hi[i]
  {
  }

  // ---------------------------------------------------------------- one round

  predicate IsOver(lim: Limits, s: Slot)
  {
    !s.capped && s.weight > lim.cap + lim.slack
  }

  function CapSlot(lim: Limits, s: Slot): Slot
  {
    if IsOver(lim, s) then s.(weight := lim.cap, capped := true) else s
  }

  /** The part of the excess that a free issuer of weight `weight` receives. */
  function Portion(excess: real, weight: real, freeTotal: real): real
    requires freeTotal != 0.0
  {
    excess * (weight / freeTotal)
  }

  /** The level after sharing. */
  function Raised(level: real, excess: real, freeTotal: real): real
    requires freeTotal != 0.0
  {
    level * (1.0 + excess / freeTotal)
  }

  function ShareSlot(excess: real, freeTotal: real, s: Slot): Slot
    requires freeTotal != 0.0
  {
    if s.capped then s else s.(weight := s.weight + Portion(excess, s.weight, freeTotal))
  }

  function FreeWeight(s: Slot): real { if s.capped then 0.0 else s.weight }

  function Excess(lim: Limits, s: Slot): real { if IsOver(lim, s) then s.weight - lim.cap else 0.0 }

  function Weights(slots: seq<Slot>): (r: seq<real>)
    ensures |r| == |slots| && forall i :: 0 <= i < |r| ==> r[i] == slots[i].weight
  {
    seq(|slots|, i requires 0 <= i < |slots| => slots[i].weight)
  }

  function FreeWeights(slots: seq<Slot>): (r: seq<real>)
    ensures |r| == |slots| && forall i :: 0 <= i < |r| ==> r[i] == FreeWeight(slots[i])
  {
    seq(|slots|, i requires 0 <= i < |slots| => FreeWeight(slots[i]))
  }

  function Excesses(lim: Limits, slots: seq<Slot>): (r: seq<real>)
    ensures |r| == |slots| && forall i :: 0 <= i < |r| ==> r[i] == Excess(lim, slots[i])
  {
    seq(|slots|, i requires 0 <= i < |slots| => Excess(lim, slots[i]))
  }

  function CappedCount(slots: seq<Slot>): (n: nat)
    ensures n <= |slots|
    ensures n == |slots| <==> forall i :: 0 <= i < |slots| ==> slots[i].capped
  {
    if |slots| == 0 then 0
    else
      var front := CappedCount(slots[..|slots| - 1]);
      if slots[|slots| - 1].capped then front + 1 else front
  }

  /** Where one slot stands when the level is `level` and it began with fraction `f`. */
  predicate SlotAtLevel(s: Slot, f: real, lim: Limits, level: real)
  {
    && (s.capped ==> s.weight == lim.cap && Times(level, f) > lim.cap + lim.slack)
    && (!s.capped ==> s.weight == Times(level, f))
  }

  /** Between rounds every free issuer sits at the level and every capped one at the cap. */
  ghost predicate AtLevel(slots: seq<Slot>, fractions: seq<real>, lim: Limits, level: real)
  {
    && level >= 1.0
    && |slots| == |fractions|
    && (forall i :: 0 <= i < |slots| ==> SlotAtLevel(slots[i], fractions[i], lim, level))
    && Sum(Weights(slots)) == 1.0
    && BelowAll(fractions, lim, level)
  }

  ghost predicate BelowAll(fractions: seq<real>, lim: Limits, level: real)
  {
    forall m :: m >= 1.0 && Handed(fractions, lim, m) == 1.0 ==> level <= m
  }

  ghost predicate Capped(slots: seq<Slot>, after: seq<Slot>, lim: Limits)
  {
    |after| == |slots| && forall i :: 0 <= i < |slots| ==> after[i] == CapSlot(lim, slots[i])
  }

  ghost predicate Shared(after: seq<Slot>, next: seq<Slot>, excess: real, freeTotal: real)
    requires freeTotal != 0.0
  {
    |next| == |after| && forall i :: 0 <= i < |after| ==> next[i] == ShareSlot(excess, freeTotal, after[i])
  }

  lemma {:induction false} CappingConserves(slots: seq<Slot>, after: seq<Slot>, lim: Limits)
    requires Capped(slots, after, lim)
    ensures Sum(Weights(after)) + Sum(Excesses(lim, slots)) == Sum(Weights(slots))
  {
    SumPlus(Weights(after), Excesses(lim, slots), Weights(slots));
  }

  /** The early exit of the source (no free issuer, or nothing free to scale) is never taken. */
  lemma {:induction false} SomeoneIsFree(slots: seq<Slot>, after: seq<Slot>, fractions: seq<real>, lim: Limits,
                                         level: real, k: nat)
    requires Feasible(fractions, lim)
    requires AtLevel(slots, fractions, lim, level)
    requires Capped(slots, after, lim)
    requires k < |slots| && IsOver(lim, slots[k])
    ensures exists j :: 0 <= j < |after| && !after[j].capped
    ensures Sum(FreeWeights(after)) > 0.0
  {
    FreePositive(slots, after, fractions, lim, level);
    if forall j :: 0 <= j < |after| ==> after[j].capped {
      AllCappedIsTooMuch(slots, after, lim, k);
      assert false;
    }
    var j :| 0 <= j < |after| && !after[j].capped;
    TermAtMostSum(FreeWeights(after), j);
  }

  lemma {:induction false} AllCappedIsTooMuch(slots: seq<Slot>, after: seq<Slot>, lim: Limits, k: nat)
    requires lim.slack >= 0.0
    requires Capped(slots, after, lim)
    requires forall i :: 0 <= i < |slots| && slots[i].capped ==> slots[i].weight == lim.cap
    requires forall j :: 0 <= j < |after| ==> after[j].capped
    requires k < |slots| && IsOver(lim, slots[k])
    ensures Sum(Weights(slots)) > |slots| as real * lim.cap
  {
    var caps := seq(|slots|, i => lim.cap);
    forall i | 0 <= i < |slots|
      ensures caps[i] <= Weights(slots)[i]
    {
      assert after[i] == CapSlot(lim, slots[i]);
    }
    SumLess(caps, Weights(slots), k);
    SumConstant(caps, lim.cap);
  }

  lemma {:induction false} FreePositive(slots: seq<Slot>, after: seq<Slot>, fractions: seq<real>, lim: Limits,
                                        level: real)
    requires Feasible(fractions, lim)
    requires AtLevel(slots, fractions, lim, level)
    requires Capped(slots, after, lim)
    ensures forall i :: 0 <= i < |after| && !after[i].capped ==> after[i].weight > 0.0
  {
  }

  /** No admissible level lies below the level the round moves to. */
  lemma {:induction false} RoundStaysBelow(slots: seq<Slot>, after: seq<Slot>, fractions: seq<real>, lim: Limits,
                                           level: real, excess: real, freeTotal: real, m: real)
    requires Feasible(fractions, lim)
    requires AtLevel(slots, fractions, lim, level)
    requires Capped(slots, after, lim)
    requires excess == Sum(Excesses(lim, slots)) && freeTotal == Sum(FreeWeights(after)) && freeTotal > 0.0
    requires m >= 1.0 && Handed(fractions, lim, m) == 1.0
    ensures Raised(level, excess, freeTotal) <= m
  {
    hide Times, Raised;
    var q := m / level - 1.0;
    var scaled := Scale(q, FreeWeights(after));
    var bound := seq(|after|, i requires 0 <= i < |after| => after[i].weight + scaled[i]);
    forall i | 0 <= i < |fractions|
      ensures FillAll(fractions, lim, m)[i] <= bound[i]
    {
      assert after[i] == CapSlot(lim, slots[i]);
      assert SlotAtLevel(slots[i], fractions[i], lim, level);
      SlotBound(slots[i], fractions[i], lim, level, m);
    }
    SumLessEqual(FillAll(fractions, lim, m), bound);
    SumPlus(Weights(after), scaled, bound);
    SumScaled(q, FreeWeights(after));
    CappingConserves(slots, after, lim);
    LevelBound(level, m, excess, freeTotal);
  }

  lemma SlotBound(s: Slot, f: real, lim: Limits, level: real, m: real)
    requires SlotAtLevel(s, f, lim, level)
    requires f > 0.0 && 1.0 <= level <= m && lim.slack >= 0.0
    ensures var a := CapSlot(lim, s);
            Fill(lim, Times(m, f)) <= a.weight + Times(m / level - 1.0, FreeWeight(a))
  {
    TimesOrder(level, m, f);
    Rescale(level, m, f);
  }

  lemma Rescale(level: real, m: real, f: real)
    requires level >= 1.0
    ensures Times(m, f) == Times(level, f) + Times(m / level - 1.0, Times(level, f))
  {
  }

  lemma LevelBound(level: real, m: real, excess: real, freeTotal: real)
    requires level >= 1.0 && freeTotal > 0.0
    requires excess <= Times(m / level - 1.0, freeTotal)
    ensures Raised(level, excess, freeTotal) <= m
  {
  }

  /** One round of capping and sharing moves the slots to a higher level and caps someone new. */
  lemma {:induction false} RoundRaisesLevel(slots: seq<Slot>, after: seq<Slot>, next: seq<Slot>,
                                            fractions: seq<real>, lim: Limits,
                                            level: real, excess: real, freeTotal: real, k: nat)
    requires Feasible(fractions, lim)
    requires AtLevel(slots, fractions, lim, level)
    requires k < |slots| && IsOver(lim, slots[k])
    requires Capped(slots, after, lim)
    requires excess == Sum(Excesses(lim, slots)) && freeTotal == Sum(FreeWeights(after)) && freeTotal > 0.0
    requires Shared(after, next, excess, freeTotal)
    ensures AtLevel(next, fractions, lim, Raised(level, excess, freeTotal))
    ensures CappedCount(next) > CappedCount(slots)
  {
    hide Times, Raised, Portion;
    var up := Raised(level, excess, freeTotal);
    LevelRises(slots, lim, level, excess, freeTotal);
    SharingConserves(slots, after, next, lim, excess, freeTotal);
    forall i | 0 <= i < |next|
      ensures SlotAtLevel(next[i], fractions[i], lim, up)
    {
      assert next[i] == ShareSlot(excess, freeTotal, after[i]) && after[i] == CapSlot(lim, slots[i]);
      assert SlotAtLevel(slots[i], fractions[i], lim, level);
      SlotRises(slots[i], fractions[i], lim, level, excess, freeTotal);
    }
    forall m | m >= 1.0 && Handed(fractions, lim, m) == 1.0
      ensures up <= m
    {
      RoundStaysBelow(slots, after, fractions, lim, level, excess, freeTotal, m);
    }
    MoreCapped(slots, next, k);
  }

  lemma {:induction false} LevelRises(slots: seq<Slot>, lim: Limits, level: real, excess: real, freeTotal: real)
    requires level >= 1.0 && lim.slack >= 0.0 && freeTotal > 0.0
    requires excess == Sum(Excesses(lim, slots))
    ensures Raised(level, excess, freeTotal) >= level
  {
    var zeros := seq(|slots|, i => 0.0);
    SumConstant(zeros, 0.0);
    SumLessEqual(zeros, Excesses(lim, slots));
    TimesOrder(1.0, 1.0 + excess / freeTotal, level);
  }

  lemma SlotRises(s: Slot, f: real, lim: Limits, level: real, excess: real, freeTotal: real)
    requires SlotAtLevel(s, f, lim, level)
    requires f > 0.0 && lim.slack >= 0.0 && freeTotal > 0.0
    requires Raised(level, excess, freeTotal) >= level
    ensures SlotAtLevel(ShareSlot(excess, freeTotal, CapSlot(lim, s)), f, lim, Raised(level, excess, freeTotal))
  {
  }

  lemma PortionIsGrowth(w: real, excess: real, freeTotal: real)
    requires freeTotal > 0.0
    ensures Portion(excess, w, freeTotal) == Times(excess / freeTotal, w)
  {
  }

  lemma {:induction false} SharingConserves(slots: seq<Slot>, after: seq<Slot>, next: seq<Slot>, lim: Limits,
                                            excess: real, freeTotal: real)
    requires Capped(slots, after, lim)
    requires excess == Sum(Excesses(lim, slots)) && freeTotal == Sum(FreeWeights(after)) && freeTotal > 0.0
    requires Shared(after, next, excess, freeTotal)
    ensures Sum(Weights(next)) == Sum(Weights(slots))
  {
    hide Times, Portion;
    var r := excess / freeTotal;
    forall i | 0 <= i < |after|
      ensures Weights(next)[i] == Weights(after)[i] + Scale(r, FreeWeights(after))[i]
    {
      PortionIsGrowth(after[i].weight, excess, freeTotal);
      TimesZero(r);
    }
    SumPlus(Weights(after), Scale(r, FreeWeights(after)), Weights(next));
    SumScaled(r, FreeWeights(after));
    CappingConserves(slots, after, lim);
    Quotient(excess, freeTotal);
  }

  lemma {:induction false} MoreCapped(slots: seq<Slot>, next: seq<Slot>, k: nat)
    requires |slots| == |next| && k < |slots|
    requires !slots[k].capped && next[k].capped
    requires forall i :: 0 <= i < |slots| && slots[i].capped ==> next[i].capped
    ensures CappedCount(next) > CappedCount(slots)
  {
    var n := |slots| - 1;
    if k == n {
      CappedGrows(slots[..n], next[..n]);
    } else {
      MoreCapped(slots[..n], next[..n], k);
    }
  }

  lemma {:induction false} CappedGrows(slots: seq<Slot>, next: seq<Slot>)
    requires |slots| == |next|
    requires forall i :: 0 <= i < |slots| && slots[i].capped ==> next[i].capped
    ensures CappedCount(next) >= CappedCount(slots)
  {
    if |slots| != 0 {
      CappedGrows(slots[..|slots| - 1], next[..|next| - 1]);
    }
  }

  // ---------------------------------------------------------------- the loop

  /** How the bounded loop came to its end. */
  datatype Exit = Settled | NothingFree | BudgetSpent

  method CapOver(slots: array<Slot>, lim: Limits) returns (excess: real, found: bool)
    modifies slots
    ensures Capped(old(slots[..]), slots[..], lim)
    ensures excess == Sum(Excesses(lim, old(slots[..])))
    ensures found <==> exists k :: 0 <= k < slots.Length && IsOver(lim, old(slots[..])[k])
  {
    excess, found := 0.0, false;
    ghost var before := slots[..];
    for i := 0 to slots.Length
      invariant excess == Sum(Excesses(lim, before)[..i])
      invariant found <==> exists k :: 0 <= k < i && IsOver(lim, before[k])
      invariant forall k :: 0 <= k < i ==> slots[k] == CapSlot(lim, before[k])
      invariant forall k :: i <= k < slots.Length ==> slots[k] == before[k]
    {
      assert Excesses(lim, before)[..i + 1][..i] == Excesses(lim, before)[..i];
      if IsOver(lim, slots[i]) {
        excess := excess + (slots[i].weight - lim.cap);
        slots[i] := slots[i].(weight := lim.cap, capped := true);
        found := true;
      }
    }
    assert Excesses(lim, before)[..slots.Length] == Excesses(lim, before);
  }

  method FreeTotal(slots: array<Slot>) returns (freeTotal: real, anyFree: bool)
    ensures freeTotal == Sum(FreeWeights(slots[..]))
    ensures anyFree <==> exists k :: 0 <= k < slots.Length && !slots[k].capped
  {
    freeTotal, anyFree := 0.0, false;
    for i := 0 to slots.Length
      invariant freeTotal == Sum(FreeWeights(slots[..])[..i])
      invariant anyFree <==> exists k :: 0 <= k < i && !slots[k].capped
    {
      assert FreeWeights(slots[..])[..i + 1][..i] == FreeWeights(slots[..])[..i];
      if !slots[i].capped {
        freeTotal := freeTotal + slots[i].weight;
        anyFree := true;
      }
    }
    assert FreeWeights(slots[..])[..slots.Length] == FreeWeights(slots[..]);
  }

  method ShareExcess(slots: array<Slot>, excess: real, freeTotal: real)
    requires freeTotal != 0.0
    modifies slots
    ensures Shared(old(slots[..]), slots[..], excess, freeTotal)
  {
    ghost var before := slots[..];
    for i := 0 to slots.Length
      invariant forall k :: 0 <= k < i ==> slots[k] == ShareSlot(excess, freeTotal, before[k])
      invariant forall k :: i <= k < slots.Length ==> slots[k] == before[k]
    {
      if !slots[i].capped {
        slots[i] := slots[i].(weight := slots[i].weight + Portion(excess, slots[i].weight, freeTotal));
      }
    }
  }

  /** What the loop leaves behind, in terms of the fractions it started from. */
  ghost predicate Filled(slots: seq<Slot>, fractions: seq<real>, lim: Limits, level: real)
  {
    && |slots| == |fractions|
    && IsWaterLevel(fractions, lim, level)
    && Sum(Weights(slots)) == 1.0
    && forall i :: 0 <= i < |slots| ==> SlotFilled(slots[i], fractions[i], lim, level)
  }

  predicate SlotFilled(s: Slot, f: real, lim: Limits, level: real)
  {
    && s.weight == Fill(lim, Times(level, f)) <= lim.cap + lim.slack
    && (s.capped <==> Times(level, f) > lim.cap + lim.slack)
    && (s.capped ==> s.weight == lim.cap)
  }

  lemma {:induction false} SettledIsFilled(slots: seq<Slot>, fractions: seq<real>, lim: Limits, level: real)
    requires lim.slack >= 0.0
    requires AtLevel(slots, fractions, lim, level)
    requires forall k :: 0 <= k < |slots| ==> !IsOver(lim, slots[k])
    ensures Filled(slots, fractions, lim, level)
  {
    forall i | 0 <= i < |slots|
      ensures SlotFilled(slots[i], fractions[i], lim, level)
    {
      assert SlotAtLevel(slots[i], fractions[i], lim, level);
    }
    assert Weights(slots) == FillAll(fractions, lim, level);
  }

  ghost predicate SameIssuers(a: seq<Slot>, b: seq<Slot>)
  {
    |a| == |b| && forall i :: 0 <= i < |a| ==> a[i].issuer == b[i].issuer
  }

  /** One pass of the loop body; Settled and NothingFree are its two ways to leave the loop. */
  method Round(slots: array<Slot>, ghost fractions: seq<real>, lim: Limits, ghost level: real)
    returns (exit: Exit, ghost newLevel: real)
    requires Feasible(fractions, lim)
    requires AtLevel(slots[..], fractions, lim, level)
    modifies slots
    ensures SameIssuers(old(slots[..]), slots[..])
    ensures exit != NothingFree
    ensures exit == Settled ==> Filled(slots[..], fractions, lim, newLevel)
    ensures exit == BudgetSpent ==>
      AtLevel(slots[..], fractions, lim, newLevel) && CappedCount(slots[..]) > CappedCount(old(slots[..]))
  {
    hide Times, Raised, Portion, Filled, AtLevel, CappedCount;
    newLevel := level;
    ghost var before := slots[..];
    var excess, found := CapOver(slots, lim);
    ghost var after := slots[..];
    if !found {
      assert after == before;
      SettledIsFilled(before, fractions, lim, level);
      return Settled, level;
    }
    ghost var k :| 0 <= k < |before| && IsOver(lim, before[k]);
    SomeoneIsFree(before, after, fractions, lim, level, k);
    var freeTotal, anyFree := FreeTotal(slots);
    if !anyFree || freeTotal == 0.0 {
      return NothingFree, level;
    }
    ShareExcess(slots, excess, freeTotal);
    RoundRaisesLevel(before, after, slots[..], fractions, lim, level, excess, freeTotal, k);
    return BudgetSpent, Raised(level, excess, freeTotal);
  }

  /**
   * The capping loop, with its budget of n + 1 rounds. It always ends because
   * no issuer is over the cap, and what it leaves is the water-level allocation.
   */
  method CapLoop(slots: array<Slot>, ghost fractions: seq<real>, lim: Limits)
    returns (exit: Exit, ghost level: real)
    requires Feasible(fractions, lim)
    requires AtLevel(slots[..], fractions, lim, 1.0)
    modifies slots
    ensures exit == Settled
    ensures Filled(slots[..], fractions, lim, level)
    ensures SameIssuers(old(slots[..]), slots[..])
  {
    level := 1.0;
    exit := BudgetSpent;
    for round := 0 to slots.Length + 1
      invariant exit == BudgetSpent
      invariant AtLevel(slots[..], fractions, lim, level)
      invariant CappedCount(slots[..]) >= round
      invariant SameIssuers(old(slots[..]), slots[..])
    {
      exit, level := Round(slots, fractions, lim, level);
      if exit != BudgetSpent {
        break;
      }
    }
  }
}
