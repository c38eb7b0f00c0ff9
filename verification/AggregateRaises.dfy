/** "A higher receipt score never lowers the aggregate": for which raises, and for which multipliers, it holds. */
module AggregateRaises {
  import opened Sums
  import opened WaterFill
  import opened Aggregate
  import opened AggregateLaws
  import opened AggregateMonotone
  import opened AggregateCrossing

  // ---------------------------------------------------------------- one receipt in a crowd

  function Oldest(p: Params, now: int): int
  {
    now - (p.windowS * 1000.0).Floor
  }

  /** Receipts of one issuer at the far end of the window: one scored s and k of them scored z. */
  function Crowd(p: Params, now: int, s: real, z: real, k: nat): seq<Receipt>
  {
    [Receipt("", "issuer", s, Oldest(p, now))] +
    seq(k, i requires 0 <= i < k => Receipt(seq(i + 1, _ => '1'), "issuer", z, Oldest(p, now)))
  }

  lemma CrowdShape(p: Params, now: int, s: real, z: real, k: nat)
    ensures var w := Crowd(p, now, s, z, k);
      && |w| == k + 1
      && (forall i :: 0 <= i < |w| ==> w[i].issuer == "issuer" && w[i].timestamp == Oldest(p, now))
      && (forall i :: 0 <= i < |w| ==> w[i].score == if i == 0 then s else z)
  {
  }

  function Side(m: real, s: real): real
  {
    if s < 0.5 then m else 1.0
  }

  function CrowdScore(m: real, s: real, z: real, k: nat): real
    requires m > 0.0
  {
    (Times(s, Side(m, s)) + Times(k as real, Times(z, Side(m, z)))) / (Side(m, s) + Times(k as real, Side(m, z)))
  }

  lemma {:induction false} AllInWindow(p: Params, now: int, receipts: seq<Receipt>)
    requires forall i :: 0 <= i < |receipts| ==> InWindow(p, now, receipts[i])
    ensures Window(p, now, receipts) == receipts
  {
    if receipts != [] {
      AllInWindow(p, now, receipts[..|receipts| - 1]);
    }
  }

  lemma CrowdInWindow(p: Params, now: int, s: real, z: real, k: nat)
    ensures Window(p, now, Crowd(p, now, s, z, k)) == Crowd(p, now, s, z, k)
  {
    AllInWindow(p, now, Crowd(p, now, s, z, k));
  }

  lemma HeadAndCopies(w: seq<real>, head: real, copy: real)
    requires w != [] && w[0] == head
    requires forall i :: 1 <= i < |w| ==> w[i] == copy
    ensures Sum(w) == head + Times((|w| - 1) as real, copy)
  {
    SumConcat([head], w[1..]);
    SumConstant(w[1..], copy);
    assert w == [head] + w[1..];
    assert [head][..0] == [];
  }

  lemma CrowdSums(p: Params, now: int, s: real, z: real, k: nat)
    requires ValidParams(p)
    ensures var w, d, m := Crowd(p, now, s, z, k), p.decay(now - Oldest(p, now)), p.negativeMultiplier;
      && d > 0.0
      && TotalWeight(p, now, w, "issuer") == Times(d, Side(m, s) + Times(k as real, Side(m, z)))
      && WeightedSum(p, now, w, "issuer")
           == Times(d, Times(s, Side(m, s)) + Times(k as real, Times(z, Side(m, z))))
  {
    hide Sum, Times, Side, ValidParams, WeightFor, ScoreFor, Oldest, Crowd;
    CrowdShape(p, now, s, z, k);
    var w, d, m := Crowd(p, now, s, z, k), p.decay(now - Oldest(p, now)), p.negativeMultiplier;
    forall i | 0 <= i < |w|
      ensures WeightFor(p, now, "issuer")(w[i]) == Times(d, Side(m, w[i].score))
      ensures ScoreFor(p, now, "issuer")(w[i]) == Times(w[i].score, Times(d, Side(m, w[i].score)))
    {
      CrowdTerms(p, now, w[i]);
    }
    HeadAndCopies(Map(w, WeightFor(p, now, "issuer")), Times(d, Side(m, s)), Times(d, Side(m, z)));
    HeadAndCopies(Map(w, ScoreFor(p, now, "issuer")), Times(s, Times(d, Side(m, s))), Times(z, Times(d, Side(m, z))));
    Factored(d, s, Side(m, s), z, Side(m, z), k as real);
    DecayPositive(p, now - Oldest(p, now));
  }

  lemma DecayPositive(p: Params, age: int)
    requires ValidParams(p)
    ensures p.decay(age) > 0.0
  {
  }

  lemma CrowdTerms(p: Params, now: int, r: Receipt)
    requires r.issuer == "issuer" && r.timestamp == Oldest(p, now)
    ensures var w := Times(p.decay(now - Oldest(p, now)), Side(p.negativeMultiplier, r.score));
      WeightFor(p, now, "issuer")(r) == w && ScoreFor(p, now, "issuer")(r) == Times(r.score, w)
  {
  }

  lemma Factored(d: real, s: real, u: real, z: real, v: real, k: real)
    ensures Times(d, u) + Times(k, Times(d, v)) == Times(d, u + Times(k, v))
    ensures Times(s, Times(d, u)) + Times(k, Times(z, Times(d, v))) == Times(d, Times(s, u) + Times(k, Times(z, v)))
  {
  }

  function SoleSlot(p: Params, now: int, window: seq<Receipt>): Slot
    requires TotalWeight(p, now, window, "issuer") > 0.0
  {
    var raw := TotalWeight(p, now, window, "issuer");
    Slot(Issuer("issuer", WeightedSum(p, now, window, "issuer") / raw, raw), 1.0, false)
  }

  /** A single issuer gets all the weight, at level 1 and whatever the tolerance. */
  lemma SoleOutcome(p: Params, now: int, window: seq<Receipt>, slack: real)
    requires ValidParams(p) && slack >= 0.0
    requires window != [] && forall i :: 0 <= i < |window| ==> window[i].issuer == "issuer"
    ensures TotalWeight(p, now, window, "issuer") > 0.0
    ensures var slot := SoleSlot(p, now, window);
      OutcomeWithin(p, now, window, [slot], 1.0, slack) && RawScore([slot]) == slot.issuer.score
  {
    hide TotalWeight, WeightedSum, ValidParams, Times;
    assert window[0].issuer in IssuerIds(window);
    TotalWeightPositive(p, now, window, "issuer");
    var slot := SoleSlot(p, now, window);
    var issuers := Issuers([slot]);
    assert issuers == [slot.issuer] && Raws(issuers) == [slot.issuer.raw] && Ids(issuers) == ["issuer"];
    assert Sum(Raws(issuers)[..0]) == 0.0;
    OneFraction(slot.issuer.raw);
    var lim := Limits(EffectiveCap(p, 1), slack);
    assert Fractions(issuers) == [1.0];
    assert FillAll([1.0], lim, 1.0) == [1.0] && Sum([1.0][..0]) == 0.0;
    assert Weights([slot]) == [1.0];
    assert Contributions([slot])[..0] == [];
    TimesOne(slot.issuer.score);
  }

  lemma OneFraction(x: real)
    requires x > 0.0
    ensures x / x == 1.0 && Times(1.0, 1.0) == 1.0
  {
  }

  lemma TimesOne(x: real)
    ensures Times(x, 1.0) == x
  {
  }

  lemma Cancel(d: real, x: real, y: real)
    requires d > 0.0 && y > 0.0
    ensures Times(d, y) > 0.0 && Times(d, x) / Times(d, y) == x / y
  {
    PositiveProduct(d, y);
    Quotient(x, y);
    assert Times(d, x) == Times(x / y, Times(d, y));
  }

  lemma CrowdWeightPositive(m: real, s: real, z: real, k: nat)
    requires m > 0.0
    ensures Side(m, s) + Times(k as real, Side(m, z)) > 0.0
  {
  }

  lemma CrowdOutcome(p: Params, now: int, s: real, z: real, k: nat, slack: real)
    returns (slots: seq<Slot>)
    requires ValidParams(p) && slack >= 0.0
    ensures OutcomeWithin(p, now, Window(p, now, Crowd(p, now, s, z, k)), slots, 1.0, slack)
    ensures RawScore(slots) == CrowdScore(p.negativeMultiplier, s, z, k)
  {
    hide TotalWeight, WeightedSum, OutcomeWithin, RawScore, Window, Times, Side, Crowd;
    var w, d, m := Crowd(p, now, s, z, k), p.decay(now - Oldest(p, now)), p.negativeMultiplier;
    CrowdShape(p, now, s, z, k);
    CrowdInWindow(p, now, s, z, k);
    SoleOutcome(p, now, w, slack);
    CrowdSums(p, now, s, z, k);
    CrowdWeightPositive(m, s, z, k);
    Cancel(d, Times(s, Side(m, s)) + Times(k as real, Times(z, Side(m, z))), Side(m, s) + Times(k as real, Side(m, z)));
    slots := [SoleSlot(p, now, w)];
    assert slots[0].issuer.score == CrowdScore(m, s, z, k);
  }

  // ---------------------------------------------------------------- which single raises are harmless

  ghost predicate UnitScores(receipts: seq<Receipt>)
  {
    forall i :: 0 <= i < |receipts| ==> 0.0 <= receipts[i].score <= 1.0
  }

  function RaiseAt(receipts: seq<Receipt>, k: nat, s': real): seq<Receipt>
    requires k < |receipts|
  {
    receipts[k := receipts[k].(score := s')]
  }

  /** Whatever else has been received, raising one score from s to s' does not lower the aggregate. */
  ghost predicate HarmlessRaise(p: Params, s: real, s': real)
  {
    forall now: int, a: seq<Receipt>, k: nat, x: seq<Slot>, la: real, y: seq<Slot>, lb: real ::
      && UnitScores(a) && k < |a| && a[k].score == s
      && OutcomeWithin(p, now, Window(p, now, a), x, la, 0.0)
      && OutcomeWithin(p, now, Window(p, now, RaiseAt(a, k, s')), y, lb, 0.0)
      ==> RawScore(x) <= RawScore(y)
  }

  lemma RaiseIsGentle(p: Params, a: seq<Receipt>, k: nat, s': real)
    requires UnitScores(a) && k < |a| && a[k].score <= s' <= 1.0
    requires GentleStep(p.negativeMultiplier, a[k].score, s')
    ensures Gentle(p, a, RaiseAt(a, k, s'))
  {
    hide Times;
  }

  /** Beside enough receipts scored 0 a raise shows that the issuer has become lighter. */
  lemma LowersBesideZeros(m: real, s: real, s': real, k: nat)
    requires m > 0.0 && s < 0.5 <= s'
    requires s' - s < Times(k as real, Times(m, s) - s')
    ensures CrowdScore(m, s', 0.0, k) < CrowdScore(m, s, 0.0, k)
  {
    var n := k as real;
    Distribute(s', 1.0, Times(n, m));
    QuotientLess(Times(s', 1.0), 1.0 + Times(n, m), Times(s, m), m + Times(n, m)) by {
      assert Times(Times(s', 1.0), m + Times(n, m)) == Times(m, s' + Times(n, s'));
      assert Times(Times(s, m), 1.0 + Times(n, m)) == Times(m, s + Times(n, Times(m, s)));
      assert Times(n, Times(m, s) - s') == Times(n, Times(m, s)) - Times(n, s');
    }
  }

  lemma QuotientLess(a: real, b: real, c: real, d: real)
    requires b > 0.0 && d > 0.0 && Times(a, d) < Times(c, b)
    ensures a / b < c / d
  {
  }

  /** With a multiplier below 1 it becomes heavier, which shows beside enough receipts scored 1. */
  lemma LowersBesideOnes(m: real, s: real, s': real, k: nat)
    requires m > 0.0 && s < 0.5 <= s'
    requires Times(m, s' - s) < Times(k as real, 1.0 - s' - Times(m, 1.0 - s))
    ensures CrowdScore(m, s', 1.0, k) < CrowdScore(m, s, 1.0, k)
  {
    var n := k as real;
    QuotientLess(s' + n, 1.0 + n, Times(s, m) + n, m + n) by {
      CrossProducts(m, s, s', n);
    }
  }

  lemma CrossProducts(m: real, s: real, s': real, n: real)
    requires Times(m, s' - s) < Times(n, 1.0 - s' - Times(m, 1.0 - s))
    ensures Times(s' + n, m + n) < Times(Times(s, m) + n, 1.0 + n)
  {
    assert Times(s' + n, m + n) == m * s' + n * s' + n * m + n * n;
    assert Times(Times(s, m) + n, 1.0 + n) == m * s + n * (m * s) + n + n * n;
    assert Times(n, 1.0 - s' - Times(m, 1.0 - s)) == n - n * s' - n * m + n * (m * s);
  }

  /** Some whole number exceeds any ratio. */
  lemma Enough(x: real, step: real) returns (k: nat)
    requires x >= 0.0 && step > 0.0
    ensures x < Times(k as real, step)
  {
    k := (x / step).Floor + 1;
    Quotient(x, step);
    TimesStrict(x / step, k as real, step);
  }

  lemma RaiseInCrowd(p: Params, now: int, s: real, s': real, z: real, k: nat)
    requires 0.0 <= s <= 1.0 && 0.0 <= z <= 1.0
    ensures var a := Crowd(p, now, s, z, k);
      UnitScores(a) && |a| > 0 && a[0].score == s && RaiseAt(a, 0, s') == Crowd(p, now, s', z, k)
  {
  }

  lemma HarmfulInCrowd(p: Params, s: real, s': real, z: real, k: nat)
    requires ValidParams(p) && 0.0 <= s <= 1.0 && 0.0 <= z <= 1.0
    requires CrowdScore(p.negativeMultiplier, s', z, k) < CrowdScore(p.negativeMultiplier, s, z, k)
    ensures !HarmlessRaise(p, s, s')
  {
    hide OutcomeWithin, Window, Crowd, CrowdScore, UnitScores, RaiseAt;
    RaiseInCrowd(p, 0, s, s', z, k);
    var x := CrowdOutcome(p, 0, s, z, k, 0.0);
    var y := CrowdOutcome(p, 0, s', z, k, 0.0);
    var a := Crowd(p, 0, s, z, k);
    assert OutcomeWithin(p, 0, Window(p, 0, a), x, 1.0, 0.0);
    assert OutcomeWithin(p, 0, Window(p, 0, RaiseAt(a, 0, s')), y, 1.0, 0.0);
  }

  /**
   * In exact arithmetic a raise is harmless exactly when it stays on its side
   * of 0.5 or moves far enough: to m times the score and to at most m times
   * the distance from 1.
   */
  lemma HarmlessExactlyWhen(p: Params, s: real, s': real)
    requires ValidParams(p) && 0.0 <= s <= s' <= 1.0
    ensures HarmlessRaise(p, s, s') <==> GentleStep(p.negativeMultiplier, s, s')
  {
    hide OutcomeWithin, Window, CrowdScore, UnitScores, RaiseAt, RawScore, Times, Gentle;
    var m := p.negativeMultiplier;
    if GentleStep(m, s, s') {
      forall now: int, a: seq<Receipt>, k: nat, x: seq<Slot>, la: real, y: seq<Slot>, lb: real
        | && UnitScores(a) && k < |a| && a[k].score == s
          && OutcomeWithin(p, now, Window(p, now, a), x, la, 0.0)
          && OutcomeWithin(p, now, Window(p, now, RaiseAt(a, k, s')), y, lb, 0.0)
        ensures RawScore(x) <= RawScore(y)
      {
        RaiseIsGentle(p, a, k, s');
        GentleRaisesNeverLower(p, now, a, RaiseAt(a, k, s'), 0.0, x, la, y, lb);
      }
    } else if s' < Times(m, s) {
      var k := Enough(s' - s, Times(m, s) - s');
      LowersBesideZeros(m, s, s', k);
      HarmfulInCrowd(p, s, s', 0.0, k);
    } else {
      PositiveStep(m, s, s');
      var k := Enough(Times(m, s' - s), 1.0 - s' - Times(m, 1.0 - s));
      LowersBesideOnes(m, s, s', k);
      HarmfulInCrowd(p, s, s', 1.0, k);
    }
  }

  lemma PositiveStep(m: real, s: real, s': real)
    requires m > 0.0 && s <= s'
    ensures Times(m, s' - s) >= 0.0
  {
  }

  // ---------------------------------------------------------------- which multipliers make every raise harmless

  /** The same receipts, none of them scored lower. */
  ghost predicate Raised(a: seq<Receipt>, b: seq<Receipt>)
  {
    && |a| == |b|
    && forall i :: 0 <= i < |a| ==>
      b[i].issuer == a[i].issuer && b[i].timestamp == a[i].timestamp && a[i].score <= b[i].score
  }

  /** A higher receipt score never lowers the aggregate, with the tolerance of the source. */
  ghost predicate RaisingNeverLowers(p: Params)
  {
    forall now: int, a: seq<Receipt>, b: seq<Receipt>, x: seq<Slot>, la: real, y: seq<Slot>, lb: real ::
      && Raised(a, b) && UnitScores(a) && UnitScores(b)
      && Outcome(p, now, Window(p, now, a), x, la) && Outcome(p, now, Window(p, now, b), y, lb)
      ==> RawScore(x) <= RawScore(y)
  }

  lemma SourceTolerance(p: Params, now: int, window: seq<Receipt>, slots: seq<Slot>, level: real)
    ensures Outcome(p, now, window, slots, level) <==> OutcomeWithin(p, now, window, slots, level, SLACK)
  {
    hide Allocates;
  }

  lemma LoweredInCrowd(p: Params, s: real, s': real, z: real)
    requires ValidParams(p) && 0.0 <= s <= s' <= 1.0 && 0.0 <= z <= 1.0
    requires CrowdScore(p.negativeMultiplier, s', z, 1) < CrowdScore(p.negativeMultiplier, s, z, 1)
    ensures !RaisingNeverLowers(p)
  {
    hide Outcome, OutcomeWithin, Window, CrowdScore, RawScore, Oldest;
    var x := CrowdOutcome(p, 0, s, z, 1, SLACK);
    var y := CrowdOutcome(p, 0, s', z, 1, SLACK);
    var a, b := Crowd(p, 0, s, z, 1), Crowd(p, 0, s', z, 1);
    SourceTolerance(p, 0, Window(p, 0, a), x, 1.0);
    SourceTolerance(p, 0, Window(p, 0, b), y, 1.0);
    assert Raised(a, b) && UnitScores(a) && UnitScores(b);
  }

  /** Raising receipt scores never lowers the aggregate exactly when negative signals weigh what others do. */
  lemma RaisingNeverLowersExactlyWhen(p: Params)
    requires ValidParams(p)
    ensures RaisingNeverLowers(p) <==> p.negativeMultiplier == 1.0
  {
    hide Outcome, OutcomeWithin, Window, CrowdScore, RawScore, Raised, Times;
    var m := p.negativeMultiplier;
    if m == 1.0 {
      forall now: int, a: seq<Receipt>, b: seq<Receipt>, x: seq<Slot>, la: real, y: seq<Slot>, lb: real
        | && Raised(a, b) && UnitScores(a) && UnitScores(b)
          && Outcome(p, now, Window(p, now, a), x, la) && Outcome(p, now, Window(p, now, b), y, lb)
        ensures RawScore(x) <= RawScore(y)
      {
        RaisedImproves(p, a, b);
        BetterReceiptsBetterScore(p, now, a, b, x, la, y, lb);
      }
    } else if m > 1.0 {
      var s := HeavyWitness(m);
      LowersBesideZeros(m, s, 0.5, 1);
      LoweredInCrowd(p, s, 0.5, 0.0);
    } else {
      var s := LightWitness(m);
      LowersBesideOnes(m, s, 0.5, 1);
      LoweredInCrowd(p, s, 0.5, 1.0);
    }
  }

  lemma RaisedImproves(p: Params, a: seq<Receipt>, b: seq<Receipt>)
    requires p.negativeMultiplier == 1.0 && Raised(a, b)
    ensures Improves(p, a, b)
  {
  }

  lemma HeavyWitness(m: real) returns (s: real)
    requires m > 1.0
    ensures 0.0 <= s < 0.5 && 0.5 - s < Times(1.0, Times(m, s) - 0.5)
  {
    var q := 0.5 / m;
    assert Times(m, q) == 0.5 && 0.0 < q < 0.5;
    s := (q + 0.5) / 2.0;
    assert Times(m, s) == 0.25 + 0.25 * m;
    if q <= 1.0 - m / 2.0 {
      TimesOrder(q, 1.0 - m / 2.0, m);
      assert Times(1.0 - m / 2.0, m) == 0.5 - Times(m - 1.0, m - 1.0) / 2.0;
      TimesStrict(0.0, m - 1.0, m - 1.0);
    }
  }

  lemma LightWitness(m: real) returns (s: real)
    requires 0.0 < m < 1.0
    ensures 0.0 <= s < 0.5 && Times(m, 0.5 - s) < Times(1.0, 1.0 - 0.5 - Times(m, 1.0 - s))
  {
    var e := 1.0 - m;
    s := 0.5 - e / 8.0;
    TimesStrict(m, 1.0, e);
    assert Times(m, e / 8.0) == Times(m, e) / 8.0;
    assert Times(m, 1.0 - s) == m / 2.0 + Times(m, e) / 8.0;
  }

  /** At the multiplier of the source: one receipt raised from 0.49 to 0.5 beside one scored 0. */
  lemma CrossingLowers(p: Params, now: int, x: seq<Slot>, la: real, y: seq<Slot>, lb: real)
    requires p.negativeMultiplier == 1.5
    requires Outcome(p, now, Window(p, now, Crowd(p, now, 0.49, 0.0, 1)), x, la)
    requires Outcome(p, now, Window(p, now, Crowd(p, now, 0.5, 0.0, 1)), y, lb)
    ensures RawScore(x) == 0.245 && RawScore(y) == 0.2
  {
    hide Outcome, Window, Crowd, RawScore;
    SoleScore(p, now, 0.49, x, la);
    SoleScore(p, now, 0.5, y, lb);
  }

  lemma SoleScore(p: Params, now: int, s: real, slots: seq<Slot>, level: real)
    requires Outcome(p, now, Window(p, now, Crowd(p, now, s, 0.0, 1)), slots, level)
    ensures RawScore(slots) == CrowdScore(p.negativeMultiplier, s, 0.0, 1)
  {
    hide Outcome, OutcomeWithin, Window, Crowd, RawScore, CrowdScore;
    var w := Crowd(p, now, s, 0.0, 1);
    assert Improves(p, w, w);
    ParamsOf(p, now, Window(p, now, w), slots, level);
    var sole := CrowdOutcome(p, now, s, 0.0, 1, SLACK);
    SourceTolerance(p, now, Window(p, now, w), sole, 1.0);
    BetterReceiptsBetterScore(p, now, w, w, slots, level, sole, 1.0);
    BetterReceiptsBetterScore(p, now, w, w, sole, 1.0, slots, level);
  }

  lemma ParamsOf(p: Params, now: int, window: seq<Receipt>, slots: seq<Slot>, level: real)
    requires Outcome(p, now, window, slots, level)
    ensures ValidParams(p)
  {
  }
}
