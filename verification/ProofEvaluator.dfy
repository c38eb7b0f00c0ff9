/**
 * Evaluating a trust proof at a point in time. Times are milliseconds;
 * dates and durations are None when they do not parse.
 */
module ProofEvaluator {
  import opened Basics
  import opened Sums

  datatype Decay = Decay(model: string, halfLifeMs: Option<real>, minimum: real)

  datatype Claim = Claim(subject: string, score: real, issuedAt: Option<int>, expiresAt: Option<int>,
                         decay: Option<Decay>)

  /** `freshness` is absent, or a duration. */
  datatype Proof = Proof(subject: string, mode: string, requiredScore: real, freshness: Option<Option<real>>)

  datatype Document = Document(subjects: seq<string>, claims: seq<Claim>, proofs: seq<Proof>)

  /** An insufficient proof has no score when the arithmetic yields no number. */
  datatype Outcome =
    | Valid(effective: real) | Insufficient(score: Option<real>) | Expired(reason: string) | Error(code: string)

  /** One half to the given power. */
  type Halving = real -> real

  ghost predicate Halves(half: Halving)
  {
    && (forall p {:trigger half(p)} :: p >= 0.0 ==> 0.0 <= half(p) <= 1.0)
    && (forall p, q {:trigger half(p), half(q)} :: 0.0 <= p <= q ==> half(q) <= half(p))
  }

  /** It starts at 1, and every further period takes half of what is left. */
  ghost predicate HalvesEachPeriod(half: Halving)
  {
    && half(0.0) == 1.0
    && forall p, q {:trigger half(p), half(q)} :: 0.0 <= p && q == p + 1.0 ==> half(q) == half(p) / 2.0
  }

  function FindClaim(claims: seq<Claim>, subject: string): Option<Claim>
  {
    if claims == [] then None
    else if claims[0].subject == subject then Some(claims[0])
    else FindClaim(claims[1..], subject)
  }

  function FindProof(proofs: seq<Proof>, subject: string): Option<Proof>
  {
    if proofs == [] then None
    else if proofs[0].subject == subject then Some(proofs[0])
    else FindProof(proofs[1..], subject)
  }

  /** Four decimals, halves rounded up. */
  function RoundScore(x: real): real
  {
    (x * 10000.0 + 0.5).Floor as real / 10000.0
  }

  function Elapsed(at: int, issuedAt: int): real
  {
    if at > issuedAt then (at - issuedAt) as real else 0.0
  }

  datatype ScoreResult = Score(value: real) | NotANumber | ScoreError(code: string)

  /** The decayed score; a half-life of zero gives no number at the moment of issue and the minimum afterwards. */
  function EffectiveScore(half: Halving, c: Claim, at: int): ScoreResult
  {
    if c.decay.None? then Score(RoundScore(c.score))
    else
      var d := c.decay.value;
      if d.model != "linear" then ScoreError("UNSUPPORTED_DECAY_MODEL")
      else if c.issuedAt.None? || d.halfLifeMs.None? then ScoreError("SYNTAX_ERROR")
      else
        var elapsed := Elapsed(at, c.issuedAt.value);
        if d.halfLifeMs.value == 0.0 then
          if elapsed == 0.0 then NotANumber else Score(RoundScore(Max(d.minimum, Min(c.score, d.minimum))))
        else
          var decayed := d.minimum + Times(c.score - d.minimum, half(elapsed / d.halfLifeMs.value));
          Score(RoundScore(Max(d.minimum, Min(c.score, decayed))))
  }

  /** The proof is no longer fresh, if it asks for freshness. */
  predicate TooOld(c: Claim, p: Proof, at: int)
    requires p.freshness.Some? ==> c.issuedAt.Some? && p.freshness.value.Some?
  {
    p.freshness.Some? && (at - c.issuedAt.value) as real > p.freshness.value.value
  }

  function EvaluateClaim(half: Halving, c: Claim, p: Proof, at: int): Outcome
  {
    if p.mode != "cleartext-dev" then Error("UNSUPPORTED_PROOF_MODE")
    else if c.expiresAt.None? then Error("SYNTAX_ERROR")
    else if at > c.expiresAt.value then Expired("trust claim expired before evaluation")
    else if p.freshness.Some? && (c.issuedAt.None? || p.freshness.value.None?) then Error("SYNTAX_ERROR")
    else if TooOld(c, p, at) then Expired("trust proof is older than required freshness")
    else
      match EffectiveScore(half, c, at)
      case ScoreError(code) => Error(code)
      case NotANumber => Insufficient(None)
      case Score(score) => if score >= p.requiredScore then Valid(score) else Insufficient(Some(score))
  }

  function Evaluate(half: Halving, d: Document, subject: string, at: int): Outcome
  {
    var claim, proof := FindClaim(d.claims, subject), FindProof(d.proofs, subject);
    if subject !in d.subjects then Error("MISSING_SUBJECT")
    else if claim.None? then Error("MISSING_TRUST")
    else if proof.None? then Error("MISSING_PROOF")
    else EvaluateClaim(half, claim.value, proof.value, at)
  }

  // ---------------------------------------------------------------- rounding

  lemma RoundMonotone(x: real, y: real)
    requires x <= y
    ensures RoundScore(x) <= RoundScore(y)
  {
    FloorMonotone(x * 10000.0 + 0.5, y * 10000.0 + 0.5);
  }

  lemma FloorMonotone(x: real, y: real)
    requires x <= y
    ensures x.Floor <= y.Floor
  {
  }

  // ---------------------------------------------------------------- time

  predicate PositiveHalfLife(c: Claim)
  {
    c.decay.Some? && c.decay.value.halfLifeMs.Some? ==> c.decay.value.halfLifeMs.value > 0.0
  }

  lemma ElapsedGrows(early: int, late: int, issuedAt: int, halfLife: real)
    requires early <= late && halfLife > 0.0
    ensures 0.0 <= Elapsed(early, issuedAt) / halfLife <= Elapsed(late, issuedAt) / halfLife
  {
  }

  lemma DecayedFalls(score: real, minimum: real, f: real, g: real)
    requires 0.0 <= g <= f <= 1.0
    ensures Max(minimum, Min(score, minimum + Times(score - minimum, g)))
         <= Max(minimum, Min(score, minimum + Times(score - minimum, f)))
  {
    hide Times;
    if minimum <= score {
      ScaledOrder(score - minimum, g, f);
    }
  }

  lemma ScaledOrder(d: real, g: real, f: real)
    requires d >= 0.0 && g <= f
    ensures Times(d, g) <= Times(d, f)
  {
  }

  /** A rounded score is a whole number of ten-thousandths, the nearest one. */
  lemma RoundScoreNearest(x: real)
    ensures var n := 10000.0 * RoundScore(x);
      n == n.Floor as real && 10000.0 * x - 0.5 < n <= 10000.0 * x + 0.5
  {
    var n := (x * 10000.0 + 0.5).Floor as real;
    assert 10000.0 * RoundScore(x) == n;
  }

  function Pow2(n: nat): (p: real)
    ensures p >= 1.0
  {
    if n == 0 then 1.0 else 2.0 * Pow2(n - 1)
  }

  lemma {:induction false} HalvedTimes(half: Halving, n: nat)
    requires HalvesEachPeriod(half)
    ensures half(n as real) == 1.0 / Pow2(n)
  {
    if n > 0 {
      HalvedTimes(half, n - 1);
      assert (n - 1) as real + 1.0 == n as real;
      HalfOf(Pow2(n - 1));
    }
  }

  lemma HalfOf(p: real)
    requires p > 0.0
    ensures 1.0 / p / 2.0 == 1.0 / (2.0 * p)
  {
  }

  /** The score a claim has by itself. */
  lemma UndecayedScore(half: Halving, c: Claim, at: int)
    requires c.decay.None?
    ensures EffectiveScore(half, c, at) == Score(RoundScore(c.score))
  {
  }

  /** After n half-lives what exceeds the minimum has been halved n times; up to the issue nothing has. */
  lemma ScoreAfterHalfLives(half: Halving, c: Claim, at: int, n: nat)
    requires HalvesEachPeriod(half)
    requires c.decay.Some? && c.decay.value.model == "linear"
    requires c.issuedAt.Some? && c.decay.value.halfLifeMs.Some? && c.decay.value.halfLifeMs.value > 0.0
    requires Elapsed(at, c.issuedAt.value) == Times(n as real, c.decay.value.halfLifeMs.value)
    ensures var least := c.decay.value.minimum;
      EffectiveScore(half, c, at)
        == Score(RoundScore(if c.score < least then least else least + (c.score - least) / Pow2(n)))
    ensures at <= c.issuedAt.value ==>
      n == 0 && EffectiveScore(half, c, at) == Score(RoundScore(Max(c.score, c.decay.value.minimum)))
  {
    hide HalvesEachPeriod, RoundScore;
    var h, least := c.decay.value.halfLifeMs.value, c.decay.value.minimum;
    HalvedTimes(half, n);
    TimesOver(n as real, h);
    Portion(c.score - least, Pow2(n));
    if at <= c.issuedAt.value && n > 0 {
      TimesStrict(0.0, n as real, h);
    }
  }

  lemma TimesOver(x: real, h: real)
    requires h > 0.0
    ensures Times(x, h) / h == x
  {
  }

  lemma Portion(d: real, p: real)
    requires p >= 1.0
    ensures Times(d, 1.0 / p) == d / p
    ensures d >= 0.0 ==> 0.0 <= d / p <= d
    ensures d < 0.0 ==> d / p < 0.0
  {
    Quotient(d, p);
    if d >= 0.0 {
      TimesOrder(1.0, p, d);
      if d / p > d {
        TimesStrict(d, d / p, p);
      }
    }
    if d >= 0.0 && d / p < 0.0 {
      TimesStrict(d / p, 0.0, p);
    }
    if d < 0.0 && d / p >= 0.0 {
      TimesOrder(0.0, d / p, p);
    }
  }

  /** As time moves forward the effective score never rises. */
  lemma ScoreNeverRises(half: Halving, c: Claim, early: int, late: int)
    requires Halves(half) && PositiveHalfLife(c) && early <= late
    ensures EffectiveScore(half, c, early).Score? <==> EffectiveScore(half, c, late).Score?
    ensures EffectiveScore(half, c, early).Score? ==>
      EffectiveScore(half, c, late).value <= EffectiveScore(half, c, early).value
    ensures !EffectiveScore(half, c, early).NotANumber? && !EffectiveScore(half, c, late).NotANumber?
  {
    hide RoundScore, Times, Elapsed, Max, Min;
    if c.decay.Some? && c.issuedAt.Some? && c.decay.value.halfLifeMs.Some? {
      var d, issued := c.decay.value, c.issuedAt.value;
      var h := d.halfLifeMs.value;
      ElapsedGrows(early, late, issued, h);
      var f, g := half(Elapsed(early, issued) / h), half(Elapsed(late, issued) / h);
      DecayedFalls(c.score, d.minimum, f, g);
      RoundMonotone(Max(d.minimum, Min(c.score, d.minimum + Times(c.score - d.minimum, g))),
                    Max(d.minimum, Min(c.score, d.minimum + Times(c.score - d.minimum, f))));
    }
  }

  /** A document with positive half-life that is valid at some time is valid at every earlier time. */
  lemma ValidEarlier(half: Halving, d: Document, subject: string, early: int, late: int)
    requires Halves(half) && early <= late
    requires forall c :: c in d.claims ==> PositiveHalfLife(c)
    requires Evaluate(half, d, subject, late).Valid?
    ensures Evaluate(half, d, subject, early).Valid?
    ensures Evaluate(half, d, subject, early).effective >= Evaluate(half, d, subject, late).effective
  {
    hide EffectiveScore, PositiveHalfLife;
    ClaimFound(d.claims, subject);
    ScoreNeverRises(half, FindClaim(d.claims, subject).value, early, late);
  }

  lemma {:induction false} ClaimFound(claims: seq<Claim>, subject: string)
    requires FindClaim(claims, subject).Some?
    ensures FindClaim(claims, subject).value in claims && FindClaim(claims, subject).value.subject == subject
  {
    if claims[0].subject != subject {
      ClaimFound(claims[1..], subject);
    }
  }

  // ---------------------------------------------------------------- what validity takes

  ghost predicate FirstClaim(claims: seq<Claim>, i: nat, subject: string)
  {
    i < |claims| && claims[i].subject == subject && forall j :: 0 <= j < i ==> claims[j].subject != subject
  }

  ghost predicate FirstProof(proofs: seq<Proof>, i: nat, subject: string)
  {
    i < |proofs| && proofs[i].subject == subject && forall j :: 0 <= j < i ==> proofs[j].subject != subject
  }

  /** The claim is alive and fresh enough for the proof, and scores what the proof requires. */
  ghost predicate Meets(half: Halving, c: Claim, p: Proof, at: int, score: real)
  {
    && p.mode == "cleartext-dev" && c.expiresAt.Some? && at <= c.expiresAt.value
    && (p.freshness.Some? ==>
          c.issuedAt.Some? && p.freshness.value.Some? &&
          (at - c.issuedAt.value) as real <= p.freshness.value.value)
    && EffectiveScore(half, c, at) == Score(score) && score >= p.requiredScore
  }

  lemma {:induction false} ClaimIsFirst(claims: seq<Claim>, i: nat, subject: string)
    requires FirstClaim(claims, i, subject)
    ensures FindClaim(claims, subject) == Some(claims[i])
  {
    if i > 0 {
      ClaimIsFirst(claims[1..], i - 1, subject);
    }
  }

  lemma {:induction false} ProofIsFirst(proofs: seq<Proof>, i: nat, subject: string)
    requires FirstProof(proofs, i, subject)
    ensures FindProof(proofs, subject) == Some(proofs[i])
  {
    if i > 0 {
      ProofIsFirst(proofs[1..], i - 1, subject);
    }
  }

  lemma {:induction false} ClaimAt(claims: seq<Claim>, subject: string) returns (i: nat)
    requires FindClaim(claims, subject).Some?
    ensures FirstClaim(claims, i, subject)
  {
    if claims[0].subject == subject {
      i := 0;
    } else {
      i := ClaimAt(claims[1..], subject);
      i := i + 1;
    }
  }

  lemma {:induction false} ProofAt(proofs: seq<Proof>, subject: string) returns (i: nat)
    requires FindProof(proofs, subject).Some?
    ensures FirstProof(proofs, i, subject)
  {
    if proofs[0].subject == subject {
      i := 0;
    } else {
      i := ProofAt(proofs[1..], subject);
      i := i + 1;
    }
  }

  ghost predicate ValidWith(half: Halving, d: Document, subject: string, at: int, score: real, i: nat, j: nat)
  {
    && FirstClaim(d.claims, i, subject) && FirstProof(d.proofs, j, subject)
    && i < |d.claims| && j < |d.proofs| && Meets(half, d.claims[i], d.proofs[j], at, score)
  }

  /** Valid with a score means: the subject's first claim meets its first proof with that score. */
  lemma ValidExactlyWhen(half: Halving, d: Document, subject: string, at: int, score: real)
    ensures Evaluate(half, d, subject, at) == Valid(score) <==>
      && subject in d.subjects
      && exists i: nat, j: nat :: ValidWith(half, d, subject, at, score, i, j)
  {
    hide EffectiveScore, FirstClaim, FirstProof, FindClaim, FindProof;
    if i: nat, j: nat :| ValidWith(half, d, subject, at, score, i, j) {
      ClaimIsFirst(d.claims, i, subject);
      ProofIsFirst(d.proofs, j, subject);
    }
    if FindClaim(d.claims, subject).Some? && FindProof(d.proofs, subject).Some? {
      var i := ClaimAt(d.claims, subject);
      var j := ProofAt(d.proofs, subject);
      FirstInside(d, subject, i, j);
      ClaimIsFirst(d.claims, i, subject);
      ProofIsFirst(d.proofs, j, subject);
      assert Evaluate(half, d, subject, at) == Valid(score) ==> ValidWith(half, d, subject, at, score, i, j);
    }
  }

  lemma FirstInside(d: Document, subject: string, i: nat, j: nat)
    requires FirstClaim(d.claims, i, subject) && FirstProof(d.proofs, j, subject)
    ensures i < |d.claims| && j < |d.proofs|
  {
  }

  /** The first claim is missing exactly when no claim names the subject, and so is the first proof. */
  lemma {:induction false} ClaimMissingExactlyWhen(claims: seq<Claim>, subject: string)
    ensures FindClaim(claims, subject).None? <==> forall c :: c in claims ==> c.subject != subject
  {
    if claims != [] {
      ClaimMissingExactlyWhen(claims[1..], subject);
      assert claims == [claims[0]] + claims[1..];
    }
  }

  lemma {:induction false} ProofMissingExactlyWhen(proofs: seq<Proof>, subject: string)
    ensures FindProof(proofs, subject).None? <==> forall p :: p in proofs ==> p.subject != subject
  {
    if proofs != [] {
      ProofMissingExactlyWhen(proofs[1..], subject);
      assert proofs == [proofs[0]] + proofs[1..];
    }
  }

  /** What is missing is reported in this order: the subject, its claim, its proof. */
  lemma MissingExactlyWhen(half: Halving, d: Document, subject: string, at: int)
    ensures var o := Evaluate(half, d, subject, at);
      && (o == Error("MISSING_SUBJECT") <==> subject !in d.subjects)
      && (o == Error("MISSING_TRUST") <==> subject in d.subjects && forall c :: c in d.claims ==> c.subject != subject)
      && (o == Error("MISSING_PROOF") <==>
            && subject in d.subjects && (exists c :: c in d.claims && c.subject == subject)
            && forall p :: p in d.proofs ==> p.subject != subject)
  {
    hide EffectiveScore, FindClaim, FindProof, TooOld;
    ClaimMissingExactlyWhen(d.claims, subject);
    ProofMissingExactlyWhen(d.proofs, subject);
    if FindClaim(d.claims, subject).Some? {
      ScoreErrors(half, FindClaim(d.claims, subject).value, at);
    }
  }

  /** When the score cannot be computed, and which error that is. */
  lemma ScoreErrors(half: Halving, c: Claim, at: int)
    ensures EffectiveScore(half, c, at) == ScoreError("UNSUPPORTED_DECAY_MODEL") <==>
      c.decay.Some? && c.decay.value.model != "linear"
    ensures EffectiveScore(half, c, at) == ScoreError("SYNTAX_ERROR") <==>
      && c.decay.Some? && c.decay.value.model == "linear"
      && (c.issuedAt.None? || c.decay.value.halfLifeMs.None?)
    ensures EffectiveScore(half, c, at).ScoreError? ==>
      EffectiveScore(half, c, at).code in {"UNSUPPORTED_DECAY_MODEL", "SYNTAX_ERROR"}
  {
    hide RoundScore;
  }

  /** The claim or the proof is past its time, as far as both can be read. */
  ghost predicate Outlived(c: Claim, at: int)
  {
    c.expiresAt.Some? && at > c.expiresAt.value
  }

  ghost predicate Stale(c: Claim, p: Proof, at: int)
  {
    && p.freshness.Some? && p.freshness.value.Some? && c.issuedAt.Some?
    && (at - c.issuedAt.value) as real > p.freshness.value.value
  }

  /** A document that can be read is expired for one of two reasons, or insufficient for its score. */
  lemma RefusedExactlyWhen(half: Halving, c: Claim, p: Proof, at: int)
    ensures EvaluateClaim(half, c, p, at) == Error("UNSUPPORTED_PROOF_MODE") <==> p.mode != "cleartext-dev"
    ensures EvaluateClaim(half, c, p, at) == Expired("trust claim expired before evaluation") <==>
      p.mode == "cleartext-dev" && Outlived(c, at)
    ensures EvaluateClaim(half, c, p, at) == Expired("trust proof is older than required freshness") <==>
      p.mode == "cleartext-dev" && c.expiresAt.Some? && !Outlived(c, at) && Stale(c, p, at)
  {
    hide EffectiveScore;
    ScoreErrors(half, c, at);
  }

  /** What cannot be read, as far as evaluation gets. */
  lemma MalformedExactlyWhen(half: Halving, c: Claim, p: Proof, at: int)
    requires p.mode == "cleartext-dev"
    ensures EvaluateClaim(half, c, p, at) == Error("SYNTAX_ERROR") <==>
      || c.expiresAt.None?
      || (!Outlived(c, at) && p.freshness.Some? && (c.issuedAt.None? || p.freshness.value.None?))
      || (!Outlived(c, at) && !Stale(c, p, at) && EffectiveScore(half, c, at) == ScoreError("SYNTAX_ERROR"))
  {
    hide EffectiveScore;
  }

  /** Insufficient is a claim that would be valid if only its score were asked for. */
  lemma InsufficientExactlyWhen(half: Halving, c: Claim, p: Proof, at: int, score: real)
    ensures EvaluateClaim(half, c, p, at) == Insufficient(Some(score)) <==>
      score < p.requiredScore && Meets(half, c, p.(requiredScore := score), at, score)
  {
    hide EffectiveScore;
  }

  // ---------------------------------------------------------------- a half-life of zero

  ghost predicate DownwardClosed(half: Halving, c: Claim, p: Proof)
  {
    forall early: int, late: int {:trigger EvaluateClaim(half, c, p, early), EvaluateClaim(half, c, p, late)} ::
      early <= late && EvaluateClaim(half, c, p, late).Valid? ==> EvaluateClaim(half, c, p, early).Valid?
  }

  predicate NonNegativeHalfLife(c: Claim)
  {
    c.decay.Some? && c.decay.value.halfLifeMs.Some? ==> c.decay.value.halfLifeMs.value >= 0.0
  }

  predicate ZeroHalfLife(c: Claim)
  {
    c.decay.Some? && c.decay.value.halfLifeMs == Some(0.0)
  }

  /**
   * What is read off the document when a half-life of zero goes wrong: nothing
   * is malformed, the claim outlives its issue by a millisecond, and its
   * minimum, to which it decays at once, meets the requirement.
   */
  predicate MinimumSuffices(c: Claim, p: Proof)
  {
    && ZeroHalfLife(c) && c.decay.value.model == "linear" && p.mode == "cleartext-dev"
    && c.issuedAt.Some? && c.expiresAt.Some? && c.issuedAt.value < c.expiresAt.value
    && (p.freshness.Some? ==> p.freshness.value.Some? && p.freshness.value.value >= 1.0)
    && RoundScore(c.decay.value.minimum) >= p.requiredScore
  }

  lemma MinimumDecides(half: Halving, c: Claim, p: Proof)
    requires ZeroHalfLife(c) && c.issuedAt.Some?
    ensures EvaluateClaim(half, c, p, c.issuedAt.value + 1).Valid? <==> MinimumSuffices(c, p)
    ensures !EvaluateClaim(half, c, p, c.issuedAt.value).Valid?
  {
    hide RoundScore;
  }

  lemma ZeroHalfLifeConstant(half: Halving, c: Claim, p: Proof, late: int)
    requires ZeroHalfLife(c) && EvaluateClaim(half, c, p, late).Valid?
    ensures c.issuedAt.Some? && late > c.issuedAt.value
    ensures EvaluateClaim(half, c, p, c.issuedAt.value + 1).Valid?
  {
  }

  /** Validity is downward closed in time, except for a zero half-life whose minimum suffices. */
  lemma DownwardClosedExactlyWhen(half: Halving, c: Claim, p: Proof)
    requires Halves(half) && NonNegativeHalfLife(c)
    ensures DownwardClosed(half, c, p) <==> !MinimumSuffices(c, p)
  {
    hide EffectiveScore, EvaluateClaim;
    if ZeroHalfLife(c) {
      forall late: int | EvaluateClaim(half, c, p, late).Valid?
        ensures MinimumSuffices(c, p)
      {
        ZeroHalfLifeConstant(half, c, p, late);
        MinimumDecides(half, c, p);
      }
      if MinimumSuffices(c, p) {
        MinimumDecides(half, c, p);
        assert !EvaluateClaim(half, c, p, c.issuedAt.value).Valid?;
      }
    } else {
      forall early: int, late: int | early <= late && EvaluateClaim(half, c, p, late).Valid?
        ensures EvaluateClaim(half, c, p, early).Valid?
      {
        ClaimValidEarlier(half, c, p, early, late);
      }
    }
  }

  /** A document that becomes valid only after its issue: half-life zero, minimum and requirement one half. */
  lemma BecomesValid(half: Halving)
    ensures var c := Claim("s", 0.9, Some(0), Some(10), Some(Decay("linear", Some(0.0), 0.5)));
      var d := Document(["s"], [c], [Proof("s", "cleartext-dev", 0.5, None)]);
      Evaluate(half, d, "s", 0) == Insufficient(None) && Evaluate(half, d, "s", 1) == Valid(0.5)
  {
    assert RoundScore(0.5) == 0.5;
  }

  lemma ClaimValidEarlier(half: Halving, c: Claim, p: Proof, early: int, late: int)
    requires Halves(half) && PositiveHalfLife(c) && early <= late
    requires EvaluateClaim(half, c, p, late).Valid?
    ensures EvaluateClaim(half, c, p, early).Valid?
  {
    hide EffectiveScore, PositiveHalfLife;
    ScoreNeverRises(half, c, early, late);
  }
}
