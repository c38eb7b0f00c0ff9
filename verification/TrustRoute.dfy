/** Multi-hop trust routes: the running product with its per-hop threshold. */
module TrustRoute {
  import opened Basics
  import opened Sums

  /** A missing score counts as 0. */
  datatype Hop = Hop(subject: string, issuer: string, trustScore: real)

  datatype Policy = Policy(
    trustedIssuers: Option<seq<string>>, allowedDomains: Option<seq<string>>, allowedActions: Option<seq<string>>)

  datatype Route = Route(
    hops: seq<Hop>, maxHops: Option<int>, decayPerHop: real, minIntermediateTrust: Option<real>, policy: Policy,
    sourceDomain: string, targetDomain: string, action: string)

  datatype Failure =
    | EmptyRoute | TooLong | MissingIdentity(hop: nat) | BelowThreshold(hop: nat) | UntrustedIssuer(hop: nat)
    | DomainNotAllowed | ActionNotAllowed

  function Conveyed(h: Hop, decay: real): real
  {
    if h.trustScore - decay > 0.0 then h.trustScore - decay else 0.0
  }

  function RouteTrust(hops: seq<Hop>, decay: real): real
  {
    if hops == [] then 1.0 else Times(RouteTrust(hops[..|hops| - 1], decay), Conveyed(hops[|hops| - 1], decay))
  }

  function When(b: bool, f: Failure): seq<Failure>
  {
    if b then [f] else []
  }

  predicate Below(trust: real, threshold: Option<real>)
  {
    threshold.Some? && trust < threshold.value
  }

  /** Failures of hop `k`, where `trust` is the product up to and including it. */
  function HopFailures(r: Route, k: nat, trust: real): seq<Failure>
    requires k < |r.hops|
  {
    var h := r.hops[k];
    When(h.subject == "" || h.issuer == "", MissingIdentity(k))
    + When(Below(trust, r.minIntermediateTrust), BelowThreshold(k))
    + When(r.policy.trustedIssuers.Some? && h.issuer !in r.policy.trustedIssuers.value, UntrustedIssuer(k))
  }

  function FailuresUpto(r: Route, n: nat): seq<Failure>
    requires n <= |r.hops|
  {
    if n == 0 then When(r.hops == [], EmptyRoute) + When(r.maxHops.Some? && |r.hops| > r.maxHops.value, TooLong)
    else FailuresUpto(r, n - 1) + HopFailures(r, n - 1, RouteTrust(r.hops[..n], r.decayPerHop))
  }

  function PolicyFailures(r: Route): seq<Failure>
  {
    When(r.policy.allowedDomains.Some? && (r.sourceDomain + "->" + r.targetDomain) !in r.policy.allowedDomains.value,
         DomainNotAllowed)
    + When(r.policy.allowedActions.Some? && r.action !in r.policy.allowedActions.value, ActionNotAllowed)
  }

  method CheckHop(r: Route, k: nat, eff: real) returns (failures: seq<Failure>)
    requires k < |r.hops|
    ensures failures == HopFailures(r, k, eff)
  {
    var h := r.hops[k];
    failures := [];
    if h.subject == "" || h.issuer == "" { failures := failures + [MissingIdentity(k)]; }
    if Below(eff, r.minIntermediateTrust) { failures := failures + [BelowThreshold(k)]; }
    if r.policy.trustedIssuers.Some? && h.issuer !in r.policy.trustedIssuers.value {
      failures := failures + [UntrustedIssuer(k)];
    }
  }

  method VerifyTrustRoute(r: Route) returns (valid: bool, effectiveTrust: real, failures: seq<Failure>)
    ensures failures == FailuresUpto(r, |r.hops|) + PolicyFailures(r)
    ensures valid <==> failures == []
    ensures effectiveTrust == RouteTrust(r.hops, r.decayPerHop)
  {
    hide HopFailures, Conveyed;
    failures := When(r.hops == [], EmptyRoute) + When(r.maxHops.Some? && |r.hops| > r.maxHops.value, TooLong);
    var eff := 1.0;
    for k := 0 to |r.hops|
      invariant failures == FailuresUpto(r, k)
      invariant eff == RouteTrust(r.hops[..k], r.decayPerHop)
    {
      assert r.hops[..k + 1][..k] == r.hops[..k];
      eff := eff * Conveyed(r.hops[k], r.decayPerHop);
      assert eff == RouteTrust(r.hops[..k + 1], r.decayPerHop);
      var found := CheckHop(r, k, eff);
      failures := failures + found;
    }
    assert r.hops[..|r.hops|] == r.hops;
    failures := failures + PolicyFailures(r);
    return |failures| == 0, eff, failures;
  }

  // ---------------------------------------------------------------- laws

  ghost predicate Admissible(r: Route)
  {
    && r.hops != [] && (r.maxHops.Some? ==> |r.hops| <= r.maxHops.value)
    && (forall k :: 0 <= k < |r.hops| ==> r.hops[k].subject != "" && r.hops[k].issuer != "")
    && (r.policy.trustedIssuers.Some? ==>
          forall k :: 0 <= k < |r.hops| ==> r.hops[k].issuer in r.policy.trustedIssuers.value)
    && (r.policy.allowedDomains.Some? ==> r.sourceDomain + "->" + r.targetDomain in r.policy.allowedDomains.value)
    && (r.policy.allowedActions.Some? ==> r.action in r.policy.allowedActions.value)
  }

  /** After every hop, enough trust is left. */
  ghost predicate AboveAllAlong(hops: seq<Hop>, decay: real, threshold: Option<real>)
  {
    forall k :: 1 <= k <= |hops| ==> !Below(RouteTrust(hops[..k], decay), threshold)
  }

  ghost predicate HopPasses(r: Route, k: nat)
    requires k < |r.hops|
  {
    && r.hops[k].subject != "" && r.hops[k].issuer != ""
    && !Below(RouteTrust(r.hops[..k + 1], r.decayPerHop), r.minIntermediateTrust)
    && (r.policy.trustedIssuers.Some? ==> r.hops[k].issuer in r.policy.trustedIssuers.value)
  }

  lemma NoHopFailure(r: Route, k: nat)
    requires k < |r.hops|
    ensures HopFailures(r, k, RouteTrust(r.hops[..k + 1], r.decayPerHop)) == [] <==> HopPasses(r, k)
  {
  }

  lemma NothingConcatenated(a: seq<Failure>, b: seq<Failure>)
    ensures a + b == [] <==> a == [] && b == []
  {
  }

  lemma {:induction false} NoFailuresUpto(r: Route, n: nat)
    requires n <= |r.hops|
    ensures FailuresUpto(r, n) == [] <==>
      && r.hops != [] && (r.maxHops.Some? ==> |r.hops| <= r.maxHops.value)
      && forall k :: 0 <= k < n ==> HopPasses(r, k)
  {
    hide RouteTrust, HopFailures, HopPasses;
    if n > 0 {
      NoFailuresUpto(r, n - 1);
      NoHopFailure(r, n - 1);
      NothingConcatenated(FailuresUpto(r, n - 1), HopFailures(r, n - 1, RouteTrust(r.hops[..n], r.decayPerHop)));
    }
  }

  lemma NoPolicyFailures(r: Route)
    ensures PolicyFailures(r) == [] <==>
      && (r.policy.allowedDomains.Some? ==> r.sourceDomain + "->" + r.targetDomain in r.policy.allowedDomains.value)
      && (r.policy.allowedActions.Some? ==> r.action in r.policy.allowedActions.value)
  {
  }

  /** Valid means: the policy admits the route, and the running trust never falls below the threshold. */
  lemma ValidExactlyWhen(r: Route)
    ensures FailuresUpto(r, |r.hops|) + PolicyFailures(r) == [] <==>
      Admissible(r) && AboveAllAlong(r.hops, r.decayPerHop, r.minIntermediateTrust)
  {
    hide RouteTrust, Below, When;
    NoFailuresUpto(r, |r.hops|);
    NoPolicyFailures(r);
    var a, b := FailuresUpto(r, |r.hops|), PolicyFailures(r);
    assert |a + b| == |a| + |b|;
    hide FailuresUpto, PolicyFailures;
    if forall k :: 0 <= k < |r.hops| ==> HopPasses(r, k) {
      forall k | 1 <= k <= |r.hops|
        ensures !Below(RouteTrust(r.hops[..k], r.decayPerHop), r.minIntermediateTrust)
      {
        assert HopPasses(r, k - 1);
      }
      forall k | 0 <= k < |r.hops|
        ensures r.hops[k].subject != "" && r.hops[k].issuer != ""
        ensures r.policy.trustedIssuers.Some? ==> r.hops[k].issuer in r.policy.trustedIssuers.value
      {
        assert HopPasses(r, k);
      }
    }
    if Admissible(r) && AboveAllAlong(r.hops, r.decayPerHop, r.minIntermediateTrust) {
      forall k | 0 <= k < |r.hops|
        ensures HopPasses(r, k)
      {
        assert !Below(RouteTrust(r.hops[..k + 1], r.decayPerHop), r.minIntermediateTrust);
      }
    }
  }

  lemma {:induction false} JoiningMultiplies(a: seq<Hop>, b: seq<Hop>, decay: real)
    ensures RouteTrust(a + b, decay) == Times(RouteTrust(a, decay), RouteTrust(b, decay))
  {
    if b == [] {
      assert a + b == a;
    } else {
      hide Times, Conveyed;
      var n := |b| - 1;
      JoiningMultiplies(a, b[..n], decay);
      assert (a + b)[..|a + b| - 1] == a + b[..n];
      Regroup(RouteTrust(a, decay), RouteTrust(b[..n], decay), Conveyed(b[n], decay));
    }
  }

  lemma Regroup(x: real, y: real, z: real)
    ensures Times(Times(x, y), z) == Times(x, Times(y, z))
  {
  }

  /** One hop conveys its score less the decay, and nothing once that is used up. */
  lemma OneHopConveys(h: Hop, decay: real)
    ensures RouteTrust([h], decay) == Max(0.0, h.trustScore - decay)
  {
    assert [h][..0] == [];
    assert Times(1.0, Conveyed(h, decay)) == Conveyed(h, decay);
  }

  /** More decay never conveys more. */
  lemma {:induction false} DecayLowersTrust(hops: seq<Hop>, less: real, more: real)
    requires less <= more
    ensures 0.0 <= RouteTrust(hops, more) <= RouteTrust(hops, less)
  {
    hide Times;
    if hops != [] {
      var front, h := hops[..|hops| - 1], hops[|hops| - 1];
      DecayLowersTrust(front, less, more);
      ProductsOrdered(RouteTrust(front, more), RouteTrust(front, less), Conveyed(h, more), Conveyed(h, less));
    }
  }

  lemma ProductsOrdered(a: real, b: real, x: real, y: real)
    requires 0.0 <= a <= b && 0.0 <= x <= y
    ensures 0.0 <= Times(a, x) <= Times(b, y)
  {
    TimesOrder(0.0, a, x);
    TimesOrder(a, b, x);
    TimesOrder(x, y, b);
    assert Times(x, b) == Times(b, x) && Times(y, b) == Times(b, y);
  }

  ghost predicate NoneAmplify(hops: seq<Hop>, decay: real)
  {
    forall k :: 0 <= k < |hops| ==> Conveyed(hops[k], decay) <= 1.0
  }

  lemma {:induction false} TrustFalls(hops: seq<Hop>, decay: real, k: nat)
    requires NoneAmplify(hops, decay) && k <= |hops|
    ensures 0.0 <= RouteTrust(hops, decay) <= RouteTrust(hops[..k], decay)
    decreases |hops|
  {
    hide Conveyed, Times;
    if k == |hops| {
      assert hops[..k] == hops;
    }
    if hops != [] {
      var front, h := hops[..|hops| - 1], hops[|hops| - 1];
      assert forall j :: 0 <= j < |front| ==> front[j] == hops[j];
      TrustFalls(front, decay, if k < |hops| then k else |front|);
      ConveyedNonNegative(h, decay);
      TimesOrder(0.0, RouteTrust(front, decay), Conveyed(h, decay));
      AtMostFactor(RouteTrust(front, decay), Conveyed(h, decay));
      assert k < |hops| ==> front[..k] == hops[..k];
    }
  }

  lemma ConveyedNonNegative(h: Hop, decay: real)
    ensures Conveyed(h, decay) >= 0.0
  {
  }

  lemma AtMostFactor(x: real, y: real)
    requires x >= 0.0 && 0.0 <= y <= 1.0
    ensures 0.0 <= Times(x, y) <= x
  {
  }

  /** When no hop conveys more than 1, only the last of the per-hop checks matters. */
  lemma LastCheckDecides(hops: seq<Hop>, decay: real, threshold: Option<real>)
    requires hops != [] && NoneAmplify(hops, decay)
    ensures AboveAllAlong(hops, decay, threshold) <==> !Below(RouteTrust(hops, decay), threshold)
  {
    hide RouteTrust, NoneAmplify;
    assert hops[..|hops|] == hops;
    forall k | 1 <= k <= |hops|
      ensures RouteTrust(hops, decay) <= RouteTrust(hops[..k], decay)
    {
      TrustFalls(hops, decay, k);
    }
  }

  /** For all routes with scores up to 1, the final trust decides the threshold. */
  ghost predicate FinalTrustDecides(decay: real)
  {
    forall hops: seq<Hop>, threshold: Option<real> :: hops != [] && ScoresUpToOne(hops) ==>
      (AboveAllAlong(hops, decay, threshold) <==> !Below(RouteTrust(hops, decay), threshold))
  }

  ghost predicate ScoresUpToOne(hops: seq<Hop>)
  {
    forall k :: 0 <= k < |hops| ==> hops[k].trustScore <= 1.0
  }

  /** That is so exactly for a decay that is not negative. */
  lemma FinalTrustDecidesExactlyWhen(decay: real)
    ensures FinalTrustDecides(decay) <==> decay >= 0.0
  {
    if decay >= 0.0 {
      forall hops: seq<Hop>, threshold: Option<real> | hops != [] && ScoresUpToOne(hops)
        ensures AboveAllAlong(hops, decay, threshold) <==> !Below(RouteTrust(hops, decay), threshold)
      {
        assert NoneAmplify(hops, decay);
        LastCheckDecides(hops, decay, threshold);
      }
    } else {
      var h, gain := Hop("s", "i", 1.0), 1.0 - decay;
      var hops := [h, h];
      assert hops[..1] == [h] && [h][..0] == [];
      assert RouteTrust([h], decay) == gain;
      assert RouteTrust(hops, decay) == Times(gain, gain);
      TimesStrict(1.0, gain, gain);
      var threshold := Some(Times(gain, gain));
      assert Below(RouteTrust(hops[..1], decay), threshold) && !Below(RouteTrust(hops, decay), threshold);
      assert ScoresUpToOne(hops);
    }
  }
}
