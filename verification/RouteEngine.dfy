/**
 * The resolver as it runs: candidates are evaluated, filtered and
 * searched, and the decision is adjusted step by step.
 */
module RouteEngine {
  import opened Basics
  import opened RouteResolver
  import opened ResolverLaws

  /** Keeps the usable candidates, with their scores, and notes whether any candidate is revoked. */
  method EvaluateAll(e: Engine, i: Input) returns (valid: seq<Evaluated>, revoked: bool)
    ensures valid == Valid(e, i, i.candidates)
    ensures revoked <==> SomeRevoked(i.candidates)
  {
    hide Eligible, ScoreOf;
    valid, revoked := [], false;
    for k := 0 to |i.candidates|
      invariant valid == Valid(e, i, i.candidates[..k])
      invariant revoked <==> exists j :: 0 <= j < k && i.candidates[j].revoked
    {
      var c := i.candidates[k];
      assert i.candidates[..k + 1][..k] == i.candidates[..k];
      if c.revoked {
        revoked := true;
      }
      var score := ScoreOf(e, i.request, c);
      if Eligible(c, i.request, i.policy) && score.Some? && score.value >= c.minTrustScore {
        valid := valid + [Evaluated(c, score.value)];
      }
    }
    assert i.candidates[..|i.candidates|] == i.candidates;
  }

  /** The head of the list after a stable descending sort by score. */
  method PickStrongest(es: seq<Evaluated>) returns (best: Evaluated)
    requires es != []
    ensures FirstStrongest(es, best) && best == Strongest(es)
  {
    best := es[0];
    assert es[..1] == [es[0]];
    for k := 1 to |es|
      invariant best == Strongest(es[..k])
    {
      assert es[..k + 1][..k] == es[..k];
      if es[k].score > best.score {
        best := es[k];
      }
    }
    assert es[..|es|] == es;
    StrongestIsFirst(es);
  }

  /** The head of the list after a stable ascending sort by age. */
  method PickFreshest(es: seq<Evaluated>) returns (best: Evaluated)
    requires es != []
    ensures exists k :: 0 <= k < |es| && es[k] == best && FreshestAt(es, k)
    ensures best == Freshest(es)
  {
    best := es[0];
    assert es[..1] == [es[0]];
    for k := 1 to |es|
      invariant best == Freshest(es[..k])
    {
      assert es[..k + 1][..k] == es[..k];
      if es[k].c.freshnessSeconds < best.c.freshnessSeconds {
        best := es[k];
      }
    }
    assert es[..|es|] == es;
    FreshestIsFirst(es);
  }

  method FindSupervisor(es: seq<Evaluated>) returns (found: Option<Evaluated>)
    ensures found == FirstSupervisor(es)
    ensures found.None? ==> !HasSupervisor(es)
  {
    FirstSupervisorIsFirst(es);
    for k := 0 to |es|
      invariant FirstSupervisor(es) == FirstSupervisor(es[k..])
    {
      assert es[k..][1..] == es[k + 1..];
      if es[k].c.issuerType == "supervisor" {
        return Some(es[k]);
      }
    }
    return None;
  }

  /** The candidate of the strategy, which is what the strategy promises. */
  method Choose(strategy: string, valid: seq<Evaluated>, total: nat) returns (selection: Selection)
    requires valid != []
    ensures selection == Select(strategy, valid, total)
    ensures selection.Chosen? ==> Optimal(strategy, valid, total, selection.e)
  {
    hide Strongest, Freshest, FirstSupervisor, Optimal, FirstStrongest, FreshestAt, HasSupervisor;
    SelectIsOptimal(strategy, valid, total);
    if strategy == "require_all" && |valid| != total {
      return Selection.Refused("require_all_not_satisfied");
    }
    if strategy == "freshest_path_wins" {
      var best := PickFreshest(valid);
      return Chosen(best);
    }
    if strategy == "supervisor_override" {
      var supervisor := FindSupervisor(valid);
      if supervisor.Some? {
        return Chosen(supervisor.value);
      }
    }
    if strategy == "domain_hard_deny_overrides_all" && DomainDenies(valid) {
      return Selection.Refused("domain_hard_deny");
    }
    var best := PickStrongest(valid);
    return Chosen(best);
  }

  method DecideRoute(i: Input, selected: Evaluated) returns (outcome: Outcome)
    ensures outcome == Decide(i, selected)
  {
    var p, action, zone := i.policy, i.request.action, ZoneOf(selected.score);
    if zone == Critical {
      return Denied("trust_zone_critical");
    }
    var decision, reasonCodes: seq<string> := Permit, [];
    if zone == Warning || action in p.stepUpActions || selected.c.requiresStepUp {
      decision := StepUp;
      reasonCodes := reasonCodes + ["step_up_required"];
    }
    if action in p.throttleActions || zone == Degraded {
      decision := if decision == StepUp then StepUp else Throttle;
      reasonCodes := reasonCodes + ["throttle_required"];
    }
    if action in p.constrainActions {
      decision := if decision == Permit then Constrain else decision;
      reasonCodes := reasonCodes + ["constrain_required"];
    }
    if i.latencyExceeded && action in p.highRiskActions {
      return Denied("latency_budget_exceeded");
    }
    outcome := Route(decision, selected, zone, if |reasonCodes| > 0 then reasonCodes else ["route_valid"]);
  }

  /**
   * A route is earned by a usable candidate that is optimal for the
   * strategy, with nobody revoked and the request bound.
   */
  method ResolveTrustRoute(e: Engine, i: Input) returns (outcome: Outcome)
    ensures outcome == Resolve(e, i)
    ensures outcome.Route? ==> EarnedRoute(e, i, outcome)
  {
    hide BindingHash, Valid, Select, SomeRevoked, Decide, Optimal, EarnedRoute;
    var request := i.request;
    if !i.resolverAvailable {
      return Denied("resolver_unavailable");
    }
    if !i.proofEngineAvailable && request.proofRequired {
      return Denied("proof_engine_unavailable");
    }
    if BindingHash(e, request) != request.bindingHash {
      return Denied("binding_mismatch");
    }
    if !StartsWith(request.paramsHash, "sha256:") {
      return Denied("params_hash_mismatch");
    }
    var valid, revoked := EvaluateAll(e, i);
    if i.candidates == [] {
      return Denied("no_valid_route_found");
    }
    if revoked {
      return Denied("revoked_subject");
    }
    if valid == [] {
      return Denied("no_valid_route_found");
    }
    var selection := Choose(i.policy.strategy, valid, |i.candidates|);
    if selection.Refused? {
      return Denied(selection.code);
    }
    outcome := DecideRoute(i, selection.e);
    if outcome.Route? {
      RouteIsEarned(e, i);
    }
  }
}
