/** Selecting a trust route among candidates, and the decision that follows from it. */
module RouteResolver {
  import opened Basics
  import opened Sums

  datatype Decision = Permit | Constrain | Throttle | StepUp | Deny

  datatype Zone = Active | Degraded | Warning | Critical

  datatype Signal = Signal(weight: real, value: real)

  datatype Candidate = Candidate(
    issuerType: string, issuerId: string, action: string, trustScore: real, lastVerifiedAt: string,
    signals: seq<Signal>,
    freshnessSeconds: real, revoked: bool, environment: map<string, string>, delegationAllowed: bool, maxHops: int,
    minTrustScore: real, requiresStepUp: bool, domainDecision: string)

  datatype Request = Request(
    subject: string, action: string, resource: string, paramsHash: string, timestamp: string, bindingHash: string,
    proofRequired: bool, context: map<string, string>, hops: int)

  datatype Policy = Policy(
    strategy: string, maxFreshnessSeconds: real, stepUpActions: seq<string>, throttleActions: seq<string>,
    constrainActions: seq<string>, highRiskActions: seq<string>)

  datatype Input = Input(
    request: Request, candidates: seq<Candidate>, policy: Policy, resolverAvailable: bool, proofEngineAvailable: bool,
    latencyExceeded: bool)

  /** SHA-256, date parsing, and the decay factor for an age in seconds. */
  datatype Engine = Engine(sha256: string -> string, parse: string -> Option<int>, factor: real -> real)

  ghost predicate Decays(e: Engine)
  {
    forall age {:trigger e.factor(age)} :: e.factor(age) > 0.0
  }

  // ---------------------------------------------------------------- scores

  function Boost(signals: seq<Signal>): real
  {
    if signals == [] then 0.0
    else Boost(signals[..|signals| - 1]) + signals[|signals| - 1].weight * signals[|signals| - 1].value
  }

  function ElapsedSeconds(now: int, then': int): real
  {
    if now > then' then (now - then') as real / 1000.0 else 0.0
  }

  /** The score with decay; None when a date does not parse, and then it fails every comparison. */
  function ScoreOf(e: Engine, r: Request, c: Candidate): Option<real>
  {
    var now, verified := e.parse(r.timestamp), e.parse(c.lastVerifiedAt);
    if now.None? || verified.None? then None
    else Some(Clamp01(Times(c.trustScore, e.factor(ElapsedSeconds(now.value, verified.value))) + Boost(c.signals)))
  }

  function ZoneOf(score: real): Zone
  {
    if score >= 0.85 then Active else if score >= 0.65 then Degraded else if score >= 0.4 then Warning else Critical
  }

  // ---------------------------------------------------------------- candidates

  datatype Evaluated = Evaluated(c: Candidate, score: real)

  function ContextValue(context: map<string, string>, key: string): string
  {
    if key in context then context[key] else ""
  }

  predicate EnvironmentValid(constraints: map<string, string>, context: map<string, string>)
  {
    forall k :: k in constraints ==> ContextValue(context, k) == constraints[k]
  }

  /** The tests that do not involve the score. */
  predicate Eligible(c: Candidate, r: Request, p: Policy)
  {
    && c.freshnessSeconds <= p.maxFreshnessSeconds
    && (c.action == r.action || c.action == "*")
    && EnvironmentValid(c.environment, r.context)
    && (c.delegationAllowed || r.hops == 0)
    && r.hops <= c.maxHops
  }

  predicate Usable(e: Engine, i: Input, c: Candidate)
  {
    var score := ScoreOf(e, i.request, c);
    Eligible(c, i.request, i.policy) && score.Some? && score.value >= c.minTrustScore
  }

  function Valid(e: Engine, i: Input, cs: seq<Candidate>): seq<Evaluated>
  {
    if cs == [] then []
    else
      var front, c := Valid(e, i, cs[..|cs| - 1]), cs[|cs| - 1];
      if Usable(e, i, c) then front + [Evaluated(c, ScoreOf(e, i.request, c).value)] else front
  }

  /** The first of the highest scores: the head of the list after a stable sort. */
  function Strongest(es: seq<Evaluated>): Evaluated
    requires es != []
  {
    if |es| == 1 then es[0]
    else
      var best, last := Strongest(es[..|es| - 1]), es[|es| - 1];
      if last.score > best.score then last else best
  }

  function Freshest(es: seq<Evaluated>): Evaluated
    requires es != []
  {
    if |es| == 1 then es[0]
    else
      var best, last := Freshest(es[..|es| - 1]), es[|es| - 1];
      if last.c.freshnessSeconds < best.c.freshnessSeconds then last else best
  }

  function FirstSupervisor(es: seq<Evaluated>): Option<Evaluated>
  {
    if es == [] then None
    else if es[0].c.issuerType == "supervisor" then Some(es[0])
    else FirstSupervisor(es[1..])
  }

  predicate DomainDenies(es: seq<Evaluated>)
  {
    exists k :: 0 <= k < |es| && es[k].c.issuerType == "domain" && es[k].c.domainDecision == "DENY"
  }

  datatype Selection = Chosen(e: Evaluated) | Refused(code: string)

  function Select(strategy: string, valid: seq<Evaluated>, total: nat): Selection
    requires valid != []
  {
    match strategy
    case "require_all" => if |valid| != total then Refused("require_all_not_satisfied") else Chosen(Strongest(valid))
    case "freshest_path_wins" => Chosen(Freshest(valid))
    case "supervisor_override" =>
      var supervisor := FirstSupervisor(valid);
      if supervisor.Some? then Chosen(supervisor.value) else Chosen(Strongest(valid))
    case "domain_hard_deny_overrides_all" =>
      if DomainDenies(valid) then Refused("domain_hard_deny") else Chosen(Strongest(valid))
    case _ => Chosen(Strongest(valid))
  }

  // ---------------------------------------------------------------- resolving

  function BindingText(r: Request): string
  {
    r.subject + "|" + r.action + "|" + r.resource + "|" + r.paramsHash + "|" +
    if |r.timestamp| > 16 then r.timestamp[..16] else r.timestamp
  }

  function BindingHash(e: Engine, r: Request): string
  {
    "sha256:" + e.sha256(BindingText(r))
  }

  /** Why the request is refused before its candidates are looked at, or "". */
  function Preflight(e: Engine, i: Input): string
  {
    if !i.resolverAvailable then "resolver_unavailable"
    else if !i.proofEngineAvailable && i.request.proofRequired then "proof_engine_unavailable"
    else if BindingHash(e, i.request) != i.request.bindingHash then "binding_mismatch"
    else if !StartsWith(i.request.paramsHash, "sha256:") then "params_hash_mismatch"
    else ""
  }

  predicate SomeRevoked(cs: seq<Candidate>)
  {
    exists k :: 0 <= k < |cs| && cs[k].revoked
  }

  datatype Outcome =
    | Route(decision: Decision, selected: Evaluated, zone: Zone, reasons: seq<string>)
    | Denied(code: string)

  /** The decision for an uncritical zone. */
  function Ladder(zone: Zone, stepUp: bool, throttle: bool, constrain: bool): Decision
  {
    if zone == Warning || stepUp then StepUp
    else if throttle || zone == Degraded then Throttle
    else if constrain then Constrain
    else Permit
  }

  function Reasons(stepUp: bool, throttle: bool, constrain: bool): seq<string>
  {
    var rs := (if stepUp then ["step_up_required"] else []) + (if throttle then ["throttle_required"] else [])
              + (if constrain then ["constrain_required"] else []);
    if rs == [] then ["route_valid"] else rs
  }

  function Decide(i: Input, selected: Evaluated): Outcome
  {
    var zone, p, action := ZoneOf(selected.score), i.policy, i.request.action;
    var stepUp := action in p.stepUpActions || selected.c.requiresStepUp;
    if zone == Critical then Denied("trust_zone_critical")
    else if i.latencyExceeded && action in p.highRiskActions then Denied("latency_budget_exceeded")
    else
      Route(Ladder(zone, stepUp, action in p.throttleActions, action in p.constrainActions), selected, zone,
            Reasons(zone == Warning || stepUp, action in p.throttleActions || zone == Degraded,
                    action in p.constrainActions))
  }

  function Resolve(e: Engine, i: Input): Outcome
  {
    var valid := Valid(e, i, i.candidates);
    if Preflight(e, i) != "" then Denied(Preflight(e, i))
    else if i.candidates == [] then Denied("no_valid_route_found")
    else if SomeRevoked(i.candidates) then Denied("revoked_subject")
    else if valid == [] then Denied("no_valid_route_found")
    else
      var selection := Select(i.policy.strategy, valid, |i.candidates|);
      if selection.Refused? then Denied(selection.code) else Decide(i, selection.e)
  }
}
