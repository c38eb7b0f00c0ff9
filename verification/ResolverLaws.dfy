/** Routes are earned and optimal; and for which strategies lowering trust never helps. */
module ResolverLaws {
  import opened Basics
  import opened Sums
  import opened RouteResolver

  // ---------------------------------------------------------------- the valid candidates

  /** The list holds exactly the usable candidates with their scores. */
  lemma {:induction false} ValidHolds(e: Engine, i: Input, cs: seq<Candidate>)
    ensures forall x :: x in Valid(e, i, cs) ==>
      x.c in cs && Usable(e, i, x.c) && ScoreOf(e, i.request, x.c) == Some(x.score)
    ensures forall c :: c in cs && Usable(e, i, c) ==> Evaluated(c, ScoreOf(e, i.request, c).value) in Valid(e, i, cs)
    ensures |Valid(e, i, cs)| <= |cs|
    ensures |Valid(e, i, cs)| == |cs| <==> forall c :: c in cs ==> Usable(e, i, c)
  {
    if cs != [] {
      ValidHolds(e, i, cs[..|cs| - 1]);
      hide Eligible, ScoreOf;
      assert cs == cs[..|cs| - 1] + [cs[|cs| - 1]];
    }
  }

  ghost predicate FirstStrongest(es: seq<Evaluated>, x: Evaluated)
  {
    exists k :: 0 <= k < |es| && es[k] == x && TopAt(es, k)
  }

  ghost predicate TopAt(es: seq<Evaluated>, k: nat)
    requires k < |es|
  {
    && (forall j :: 0 <= j < |es| ==> es[j].score <= es[k].score)
    && (forall j :: 0 <= j < k ==> es[j].score < es[k].score)
  }

  lemma {:induction false} StrongestIsFirst(es: seq<Evaluated>)
    requires es != []
    ensures FirstStrongest(es, Strongest(es))
  {
    var n := |es| - 1;
    if n == 0 {
      assert TopAt(es, 0);
    } else {
      StrongestIsFirst(es[..n]);
      var k :| 0 <= k < n && es[..n][k] == Strongest(es[..n]) && TopAt(es[..n], k);
      assert forall j :: 0 <= j < n ==> es[..n][j] == es[j];
      if es[n].score > es[k].score {
        assert TopAt(es, n);
      } else {
        assert TopAt(es, k);
      }
    }
  }

  ghost predicate FreshestAt(es: seq<Evaluated>, k: nat)
    requires k < |es|
  {
    && (forall j :: 0 <= j < |es| ==> es[k].c.freshnessSeconds <= es[j].c.freshnessSeconds)
    && (forall j :: 0 <= j < k ==> es[k].c.freshnessSeconds < es[j].c.freshnessSeconds)
  }

  lemma {:induction false} FreshestIsFirst(es: seq<Evaluated>)
    requires es != []
    ensures exists k :: 0 <= k < |es| && es[k] == Freshest(es) && FreshestAt(es, k)
  {
    var n := |es| - 1;
    if n == 0 {
      assert FreshestAt(es, 0);
    } else {
      FreshestIsFirst(es[..n]);
      var k :| 0 <= k < n && es[..n][k] == Freshest(es[..n]) && FreshestAt(es[..n], k);
      assert forall j :: 0 <= j < n ==> es[..n][j] == es[j];
      if es[n].c.freshnessSeconds < es[k].c.freshnessSeconds {
        assert FreshestAt(es, n);
      } else {
        assert FreshestAt(es, k);
      }
    }
  }

  ghost predicate SupervisorAt(es: seq<Evaluated>, k: nat)
    requires k < |es|
  {
    es[k].c.issuerType == "supervisor" && forall j :: 0 <= j < k ==> es[j].c.issuerType != "supervisor"
  }

  lemma {:induction false} FirstSupervisorIsFirst(es: seq<Evaluated>)
    ensures FirstSupervisor(es).None? ==> forall j :: 0 <= j < |es| ==> es[j].c.issuerType != "supervisor"
    ensures FirstSupervisor(es).Some? ==>
      exists k :: 0 <= k < |es| && es[k] == FirstSupervisor(es).value && SupervisorAt(es, k)
  {
    if es != [] {
      if es[0].c.issuerType == "supervisor" {
        assert SupervisorAt(es, 0);
      } else {
        var tail := es[1..];
        FirstSupervisorIsFirst(tail);
        assert forall j :: 1 <= j < |es| ==> es[j] == tail[j - 1];
        if FirstSupervisor(tail).Some? {
          var k :| 0 <= k < |tail| && tail[k] == FirstSupervisor(tail).value && SupervisorAt(tail, k);
          assert SupervisorAt(es, k + 1);
        }
      }
    }
  }

  // ---------------------------------------------------------------- earned and optimal

  ghost predicate HasSupervisor(es: seq<Evaluated>)
  {
    exists j :: 0 <= j < |es| && es[j].c.issuerType == "supervisor"
  }

  /** What each strategy promises about the candidate it picks from the valid ones. */
  ghost predicate Optimal(strategy: string, valid: seq<Evaluated>, total: nat, x: Evaluated)
  {
    && (strategy == "require_all" ==> |valid| == total)
    && (strategy == "domain_hard_deny_overrides_all" ==> !DomainDenies(valid))
    && (if strategy == "freshest_path_wins" then exists k :: 0 <= k < |valid| && valid[k] == x && FreshestAt(valid, k)
        else if strategy == "supervisor_override" && HasSupervisor(valid) then
          exists k :: 0 <= k < |valid| && valid[k] == x && SupervisorAt(valid, k)
        else FirstStrongest(valid, x))
  }

  lemma SelectIsOptimal(strategy: string, valid: seq<Evaluated>, total: nat)
    requires valid != []
    ensures Select(strategy, valid, total).Chosen? ==> Optimal(strategy, valid, total, Select(strategy, valid, total).e)
    ensures Select(strategy, valid, total).Chosen? ==> Select(strategy, valid, total).e in valid
  {
    hide Strongest, Freshest, FirstSupervisor, TopAt, FreshestAt, DomainDenies;
    StrongestIsFirst(valid);
    FreshestIsFirst(valid);
    FirstSupervisorIsFirst(valid);
  }

  /** What each decision says about the score, the candidate and the action, and the reasons given for it. */
  ghost predicate Earned(i: Input, x: Evaluated, decision: Decision, reasons: seq<string>)
  {
    var p, action := i.policy, i.request.action;
    var stepUp := x.score < 0.65 || action in p.stepUpActions || x.c.requiresStepUp;
    var slow := x.score < 0.85 || action in p.throttleActions;
    && decision != Deny
    && (decision == StepUp <==> stepUp)
    && (decision == Throttle <==> !stepUp && slow)
    && (decision == Permit <==> !stepUp && !slow && action !in p.constrainActions)
    && reasons ==
         if decision == Permit then ["route_valid"]
         else (if stepUp then ["step_up_required"] else [])
              + (if (0.65 <= x.score < 0.85) || action in p.throttleActions then ["throttle_required"] else [])
              + (if action in p.constrainActions then ["constrain_required"] else [])
  }

  /** The six tests: freshness, scope, environment, delegation, hops, and the candidate's own minimum. */
  ghost predicate PassesAllTests(e: Engine, i: Input, c: Candidate)
  {
    && c.freshnessSeconds <= i.policy.maxFreshnessSeconds
    && (c.action == i.request.action || c.action == "*")
    && (forall k :: k in c.environment ==>
          c.environment[k] == if k in i.request.context then i.request.context[k] else "")
    && (i.request.hops != 0 ==> c.delegationAllowed) && i.request.hops <= c.maxHops
    && ScoreOf(e, i.request, c).Some? && c.minTrustScore <= ScoreOf(e, i.request, c).value
  }

  lemma UsableExactlyWhen(e: Engine, i: Input, c: Candidate)
    ensures Usable(e, i, c) <==> PassesAllTests(e, i, c)
  {
    hide ScoreOf;
  }

  /** A route goes to a usable candidate, optimal for the strategy, when none is revoked and the request is bound. */
  ghost predicate EarnedRoute(e: Engine, i: Input, o: Outcome)
    requires o.Route?
  {
    var x := o.selected;
    && x.c in i.candidates && PassesAllTests(e, i, x.c) && ScoreOf(e, i.request, x.c) == Some(x.score)
    && x.score >= 0.4 && o.zone == ZoneOf(x.score)
    && Optimal(i.policy.strategy, Valid(e, i, i.candidates), |i.candidates|, x)
    && (forall c :: c in i.candidates ==> !c.revoked)
    && BindingHash(e, i.request) == i.request.bindingHash
    && Earned(i, x, o.decision, o.reasons)
  }

  lemma DecisionIsEarned(i: Input, x: Evaluated)
    requires Decide(i, x).Route?
    ensures Earned(i, x, Decide(i, x).decision, Decide(i, x).reasons)
  {
    var p, action := i.policy, i.request.action;
    ReasonsAre(x.score < 0.65 || action in p.stepUpActions || x.c.requiresStepUp,
               (0.65 <= x.score < 0.85) || action in p.throttleActions, action in p.constrainActions);
    hide Reasons;
  }

  lemma ReasonsAre(stepUp: bool, throttle: bool, constrain: bool)
    ensures Reasons(stepUp, throttle, constrain) ==
      if !stepUp && !throttle && !constrain then ["route_valid"]
      else (if stepUp then ["step_up_required"] else []) + (if throttle then ["throttle_required"] else [])
           + (if constrain then ["constrain_required"] else [])
  {
  }

  lemma RouteIsEarned(e: Engine, i: Input)
    requires Resolve(e, i).Route?
    ensures EarnedRoute(e, i, Resolve(e, i))
  {
    hide Usable, PassesAllTests, ScoreOf, BindingHash, Valid, Select, Optimal;
    UsableExactlyWhen(e, i, Resolve(e, i).selected.c);
    DecisionIsEarned(i, Resolve(e, i).selected);
    hide Earned;
    ValidHolds(e, i, i.candidates);
    SelectIsOptimal(i.policy.strategy, Valid(e, i, i.candidates), |i.candidates|);
  }

  /** Under strongest-path selection, some usable candidate outside the critical zone is all that is needed. */
  lemma StrongestRoutesExactlyWhen(e: Engine, i: Input)
    requires i.policy.strategy in {"strongest_path_wins", "require_any"}
    requires Preflight(e, i) == "" && !SomeRevoked(i.candidates)
    requires !(i.latencyExceeded && i.request.action in i.policy.highRiskActions)
    ensures Resolve(e, i).Route? <==>
      exists c :: c in i.candidates && Usable(e, i, c) && ScoreOf(e, i.request, c).value >= 0.4
  {
    hide Usable, ScoreOf, Valid, Strongest, Preflight, SomeRevoked;
    ValidHolds(e, i, i.candidates);
    var valid := Valid(e, i, i.candidates);
    if valid != [] {
      StrongestIsFirst(valid);
      assert Strongest(valid) in valid;
      if c :| c in i.candidates && Usable(e, i, c) && ScoreOf(e, i.request, c).value >= 0.4 {
        assert Evaluated(c, ScoreOf(e, i.request, c).value) in valid;
      }
    }
  }

  /** Nothing about the request itself stands in the way of a route. */
  ghost predicate MayBeRouted(e: Engine, i: Input)
  {
    && i.resolverAvailable && (i.request.proofRequired ==> i.proofEngineAvailable)
    && BindingHash(e, i.request) == i.request.bindingHash && StartsWith(i.request.paramsHash, "sha256:")
    && (forall c :: c in i.candidates ==> !c.revoked)
    && !(i.latencyExceeded && i.request.action in i.policy.highRiskActions)
  }

  /** No two candidates are what the strategy promises. */
  lemma OptimalIsUnique(strategy: string, valid: seq<Evaluated>, total: nat, x: Evaluated, y: Evaluated)
    requires Optimal(strategy, valid, total, x) && Optimal(strategy, valid, total, y)
    ensures x == y
  {
  }

  /** A route exists exactly when the candidate that the strategy promises exists and scores 0.4. */
  lemma RoutesExactlyWhen(e: Engine, i: Input)
    ensures Resolve(e, i).Route? <==>
      && MayBeRouted(e, i)
      && exists x :: Optimal(i.policy.strategy, Valid(e, i, i.candidates), |i.candidates|, x) && x.score >= 0.4
  {
    var valid, strategy, total := Valid(e, i, i.candidates), i.policy.strategy, |i.candidates|;
    hide Valid, Optimal, BindingHash, Select;
    NothingOptimal(strategy, total);
    ValidHolds(e, i, i.candidates);
    if valid != [] {
      SelectIsOptimal(strategy, valid, total);
      RefusedExactlyWhen(strategy, valid, total);
      if x :| Optimal(strategy, valid, total, x) && x.score >= 0.4 {
        if Select(strategy, valid, total).Chosen? {
          OptimalIsUnique(strategy, valid, total, x, Select(strategy, valid, total).e);
        }
      }
    }
  }

  lemma NothingOptimal(strategy: string, total: nat)
    ensures forall x :: !Optimal(strategy, [], total, x)
  {
  }

  lemma RefusedExactlyWhen(strategy: string, valid: seq<Evaluated>, total: nat)
    requires valid != []
    ensures Select(strategy, valid, total).Refused? ==> forall x :: !Optimal(strategy, valid, total, x)
  {
    hide Strongest, Freshest, FirstSupervisor, TopAt, FreshestAt, SupervisorAt, DomainDenies;
  }

  /** The request can be trusted: it is bound to its hash, and what it needs is available. */
  ghost predicate Admitted(e: Engine, i: Input)
  {
    && i.resolverAvailable && (i.request.proofRequired ==> i.proofEngineAvailable)
    && BindingHash(e, i.request) == i.request.bindingHash && StartsWith(i.request.paramsHash, "sha256:")
  }

  ghost predicate NobodyRevoked(cs: seq<Candidate>)
  {
    forall c :: c in cs ==> !c.revoked
  }

  lemma SelectRefuses(strategy: string, valid: seq<Evaluated>, total: nat)
    requires valid != []
    ensures Select(strategy, valid, total) == Selection.Refused("require_all_not_satisfied") <==>
      strategy == "require_all" && |valid| != total
    ensures Select(strategy, valid, total) == Selection.Refused("domain_hard_deny") <==>
      strategy == "domain_hard_deny_overrides_all" && DomainDenies(valid)
    ensures Select(strategy, valid, total).Refused? ==>
      Select(strategy, valid, total).code in {"require_all_not_satisfied", "domain_hard_deny"}
  {
    hide Strongest, Freshest, FirstSupervisor, DomainDenies;
  }

  /** The reasons for which a request is refused before its candidates are compared. */
  lemma TurnedAwayExactlyWhen(e: Engine, i: Input)
    ensures var o := Resolve(e, i);
      && (o == Denied("resolver_unavailable") <==> !i.resolverAvailable)
      && (o == Denied("proof_engine_unavailable") <==>
            i.resolverAvailable && i.request.proofRequired && !i.proofEngineAvailable)
      && (o == Denied("binding_mismatch") <==>
            && i.resolverAvailable && (i.request.proofRequired ==> i.proofEngineAvailable)
            && BindingHash(e, i.request) != i.request.bindingHash)
      && (o == Denied("params_hash_mismatch") <==>
            && i.resolverAvailable && (i.request.proofRequired ==> i.proofEngineAvailable)
            && BindingHash(e, i.request) == i.request.bindingHash && !StartsWith(i.request.paramsHash, "sha256:"))
      && (o == Denied("revoked_subject") <==> Admitted(e, i) && !NobodyRevoked(i.candidates))
      && (o == Denied("no_valid_route_found") <==>
            Admitted(e, i) && NobodyRevoked(i.candidates) && forall c :: c in i.candidates ==> !PassesAllTests(e, i, c))
  {
    hide BindingHash, Valid, PassesAllTests, Usable;
    NoneValid(e, i);
    ValidHolds(e, i, i.candidates);
    forall c
      ensures Usable(e, i, c) <==> PassesAllTests(e, i, c)
    {
      UsableExactlyWhen(e, i, c);
    }
    var valid := Valid(e, i, i.candidates);
    if valid != [] {
      assert valid[0] in valid;
      SelectRefuses(i.policy.strategy, valid, |i.candidates|);
    }
    hide Select, Decide;
    DecidedCode(e, i);
  }

  lemma DecidedCode(e: Engine, i: Input)
    ensures forall x: Evaluated ::
      Decide(i, x).Denied? ==> Decide(i, x).code in {"trust_zone_critical", "latency_budget_exceeded"}
  {
  }

  /** The reasons for which no candidate is routed to, although some pass the tests. */
  lemma NoRouteExactlyWhen(e: Engine, i: Input)
    ensures var o, valid, strategy := Resolve(e, i), Valid(e, i, i.candidates), i.policy.strategy;
      var compared := Admitted(e, i) && NobodyRevoked(i.candidates) && valid != [];
      var slow := i.latencyExceeded && i.request.action in i.policy.highRiskActions;
      && (o == Denied("require_all_not_satisfied") <==>
            compared && strategy == "require_all" && exists c :: c in i.candidates && !PassesAllTests(e, i, c))
      && (o == Denied("domain_hard_deny") <==>
            compared && strategy == "domain_hard_deny_overrides_all" && DomainDenies(valid))
      && (o == Denied("trust_zone_critical") <==>
            compared && exists x :: Optimal(strategy, valid, |i.candidates|, x) && x.score < 0.4)
      && (o == Denied("latency_budget_exceeded") <==>
            compared && slow && exists x :: Optimal(strategy, valid, |i.candidates|, x) && x.score >= 0.4)
  {
    var valid, strategy, total := Valid(e, i, i.candidates), i.policy.strategy, |i.candidates|;
    hide Valid, Optimal, BindingHash, Select, PassesAllTests, Usable, DomainDenies;
    ValidHolds(e, i, i.candidates);
    forall c
      ensures Usable(e, i, c) <==> PassesAllTests(e, i, c)
    {
      UsableExactlyWhen(e, i, c);
    }
    if valid != [] {
      SelectIsOptimal(strategy, valid, total);
      SelectRefuses(strategy, valid, total);
      RefusedExactlyWhen(strategy, valid, total);
      forall x | Optimal(strategy, valid, total, x) && Select(strategy, valid, total).Chosen?
        ensures x == Select(strategy, valid, total).e
      {
        OptimalIsUnique(strategy, valid, total, x, Select(strategy, valid, total).e);
      }
    }
  }

  // ---------------------------------------------------------------- what the score is

  /** Without signals the score is the trust, decayed by the seconds since it was verified, within [0, 1]. */
  lemma PlainScore(e: Engine, r: Request, c: Candidate)
    requires c.signals == []
    ensures ScoreOf(e, r, c).Some? <==> e.parse(r.timestamp).Some? && e.parse(c.lastVerifiedAt).Some?
    ensures ScoreOf(e, r, c).Some? ==>
      var age := e.parse(r.timestamp).value - e.parse(c.lastVerifiedAt).value;
      var decayed := Times(c.trustScore, e.factor(if age > 0 then age as real / 1000.0 else 0.0));
      && (0.0 <= decayed <= 1.0 ==> ScoreOf(e, r, c) == Some(decayed))
      && (decayed < 0.0 ==> ScoreOf(e, r, c) == Some(0.0))
      && (decayed > 1.0 ==> ScoreOf(e, r, c) == Some(1.0))
  {
    hide Times;
  }

  /** One more signal moves a score inside the bounds by its weight times its value, up to the bounds. */
  lemma SignalMovesScore(e: Engine, r: Request, c: Candidate, s: Signal)
    requires ScoreOf(e, r, c).Some? && 0.0 < ScoreOf(e, r, c).value < 1.0
    ensures var moved := ScoreOf(e, r, c).value + Times(s.weight, s.value);
      && (0.0 <= moved <= 1.0 ==> ScoreOf(e, r, c.(signals := c.signals + [s])) == Some(moved))
      && (moved < 0.0 ==> ScoreOf(e, r, c.(signals := c.signals + [s])) == Some(0.0))
      && (moved > 1.0 ==> ScoreOf(e, r, c.(signals := c.signals + [s])) == Some(1.0))
  {
    BoostStep(c.signals, s);
    hide Times, Boost;
  }

  lemma BoostStep(signals: seq<Signal>, s: Signal)
    ensures Boost(signals + [s]) == Boost(signals) + Times(s.weight, s.value)
  {
    assert (signals + [s])[..|signals|] == signals;
  }

  // ---------------------------------------------------------------- what the binding hash stands for

  predicate NoBar(s: string)
  {
    forall i :: 0 <= i < |s| ==> s[i] != '|'
  }

  lemma BarSplits(x: string, s: string, y: string, t: string)
    requires NoBar(x) && NoBar(y) && x + "|" + s == y + "|" + t
    ensures x == y && s == t
  {
    var u, v := x + "|" + s, y + "|" + t;
    assert u[|x|] == '|' && v[|y|] == '|';
    assert forall i :: 0 <= i < |x| ==> u[i] == x[i];
    assert forall i :: 0 <= i < |y| ==> v[i] == y[i];
    assert u[..|x|] == x && v[..|y|] == y && u[|x| + 1..] == s && v[|y| + 1..] == t;
  }

  /** The fields that are joined before hashing hold no separator. */
  predicate Separable(r: Request)
  {
    NoBar(r.subject) && NoBar(r.action) && NoBar(r.resource) && NoBar(r.paramsHash)
  }

  function Minute(timestamp: string): string
  {
    if |timestamp| > 16 then timestamp[..16] else timestamp
  }

  /** Without digest collisions, one binding hash stands for one subject, action, resource, parameters and minute. */
  lemma BindingPinsRequest(e: Engine, r: Request, q: Request)
    requires forall x, y :: e.sha256(x) == e.sha256(y) ==> x == y
    requires Separable(r) && Separable(q) && BindingHash(e, r) == BindingHash(e, q)
    ensures r.subject == q.subject && r.action == q.action && r.resource == q.resource
    ensures r.paramsHash == q.paramsHash && Minute(r.timestamp) == Minute(q.timestamp)
  {
    hide NoBar, BindingText, Minute;
    assert BindingHash(e, r)[7..] == e.sha256(BindingText(r)) && BindingHash(e, q)[7..] == e.sha256(BindingText(q));
    TextOf(r);
    TextOf(q);
    BarSplits(r.subject, AfterSubject(r), q.subject, AfterSubject(q));
    BarSplits(r.action, AfterAction(r), q.action, AfterAction(q));
    BarSplits(r.resource, AfterResource(r), q.resource, AfterResource(q));
    BarSplits(r.paramsHash, Minute(r.timestamp), q.paramsHash, Minute(q.timestamp));
  }

  function AfterResource(r: Request): string { r.paramsHash + "|" + Minute(r.timestamp) }

  function AfterAction(r: Request): string { r.resource + "|" + AfterResource(r) }

  function AfterSubject(r: Request): string { r.action + "|" + AfterAction(r) }

  lemma TextOf(r: Request)
    ensures BindingText(r) == r.subject + "|" + AfterSubject(r)
  {
  }

  // ---------------------------------------------------------------- lowering trust

  function Rank(o: Outcome): nat
  {
    if o.Denied? then 4
    else match o.decision
      case Permit => 0
      case Constrain => 1
      case Throttle => 2
      case StepUp => 3
      case Deny => 4
  }

  /** The same candidates with less trust. */
  ghost predicate Lowered(cs: seq<Candidate>, cs': seq<Candidate>)
  {
    && |cs| == |cs'|
    && forall k :: 0 <= k < |cs| ==>
         cs'[k].trustScore <= cs[k].trustScore && cs'[k] == cs[k].(trustScore := cs'[k].trustScore)
  }

  ghost predicate AgreeOnStepUp(cs: seq<Candidate>)
  {
    forall c, d :: c in cs && d in cs ==> c.requiresStepUp == d.requiresStepUp
  }

  lemma ScoreFalls(e: Engine, r: Request, c: Candidate, c': Candidate)
    requires Decays(e)
    requires c'.trustScore <= c.trustScore && c' == c.(trustScore := c'.trustScore)
    ensures ScoreOf(e, r, c).None? <==> ScoreOf(e, r, c').None?
    ensures ScoreOf(e, r, c).Some? ==> ScoreOf(e, r, c').value <= ScoreOf(e, r, c).value
  {
    hide Times, ElapsedSeconds, Boost;
    var now, verified := e.parse(r.timestamp), e.parse(c.lastVerifiedAt);
    if now.Some? && verified.Some? {
      TimesOrder(c'.trustScore, c.trustScore, e.factor(ElapsedSeconds(now.value, verified.value)));
    }
  }

  lemma {:induction false} ValidFalls(e: Engine, i: Input, cs: seq<Candidate>, cs': seq<Candidate>)
    requires Decays(e) && Lowered(cs, cs')
    ensures |Valid(e, i, cs')| <= |Valid(e, i, cs)|
    ensures forall x' :: x' in Valid(e, i, cs') ==> exists x :: x in Valid(e, i, cs) && x'.score <= x.score
  {
    hide ScoreOf, Eligible;
    if cs != [] {
      var n := |cs| - 1;
      ValidFalls(e, i, cs[..n], cs'[..n]);
      ScoreFalls(e, i.request, cs[n], cs'[n]);
      SameEligibility(cs[n], cs'[n], i);
      var v, v' := Valid(e, i, cs[..n]), Valid(e, i, cs'[..n]);
      forall x' | x' in Valid(e, i, cs')
        ensures exists x :: x in Valid(e, i, cs) && x'.score <= x.score
      {
        if x' in v' {
          var x :| x in v && x'.score <= x.score;
          assert x in Valid(e, i, cs);
        } else {
          assert Usable(e, i, cs'[n]) && x' == Evaluated(cs'[n], ScoreOf(e, i.request, cs'[n]).value);
          var x := Evaluated(cs[n], ScoreOf(e, i.request, cs[n]).value);
          assert Valid(e, i, cs)[|v|] == x;
        }
      }
    }
  }

  lemma SameEligibility(c: Candidate, c': Candidate, i: Input)
    requires c' == c.(trustScore := c'.trustScore)
    ensures Eligible(c, i.request, i.policy) == Eligible(c', i.request, i.policy)
  {
  }

  predicate ByScoreAlone(strategy: string)
  {
    strategy !in {"freshest_path_wins", "supervisor_override", "domain_hard_deny_overrides_all"}
  }

  lemma DecideFalls(i: Input, i': Input, x: Evaluated, x': Evaluated)
    requires i' == i.(candidates := i'.candidates)
    requires x'.score <= x.score && x'.c.requiresStepUp == x.c.requiresStepUp
    ensures Rank(Decide(i', x')) >= Rank(Decide(i, x))
  {
  }

  lemma ResolveByScore(e: Engine, i: Input)
    requires ByScoreAlone(i.policy.strategy)
    ensures Resolve(e, i) ==
      if Preflight(e, i) == "" && !SomeRevoked(i.candidates) && Valid(e, i, i.candidates) != []
         && (i.policy.strategy == "require_all" ==> |Valid(e, i, i.candidates)| == |i.candidates|)
      then Decide(i, Strongest(Valid(e, i, i.candidates)))
      else Denied(Resolve(e, i).code)
    ensures Rank(Resolve(e, i)) <= 4
  {
    hide Valid, Preflight, SomeRevoked, Strongest, Decide;
    assert Valid(e, i, []) == [] by { NoneValid(e, i); }
  }

  lemma NoneValid(e: Engine, i: Input)
    ensures Valid(e, i, []) == []
  {
  }

  lemma LoweringKeepsRest(cs: seq<Candidate>, cs': seq<Candidate>)
    requires Lowered(cs, cs')
    ensures SomeRevoked(cs) == SomeRevoked(cs')
    ensures forall c' :: c' in cs' ==> exists c :: c in cs && c.requiresStepUp == c'.requiresStepUp
  {
  }

  lemma StrongestFalls(v: seq<Evaluated>, v': seq<Evaluated>)
    requires v != [] && v' != []
    requires forall x' :: x' in v' ==> exists x :: x in v && x'.score <= x.score
    ensures Strongest(v').score <= Strongest(v).score
    ensures Strongest(v) in v && Strongest(v') in v'
  {
    hide Strongest;
    StrongestIsFirst(v);
    StrongestIsFirst(v');
  }

  /** What the two resolutions have in common. */
  lemma LoweredInput(e: Engine, i: Input, cs': seq<Candidate>)
    requires Lowered(i.candidates, cs') && AgreeOnStepUp(i.candidates)
    ensures var i' := i.(candidates := cs');
      && Preflight(e, i) == Preflight(e, i') && SomeRevoked(cs') == SomeRevoked(i.candidates)
      && Valid(e, i', cs') == Valid(e, i, cs')
    ensures forall x, x' :: x in Valid(e, i, i.candidates) && x' in Valid(e, i, cs') ==>
              x'.c.requiresStepUp == x.c.requiresStepUp
  {
    hide *;
    var cs := i.candidates;
    LoweringKeepsRest(cs, cs');
    SamePreflight(e, i, cs');
    ValidIgnoresCandidates(e, i, cs', cs');
    forall x, x' | x in Valid(e, i, cs) && x' in Valid(e, i, cs')
      ensures x'.c.requiresStepUp == x.c.requiresStepUp
    {
      ValidHolds(e, i, cs);
      ValidHolds(e, i, cs');
      StepUpKept(cs, cs', x.c, x'.c);
    }
  }

  lemma SamePreflight(e: Engine, i: Input, cs': seq<Candidate>)
    ensures Preflight(e, i.(candidates := cs')) == Preflight(e, i)
  {
    hide BindingHash;
  }

  lemma StepUpKept(cs: seq<Candidate>, cs': seq<Candidate>, c: Candidate, c': Candidate)
    requires Lowered(cs, cs') && AgreeOnStepUp(cs) && c in cs && c' in cs'
    ensures c'.requiresStepUp == c.requiresStepUp
  {
    LoweringKeepsRest(cs, cs');
  }

  /** When the choice is by score alone, less trust never yields a more permissive decision. */
  lemma LessTrustPermitsLess(e: Engine, i: Input, cs': seq<Candidate>)
    requires Decays(e) && ByScoreAlone(i.policy.strategy)
    requires Lowered(i.candidates, cs') && AgreeOnStepUp(i.candidates)
    ensures Rank(Resolve(e, i.(candidates := cs'))) >= Rank(Resolve(e, i))
  {
    var cs, i' := i.candidates, i.(candidates := cs');
    assert |cs| == |cs'|;
    hide *;
    ResolveByScore(e, i);
    ResolveByScore(e, i');
    LoweredInput(e, i, cs');
    ValidFalls(e, i, cs, cs');
    ValidHolds(e, i, cs);
    var v, v' := Valid(e, i, cs), Valid(e, i, cs');
    DeniedRank(Resolve(e, i'));
    if v' != [] && v != [] {
      StrongestFalls(v, v');
      DecideFalls(i, i', Strongest(v), Strongest(v'));
    }
  }

  lemma DeniedRank(o: Outcome)
    ensures o.Denied? ==> Rank(o) == 4
  {
  }

  lemma {:induction false} ValidIgnoresCandidates(e: Engine, i: Input, other: seq<Candidate>, cs: seq<Candidate>)
    ensures Valid(e, i.(candidates := other), cs) == Valid(e, i, cs)
  {
    if cs != [] {
      ValidIgnoresCandidates(e, i, other, cs[..|cs| - 1]);
    }
  }

  // ---------------------------------------------------------------- for which strategies

  ghost predicate LoweringNeverHelps(e: Engine, strategy: string)
  {
    forall i: Input, cs': seq<Candidate> {:trigger Lowered(i.candidates, cs')} ::
      i.policy.strategy == strategy && Lowered(i.candidates, cs') && AgreeOnStepUp(i.candidates) ==>
        Rank(Resolve(e, i.(candidates := cs'))) >= Rank(Resolve(e, i))
  }

  /** A fresh, weak supervisor or refusing domain in front of a strong path. */
  function Weak(strategy: string, t: string, trust: real): Candidate
  {
    Candidate(if strategy == "supervisor_override" then "supervisor" else "domain", "weak", "act", trust, t, [], 0.0,
              false,
              map[], true, 0, 0.45, false, "DENY")
  }

  function Strong(t: string): Candidate
  {
    Candidate("behavioral", "strong", "act", 0.9, t, [], 1.0, false, map[], true, 0, 0.45, false, "")
  }

  function Shadowed(e: Engine, strategy: string, t: string, trust: real): Input
  {
    var r := Request("s", "act", "r", "sha256:", t, "", false, map[], 0);
    Input(r.(bindingHash := BindingHash(e, r)), [Weak(strategy, t, trust), Strong(t)],
          Policy(strategy, 900.0, [], [], [], []), true, true, false)
  }

  lemma ShadowedScores(e: Engine, strategy: string, t: string, trust: real)
    requires e.parse(t).Some? && e.factor(0.0) == 1.0 && 0.0 <= trust <= 1.0
    ensures var i := Shadowed(e, strategy, t, trust);
      && Preflight(e, i) == "" && !SomeRevoked(i.candidates)
      && Valid(e, i, i.candidates) ==
           if trust >= 0.45 then [Evaluated(Weak(strategy, t, trust), trust), Evaluated(Strong(t), 0.9)]
           else [Evaluated(Strong(t), 0.9)]
  {
    var i := Shadowed(e, strategy, t, trust);
    var cs := i.candidates;
    assert cs[..1] == [cs[0]] && cs[..1][..0] == [];
    assert Valid(e, i, cs[..1][..0]) == [];
    assert ScoreOf(e, i.request, cs[0]) == Some(trust) && ScoreOf(e, i.request, cs[1]) == Some(0.9);
    hide ScoreOf, BindingHash;
    assert Valid(e, i, cs[..1]) == if trust >= 0.45 then [Evaluated(cs[0], trust)] else [];
  }

  lemma ShadowedSelections(strategy: string, t: string)
    requires !ByScoreAlone(strategy)
    ensures var weak, strong := Evaluated(Weak(strategy, t, 0.5), 0.5), Evaluated(Strong(t), 0.9);
      && Select(strategy, [weak, strong], 2) in {Chosen(weak), Refused("domain_hard_deny")}
      && Select(strategy, [strong], 2) == Chosen(strong)
  {
    var both := [Evaluated(Weak(strategy, t, 0.5), 0.5), Evaluated(Strong(t), 0.9)];
    assert both[..1] == [both[0]];
    assert Freshest(both) == both[0];
    if strategy == "domain_hard_deny_overrides_all" {
      assert both[0].c.issuerType == "domain" && DomainDenies(both);
    }
    assert FirstSupervisor([both[1]][1..]).None?;
  }

  lemma ShadowedOutcomes(e: Engine, strategy: string, t: string)
    requires e.parse(t).Some? && e.factor(0.0) == 1.0 && !ByScoreAlone(strategy)
    ensures Rank(Resolve(e, Shadowed(e, strategy, t, 0.5))) >= 3
    ensures Rank(Resolve(e, Shadowed(e, strategy, t, 0.41))) == 0
  {
    hide Valid, Preflight, SomeRevoked, BindingHash, Select, ByScoreAlone;
    ShadowedScores(e, strategy, t, 0.5);
    ShadowedScores(e, strategy, t, 0.41);
    ShadowedSelections(strategy, t);
  }

  /**
   * Lowering trust never helps, exactly for the strategies that choose by score
   * alone: under the other three, a weak path that drops out uncovers a stronger one.
   */
  lemma LoweringNeverHelpsExactlyWhen(e: Engine, strategy: string, t: string)
    requires Decays(e) && e.factor(0.0) == 1.0 && e.parse(t).Some?
    ensures LoweringNeverHelps(e, strategy) <==> ByScoreAlone(strategy)
  {
    hide Resolve, Decays, Rank;
    if ByScoreAlone(strategy) {
      forall i: Input, cs': seq<Candidate>
        | i.policy.strategy == strategy && Lowered(i.candidates, cs') && AgreeOnStepUp(i.candidates)
        ensures Rank(Resolve(e, i.(candidates := cs'))) >= Rank(Resolve(e, i))
      {
        LessTrustPermitsLess(e, i, cs');
      }
    } else {
      ShadowedOutcomes(e, strategy, t);
      var i, i' := Shadowed(e, strategy, t, 0.5), Shadowed(e, strategy, t, 0.41);
      assert Lowered(i.candidates, i'.candidates) && AgreeOnStepUp(i.candidates);
      assert i' == i.(candidates := i'.candidates);
    }
  }
}
