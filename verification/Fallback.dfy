/** Trying deployments in order, with retries (router/fallback.go). The request function, the context and
    the clock are oracles. */
module Fallback {
  import opened Wrappers
  import opened CircuitBreaking
  import opened Ordering

  datatype RoutingConfig = RoutingConfig(retries: int, fallbackEnabled: bool)

  /** What one call of the request function gives. */
  datatype Outcome = CallError | Response(status: int)

  /** `call(i, a)` is attempt a on deployment i; `cancelled(i, a)` whether the context was done before it;
      the breaker of deployment i is asked at `asked(i)` and told at `told(i)`. */
  datatype Oracle = Oracle(call: (nat, nat) -> Outcome, cancelled: (nat, nat) -> bool, asked: nat -> int,
      told: nat -> int)

  datatype Event =
    | Asked(i: nat, ok: bool)
    | Called(i: nat)
    | Opened(i: nat)
    | BodyClosed(i: nat)
    | ReportedFailure(i: nat)
    | ReportedSuccess(i: nat)

  datatype Result = NotFound | FailedAt(i: nat) | AllFailed | Served(i: nat, status: int)

  function MaxRetries(cfg: RoutingConfig): (n: nat)
    ensures n >= 1
  {
    if cfg.retries <= 0 then 1 else cfg.retries
  }

  /** How the attempts on one deployment end, from attempt `a` on, and how many calls were made. */
  function Retry(max: nat, o: Oracle, i: nat, a: nat): (r: (Outcome, nat))
    requires a <= max
    ensures a <= r.1 <= max + 1
    decreases max - a
  {
    if a > 0 && o.cancelled(i, a) then (CallError, a)
    else if o.call(i, a).CallError? then (if a == max then (CallError, a + 1) else Retry(max, o, i, a + 1))
    else (o.call(i, a), a + 1)
  }

  /** The first attempt that gets a response ends it, whatever the status; errors are retried until the attempts
      or the context run out. */
  lemma {:induction false} RetryStops(max: nat, o: Oracle, i: nat, a: nat)
    requires a <= max
    ensures
      var (outcome, n) := Retry(max, o, i, a);
      && (forall k | a <= k < n - 1 :: o.call(i, k).CallError?)
      && (forall k | a <= k < n && k > 0 :: !o.cancelled(i, k))
      && (outcome.Response? ==> n > a && outcome == o.call(i, n - 1))
      && (outcome.CallError? ==>
            (n > a ==> o.call(i, n - 1).CallError?) && (n == max + 1 || (n > 0 && o.cancelled(i, n))))
    decreases max - a
  {
    if !(a > 0 && o.cancelled(i, a)) && o.call(i, a).CallError? && a < max {
      RetryStops(max, o, i, a + 1);
    }
  }

  /** With Retries = n there are at most n + 1 attempts, and with n <= 0 two; exactly so many where all fail and the
      context lasts. */
  lemma RetryLimit(cfg: RoutingConfig, o: Oracle, i: nat, limit: nat)
    requires limit == if cfg.retries > 0 then cfg.retries + 1 else 2
    ensures var n := Retry(MaxRetries(cfg), o, i, 0).1;
            n <= limit && ((forall k | 0 <= k < limit :: o.call(i, k).CallError? && !o.cancelled(i, k)) ==> n == limit)
  {
    RetryStops(MaxRetries(cfg), o, i, 0);
  }

  method ExecuteWithRetry(cfg: RoutingConfig, o: Oracle, i: nat) returns (r: Outcome, log: seq<Event>)
    ensures r == Retry(MaxRetries(cfg), o, i, 0).0
    ensures log == Calls(i, Retry(MaxRetries(cfg), o, i, 0).1) + if r.Response? then [Opened(i)] else []
  {
    var maxRetries := cfg.retries;
    if maxRetries <= 0 {
      maxRetries := 1;
    }
    log := [];
    var attempt := 0;
    while attempt <= maxRetries
      invariant 0 <= attempt <= maxRetries + 1
      invariant attempt <= maxRetries ==> Retry(maxRetries, o, i, 0) == Retry(maxRetries, o, i, attempt)
      invariant attempt == maxRetries + 1 ==> Retry(maxRetries, o, i, 0) == (CallError, attempt)
      invariant log == Calls(i, attempt)
    {
      if attempt > 0 && o.cancelled(i, attempt) {
        return CallError, log;
      }
      var out := o.call(i, attempt);
      log := log + [Called(i)];
      if out.CallError? {
        attempt := attempt + 1;
        continue;
      }
      log := log + [Opened(i)];
      return out, log;
    }
    return CallError, log;
  }

  function Calls(i: nat, n: nat): seq<Event> {
    if n == 0 then [] else Calls(i, n - 1) + [Called(i)]
  }

  /** How the events of an admitted deployment end. */
  function Ending(i: nat, outcome: Outcome): seq<Event> {
    match outcome
    case CallError => [ReportedFailure(i)]
    case Response(status) =>
      if status >= 500 then [Opened(i), ReportedFailure(i), BodyClosed(i)] else [Opened(i), ReportedSuccess(i)]
  }

  /** What the events of one deployment are, given how its attempts end. */
  function Visit(i: nat, allowed: bool, outcome: Outcome, calls: nat): seq<Event> {
    if !allowed then [Asked(i, false)]
    else [Asked(i, true)] + Calls(i, calls) + Ending(i, outcome)
  }

  predicate Serves(allowed: bool, outcome: Outcome) {
    allowed && outcome.Response? && outcome.status < 500
  }

  /** The events of a run over deployments from..n, given which breakers admit; and its result. */
  function Run(cfg: RoutingConfig, o: Oracle, allowed: seq<bool>, from: nat): (seq<Event>, Result)
    requires from <= |allowed|
    decreases |allowed| - from
  {
    if from == |allowed| then ([], AllFailed)
    else
      var (outcome, calls) := Retry(MaxRetries(cfg), o, from, 0);
      var here := Visit(from, allowed[from], outcome, calls);
      if Serves(allowed[from], outcome) then (here, Served(from, outcome.status))
      else if !cfg.fallbackEnabled then (here, FailedAt(from))
      else
        var (later, r) := Run(cfg, o, allowed, from + 1);
        (here + later, r)
  }

  /** The breaker of deployment i after its visit. */
  function AfterVisit(settings: Settings, b: Breaker, cfg: RoutingConfig, o: Oracle, i: nat): Breaker {
    var (b', ok) := AllowStep(settings, b, o.asked(i));
    if !ok then b'
    else if Serves(true, Retry(MaxRetries(cfg), o, i, 0).0) then SuccessStep(b')
    else FailureStep(settings, b', o.told(i))
  }

  function Admits(d: DeploymentInfo, o: Oracle, i: nat): bool
    reads d, d.breaker
  {
    AllowStep(d.breaker.cfg, d.breaker.View(), o.asked(i)).1
  }

  /** Which deployments their breakers admit, as they look in `views`. */
  function AdmitsAll(deps: seq<DeploymentInfo>, views: seq<Breaker>, o: Oracle): (bs: seq<bool>)
    requires |deps| == |views|
    ensures |bs| == |deps|
    ensures forall i | 0 <= i < |deps| :: bs[i] == AllowStep(deps[i].breaker.cfg, views[i], o.asked(i)).1
  {
    seq(|deps|, i requires 0 <= i < |deps| => AllowStep(deps[i].breaker.cfg, views[i], o.asked(i)).1)
  }

  predicate DistinctBreakers(deps: seq<DeploymentInfo>) {
    forall i, j | 0 <= i < j < |deps| :: deps[i].breaker != deps[j].breaker
  }

  function Views(deps: seq<DeploymentInfo>): (views: seq<Breaker>)
    reads set d | d in deps :: d.breaker
    ensures |views| == |deps| && forall i | 0 <= i < |deps| :: views[i] == deps[i].breaker.View()
  {
    seq(|deps|, i requires 0 <= i < |deps| reads set d | d in deps :: d.breaker => deps[i].breaker.View())
  }

  /** The breakers of the first n deployments have seen a visit since they looked like `was`, the others not. */
  predicate SomeVisited(deps: seq<DeploymentInfo>, now: seq<Breaker>, was: seq<Breaker>, cfg: RoutingConfig,
      o: Oracle, n: nat) {
    |now| == |was| == |deps|
    && forall k | 0 <= k < |deps| ::
         now[k] == if k < n then AfterVisit(deps[k].breaker.cfg, was[k], cfg, o, k) else was[k]
  }

  /** How many deployments the result says were visited. */
  function Visited(r: Result, n: nat): nat {
    match r case NotFound => 0 case AllFailed => n case FailedAt(i) => i + 1 case Served(i, _) => i + 1
  }

  /** The body of the loop for one deployment: ask its breaker, try, report. */
  method TryDeployment(d: DeploymentInfo, cfg: RoutingConfig, o: Oracle, i: nat)
      returns (ok: bool, out: Outcome, log: seq<Event>)
    modifies d.breaker
    ensures ok == old(Admits(d, o, i)) && out == (if ok then Retry(MaxRetries(cfg), o, i, 0).0 else CallError)
    ensures log == Visit(i, ok, Retry(MaxRetries(cfg), o, i, 0).0, Retry(MaxRetries(cfg), o, i, 0).1)
    ensures d.breaker.View() == AfterVisit(d.breaker.cfg, old(d.breaker.View()), cfg, o, i)
  {
    ok := d.breaker.Allow(o.asked(i));
    log := [Asked(i, ok)];
    if !ok {
      return false, CallError, log;
    }
    var called;
    out, called := ExecuteWithRetry(cfg, o, i);
    log := log + called;
    if out.CallError? {
      d.breaker.ReportFailure(o.told(i));
      log := log + [ReportedFailure(i)];
      return;
    }
    if out.status >= 500 {
      d.breaker.ReportFailure(o.told(i));
      log := log + [ReportedFailure(i)];
      log := log + [BodyClosed(i)];
      return;
    }
    d.breaker.ReportSuccess();
    log := log + [ReportedSuccess(i)];
  }

  /** The same within the list: the other breakers stay as they are. */
  method VisitNext(deps: seq<DeploymentInfo>, ghost was: seq<Breaker>, cfg: RoutingConfig, o: Oracle, i: nat)
    returns (ok: bool, out: Outcome, log: seq<Event>)
    requires i < |deps| == |was| && DistinctBreakers(deps) && SomeVisited(deps, Views(deps), was, cfg, o, i)
    modifies deps[i].breaker
    ensures SomeVisited(deps, Views(deps), was, cfg, o, i + 1)
    ensures ok == AllowStep(deps[i].breaker.cfg, was[i], o.asked(i)).1
    ensures out == (if ok then Retry(MaxRetries(cfg), o, i, 0).0 else CallError)
    ensures log == Visit(i, ok, Retry(MaxRetries(cfg), o, i, 0).0, Retry(MaxRetries(cfg), o, i, 0).1)
  {
    assert deps[i].breaker.View() == was[i];
    ok, out, log := TryDeployment(deps[i], cfg, o, i);
  }

  /** `resolved` is what ResolveForOrg returned. */
  method ExecuteWithFallbackForOrg(resolved: Option<seq<DeploymentInfo>>, cfg: RoutingConfig, o: Oracle)
    returns (result: Result, log: seq<Event>)
    requires resolved.Some? ==> DistinctBreakers(resolved.value)
    modifies if resolved.Some? then set d | d in resolved.value :: d.breaker else {}
    ensures resolved.None? ==> result == NotFound && log == []
    ensures resolved.Some? ==> (log, result) == Run(cfg, o, AdmitsAll(resolved.value, old(Views(resolved.value)), o), 0)
    ensures resolved.Some? ==>
              SomeVisited(resolved.value, Views(resolved.value), old(Views(resolved.value)), cfg, o,
                  Visited(result, |resolved.value|))
  {
    if resolved.None? {
      return NotFound, [];
    }
    result, log := TryInOrder(resolved.value, cfg, o);
  }

  method TryInOrder(deps: seq<DeploymentInfo>, cfg: RoutingConfig, o: Oracle) returns (result: Result, log: seq<Event>)
    requires DistinctBreakers(deps)
    modifies set d | d in deps :: d.breaker
    ensures (log, result) == Run(cfg, o, AdmitsAll(deps, old(Views(deps)), o), 0)
    ensures SomeVisited(deps, Views(deps), old(Views(deps)), cfg, o, Visited(result, |deps|))
  {
    log := [];
    ghost var was := Views(deps);
    RunBegins(cfg, o, AdmitsAll(deps, was, o));
    for i := 0 to |deps|
      invariant SomeVisited(deps, Views(deps), was, cfg, o, i) && RunSoFar(cfg, o, AdmitsAll(deps, was, o), i, log)
    {
      var settled;
      settled, result, log := TryAt(deps, was, cfg, o, i, log);
      if settled {
        return;
      }
    }
    RunEnds(cfg, o, AdmitsAll(deps, was, o), log);
    return AllFailed, log;
  }

  /** The body of the loop: the deployment's visit, and whether the result is settled by it. */
  method TryAt(deps: seq<DeploymentInfo>, ghost was: seq<Breaker>, cfg: RoutingConfig, o: Oracle, i: nat,
               before: seq<Event>)
    returns (settled: bool, result: Result, log: seq<Event>)
    requires i < |deps| == |was| && DistinctBreakers(deps) && SomeVisited(deps, Views(deps), was, cfg, o, i)
    requires RunSoFar(cfg, o, AdmitsAll(deps, was, o), i, before)
    modifies deps[i].breaker
    ensures SomeVisited(deps, Views(deps), was, cfg, o, i + 1)
    ensures settled ==> Run(cfg, o, AdmitsAll(deps, was, o), 0) == (log, result) && Visited(result, |deps|) == i + 1
    ensures !settled ==> RunSoFar(cfg, o, AdmitsAll(deps, was, o), i + 1, log)
  {
    var ok, out, here := VisitNext(deps, was, cfg, o, i);
    RunNext(cfg, o, AdmitsAll(deps, was, o), i, ok, out, here, before);
    log := before + here;
    if ok && out.Response? && out.status < 500 {
      return true, Served(i, out.status), log;
    }
    return !cfg.fallbackEnabled, FailedAt(i), log;
  }

  /** `log` is what the run does before deployment i. */
  ghost predicate RunSoFar(cfg: RoutingConfig, o: Oracle, allowed: seq<bool>, i: nat, log: seq<Event>) {
    i <= |allowed| && Run(cfg, o, allowed, 0) == (log + Run(cfg, o, allowed, i).0, Run(cfg, o, allowed, i).1)
  }

  lemma RunBegins(cfg: RoutingConfig, o: Oracle, allowed: seq<bool>)
    ensures RunSoFar(cfg, o, allowed, 0, [])
  {
    assert [] + Run(cfg, o, allowed, 0).0 == Run(cfg, o, allowed, 0).0;
  }

  lemma RunEnds(cfg: RoutingConfig, o: Oracle, allowed: seq<bool>, log: seq<Event>)
    requires RunSoFar(cfg, o, allowed, |allowed|, log)
    ensures Run(cfg, o, allowed, 0) == (log, AllFailed)
  {
    assert log + [] == log;
  }

  lemma {:induction false} RunNext(cfg: RoutingConfig, o: Oracle, allowed: seq<bool>, i: nat, ok: bool, out: Outcome,
                                   here: seq<Event>, log: seq<Event>)
    requires i < |allowed| && RunSoFar(cfg, o, allowed, i, log)
    requires ok == allowed[i] && out == (if ok then Retry(MaxRetries(cfg), o, i, 0).0 else CallError)
    requires here == Visit(i, ok, Retry(MaxRetries(cfg), o, i, 0).0, Retry(MaxRetries(cfg), o, i, 0).1)
    ensures Serves(ok, out) ==> Run(cfg, o, allowed, 0) == (log + here, Served(i, out.status))
    ensures !Serves(ok, out) && !cfg.fallbackEnabled ==> Run(cfg, o, allowed, 0) == (log + here, FailedAt(i))
    ensures !Serves(ok, out) && cfg.fallbackEnabled ==> RunSoFar(cfg, o, allowed, i + 1, log + here)
  {
    if !Serves(ok, out) && cfg.fallbackEnabled {
      Reassociate(log, here, Run(cfg, o, allowed, i + 1).0);
    }
  }

  // ---- accounting ------------------------------------------------------------------------------

  function Count(log: seq<Event>, p: Event -> bool): nat {
    if log == [] then 0 else (if p(log[0]) then 1 else 0) + Count(log[1..], p)
  }

  lemma {:induction false} CountCat(a: seq<Event>, b: seq<Event>, p: Event -> bool)
    ensures Count(a + b, p) == Count(a, p) + Count(b, p)
    decreases |a|
  {
    if a == [] {
      assert a + b == b;
    } else {
      assert (a + b)[1..] == a[1..] + b;
      CountCat(a[1..], b, p);
    }
  }

  function IsReport(i: nat): Event -> bool {
    (e: Event) => (e.ReportedFailure? || e.ReportedSuccess?) && e.i == i
  }

  function IsCall(i: nat): Event -> bool {
    (e: Event) => e.Called? && e.i == i
  }

  function IsAdmission(i: nat): Event -> bool {
    (e: Event) => e.Asked? && e.ok && e.i == i
  }

  predicate IsOpen(e: Event) { e.Opened? }

  predicate IsClose(e: Event) { e.BodyClosed? }

  lemma {:induction false} CountCalls(i: nat, n: nat, p: Event -> bool)
    ensures Count(Calls(i, n), p) == if p(Called(i)) then n else 0
    decreases n
  {
    if n > 0 {
      CountCalls(i, n - 1, p);
      CountCat(Calls(i, n - 1), [Called(i)], p);
      assert Count([Called(i)], p) == (if p(Called(i)) then 1 else 0) + Count([Called(i)][1..], p);
    }
  }

  lemma CountVisit(i: nat, outcome: Outcome, calls: nat, p: Event -> bool)
    ensures Count(Visit(i, true, outcome, calls), p)
            == (if p(Asked(i, true)) then 1 else 0) + (if p(Called(i)) then calls else 0) + Count(Ending(i, outcome), p)
    ensures Count(Visit(i, false, outcome, calls), p) == if p(Asked(i, false)) then 1 else 0
  {
    CountCat([Asked(i, true)] + Calls(i, calls), Ending(i, outcome), p);
    CountCat([Asked(i, true)], Calls(i, calls), p);
    CountCalls(i, calls, p);
    assert Count([Asked(i, true)], p) == (if p(Asked(i, true)) then 1 else 0) + Count([Asked(i, true)][1..], p);
    assert Count([Asked(i, false)], p) == (if p(Asked(i, false)) then 1 else 0) + Count([Asked(i, false)][1..], p);
  }

  lemma CountEnding(i: nat, outcome: Outcome, p: Event -> bool)
    ensures Count(Ending(i, outcome), p) ==
            match outcome
            case CallError => One(p, ReportedFailure(i))
            case Response(status) =>
              if status >= 500 then One(p, Opened(i)) + One(p, ReportedFailure(i)) + One(p, BodyClosed(i))
              else One(p, Opened(i)) + One(p, ReportedSuccess(i))
  {
    match outcome
    case CallError =>
      CountOne(ReportedFailure(i), p);
    case Response(status) =>
      CountOne(Opened(i), p);
      if status >= 500 {
        CountOne(ReportedFailure(i), p);
        CountOne(BodyClosed(i), p);
        CountCat([ReportedFailure(i)], [BodyClosed(i)], p);
        CountCat([Opened(i)], [ReportedFailure(i)] + [BodyClosed(i)], p);
        assert Ending(i, outcome) == [Opened(i)] + ([ReportedFailure(i)] + [BodyClosed(i)]);
      } else {
        CountOne(ReportedSuccess(i), p);
        CountCat([Opened(i)], [ReportedSuccess(i)], p);
        assert Ending(i, outcome) == [Opened(i)] + [ReportedSuccess(i)];
      }
  }

  lemma CountOne(e: Event, p: Event -> bool)
    ensures Count([e], p) == One(p, e)
  {
    assert [e][1..] == [];
  }

  function One(p: Event -> bool, e: Event): nat {
    if p(e) then 1 else 0
  }

  /** What holds of the events of one deployment holds of the whole log: the others leave none. */
  lemma {:induction false} RunCounts(cfg: RoutingConfig, o: Oracle, allowed: seq<bool>, from: nat, i: nat)
    requires from <= |allowed|
    ensures
      var (log, r) := Run(cfg, o, allowed, from);
      && Count(log, IsReport(i)) == Count(log, IsAdmission(i)) <= 1
      && (Count(log, IsAdmission(i)) == 0 ==> Count(log, IsCall(i)) == 0)
      && Count(log, IsCall(i)) <= (if cfg.retries > 0 then cfg.retries + 1 else 2)
      && (Count(log, IsAdmission(i)) == 1 <==> from <= i < Visited(r, |allowed|) && i < |allowed| && allowed[i])
  {
    RunTallies(cfg, o, allowed, from, i);
  }

  /** The counts of deployment i in the log of a run from `from`. */
  ghost predicate Tallied(cfg: RoutingConfig, allowed: seq<bool>, from: nat, i: nat, log: seq<Event>, visited: nat) {
    var admissions, calls := Count(log, IsAdmission(i)), Count(log, IsCall(i));
    && Count(log, IsReport(i)) == admissions == (if from <= i < visited && i < |allowed| && allowed[i] then 1 else 0)
    && (admissions == 0 ==> calls == 0) && calls <= MaxRetries(cfg) + 1
  }

  lemma {:induction false} RunTallies(cfg: RoutingConfig, o: Oracle, allowed: seq<bool>, from: nat, i: nat)
    requires from <= |allowed|
    ensures var (log, r) := Run(cfg, o, allowed, from); Tallied(cfg, allowed, from, i, log, Visited(r, |allowed|))
    decreases |allowed| - from
  {
    if from < |allowed| {
      var (outcome, calls) := Retry(MaxRetries(cfg), o, from, 0);
      var here := Visit(from, allowed[from], outcome, calls);
      VisitCounts(from, allowed[from], outcome, calls, i);
      if !Serves(allowed[from], outcome) && cfg.fallbackEnabled {
        var (later, r) := Run(cfg, o, allowed, from + 1);
        RunTallies(cfg, o, allowed, from + 1, i);
        ResultBeyond(cfg, o, allowed, from + 1);
        TallyOneMore(cfg, allowed, from, i, here, calls, later, Visited(r, |allowed|));
      } else {
        TallyLast(cfg, allowed, from, i, here, calls);
      }
    } else {
      TallyNone(cfg, allowed, i);
    }
  }

  lemma TallyNone(cfg: RoutingConfig, allowed: seq<bool>, i: nat)
    ensures Tallied(cfg, allowed, |allowed|, i, [], |allowed|)
  {
  }

  lemma TallyLast(cfg: RoutingConfig, allowed: seq<bool>, from: nat, i: nat, here: seq<Event>, calls: nat)
    requires from < |allowed| && calls <= MaxRetries(cfg) + 1
    requires Count(here, IsReport(i)) == Count(here, IsAdmission(i)) == (if allowed[from] && i == from then 1 else 0)
    requires Count(here, IsCall(i)) == (if allowed[from] && i == from then calls else 0)
    ensures Tallied(cfg, allowed, from, i, here, from + 1)
  {
  }

  lemma TallyOneMore(cfg: RoutingConfig, allowed: seq<bool>, from: nat, i: nat, here: seq<Event>, calls: nat,
                     later: seq<Event>, visited: nat)
    requires from < |allowed| && from + 1 <= visited && calls <= MaxRetries(cfg) + 1
    requires Count(here, IsReport(i)) == Count(here, IsAdmission(i)) == (if allowed[from] && i == from then 1 else 0)
    requires Count(here, IsCall(i)) == (if allowed[from] && i == from then calls else 0)
    requires Tallied(cfg, allowed, from + 1, i, later, visited)
    ensures Tallied(cfg, allowed, from, i, here + later, visited)
  {
    CountsCat(here, later, i);
  }

  lemma CountsCat(a: seq<Event>, b: seq<Event>, i: nat)
    ensures Count(a + b, IsReport(i)) == Count(a, IsReport(i)) + Count(b, IsReport(i))
    ensures Count(a + b, IsAdmission(i)) == Count(a, IsAdmission(i)) + Count(b, IsAdmission(i))
    ensures Count(a + b, IsCall(i)) == Count(a, IsCall(i)) + Count(b, IsCall(i))
  {
    CountCat(a, b, IsReport(i));
    CountCat(a, b, IsAdmission(i));
    CountCat(a, b, IsCall(i));
  }

  lemma ResultBeyond(cfg: RoutingConfig, o: Oracle, allowed: seq<bool>, from: nat)
    requires from <= |allowed|
    ensures from <= Visited(Run(cfg, o, allowed, from).1, |allowed|)
    decreases |allowed| - from
  {
  }

  lemma VisitCounts(j: nat, allowed: bool, outcome: Outcome, calls: nat, i: nat)
    ensures
      var log := Visit(j, allowed, outcome, calls);
      && Count(log, IsReport(i)) == Count(log, IsAdmission(i)) == (if allowed && i == j then 1 else 0)
      && Count(log, IsCall(i)) == (if allowed && i == j then calls else 0)
  {
    CountVisit(j, outcome, calls, IsReport(i));
    CountVisit(j, outcome, calls, IsAdmission(i));
    CountVisit(j, outcome, calls, IsCall(i));
    CountEnding(j, outcome, IsReport(i));
    CountEnding(j, outcome, IsAdmission(i));
    CountEnding(j, outcome, IsCall(i));
  }

  function Balance(log: seq<Event>): int {
    Count(log, IsOpen) - Count(log, IsClose)
  }

  lemma VisitBalance(i: nat, allowed: bool, outcome: Outcome, calls: nat)
    ensures Balance(Visit(i, allowed, outcome, calls)) == if Serves(allowed, outcome) then 1 else 0
  {
    CountVisit(i, outcome, calls, IsOpen);
    CountVisit(i, outcome, calls, IsClose);
    CountEnding(i, outcome, IsOpen);
    CountEnding(i, outcome, IsClose);
  }

  /** One body is left open on success, none on error; what is returned has a status below 500. */
  lemma {:induction false} RunBalance(cfg: RoutingConfig, o: Oracle, allowed: seq<bool>, from: nat)
    requires from <= |allowed|
    ensures
      var (log, r) := Run(cfg, o, allowed, from);
      && Balance(log) == (if r.Served? then 1 else 0)
      && (r.Served? ==> r.status < 500 && r.i < |allowed| && allowed[r.i])
    decreases |allowed| - from
  {
    if from < |allowed| {
      var (outcome, calls) := Retry(MaxRetries(cfg), o, from, 0);
      var here := Visit(from, allowed[from], outcome, calls);
      VisitBalance(from, allowed[from], outcome, calls);
      if !Serves(allowed[from], outcome) && cfg.fallbackEnabled {
        RunBalance(cfg, o, allowed, from + 1);
        var later := Run(cfg, o, allowed, from + 1).0;
        CountCat(here, later, IsOpen);
        CountCat(here, later, IsClose);
      }
    }
  }

  /** The result: the first deployment that is admitted and answers below 500 serves; without fallback only
      the first deployment is tried. */
  lemma {:induction false} RunResult(cfg: RoutingConfig, o: Oracle, allowed: seq<bool>, from: nat)
    requires from <= |allowed|
    ensures
      var r := Run(cfg, o, allowed, from).1;
      match r {
        case NotFound => false
        case Served(i, status) =>
          from <= i < |allowed| && Good(cfg, o, allowed, i) && Retry(MaxRetries(cfg), o, i, 0).0 == Response(status)
          && (forall k | from <= k < i :: !Good(cfg, o, allowed, k)) && (i > from ==> cfg.fallbackEnabled)
        case FailedAt(i) => i == from < |allowed| && !cfg.fallbackEnabled && !Good(cfg, o, allowed, i)
        case AllFailed => (from < |allowed| ==> cfg.fallbackEnabled)
            && forall k | from <= k < |allowed| :: !Good(cfg, o, allowed, k)
      }
    decreases |allowed| - from
  {
    if from < |allowed| {
      GoodServes(cfg, o, allowed, from);
      if !Good(cfg, o, allowed, from) && cfg.fallbackEnabled {
        RunResult(cfg, o, allowed, from + 1);
      }
    }
  }

  lemma GoodServes(cfg: RoutingConfig, o: Oracle, allowed: seq<bool>, i: nat)
    requires i < |allowed|
    ensures Good(cfg, o, allowed, i) <==> Serves(allowed[i], Retry(MaxRetries(cfg), o, i, 0).0)
  {
  }

  predicate Good(cfg: RoutingConfig, o: Oracle, allowed: seq<bool>, i: nat)
    requires i < |allowed|
  {
    var outcome := Retry(MaxRetries(cfg), o, i, 0).0;
    allowed[i] && outcome.Response? && outcome.status < 500
  }

  /** Success is reported for the deployment that serves and for no other. */
  lemma {:induction false} RunSuccess(cfg: RoutingConfig, o: Oracle, allowed: seq<bool>, from: nat, i: nat)
    requires from <= |allowed|
    ensures var (log, r) := Run(cfg, o, allowed, from); ReportedSuccess(i) in log <==> r.Served? && r.i == i
    decreases |allowed| - from
  {
    if from < |allowed| {
      var (outcome, calls) := Retry(MaxRetries(cfg), o, from, 0);
      VisitSuccess(from, allowed[from], outcome, calls, i);
      if !Serves(allowed[from], outcome) && cfg.fallbackEnabled {
        RunSuccess(cfg, o, allowed, from + 1, i);
        ResultBeyond(cfg, o, allowed, from + 1);
      }
    }
  }

  lemma VisitSuccess(j: nat, allowed: bool, outcome: Outcome, calls: nat, i: nat)
    ensures ReportedSuccess(i) in Visit(j, allowed, outcome, calls) <==> Serves(allowed, outcome) && i == j
  {
    OnlyCalls(j, calls);
  }

  lemma {:induction false} OnlyCalls(i: nat, n: nat)
    ensures forall e | e in Calls(i, n) :: e == Called(i)
    decreases n
  {
    if n > 0 { OnlyCalls(i, n - 1); }
  }

  /** A visit reports what it was admitted for: it leaves no request outstanding, so the breaker's guarantee
      against wedging applies to everything that goes through here. */
  lemma VisitSettles(settings: Settings, w: World, cfg: RoutingConfig, o: Oracle, i: nat, id: nat)
    requires Enabled(w, Ask(id, o.asked(i))) && w.out <= w.asked && o.asked(i) <= o.told(i)
    ensures
      var w1 := Next(settings, w, Ask(id, o.asked(i)));
      var report := if Serves(true, Retry(MaxRetries(cfg), o, i, 0).0) then Succeeded(id) else Failed(id, o.told(i));
      if Admitted(settings, w, Ask(id, o.asked(i)))
      then Enabled(w1, report) && Next(settings, w1, report).out == w.out
          && Next(settings, w1, report).b == AfterVisit(settings, w.b, cfg, o, i)
      else w1.out == w.out && w1.b == AfterVisit(settings, w.b, cfg, o, i)
  {
  }
}
