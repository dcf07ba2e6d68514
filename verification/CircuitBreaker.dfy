/** The per-deployment circuit breaker (router/circuit_breaker.go), each call one atomic step. Times are
    in nanoseconds of the Unix clock, passed in; 0 means "not opened". */
module CircuitBreaking {

  datatype CircuitState = Closed | Open | HalfOpen

  datatype Breaker = Breaker(state: CircuitState, failures: nat, openedAt: int, probe: bool)

  datatype Settings = Settings(threshold: int, openDuration: int)

  const DEFAULT_THRESHOLD := 5
  const DEFAULT_OPEN_DURATION := 30_000_000_000

  const FRESH := Breaker(Closed, 0, 0, false)

  ghost predicate Sane(cfg: Settings) {
    cfg.threshold > 0 && cfg.openDuration > 0
  }

  function AllowStep(cfg: Settings, b: Breaker, now: int): (Breaker, bool) {
    match b.state
    case Closed => (b, true)
    case Open =>
      if b.openedAt == 0 then (b, true)
      else if now - b.openedAt < cfg.openDuration then (b, false)
      else (b.(state := HalfOpen, probe := true), true)
    case HalfOpen => (b.(probe := true), !b.probe)
  }

  function SuccessStep(b: Breaker): Breaker {
    Breaker(Closed, 0, 0, false)
  }

  function FailureStep(cfg: Settings, b: Breaker, now: int): Breaker {
    if b.state == HalfOpen then b.(state := Open, openedAt := now, probe := false)
    else if b.failures + 1 >= cfg.threshold then b.(failures := b.failures + 1, state := Open, openedAt := now)
    else b.(failures := b.failures + 1)
  }

  class CircuitBreaker {
    const cfg: Settings
    var state: CircuitState
    var failures: nat
    var openedAtUnix: int
    var probeInFlight: bool

    function View(): Breaker
      reads this
    {
      Breaker(state, failures, openedAtUnix, probeInFlight)
    }

    constructor (threshold: int, openDuration: int)
      ensures View() == FRESH && Sane(cfg)
      ensures cfg == Settings(if threshold > 0 then threshold else 5,
                              if openDuration > 0 then openDuration else 30_000_000_000)
    {
      cfg := Settings(if threshold <= 0 then DEFAULT_THRESHOLD else threshold,
                      if openDuration <= 0 then DEFAULT_OPEN_DURATION else openDuration);
      state, failures, openedAtUnix, probeInFlight := Closed, 0, 0, false;
    }

    method Allow(now: int) returns (ok: bool)
      modifies this
      ensures (View(), ok) == AllowStep(cfg, old(View()), now)
    {
      match state {
        case Closed =>
          return true;
        case Open =>
          if openedAtUnix == 0 {
            return true;
          }
          if now - openedAtUnix < cfg.openDuration {
            return false;
          }
          // one atomic step: the compare-and-swap to half-open always wins
          state := HalfOpen;
          probeInFlight := true;
          return true;
        case HalfOpen =>
          ok := !probeInFlight;
          probeInFlight := true;
      }
    }

    method ReportSuccess()
      modifies this
      ensures View() == SuccessStep(old(View()))
    {
      failures := 0;
      state := Closed;
      openedAtUnix := 0;
      probeInFlight := false;
    }

    method ReportFailure(now: int)
      modifies this
      ensures View() == FailureStep(cfg, old(View()), now)
    {
      if state == HalfOpen {
        state := Open;
        openedAtUnix := now;
        probeInFlight := false;
        return;
      }
      failures := failures + 1;
      if failures >= cfg.threshold {
        state := Open;
        openedAtUnix := now;
      }
    }
  }

  // ---- runs ------------------------------------------------------------------------------------

  /** A request asks for admission, or an admitted one reports. */
  datatype Step = Ask(id: nat, now: int) | Succeeded(id: nat) | Failed(id: nat, now: int)

  /** `out` are the admitted requests that have not reported; `probes` those of them that were admitted
      to probe an open breaker, `probe` the latest of these; `asked` every request so far. */
  datatype World = World(b: Breaker, now: int, asked: set<nat>, out: set<nat>, probes: set<nat>, probe: nat)

  const START := World(FRESH, 1, {}, {}, {}, 0)

  predicate Admitted(cfg: Settings, w: World, s: Step) {
    s.Ask? && AllowStep(cfg, w.b, s.now).1
  }

  /** A request asks once and reports at most once; the clock does not go back. */
  predicate Enabled(w: World, s: Step) {
    match s
    case Ask(id, now) => id !in w.asked && w.now <= now
    case Succeeded(id) => id in w.out
    case Failed(id, now) => id in w.out && w.now <= now
  }

  function Next(cfg: Settings, w: World, s: Step): World {
    match s
    case Ask(id, now) =>
      var (b, ok) := AllowStep(cfg, w.b, now);
      var probing := ok && w.b.state == Open && w.b.openedAt != 0;
      World(b, now, w.asked + {id}, if ok then w.out + {id} else w.out,
            if probing then w.probes + {id} else w.probes, if probing then id else w.probe)
    case Succeeded(id) => w.(b := SuccessStep(w.b), out := w.out - {id}, probes := w.probes - {id})
    case Failed(id, now) => w.(b := FailureStep(cfg, w.b, now), now := now, out := w.out - {id},
        probes := w.probes - {id})
  }

  predicate Runs(cfg: Settings, w: World, steps: seq<Step>)
    decreases |steps|
  {
    steps == [] || (Enabled(w, steps[0]) && Runs(cfg, Next(cfg, w, steps[0]), steps[1..]))
  }

  function After(cfg: Settings, w: World, steps: seq<Step>): World
    decreases |steps|
  {
    if steps == [] then w else After(cfg, Next(cfg, w, steps[0]), steps[1..])
  }

  /** How many requests the run admits. */
  function Admissions(cfg: Settings, w: World, steps: seq<Step>): nat
    decreases |steps|
  {
    if steps == [] then 0
    else (if Admitted(cfg, w, steps[0]) then 1 else 0) + Admissions(cfg, Next(cfg, w, steps[0]), steps[1..])
  }

  ghost predicate Inv(cfg: Settings, w: World) {
    && w.now > 0 && w.b.openedAt <= w.now
    && (w.b.state == Closed <==> w.b.failures < cfg.threshold)
    && (w.b.state == Closed <==> w.b.openedAt == 0)
    && (w.b.openedAt >= 0)
    && (w.b.probe <==> w.b.state == HalfOpen)
    && (w.b.state == HalfOpen ==> w.probe in w.out && w.probe in w.probes)
    && w.probes <= w.out <= w.asked
  }

  lemma InvStep(cfg: Settings, w: World, s: Step)
    requires Sane(cfg) && Inv(cfg, w) && Enabled(w, s)
    ensures Inv(cfg, Next(cfg, w, s))
  {
  }

  /** Every reachable state: closed iff few failures iff never opened; a probe is in flight iff half-open,
      and then the probing request has still to report. */
  lemma {:induction false} InvAlways(cfg: Settings, w: World, steps: seq<Step>)
    requires Sane(cfg) && Inv(cfg, w) && Runs(cfg, w, steps)
    ensures Inv(cfg, After(cfg, w, steps))
    decreases |steps|
  {
    if steps != [] {
      InvStep(cfg, w, steps[0]);
      InvAlways(cfg, Next(cfg, w, steps[0]), steps[1..]);
    }
  }

  lemma StartInv(cfg: Settings)
    requires Sane(cfg)
    ensures Inv(cfg, START)
  {
  }

  ghost predicate NoReports(steps: seq<Step>) {
    forall s | s in steps :: s.Ask?
  }

  ghost predicate NoSuccess(steps: seq<Step>) {
    forall s | s in steps :: !s.Succeeded?
  }

  /** A half-open period ends only with a report. Entered by admitting one request, it admits no other. */
  lemma {:induction false} HalfOpenAdmitsNoOther(cfg: Settings, w: World, steps: seq<Step>)
    requires Sane(cfg) && Inv(cfg, w) && Runs(cfg, w, steps) && w.b.state == HalfOpen && NoReports(steps)
    ensures Admissions(cfg, w, steps) == 0
    ensures After(cfg, w, steps).b == w.b && After(cfg, w, steps).out == w.out && After(cfg, w, steps).probe == w.probe
    decreases |steps|
  {
    if steps != [] {
      assert steps[0] in steps;
      InvStep(cfg, w, steps[0]);
      HalfOpenAdmitsNoOther(cfg, Next(cfg, w, steps[0]), steps[1..]);
    }
  }

  lemma HalfOpenEntry(cfg: Settings, w: World, s: Step)
    requires Sane(cfg) && Inv(cfg, w) && Enabled(w, s) && w.b.state != HalfOpen && Next(cfg, w, s).b.state == HalfOpen
    ensures Admitted(cfg, w, s) && Next(cfg, w, s).probe == s.id && s.id !in w.out
    ensures w.b.state == Open && s.now - w.b.openedAt >= cfg.openDuration
  {
  }

  /** The breaker never wedges: once every admitted request has reported it is closed, or open and about to
      admit a probe as soon as the cooldown has passed. */
  lemma NeverWedged(cfg: Settings, steps: seq<Step>, id: nat, now: int)
    requires Sane(cfg) && Runs(cfg, START, steps)
    ensures
      var w := After(cfg, START, steps);
      w.out == {} && Enabled(w, Ask(id, now)) && now - w.b.openedAt >= cfg.openDuration
      ==> Admitted(cfg, w, Ask(id, now))
  {
    StartInv(cfg);
    InvAlways(cfg, START, steps);
  }

  /** During the cooldown nothing is admitted, whatever late failures come in, unless a success does. */
  lemma {:induction false} CooldownHolds(cfg: Settings, w: World, steps: seq<Step>, until: int)
    requires Sane(cfg) && Inv(cfg, w) && Runs(cfg, w, steps) && w.b.state == Open
    requires until <= w.b.openedAt + cfg.openDuration && NoSuccess(steps)
    requires forall s | s in steps && s.Ask? :: s.now < until
    ensures Admissions(cfg, w, steps) == 0 && After(cfg, w, steps).b.state == Open
    decreases |steps|
  {
    if steps != [] {
      assert steps[0] in steps;
      InvStep(cfg, w, steps[0]);
      CooldownHolds(cfg, Next(cfg, w, steps[0]), steps[1..], until);
    }
  }

  /** Every failure that leaves the breaker open starts a cooldown of its own. */
  lemma FailureCoolsDown(cfg: Settings, w: World, id: nat, now: int, steps: seq<Step>)
    requires Sane(cfg) && Inv(cfg, w) && Enabled(w, Failed(id, now))
    requires var w' := Next(cfg, w, Failed(id, now)); w'.b.state == Open && Runs(cfg, w', steps)
    requires NoSuccess(steps) && forall s | s in steps && s.Ask? :: s.now < now + cfg.openDuration
    ensures Admissions(cfg, Next(cfg, w, Failed(id, now)), steps) == 0
  {
    InvStep(cfg, w, Failed(id, now));
    CooldownHolds(cfg, Next(cfg, w, Failed(id, now)), steps, now + cfg.openDuration);
  }

  // ---- one probe at a time? --------------------------------------------------------------------

  /** While half-open only the probing request reports. */
  predicate Disciplined(cfg: Settings, w: World, steps: seq<Step>)
    decreases |steps|
  {
    steps == []
    || ((w.b.state == HalfOpen && !steps[0].Ask? ==> steps[0].id == w.probe)
        && Disciplined(cfg, Next(cfg, w, steps[0]), steps[1..]))
  }

  ghost predicate OneProbe(w: World) {
    w.probes == if w.b.state == HalfOpen then {w.probe} else {}
  }

  /** That is the exact condition: at every moment of the run at most the current probe is out. */
  lemma {:induction false} DisciplinedOneProbe(cfg: Settings, w: World, steps: seq<Step>)
    requires Sane(cfg) && Inv(cfg, w) && OneProbe(w) && Runs(cfg, w, steps)
    ensures Disciplined(cfg, w, steps) <==> OneProbeThroughout(cfg, w, steps)
    decreases |steps|
  {
    assert After(cfg, w, steps[..0]) == w;
    if steps != [] {
      var w' := Next(cfg, w, steps[0]);
      InvStep(cfg, w, steps[0]);
      FirstMoment(cfg, w, steps);
      ReportLeavesProbe(cfg, w, steps[0]);
      if OneProbe(w') {
        DisciplinedOneProbe(cfg, w', steps[1..]);
      }
    }
  }

  ghost predicate OneProbeThroughout(cfg: Settings, w: World, steps: seq<Step>) {
    forall k | 0 <= k <= |steps| :: OneProbe(After(cfg, w, steps[..k]))
  }

  lemma FirstMoment(cfg: Settings, w: World, steps: seq<Step>)
    requires steps != []
    ensures OneProbeThroughout(cfg, w, steps)
            <==> OneProbe(w) && OneProbeThroughout(cfg, Next(cfg, w, steps[0]), steps[1..])
    ensures OneProbeThroughout(cfg, Next(cfg, w, steps[0]), steps[1..]) ==> OneProbe(Next(cfg, w, steps[0]))
  {
    var w' := Next(cfg, w, steps[0]);
    assert After(cfg, w, steps[..0]) == w && After(cfg, w', steps[1..][..0]) == w';
    forall k | 0 < k <= |steps| ensures After(cfg, w, steps[..k]) == After(cfg, w', steps[1..][..k - 1]) {
      assert steps[..k][1..] == steps[1..][..k - 1];
    }
    if OneProbeThroughout(cfg, w, steps) {
      forall k | 0 <= k <= |steps| - 1 ensures OneProbe(After(cfg, w', steps[1..][..k])) {
        assert OneProbe(After(cfg, w, steps[..k + 1]));
      }
    }
  }

  /** A step keeps the probe alone unless another request reports while half-open: then the probe is left over. */
  lemma ReportLeavesProbe(cfg: Settings, w: World, s: Step)
    requires Sane(cfg) && Inv(cfg, w) && OneProbe(w) && Enabled(w, s)
    ensures OneProbe(Next(cfg, w, s)) <==> (w.b.state == HalfOpen && !s.Ask? ==> s.id == w.probe)
  {
    var w' := Next(cfg, w, s);
    if !s.Ask? {
      assert w'.b.state != HalfOpen && w'.probes == w.probes - {s.id};
      assert w.b.state == HalfOpen ==> (w.probe in w'.probes <==> s.id != w.probe);
    }
  }

  // ---- what an undisciplined report can lead to ------------------------------------------------

  /** Requests base, base + 1, ... ask and fail, one after the other. */
  function TripSteps(base: nat, now: int, n: nat): seq<Step> {
    if n == 0 then [] else TripSteps(base, now, n - 1) + [Ask(base + n - 1, now), Failed(base + n - 1, now)]
  }

  function Ids(base: nat, n: nat): (ids: set<nat>)
    ensures forall id :: id in ids <==> base <= id < base + n
  {
    if n == 0 then {} else Ids(base, n - 1) + {base + n - 1}
  }

  /** Enough failures open a closed breaker; the requests outstanding before are outstanding after. */
  lemma {:induction false} Trips(cfg: Settings, w: World, base: nat, now: int, n: nat)
    requires Sane(cfg) && Inv(cfg, w) && w.b == FRESH && w.now <= now && n <= cfg.threshold
    requires forall id | id in w.asked :: id < base
    ensures Runs(cfg, w, TripSteps(base, now, n))
    ensures After(cfg, w, TripSteps(base, now, n)) ==
            if n == 0 then w
            else World(if n < cfg.threshold then Breaker(Closed, n, 0, false) else Breaker(Open, n, now, false),
                       now, w.asked + Ids(base, n), w.out, w.probes, w.probe)
  {
    if n > 0 {
      var id := base + n - 1;
      var first, w' := TripSteps(base, now, n - 1), After(cfg, w, TripSteps(base, now, n - 1));
      Trips(cfg, w, base, now, n - 1);
      assert w'.b == Breaker(Closed, n - 1, 0, false) && id !in w'.asked && w'.out == w.out;
      var w1 := Next(cfg, w', Ask(id, now));
      var w2 := Next(cfg, w1, Failed(id, now));
      assert w1.out == w.out + {id} && w2.out == w.out && w2.probes == w.probes;
      assert w2.asked == w.asked + Ids(base, n);
      Two(cfg, w', Ask(id, now), Failed(id, now));
      RunsCat(cfg, w, first, [Ask(id, now), Failed(id, now)]);
    }
  }

  /** From a half-open breaker whose probe is out, any report but the probe's can be followed by a second probe. */
  lemma UndisciplinedSecondProbe(cfg: Settings, w: World, s: Step) returns (later: seq<Step>, second: nat)
    requires Sane(cfg) && Inv(cfg, w) && Enabled(w, s) && w.b.state == HalfOpen && !s.Ask? && s.id != w.probe
    ensures Runs(cfg, w, [s] + later)
    ensures second != w.probe && {w.probe, second} <= After(cfg, w, [s] + later).probes
  {
    var w' := Next(cfg, w, s);
    InvStep(cfg, w, s);
    var base := Above(w.asked);
    if s.Failed? {
      second := base;
      later := [Ask(base, w'.b.openedAt + cfg.openDuration)];
      Cons(cfg, w', later[0], []);
      assert [later[0]] + [] == later;
    } else {
      var n := cfg.threshold;
      second := base + n;
      var trip, ask := TripSteps(base, w'.now, n), Ask(second, w'.now + cfg.openDuration);
      Trips(cfg, w', base, w'.now, n);
      later := trip + [ask];
      Cons(cfg, After(cfg, w', trip), ask, []);
      assert [ask] + [] == [ask];
      RunsCat(cfg, w', trip, [ask]);
    }
    Cons(cfg, w, s, later);
  }

  lemma Above(ids: set<nat>) returns (base: nat)
    ensures forall id | id in ids :: id < base
  {
    base := 0;
    if ids != {} {
      var id :| id in ids;
      var rest := Above(ids - {id});
      base := if id < rest then rest else id + 1;
      forall x | x in ids ensures x < base { assert x == id || x in ids - {id}; }
    }
  }

  lemma Two(cfg: Settings, w: World, s: Step, t: Step)
    ensures Runs(cfg, w, [s, t]) <==> Enabled(w, s) && Enabled(Next(cfg, w, s), t)
    ensures After(cfg, w, [s, t]) == Next(cfg, Next(cfg, w, s), t)
  {
    Cons(cfg, w, s, [t]);
    Cons(cfg, Next(cfg, w, s), t, []);
    assert [s] + [t] == [s, t] && [t] + [] == [t];
  }

  lemma {:induction false} RunsCat(cfg: Settings, w: World, a: seq<Step>, b: seq<Step>)
    ensures Runs(cfg, w, a + b) <==> Runs(cfg, w, a) && Runs(cfg, After(cfg, w, a), b)
    ensures After(cfg, w, a + b) == After(cfg, After(cfg, w, a), b)
    decreases |a|
  {
    if a == [] {
      assert a + b == b;
    } else {
      assert (a + b)[1..] == a[1..] + b;
      RunsCat(cfg, Next(cfg, w, a[0]), a[1..], b);
    }
  }

  /** One such run: the late failure of an older request re-opens the breaker while the probe is out, and the
      next cooldown admits a second probe. */
  lemma LateReportTwoProbes()
    ensures
      var cfg := Settings(1, 10);
      var steps := [Ask(1, 1), Ask(2, 1), Failed(1, 1), Ask(3, 20), Failed(2, 21), Ask(4, 40)];
      Runs(cfg, START, steps) && After(cfg, START, steps).probes == {3, 4}
  {
    var cfg := Settings(1, 10);
    var w2 := Next(cfg, Next(cfg, START, Ask(1, 1)), Ask(2, 1));
    var w4 := Next(cfg, Next(cfg, w2, Failed(1, 1)), Ask(3, 20));
    assert w4.b.state == HalfOpen && w4.probes == {3} && w4.out == {2, 3};
    Two(cfg, w4, Failed(2, 21), Ask(4, 40));
    Two(cfg, w2, Failed(1, 1), Ask(3, 20));
    Two(cfg, START, Ask(1, 1), Ask(2, 1));
    RunsCat(cfg, w2, [Failed(1, 1), Ask(3, 20)], [Failed(2, 21), Ask(4, 40)]);
    RunsCat(cfg, START, [Ask(1, 1), Ask(2, 1)], [Failed(1, 1), Ask(3, 20)] + [Failed(2, 21), Ask(4, 40)]);
    assert [Ask(1, 1), Ask(2, 1)] + ([Failed(1, 1), Ask(3, 20)] + [Failed(2, 21), Ask(4, 40)])
        == [Ask(1, 1), Ask(2, 1), Failed(1, 1), Ask(3, 20), Failed(2, 21), Ask(4, 40)];
  }

  lemma Cons(cfg: Settings, w: World, s: Step, steps: seq<Step>)
    ensures Runs(cfg, w, [s] + steps) <==> Enabled(w, s) && Runs(cfg, Next(cfg, w, s), steps)
    ensures After(cfg, w, [s] + steps) == After(cfg, Next(cfg, w, s), steps)
  {
    assert ([s] + steps)[1..] == steps;
  }
}
