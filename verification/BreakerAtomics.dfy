/** The same breaker with every atomic operation a step of its own, interleaved by any number of
    goroutines (router/circuit_breaker.go:65-122). A goroutine calls Allow, and if it is admitted it later
    calls ReportSuccess or ReportFailure. */
module BreakerAtomics {
  import opened CircuitBreaking

  /** Where a goroutine stands: the atomic operation it performs next. */
  datatype Pc =
    | LoadState          // Allow: state.Load
    | LoadOpenedAt       // Allow, open: openedAtUnix.Load and the cooldown test
    | SwapHalfOpen       // Allow, open: state.CompareAndSwap(open, half-open)
    | StoreProbe         // Allow, swap won: probeInFlight.Store(true)
    | SwapProbe          // Allow: probeInFlight.CompareAndSwap(false, true)
    | Denied
    | Running            // admitted, the request is under way
    | SuccFailures       // ReportSuccess: failures.Store(0)
    | SuccState          // ReportSuccess: state.Store(closed)
    | SuccOpenedAt       // ReportSuccess: openedAtUnix.Store(0)
    | SuccProbe          // ReportSuccess: probeInFlight.Store(false)
    | FailLoad           // ReportFailure: state.Load
    | FailState          // ReportFailure, was half-open: state.Store(open)
    | FailOpenedAt       // ReportFailure, was half-open: openedAtUnix.Store(now)
    | FailProbe          // ReportFailure, was half-open: probeInFlight.Store(false)
    | FailAdd            // ReportFailure: failures.Add(1)
    | FailOpen           // ReportFailure, threshold reached: state.Store(open)
    | FailStamp          // ReportFailure, threshold reached: openedAtUnix.Store(now)
    | Done

  /** `winner` is the goroutine that last swapped the state to half-open. */
  datatype Shared = Shared(b: Breaker, pcs: map<nat, Pc>, winner: nat)

  const INITIAL := Shared(FRESH, map[], 0)

  predicate Finished(pc: Pc) {
    pc == Denied || pc == Done
  }

  /** Goroutine `g` performs its next operation at time `now`; `succeed` says how its request ends. */
  function Tick(cfg: Settings, w: Shared, g: nat, now: int, succeed: bool): Shared {
    var b := w.b;
    if g !in w.pcs then w.(pcs := w.pcs[g := LoadState])
    else
      match w.pcs[g]
      case LoadState =>
        To(w, g, match b.state case Closed => Running case Open => LoadOpenedAt case HalfOpen => SwapProbe)
      case LoadOpenedAt =>
        To(w, g, if b.openedAt == 0 then Running
                 else if now - b.openedAt < cfg.openDuration then Denied
                 else SwapHalfOpen)
      case SwapHalfOpen =>
        if b.state == Open then To(w, g, StoreProbe).(b := b.(state := HalfOpen), winner := g) else To(w, g, SwapProbe)
      case StoreProbe => To(w, g, Running).(b := b.(probe := true))
      case SwapProbe => To(w, g, if b.probe then Denied else Running).(b := b.(probe := true))
      case Running => To(w, g, if succeed then SuccFailures else FailLoad)
      case SuccFailures => To(w, g, SuccState).(b := b.(failures := 0))
      case SuccState => To(w, g, SuccOpenedAt).(b := b.(state := Closed))
      case SuccOpenedAt => To(w, g, SuccProbe).(b := b.(openedAt := 0))
      case SuccProbe => To(w, g, Done).(b := b.(probe := false))
      case FailLoad => To(w, g, if b.state == HalfOpen then FailState else FailAdd)
      case FailState => To(w, g, FailOpenedAt).(b := b.(state := Open))
      case FailOpenedAt => To(w, g, FailProbe).(b := b.(openedAt := now))
      case FailProbe => To(w, g, Done).(b := b.(probe := false))
      case FailAdd =>
        To(w, g, if b.failures + 1 >= cfg.threshold then FailOpen else Done).(b := b.(failures := b.failures + 1))
      case FailOpen => To(w, g, FailStamp).(b := b.(state := Open))
      case FailStamp => To(w, g, Done).(b := b.(openedAt := now))
      case _ => w
  }

  function To(w: Shared, g: nat, pc: Pc): Shared {
    w.(pcs := w.pcs[g := pc])
  }

  datatype Turn = Turn(g: nat, now: int, succeed: bool)

  function Play(cfg: Settings, w: Shared, turns: seq<Turn>): Shared
    decreases |turns|
  {
    if turns == [] then w
    else Play(cfg, Tick(cfg, w, turns[0].g, turns[0].now, turns[0].succeed), turns[1..])
  }

  /** No goroutine makes its turn where `bad` holds of it. */
  predicate Never(cfg: Settings, w: Shared, turns: seq<Turn>, bad: (Shared, nat) -> bool)
    decreases |turns|
  {
    turns == []
    || (!bad(w, turns[0].g)
        && Never(cfg, Tick(cfg, w, turns[0].g, turns[0].now, turns[0].succeed), turns[1..], bad))
  }

  /** Where the winner of the last swap may stand while the breaker is still half-open: it has yet to
      store the closed or open state that its report will leave. */
  predicate StillToLeave(pc: Pc) {
    pc == StoreProbe || pc == Running || pc == SuccFailures || pc == SuccState || pc == FailLoad || pc == FailState
  }

  ghost predicate HalfOpenIsOwned(w: Shared) {
    w.b.state == HalfOpen ==> w.winner in w.pcs && StillToLeave(w.pcs[w.winner])
  }

  lemma OwnedStep(cfg: Settings, w: Shared, g: nat, now: int, succeed: bool)
    requires HalfOpenIsOwned(w)
    ensures HalfOpenIsOwned(Tick(cfg, w, g, now, succeed))
  {
  }

  lemma {:induction false} OwnedAlways(cfg: Settings, w: Shared, turns: seq<Turn>)
    requires HalfOpenIsOwned(w)
    ensures HalfOpenIsOwned(Play(cfg, w, turns))
    decreases |turns|
  {
    if turns != [] {
      OwnedStep(cfg, w, turns[0].g, turns[0].now, turns[0].succeed);
      OwnedAlways(cfg, Tick(cfg, w, turns[0].g, turns[0].now, turns[0].succeed), turns[1..]);
    }
  }

  // ---- uninterrupted calls ---------------------------------------------------------------------

  /** `n` turns in a row for one goroutine. */
  function Alone(cfg: Settings, w: Shared, g: nat, now: int, succeed: bool, n: nat): Shared
    decreases n
  {
    if n == 0 then w else Alone(cfg, Tick(cfg, w, g, now, succeed), g, now, succeed, n - 1)
  }

  function SoloTurns(g: nat, now: int, succeed: bool, n: nat): (turns: seq<Turn>)
    ensures forall t | t in turns :: t.g == g
  {
    if n == 0 then [] else [Turn(g, now, succeed)] + SoloTurns(g, now, succeed, n - 1)
  }

  lemma {:induction false} PlaySolo(cfg: Settings, w: Shared, g: nat, now: int, succeed: bool, n: nat)
    ensures Play(cfg, w, SoloTurns(g, now, succeed, n)) == Alone(cfg, w, g, now, succeed, n)
    decreases n
  {
    if n > 0 {
      assert SoloTurns(g, now, succeed, n)[1..] == SoloTurns(g, now, succeed, n - 1);
      PlaySolo(cfg, Tick(cfg, w, g, now, succeed), g, now, succeed, n - 1);
    }
  }

  lemma {:induction false} OneMore(cfg: Settings, w: Shared, g: nat, now: int, succeed: bool, n: nat, v: Shared)
    requires Alone(cfg, w, g, now, succeed, n) == v
    ensures Alone(cfg, w, g, now, succeed, n + 1) == Tick(cfg, v, g, now, succeed)
    decreases n
  {
    if n > 0 {
      OneMore(cfg, Tick(cfg, w, g, now, succeed), g, now, succeed, n - 1, v);
    } else {
      assert Alone(cfg, Tick(cfg, w, g, now, succeed), g, now, succeed, 0) == Tick(cfg, w, g, now, succeed);
    }
  }

  /** Where five turns lead. */
  lemma Unroll(cfg: Settings, w: Shared, g: nat, now: int, succeed: bool)
    returns (w1: Shared, w2: Shared, w3: Shared, w4: Shared, w5: Shared)
    ensures w1 == Tick(cfg, w, g, now, succeed) == Alone(cfg, w, g, now, succeed, 1)
    ensures w2 == Tick(cfg, w1, g, now, succeed) == Alone(cfg, w, g, now, succeed, 2)
    ensures w3 == Tick(cfg, w2, g, now, succeed) == Alone(cfg, w, g, now, succeed, 3)
    ensures w4 == Tick(cfg, w3, g, now, succeed) == Alone(cfg, w, g, now, succeed, 4)
    ensures w5 == Tick(cfg, w4, g, now, succeed) == Alone(cfg, w, g, now, succeed, 5)
  {
    w1 := Tick(cfg, w, g, now, succeed);
    w2 := Tick(cfg, w1, g, now, succeed);
    w3 := Tick(cfg, w2, g, now, succeed);
    w4 := Tick(cfg, w3, g, now, succeed);
    w5 := Tick(cfg, w4, g, now, succeed);
    OneMore(cfg, w, g, now, succeed, 0, w);
    OneMore(cfg, w, g, now, succeed, 1, w1);
    OneMore(cfg, w, g, now, succeed, 2, w2);
    OneMore(cfg, w, g, now, succeed, 3, w3);
    OneMore(cfg, w, g, now, succeed, 4, w4);
  }

  /** How many atomic operations Allow performs, its invocation included. */
  function AllowTicks(cfg: Settings, b: Breaker, now: int): nat {
    match b.state
    case Closed => 2
    case Open => if b.openedAt == 0 || now - b.openedAt < cfg.openDuration then 3 else 5
    case HalfOpen => 3
  }

  /** Uninterrupted, Allow is the one step of the whole-call model: same breaker, same verdict. */
  lemma AllowAlone(cfg: Settings, w: Shared, g: nat, now: int)
    requires g !in w.pcs
    ensures
      var (b, ok) := AllowStep(cfg, w.b, now);
      var end := Alone(cfg, w, g, now, true, AllowTicks(cfg, w.b, now));
      end.b == b && end.pcs == w.pcs[g := if ok then Running else Denied]
  {
    var w1, w2, w3, w4, w5 := Unroll(cfg, w, g, now, true);
  }

  /** So is ReportSuccess. */
  lemma SuccessAlone(cfg: Settings, w: Shared, g: nat, now: int)
    requires g in w.pcs && w.pcs[g] == Running
    ensures var end := Alone(cfg, w, g, now, true, 5);
            end.b == SuccessStep(w.b) && end.pcs == w.pcs[g := Done]
  {
    var w1, w2, w3, w4, w5 := Unroll(cfg, w, g, now, true);
    assert w5.pcs == w.pcs[g := Done];
  }

  /** So is ReportFailure; an operation past the end of a call does nothing. */
  lemma FailureAlone(cfg: Settings, w: Shared, g: nat, now: int)
    requires g in w.pcs && w.pcs[g] == Running
    ensures var end := Alone(cfg, w, g, now, false, 5);
            end.b == FailureStep(cfg, w.b, now) && end.pcs == w.pcs[g := Done]
  {
    if w.b.state == HalfOpen { ReopensAlone(cfg, w, g, now); } else { CountsAlone(cfg, w, g, now); }
  }

  lemma ReopensAlone(cfg: Settings, w: Shared, g: nat, now: int)
    requires g in w.pcs && w.pcs[g] == Running && w.b.state == HalfOpen
    ensures var end := Alone(cfg, w, g, now, false, 5);
            end.b == w.b.(state := Open, openedAt := now, probe := false) && end.pcs == w.pcs[g := Done]
  {
    var w1, w2, w3, w4, w5 := Unroll(cfg, w, g, now, false);
    assert w2 == w.(pcs := w.pcs[g := FailState]);
    assert w4.pcs == w.pcs[g := FailProbe];
  }

  lemma CountsAlone(cfg: Settings, w: Shared, g: nat, now: int)
    requires g in w.pcs && w.pcs[g] == Running && w.b.state != HalfOpen
    ensures var end := Alone(cfg, w, g, now, false, 5);
            end.b == FailureStep(cfg, w.b, now) && end.pcs == w.pcs[g := Done]
  {
    var counting := w.(pcs := w.pcs[g := FailAdd]);
    OneMore(cfg, w, g, now, false, 0, w);
    OneMore(cfg, w, g, now, false, 1, w.(pcs := w.pcs[g := FailLoad]));
    assert w.pcs[g := FailLoad][g := FailAdd] == w.pcs[g := FailAdd];
    AloneSplit(cfg, w, g, now, false, 2, 3);
    CountsOn(cfg, counting, g, now);
    assert counting.pcs[g := Done] == w.pcs[g := Done];
  }

  lemma CountsOn(cfg: Settings, w: Shared, g: nat, now: int)
    requires g in w.pcs && w.pcs[g] == FailAdd && w.b.state != HalfOpen
    ensures var end := Alone(cfg, w, g, now, false, 3);
            end.b == FailureStep(cfg, w.b, now) && end.pcs == w.pcs[g := Done]
  {
    var w1, w2, w3, _, _ := Unroll(cfg, w, g, now, false);
    if w.b.failures + 1 < cfg.threshold {
      assert w1 == w2 == w3;
    } else {
      assert w3.pcs == w.pcs[g := Done];
    }
  }

  lemma {:induction false} AloneSplit(cfg: Settings, w: Shared, g: nat, now: int, succeed: bool, n: nat, k: nat)
    ensures Alone(cfg, w, g, now, succeed, n + k) == Alone(cfg, Alone(cfg, w, g, now, succeed, n), g, now, succeed, k)
    decreases n
  {
    if n > 0 { AloneSplit(cfg, Tick(cfg, w, g, now, succeed), g, now, succeed, n - 1, k); }
  }

  /** The turns of a whole-call run, each call uninterrupted. */
  function SerialTurns(cfg: Settings, w: World, steps: seq<Step>): seq<Turn>
    decreases |steps|
  {
    if steps == [] then []
    else CallTurns(cfg, w, steps[0]) + SerialTurns(cfg, CircuitBreaking.Next(cfg, w, steps[0]), steps[1..])
  }

  function CallTurns(cfg: Settings, w: World, s: Step): seq<Turn> {
    match s
    case Ask(id, now) => SoloTurns(id, now, true, AllowTicks(cfg, w.b, now))
    case Succeeded(id) => SoloTurns(id, w.now, true, 5)
    case Failed(id, now) => SoloTurns(id, now, false, 5)
  }

  /** The same breaker; the goroutines running are the requests outstanding. */
  ghost predicate Matches(sh: Shared, w: World) {
    && sh.b == w.b && sh.pcs.Keys == w.asked && w.out <= w.asked
    && forall g | g in sh.pcs :: (g in w.out <==> sh.pcs[g] == Running) && (g !in w.out ==> Finished(sh.pcs[g]))
  }

  lemma CallMatches(cfg: Settings, sh: Shared, w: World, s: Step)
    requires Matches(sh, w) && CircuitBreaking.Enabled(w, s)
    ensures Matches(Play(cfg, sh, CallTurns(cfg, w, s)), CircuitBreaking.Next(cfg, w, s))
  {
    match s
    case Ask(id, now) =>
      PlaySolo(cfg, sh, id, now, true, AllowTicks(cfg, w.b, now));
      AllowAlone(cfg, sh, id, now);
    case Succeeded(id) =>
      PlaySolo(cfg, sh, id, w.now, true, 5);
      SuccessAlone(cfg, sh, id, w.now);
    case Failed(id, now) =>
      PlaySolo(cfg, sh, id, now, false, 5);
      FailureAlone(cfg, sh, id, now);
  }

  /** Every run of whole calls is an interleaving of atomic operations, with the same states and verdicts. */
  lemma {:induction false} SerialRefines(cfg: Settings, sh: Shared, w: World, steps: seq<Step>)
    requires Matches(sh, w) && Runs(cfg, w, steps)
    ensures Matches(Play(cfg, sh, SerialTurns(cfg, w, steps)), After(cfg, w, steps))
    decreases |steps|
  {
    if steps != [] {
      var first, w' := CallTurns(cfg, w, steps[0]), CircuitBreaking.Next(cfg, w, steps[0]);
      CallMatches(cfg, sh, w, steps[0]);
      SerialRefines(cfg, Play(cfg, sh, first), w', steps[1..]);
      PlayCat(cfg, sh, first, SerialTurns(cfg, w', steps[1..]));
    }
  }

  // ---- interleaved -----------------------------------------------------------------------------

  /** Under every interleaving the breaker does not wedge: once every goroutine that asked has been denied
      or has reported, the next one to call Allow is admitted as soon as the cooldown has passed. */
  lemma NeverWedgedInterleaved(cfg: Settings, turns: seq<Turn>, g: nat, now: int)
    requires forall x | x in Play(cfg, INITIAL, turns).pcs :: Finished(Play(cfg, INITIAL, turns).pcs[x])
    requires g !in Play(cfg, INITIAL, turns).pcs
    requires now - Play(cfg, INITIAL, turns).b.openedAt >= cfg.openDuration
    ensures var w := Play(cfg, INITIAL, turns);
            Play(cfg, w, SoloTurns(g, now, true, AllowTicks(cfg, w.b, now))).pcs == w.pcs[g := Running]
  {
    OwnedAlways(cfg, INITIAL, turns);
    var w := Play(cfg, INITIAL, turns);
    assert w.b.state != HalfOpen;
    AllowAlone(cfg, w, g, now);
    PlaySolo(cfg, w, g, now, true, AllowTicks(cfg, w.b, now));
  }

  /** A single probe is what interleaving breaks: between the swap to half-open and the store of the flag, a second
      goroutine finds the flag clear. */
  lemma SecondFindsFlagClear(cfg: Settings, w: Shared, g: nat, h: nat, now: int) returns (turns: seq<Turn>)
    requires w.b.state == Open && w.b.openedAt != 0 && !w.b.probe && now - w.b.openedAt >= cfg.openDuration
    requires g !in w.pcs && h !in w.pcs && g != h
    ensures Play(cfg, w, turns) == Shared(w.b.(state := HalfOpen, probe := true), w.pcs[g := Running][h := Running], g)
  {
    var w1, w2, w3, won, _ := Unroll(cfg, w, g, now, true);
    assert won == Shared(w.b.(state := HalfOpen), w.pcs[g := StoreProbe], g);
    var v1, v2, both, _, _ := Unroll(cfg, won, h, now, true);
    assert both == Shared(w.b.(state := HalfOpen, probe := true), w.pcs[g := StoreProbe][h := Running], g);
    var a, b, c := SoloTurns(g, now, true, 4), SoloTurns(h, now, true, 3), SoloTurns(g, now, true, 1);
    turns := a + (b + c);
    PlaySolo(cfg, w, g, now, true, 4);
    PlaySolo(cfg, won, h, now, true, 3);
    PlaySolo(cfg, both, g, now, true, 1);
    OneMore(cfg, both, g, now, true, 0, both);
    PlayCat(cfg, w, a, b + c);
    PlayCat(cfg, won, b, c);
    assert w.pcs[g := StoreProbe][h := Running][g := Running] == w.pcs[g := Running][h := Running];
  }

  /** From the start, for any settings: enough requests fail one after the other, then two probe at once. */
  lemma TwoProbesInterleaved(cfg: Settings) returns (turns: seq<Turn>, g: nat, h: nat)
    requires Sane(cfg)
    ensures
      var end := Play(cfg, INITIAL, turns);
      && end.b.state == HalfOpen && g != h
      && g in end.pcs && h in end.pcs && end.pcs[g] == end.pcs[h] == Running
      && forall x | x in end.pcs && x != g && x != h :: Finished(end.pcs[x])
  {
    var n := cfg.threshold;
    var trip := TripSteps(0, 1, n);
    StartInv(cfg);
    Trips(cfg, START, 0, 1, n);
    SerialRefines(cfg, INITIAL, START, trip);
    var before := SerialTurns(cfg, START, trip);
    var w := Play(cfg, INITIAL, before);
    g, h := n, n + 1;
    var after := SecondFindsFlagClear(cfg, w, g, h, 1 + cfg.openDuration);
    turns := before + after;
    PlayCat(cfg, INITIAL, before, after);
  }

  // ---- when a half-open period admits only one -------------------------------------------------

  /** A run watched: `period` are the goroutines admitted while the breaker has been half-open this time; `cleared`
      says that a report has cleared the flag since the winner stored it; `dated` are the goroutines that have read a
      time of opening, `outdated` those of them after whose reading a success has cleared it. */
  datatype Watch = Watch(w: Shared, period: set<nat>, cleared: bool, dated: set<nat>, outdated: set<nat>)

  const UNSEEN := Watch(INITIAL, {}, false, {}, {})

  predicate AtPc(w: Shared, g: nat, pc: Pc) {
    g in w.pcs && w.pcs[g] == pc
  }

  /** Past the point of being admitted. */
  predicate PastAllow(pc: Pc) {
    !(pc == LoadState || pc == LoadOpenedAt || pc == SwapHalfOpen || pc == SwapProbe || pc == Denied)
  }

  predicate Inside(w: Shared, g: nat) {
    g in w.pcs && PastAllow(w.pcs[g])
  }

  function Follow(cfg: Settings, v: Watch, t: Turn): Watch {
    var w := v.w;
    var w' := Tick(cfg, w, t.g, t.now, t.succeed);
    Watch(w',
          if w'.b.state != HalfOpen then {}
          else (if w.b.state == HalfOpen then v.period else {})
               + if Inside(w', t.g) && !Inside(w, t.g) then {t.g} else {},
          if AtPc(w, t.g, StoreProbe) && t.g == w.winner then false
          else v.cleared || AtPc(w, t.g, SuccProbe) || AtPc(w, t.g, FailProbe),
          if AtPc(w, t.g, LoadOpenedAt) && w.b.openedAt != 0 then v.dated + {t.g} else v.dated,
          if AtPc(w, t.g, SuccOpenedAt) then v.outdated + v.dated else v.outdated)
  }

  function Watched(cfg: Settings, v: Watch, turns: seq<Turn>): Watch
    decreases |turns|
  {
    if turns == [] then v else Watched(cfg, Follow(cfg, v, turns[0]), turns[1..])
  }

  /** The two ways in while half-open: the swap of the flag succeeds, or a goroutine that found the breaker open reads
      a cleared time of opening. */
  predicate FindsFlagClear(w: Shared, g: nat) {
    AtPc(w, g, SwapProbe) && w.b.state == HalfOpen && !w.b.probe
  }

  predicate FindsNeverOpened(w: Shared, g: nat) {
    AtPc(w, g, LoadOpenedAt) && w.b.state == HalfOpen && w.b.openedAt == 0
  }

  predicate SlipsIn(w: Shared, g: nat) {
    FindsFlagClear(w, g) || FindsNeverOpened(w, g)
  }

  ghost predicate WatchInv(v: Watch) {
    && HalfOpenIsOwned(v.w)
    && (v.w.b.state == HalfOpen ==> v.w.winner in v.period)
    && (v.w.b.state != HalfOpen ==> v.period == {})
    && (forall g | g in v.period :: Inside(v.w, g))
    && (v.w.b.state == HalfOpen && !v.w.b.probe ==> AtPc(v.w, v.w.winner, StoreProbe) || v.cleared)
  }

  lemma {:induction false} FollowKeepsInv(cfg: Settings, v: Watch, t: Turn)
    requires WatchInv(v)
    ensures WatchInv(Follow(cfg, v, t))
  {
    OwnedStep(cfg, v.w, t.g, t.now, t.succeed);
    FollowKeepsPeriod(cfg, v, t);
    FollowKeepsFlag(cfg, v, t);
  }

  lemma FollowKeepsPeriod(cfg: Settings, v: Watch, t: Turn)
    requires WatchInv(v)
    ensures var v' := Follow(cfg, v, t);
            && (v'.w.b.state == HalfOpen ==> v'.w.winner in v'.period)
            && (v'.w.b.state != HalfOpen ==> v'.period == {})
            && forall g | g in v'.period :: Inside(v'.w, g)
  {
    InsideStays(cfg, v.w, t);
  }

  lemma InsideStays(cfg: Settings, w: Shared, t: Turn)
    ensures forall g | Inside(w, g) :: Inside(Tick(cfg, w, t.g, t.now, t.succeed), g)
  {
  }

  lemma FollowKeepsFlag(cfg: Settings, v: Watch, t: Turn)
    requires WatchInv(v)
    ensures var v' := Follow(cfg, v, t);
            v'.w.b.state == HalfOpen && !v'.w.b.probe ==> AtPc(v'.w, v'.w.winner, StoreProbe) || v'.cleared
  {
  }

  /** No one but the goroutine that made the breaker half-open is admitted in that period. */
  ghost predicate OnlyWinner(v: Watch) {
    v.period <= {v.w.winner}
  }

  ghost predicate OnlyWinnerThroughout(cfg: Settings, v: Watch, turns: seq<Turn>)
    decreases |turns|
  {
    OnlyWinner(v) && (turns == [] || OnlyWinnerThroughout(cfg, Follow(cfg, v, turns[0]), turns[1..]))
  }

  lemma FollowKeepsWinner(cfg: Settings, v: Watch, t: Turn)
    requires WatchInv(v) && OnlyWinner(v)
    ensures OnlyWinner(Follow(cfg, v, t)) <==> !SlipsIn(v.w, t.g)
  {
  }

  /** From any point of an interleaving at which it holds. */
  lemma {:induction false} OneProbeFrom(cfg: Settings, v: Watch, turns: seq<Turn>)
    requires WatchInv(v) && OnlyWinner(v)
    ensures OnlyWinnerThroughout(cfg, v, turns) <==> Never(cfg, v.w, turns, SlipsIn)
    decreases |turns|
  {
    if turns != [] {
      var v' := Follow(cfg, v, turns[0]);
      FollowKeepsInv(cfg, v, turns[0]);
      FollowKeepsWinner(cfg, v, turns[0]);
      if OnlyWinner(v') {
        OneProbeFrom(cfg, v', turns[1..]);
      } else {
        NotThroughout(cfg, v', turns[1..]);
      }
    }
  }

  lemma NotThroughout(cfg: Settings, v: Watch, turns: seq<Turn>)
    requires !OnlyWinner(v)
    ensures !OnlyWinnerThroughout(cfg, v, turns)
  {
  }

  /** For every interleaving from the start: each half-open period admits only the goroutine that began it if and only
      if no turn finds the flag clear, or the time of opening cleared, while half-open. */
  lemma OneProbePerPeriod(cfg: Settings, turns: seq<Turn>)
    ensures OnlyWinnerThroughout(cfg, UNSEEN, turns) <==> Never(cfg, INITIAL, turns, SlipsIn)
  {
    OneProbeFrom(cfg, UNSEEN, turns);
  }

  /** So it is wherever calls are not interrupted: no turn slips in. */
  lemma SerialOneProbe(cfg: Settings, steps: seq<Step>)
    requires Sane(cfg) && Runs(cfg, START, steps)
    ensures OnlyWinnerThroughout(cfg, UNSEEN, SerialTurns(cfg, START, steps))
    ensures forall k | 0 <= k <= |steps| ::
              Matches(Play(cfg, INITIAL, SerialTurns(cfg, START, steps[..k])), After(cfg, START, steps[..k]))
  {
    StartInv(cfg);
    SerialNeverSlips(cfg, INITIAL, START, steps);
    OneProbePerPeriod(cfg, SerialTurns(cfg, START, steps));
    forall k | 0 <= k <= |steps|
      ensures Matches(Play(cfg, INITIAL, SerialTurns(cfg, START, steps[..k])), After(cfg, START, steps[..k]))
    {
      assert steps == steps[..k] + steps[k..];
      RunsCat(cfg, START, steps[..k], steps[k..]);
      SerialRefines(cfg, INITIAL, START, steps[..k]);
    }
  }

  lemma {:induction false} SerialNeverSlips(cfg: Settings, sh: Shared, w: World, steps: seq<Step>)
    requires Sane(cfg) && Inv(cfg, w) && Matches(sh, w) && Runs(cfg, w, steps)
    ensures Never(cfg, sh, SerialTurns(cfg, w, steps), SlipsIn)
    decreases |steps|
  {
    if steps != [] {
      var first, w' := CallTurns(cfg, w, steps[0]), CircuitBreaking.Next(cfg, w, steps[0]);
      InvStep(cfg, w, steps[0]);
      CallMatches(cfg, sh, w, steps[0]);
      CallNeverSlips(cfg, sh, w, steps[0]);
      SerialNeverSlips(cfg, Play(cfg, sh, first), w', steps[1..]);
      NeverCat(cfg, sh, first, SerialTurns(cfg, w', steps[1..]), SlipsIn);
    }
  }

  lemma CallNeverSlips(cfg: Settings, sh: Shared, w: World, s: Step)
    requires Inv(cfg, w) && Matches(sh, w) && CircuitBreaking.Enabled(w, s)
    ensures Never(cfg, sh, CallTurns(cfg, w, s), SlipsIn)
  {
    match s
    case Ask(id, now) =>
      var w1, w2, w3, w4, _ := Unroll(cfg, sh, id, now, true);
      Solo(cfg, sh, id, now, true, AllowTicks(cfg, w.b, now), SlipsIn);
    case Succeeded(id) => InsideNeverSlips(cfg, sh, id, w.now, true, 5);
    case Failed(id, now) => InsideNeverSlips(cfg, sh, id, now, false, 5);
  }

  lemma {:induction false} InsideNeverSlips(cfg: Settings, w: Shared, g: nat, now: int, succeed: bool, n: nat)
    requires Inside(w, g)
    ensures Never(cfg, w, SoloTurns(g, now, succeed, n), SlipsIn)
    decreases n
  {
    if n > 0 {
      InsideStays(cfg, w, Turn(g, now, succeed));
      InsideNeverSlips(cfg, Tick(cfg, w, g, now, succeed), g, now, succeed, n - 1);
      assert SoloTurns(g, now, succeed, n)[1..] == SoloTurns(g, now, succeed, n - 1);
    }
  }

  /** There are two ways to a clear flag: the winner has yet to store it, or a late report has cleared it. */
  lemma {:induction false} WhyFlagIsClear(cfg: Settings, v: Watch, turns: seq<Turn>, g: nat)
    requires WatchInv(v)
    ensures var end := Watched(cfg, v, turns);
            FindsFlagClear(end.w, g) ==> g != end.w.winner && (AtPc(end.w, end.w.winner, StoreProbe) || end.cleared)
    ensures Watched(cfg, v, turns).w == Play(cfg, v.w, turns)
    decreases |turns|
  {
    if turns != [] {
      FollowKeepsInv(cfg, v, turns[0]);
      WhyFlagIsClear(cfg, Follow(cfg, v, turns[0]), turns[1..], g);
    }
  }

  /** There is one way to a cleared time of opening: a success has cleared it since the winner read it. */
  lemma WhyNeverOpened(cfg: Settings, turns: seq<Turn>, g: nat)
    requires forall t | t in turns :: t.now != 0
    ensures var end := Watched(cfg, UNSEEN, turns);
            FindsNeverOpened(end.w, g) ==> g != end.w.winner && end.w.winner in end.outdated
  {
    WatchedKeepsDates(cfg, UNSEEN, turns);
  }

  ghost predicate DateInv(v: Watch) {
    && HalfOpenIsOwned(v.w)
    && (forall g | g in v.dated && g !in v.outdated :: v.w.b.openedAt != 0)
    && (forall g | AtPc(v.w, g, SwapHalfOpen) :: g in v.dated)
    && (v.w.b.state == HalfOpen ==> v.w.winner in v.dated)
  }

  lemma {:induction false} WatchedKeepsDates(cfg: Settings, v: Watch, turns: seq<Turn>)
    requires DateInv(v) && forall t | t in turns :: t.now != 0
    ensures DateInv(Watched(cfg, v, turns))
    decreases |turns|
  {
    if turns != [] {
      FollowKeepsDates(cfg, v, turns[0]);
      WatchedKeepsDates(cfg, Follow(cfg, v, turns[0]), turns[1..]);
    }
  }

  lemma {:induction false} FollowKeepsDates(cfg: Settings, v: Watch, t: Turn)
    requires DateInv(v) && t.now != 0
    ensures DateInv(Follow(cfg, v, t))
  {
    OwnedStep(cfg, v.w, t.g, t.now, t.succeed);
    FollowKeepsReaders(cfg, v, t);
    FollowKeepsTime(cfg, v, t);
  }

  lemma FollowKeepsReaders(cfg: Settings, v: Watch, t: Turn)
    requires forall g | AtPc(v.w, g, SwapHalfOpen) :: g in v.dated
    requires v.w.b.state == HalfOpen ==> v.w.winner in v.dated
    ensures var v' := Follow(cfg, v, t);
            && (forall g | AtPc(v'.w, g, SwapHalfOpen) :: g in v'.dated)
            && (v'.w.b.state == HalfOpen ==> v'.w.winner in v'.dated)
  {
  }

  lemma FollowKeepsTime(cfg: Settings, v: Watch, t: Turn)
    requires t.now != 0 && forall g | g in v.dated && g !in v.outdated :: v.w.b.openedAt != 0
    ensures var v' := Follow(cfg, v, t); forall g | g in v'.dated && g !in v'.outdated :: v'.w.b.openedAt != 0
  {
  }

  /** The second way in, from any breaker past its cooldown while a success has yet to clear the time of opening: two
      goroutines run half-open although none found the flag clear. */
  lemma SecondFindsNeverOpened(cfg: Settings, w: Shared, s: nat, g: nat, h: nat, now: int) returns (turns: seq<Turn>)
    requires w.b.state == Open && w.b.openedAt != 0 && now - w.b.openedAt >= cfg.openDuration
    requires AtPc(w, s, SuccOpenedAt) && g !in w.pcs && h !in w.pcs && g != h
    ensures Play(cfg, w, turns)
            == Shared(w.b.(state := HalfOpen, openedAt := 0, probe := true),
                      w.pcs[s := SuccProbe][g := Running][h := Running], g)
    ensures Never(cfg, w, turns, FindsFlagClear)
  {
    var a, b, c, d := SoloTurns(h, now, true, 2), SoloTurns(g, now, true, 5), SoloTurns(s, now, true, 1),
        SoloTurns(h, now, true, 1);
    turns := a + (b + (c + d));
    var asked := Shared(w.b, w.pcs[h := LoadOpenedAt], w.winner);
    Asks(cfg, w, h, now);
    var won := Shared(w.b.(state := HalfOpen, probe := true), asked.pcs[g := Running], g);
    Probes(cfg, asked, g, now);
    var cleared := Shared(won.b.(openedAt := 0), won.pcs[s := SuccProbe], g);
    OneTurn(cfg, won, s, now);
    var end := Shared(cleared.b, cleared.pcs[h := Running], g);
    OneTurn(cfg, cleared, h, now);
    assert end.pcs == w.pcs[s := SuccProbe][g := Running][h := Running];
    NeverThrough(cfg, won, c, d, cleared, end, FindsFlagClear);
    NeverThrough(cfg, asked, b, c + d, won, end, FindsFlagClear);
    NeverThrough(cfg, w, a, b + (c + d), asked, end, FindsFlagClear);
  }

  lemma NeverThrough(cfg: Settings, w: Shared, a: seq<Turn>, b: seq<Turn>, mid: Shared, end: Shared,
                     bad: (Shared, nat) -> bool)
    requires Play(cfg, w, a) == mid && Never(cfg, w, a, bad) && Play(cfg, mid, b) == end && Never(cfg, mid, b, bad)
    ensures Play(cfg, w, a + b) == end && Never(cfg, w, a + b, bad)
  {
    PlayCat(cfg, w, a, b);
    NeverCat(cfg, w, a, b, bad);
  }

  lemma Asks(cfg: Settings, w: Shared, g: nat, now: int)
    requires w.b.state == Open && g !in w.pcs
    ensures Play(cfg, w, SoloTurns(g, now, true, 2)) == Shared(w.b, w.pcs[g := LoadOpenedAt], w.winner)
    ensures Never(cfg, w, SoloTurns(g, now, true, 2), FindsFlagClear)
  {
    var w1, w2, _, _, _ := Unroll(cfg, w, g, now, true);
    assert w2.pcs == w.pcs[g := LoadOpenedAt];
    Solo(cfg, w, g, now, true, 2, FindsFlagClear);
  }

  lemma OneTurn(cfg: Settings, w: Shared, g: nat, now: int)
    requires !FindsFlagClear(w, g)
    ensures Play(cfg, w, SoloTurns(g, now, true, 1)) == Tick(cfg, w, g, now, true)
    ensures Never(cfg, w, SoloTurns(g, now, true, 1), FindsFlagClear)
  {
    var turns := SoloTurns(g, now, true, 1);
    assert SoloTurns(g, now, true, 0) == [];
    assert turns == [Turn(g, now, true)] && turns[1..] == [];
  }

  lemma {:induction false} Probes(cfg: Settings, w: Shared, g: nat, now: int)
    requires w.b.state == Open && w.b.openedAt != 0 && now - w.b.openedAt >= cfg.openDuration && g !in w.pcs
    ensures Play(cfg, w, SoloTurns(g, now, true, 5))
            == Shared(w.b.(state := HalfOpen, probe := true), w.pcs[g := Running], g)
    ensures Never(cfg, w, SoloTurns(g, now, true, 5), FindsFlagClear)
  {
    var w1, w2, w3, w4, w5 := Unroll(cfg, w, g, now, true);
    assert w5.pcs == w.pcs[g := Running];
    Solo(cfg, w, g, now, true, 5, FindsFlagClear);
  }

  lemma {:induction false} Solo(cfg: Settings, w: Shared, g: nat, now: int, succeed: bool, n: nat,
                                bad: (Shared, nat) -> bool)
    requires forall k | 0 <= k < n :: !bad(Alone(cfg, w, g, now, succeed, k), g)
    ensures Play(cfg, w, SoloTurns(g, now, succeed, n)) == Alone(cfg, w, g, now, succeed, n)
    ensures Never(cfg, w, SoloTurns(g, now, succeed, n), bad)
    decreases n
  {
    if n > 0 {
      assert !bad(Alone(cfg, w, g, now, succeed, 0), g);
      var w' := Tick(cfg, w, g, now, succeed);
      forall k | 0 <= k < n - 1 ensures !bad(Alone(cfg, w', g, now, succeed, k), g) {
        assert Alone(cfg, w, g, now, succeed, k + 1) == Alone(cfg, w', g, now, succeed, k);
      }
      Solo(cfg, w', g, now, succeed, n - 1, bad);
      assert SoloTurns(g, now, succeed, n)[1..] == SoloTurns(g, now, succeed, n - 1);
    }
  }

  /** From the start and for any settings: one request is admitted and half-way through reporting its success, enough
      others fail, and the breaker, open by then, is taken to the second way in. */
  lemma TwoProbesFlagSet(cfg: Settings) returns (before: seq<Turn>, after: seq<Turn>, g: nat, h: nat)
    requires Sane(cfg)
    ensures Play(cfg, INITIAL, before).b.state == Open && Never(cfg, Play(cfg, INITIAL, before), after, FindsFlagClear)
    ensures var end := Play(cfg, INITIAL, before + after);
            end.b.state == HalfOpen && g != h && AtPc(end, g, Running) && AtPc(end, h, Running)
  {
    var n := cfg.threshold;
    before := TripsAround(cfg);
    var w := Play(cfg, INITIAL, before);
    g, h := n + 1, n + 2;
    after := SecondFindsNeverOpened(cfg, w, n, g, h, 1 + cfg.openDuration);
    PlayCat(cfg, INITIAL, before, after);
  }

  /** The first half: the breaker opens while goroutine `threshold` is about to clear the time of opening. */
  lemma TripsAround(cfg: Settings) returns (turns: seq<Turn>)
    requires Sane(cfg)
    ensures var w := Play(cfg, INITIAL, turns);
            && w.b.state == Open && w.b.openedAt == 1 && AtPc(w, cfg.threshold, SuccOpenedAt)
            && forall g | g in w.pcs :: g <= cfg.threshold
  {
    var n := cfg.threshold;
    var trip := TripSteps(0, 1, n);
    StartInv(cfg);
    Trips(cfg, START, 0, 1, n);
    SerialRefines(cfg, INITIAL, START, trip);
    TripIds(0, 1, n);
    SerialIds(cfg, START, trip, n);
    Reports(cfg, n);
    var reporting, failing := SoloTurns(n, 1, true, 5), SerialTurns(cfg, START, trip);
    turns := reporting + failing;
    PlayCat(cfg, INITIAL, reporting, failing);
    Parked(cfg, INITIAL, n, SuccOpenedAt, failing);
  }

  lemma Reports(cfg: Settings, g: nat)
    ensures Play(cfg, INITIAL, SoloTurns(g, 1, true, 5)) == INITIAL.(pcs := INITIAL.pcs[g := SuccOpenedAt])
  {
    var w1, w2, w3, w4, w5 := Unroll(cfg, INITIAL, g, 1, true);
    PlaySolo(cfg, INITIAL, g, 1, true, 5);
    assert w5.pcs == INITIAL.pcs[g := SuccOpenedAt];
  }

  /** A goroutine that makes no turn does not matter to the others. */
  lemma {:induction false} Parked(cfg: Settings, w: Shared, s: nat, pc: Pc, turns: seq<Turn>)
    requires forall t | t in turns :: t.g != s
    ensures Play(cfg, w.(pcs := w.pcs[s := pc]), turns)
            == Play(cfg, w, turns).(pcs := Play(cfg, w, turns).pcs[s := pc])
    decreases |turns|
  {
    if turns != [] {
      var t := turns[0];
      ParkedTick(cfg, w, s, pc, t);
      Parked(cfg, Tick(cfg, w, t.g, t.now, t.succeed), s, pc, turns[1..]);
    }
  }

  lemma {:induction false} ParkedTick(cfg: Settings, w: Shared, s: nat, pc: Pc, t: Turn)
    requires t.g != s
    ensures var w' := Tick(cfg, w, t.g, t.now, t.succeed);
            Tick(cfg, w.(pcs := w.pcs[s := pc]), t.g, t.now, t.succeed) == w'.(pcs := w'.pcs[s := pc])
  {
    var v := w.(pcs := w.pcs[s := pc]);
    TickMoves(cfg, w, t);
    TickMoves(cfg, v, t);
    SameMove(cfg, w, v, t);
    var to := Tick(cfg, w, t.g, t.now, t.succeed).pcs[t.g];
    assert w.pcs[s := pc][t.g := to] == w.pcs[t.g := to][s := pc];
  }

  lemma TickMoves(cfg: Settings, w: Shared, t: Turn)
    ensures var w' := Tick(cfg, w, t.g, t.now, t.succeed); t.g in w'.pcs && w'.pcs == w.pcs[t.g := w'.pcs[t.g]]
  {
  }

  lemma SameMove(cfg: Settings, w: Shared, v: Shared, t: Turn)
    requires w.b == v.b && w.winner == v.winner
    requires t.g in w.pcs <==> t.g in v.pcs
    requires t.g in w.pcs ==> w.pcs[t.g] == v.pcs[t.g]
    ensures var w', v' := Tick(cfg, w, t.g, t.now, t.succeed), Tick(cfg, v, t.g, t.now, t.succeed);
            w'.b == v'.b && w'.winner == v'.winner && t.g in w'.pcs && t.g in v'.pcs && w'.pcs[t.g] == v'.pcs[t.g]
  {
  }

  lemma {:induction false} SerialIds(cfg: Settings, w: World, steps: seq<Step>, s: nat)
    requires forall step | step in steps :: step.id != s
    ensures forall t | t in SerialTurns(cfg, w, steps) :: t.g != s
    decreases |steps|
  {
    if steps != [] {
      assert steps[0] in steps && forall t | t in CallTurns(cfg, w, steps[0]) :: t.g == steps[0].id;
      SerialIds(cfg, CircuitBreaking.Next(cfg, w, steps[0]), steps[1..], s);
    }
  }

  lemma TripIds(base: nat, now: int, n: nat)
    ensures forall s | s in TripSteps(base, now, n) :: s.id < base + n
  {
  }

  lemma PlayCat(cfg: Settings, w: Shared, a: seq<Turn>, b: seq<Turn>)
    ensures Play(cfg, w, a + b) == Play(cfg, Play(cfg, w, a), b)
    decreases |a|
  {
    if a == [] {
      assert a + b == b;
    } else {
      assert (a + b)[1..] == a[1..] + b;
      PlayCat(cfg, Tick(cfg, w, a[0].g, a[0].now, a[0].succeed), a[1..], b);
    }
  }

  lemma {:induction false} NeverCat(cfg: Settings, w: Shared, a: seq<Turn>, b: seq<Turn>, bad: (Shared, nat) -> bool)
    ensures Never(cfg, w, a + b, bad) <==> Never(cfg, w, a, bad) && Never(cfg, Play(cfg, w, a), b, bad)
    decreases |a|
  {
    if a == [] {
      assert a + b == b;
    } else {
      assert (a + b)[0] == a[0] && (a + b)[1..] == a[1..] + b;
      NeverCat(cfg, Tick(cfg, w, a[0].g, a[0].now, a[0].succeed), a[1..], b, bad);
    }
  }
}
