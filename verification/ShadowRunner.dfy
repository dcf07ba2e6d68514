/** The shadow limiter of smartroute/shadow.go: an optimistic counter shared by any number of goroutines, each
    atomic add a step of its own. A goroutine acquires once and, if it holds a slot, releases it once. */
module ShadowRunner {

  datatype Pc =
    | BackingOut   // Acquire: the add went past the limit, the compensating add is still to come
    | Refused
    | Launching    // Acquire: the slot is held, launched.Add(1) is still to come
    | Running      // holds the release function
    | Released

  /** A goroutine that is not in `pcs` has not called Acquire yet. */
  datatype Runner = Runner(maxConcurrent: int, inflight: int, launched: nat, pcs: map<nat, Pc>)

  function New(maxConcurrent: int): (r: Runner)
    ensures Inv(r) && r.inflight == r.launched == 0 && r.pcs == map[]
    ensures r.maxConcurrent > 0 && (maxConcurrent > 0 ==> r.maxConcurrent == maxConcurrent)
    ensures maxConcurrent <= 0 ==> r.maxConcurrent == 8
  {
    Runner(if maxConcurrent <= 0 then 8 else maxConcurrent, 0, 0, map[])
  }

  function At(r: Runner, pc: Pc): set<nat> {
    set g | g in r.pcs && r.pcs[g] == pc
  }

  /** Slots in use. */
  function Holders(r: Runner): set<nat> {
    At(r, Launching) + At(r, Running)
  }

  ghost predicate Inv(r: Runner) {
    && r.inflight == |Holders(r)| + |At(r, BackingOut)|
    && |Holders(r)| <= r.maxConcurrent
    && r.launched == |At(r, Running)| + |At(r, Released)|
  }

  /** The next atomic add of goroutine `g`. */
  function Tick(r: Runner, g: nat): Runner {
    if g !in r.pcs then
      r.(inflight := r.inflight + 1,
         pcs := r.pcs[g := if r.inflight + 1 > r.maxConcurrent then BackingOut else Launching])
    else
      match r.pcs[g]
      case BackingOut => r.(inflight := r.inflight - 1, pcs := r.pcs[g := Refused])
      case Launching => r.(launched := r.launched + 1, pcs := r.pcs[g := Running])
      case Running => r.(inflight := r.inflight - 1, pcs := r.pcs[g := Released])
      case _ => r
  }

  function Play(r: Runner, turns: seq<nat>): Runner {
    if turns == [] then r else Tick(Play(r, turns[..|turns| - 1]), turns[|turns| - 1])
  }

  /** Moving one goroutine moves it from its set to the other. */
  lemma Moves(r: Runner, r': Runner, g: nat, to: Pc)
    requires r'.pcs == r.pcs[g := to] && (g in r.pcs ==> r.pcs[g] != to)
    ensures |At(r', to)| == |At(r, to)| + 1
    ensures forall pc | pc != to :: |At(r', pc)| == |At(r, pc)| - if g in r.pcs && r.pcs[g] == pc then 1 else 0
  {
    assert At(r', to) == At(r, to) + {g} && g !in At(r, to);
    forall pc | pc != to ensures |At(r', pc)| == |At(r, pc)| - if g in r.pcs && r.pcs[g] == pc then 1 else 0 {
      assert At(r', pc) == At(r, pc) - {g};
    }
  }

  lemma TickKeepsInv(r: Runner, g: nat)
    requires Inv(r)
    ensures Inv(Tick(r, g))
  {
    var r' := Tick(r, g);
    Disjoint(r);
    Disjoint(r');
    if g !in r.pcs || r.pcs[g] in {BackingOut, Launching, Running} {
      Moves(r, r', g, r'.pcs[g]);
    }
  }

  lemma Disjoint(r: Runner)
    ensures |Holders(r)| == |At(r, Launching)| + |At(r, Running)|
  {
    assert At(r, Launching) !! At(r, Running);
  }

  /** Whatever the interleaving: the counter is the holders and those about to back out, and the limit holds. */
  lemma {:induction false} LimitAlways(maxConcurrent: int, turns: seq<nat>)
    ensures Inv(Play(New(maxConcurrent), turns))
    ensures Play(New(maxConcurrent), turns).maxConcurrent == New(maxConcurrent).maxConcurrent
  {
    if turns != [] {
      LimitAlways(maxConcurrent, turns[..|turns| - 1]);
      TickKeepsInv(Play(New(maxConcurrent), turns[..|turns| - 1]), turns[|turns| - 1]);
    }
  }

  /** A caller gets a slot exactly when the holders and those backing out leave one. */
  lemma AdmittedIff(r: Runner, g: nat)
    requires Inv(r) && g !in r.pcs
    ensures g in Holders(Tick(r, g)) <==> |Holders(r)| + |At(r, BackingOut)| < r.maxConcurrent
    ensures g in At(Tick(r, g), BackingOut) <==> !(|Holders(r)| + |At(r, BackingOut)| < r.maxConcurrent)
  {
  }

  /** When everyone is done the counter is back at zero, and everyone was either launched or refused. */
  lemma Drains(r: Runner)
    requires Inv(r) && forall g | g in r.pcs :: r.pcs[g] in {Refused, Released}
    ensures r.inflight == 0 && r.launched == |At(r, Released)|
    ensures r.launched + |At(r, Refused)| == |r.pcs.Keys|
  {
    assert Holders(r) == {} && At(r, BackingOut) == {} && At(r, Running) == {};
    assert r.pcs.Keys == At(r, Released) + At(r, Refused) && At(r, Released) !! At(r, Refused);
  }

  /** A caller can be refused while no slot is held at all: one that backs out still counts. */
  lemma RefusedWhileFree()
    ensures var r := Play(New(1), [1, 1, 2, 1]);
            Holders(r) == {} && 3 in At(Tick(r, 3), BackingOut)
  {
    assert [1, 1, 2, 1][..3] == [1, 1, 2] && [1, 1, 2][..2] == [1, 1] && [1, 1][..1] == [1] && [1][..0] == [];
    assert Play(New(1), [1]) == Runner(1, 1, 0, map[1 := Launching]);
    assert Play(New(1), [1, 1]) == Runner(1, 1, 1, map[1 := Running]);
    assert Play(New(1), [1, 1, 2]) == Runner(1, 2, 1, map[1 := Running, 2 := BackingOut]);
    assert Play(New(1), [1, 1, 2, 1]) == Runner(1, 1, 1, map[1 := Released, 2 := BackingOut]);
    assert Tick(Runner(1, 1, 1, map[1 := Released, 2 := BackingOut]), 3).pcs[3] == BackingOut;
  }
}
