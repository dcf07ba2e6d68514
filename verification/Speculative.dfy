/** Racing two aliases (router/speculative.go): two branches, collected in the order they arrive. */
module Speculative {
  import opened Wrappers
  import opened Fallback
  import opened Ordering

  datatype Name = Cheap | Expensive

  /** What a branch publishes: the result of its fallback run and its events. */
  datatype Branch = Branch(name: Name, result: Result, log: seq<Event>, elapsed: int)

  datatype Speculated = Lost | Won(winner: Name, dep: nat, status: int, cheapElapsed: int, expensiveElapsed: int)

  predicate Errs(b: Branch) {
    !b.result.Served?
  }

  /** The events of a branch fit its result. */
  ghost predicate Ran(b: Branch) {
    Balance(b.log) == if b.result.Served? then 1 else 0
  }

  /** What decides a fallback run. */
  datatype Course = Course(cfg: RoutingConfig, o: Oracle, allowed: seq<bool>)

  /** When a branch publishes: after its run, or, cancelled during its delay or with an alias that resolves to nothing,
      without one. */
  datatype Arrival = Arrival(name: Name, course: Option<Course>, elapsed: int)

  function BranchOf(a: Arrival): (b: Branch)
    ensures b.name == a.name && b.elapsed == a.elapsed
  {
    match a.course
    case None => Branch(a.name, NotFound, [], a.elapsed)
    case Some(c) => var (log, result) := Run(c.cfg, c.o, c.allowed, 0); Branch(a.name, result, log, a.elapsed)
  }

  lemma BranchRan(a: Arrival)
    ensures Ran(BranchOf(a))
  {
    if a.course.Some? {
      RunBalance(a.course.value.cfg, a.course.value.o, a.course.value.allowed, 0);
    }
  }

  predicate WonBy(r: Speculated, b: Branch)
    requires r.Won?
  {
    b.result.Served? && r.winner == b.name && r.dep == b.result.i && r.status == b.result.status
  }

  predicate Elapsed(r: Speculated, b: Branch)
    requires r.Won?
  {
    b.elapsed == if b.name == Cheap then r.cheapElapsed else r.expensiveElapsed
  }

  /** The collecting loop. `closes` lists the losers whose bodies it closes. */
  method Collect(arrivals: seq<Branch>) returns (r: Speculated, closes: seq<Branch>)
    requires |arrivals| == 2 && arrivals[0].name != arrivals[1].name
    ensures r == Lost <==> Errs(arrivals[0]) && Errs(arrivals[1])
    ensures r.Won? ==> WonBy(r, if Errs(arrivals[0]) then arrivals[1] else arrivals[0])
    ensures r.Won? ==> Elapsed(r, arrivals[0]) && Elapsed(r, arrivals[1])
    ensures closes == if Errs(arrivals[0]) || Errs(arrivals[1]) then [] else [arrivals[1]]
  {
    var winner: Option<Branch>, losers: seq<Branch> := None, [];
    for i := 0 to 2
      invariant i == 0 ==> winner == None && losers == []
      invariant i == 1 ==>
                  if Errs(arrivals[0]) then winner == None && losers == [arrivals[0]]
                  else winner == Some(arrivals[0]) && losers == []
      invariant i == 2 ==>
                  if Errs(arrivals[0]) then
                    (if Errs(arrivals[1]) then winner == None && losers == [arrivals[0], arrivals[1]]
                     else winner == Some(arrivals[1]) && losers == [arrivals[0]])
                  else winner == Some(arrivals[0]) && losers == [arrivals[1]]
    {
      var br := arrivals[i];
      if !br.result.Served? {
        losers := losers + [br];
        continue;
      }
      if winner == None {
        winner := Some(br);
        continue;
      }
      losers := losers + [br];
    }
    closes := [];
    for i := 0 to |losers|
      invariant |losers| <= 2
      invariant closes == if i > 0 && losers[0].result.Served? then
                            (if i > 1 && losers[1].result.Served? then [losers[0], losers[1]] else [losers[0]])
                          else if i > 1 && losers[1].result.Served? then [losers[1]] else []
    {
      if losers[i].result.Served? {
        closes := closes + [losers[i]];
      }
    }
    if winner == None {
      return Lost, closes;
    }
    var w := winner.value;
    var cheap, expensive := 0, 0;
    if w.name == Cheap { cheap := w.elapsed; } else { expensive := w.elapsed; }
    for i := 0 to |losers|
      invariant |losers| == 1
      invariant cheap == if w.name == Cheap then w.elapsed else if i == 1 then losers[0].elapsed else 0
      invariant expensive == if w.name == Expensive then w.elapsed else if i == 1 then losers[0].elapsed else 0
    {
      if losers[i].name == Cheap { cheap := losers[i].elapsed; } else { expensive := losers[i].elapsed; }
    }
    r := Won(w.name, w.result.i, w.result.status, cheap, expensive);
  }

  /** Over both branches and the collector one body is left open if there is a winner and none otherwise,
      whichever branch arrives first. */
  lemma SpeculativeBalance(arrivals: seq<Branch>, closes: seq<Branch>)
    requires |arrivals| == 2 && Ran(arrivals[0]) && Ran(arrivals[1])
    requires closes == if Errs(arrivals[0]) || Errs(arrivals[1]) then [] else [arrivals[1]]
    ensures Balance(arrivals[0].log + arrivals[1].log) - |closes| ==
            if Errs(arrivals[0]) && Errs(arrivals[1]) then 0 else 1
  {
    CountCat(arrivals[0].log, arrivals[1].log, IsOpen);
    CountCat(arrivals[0].log, arrivals[1].log, IsClose);
  }

  /** Without two different aliases there is nothing to race: the plain path, credited to the cheap one. Either way one
      body is left open if there is a winner and none otherwise. */
  method ExecuteSpeculative(cheapAlias: string, expensiveAlias: string, plain: Arrival, arrivals: seq<Arrival>)
    returns (r: Speculated, closes: seq<Branch>)
    requires |arrivals| == 2 && arrivals[0].name != arrivals[1].name
    ensures
      if cheapAlias == "" || expensiveAlias == "" || cheapAlias == expensiveAlias then
        var b := BranchOf(plain);
        && closes == [] && r == (if Errs(b) then Lost else Won(Cheap, b.result.i, b.result.status, 0, 0))
        && Balance(b.log) == if r.Won? then 1 else 0
      else
        var first, second := BranchOf(arrivals[0]), BranchOf(arrivals[1]);
        && (r == Lost <==> Errs(first) && Errs(second))
        && (r.Won? ==> WonBy(r, if Errs(first) then second else first) && Elapsed(r, first) && Elapsed(r, second))
        && closes == (if Errs(first) || Errs(second) then [] else [second])
        && Balance(first.log + second.log) - |closes| == if r.Won? then 1 else 0
  {
    if cheapAlias == "" || expensiveAlias == "" || cheapAlias == expensiveAlias {
      var b := BranchOf(plain);
      BranchRan(plain);
      return if b.result.Served? then Won(Cheap, b.result.i, b.result.status, 0, 0) else Lost, [];
    }
    var branches := [BranchOf(arrivals[0]), BranchOf(arrivals[1])];
    r, closes := Collect(branches);
    BranchRan(arrivals[0]);
    BranchRan(arrivals[1]);
    SpeculativeBalance(branches, closes);
  }
}
