/** The ordering strategies of router/router.go on one deployment list: priority, cheapest, weighted,
    round robin and least latency. */
module Ordering {
  import opened Wrappers
  import opened Rotation
  import opened CircuitBreaking

  /** The organisation of a deployment; the nil UUID is 0. */
  type Uuid = nat

  const NIL_UUID: Uuid := 0

  class DeploymentInfo {
    const provider: string
    const providerModel: string
    const priority: int
    const orgId: Option<Uuid>
    const weight: int
    const strategy: string
    const breaker: CircuitBreaker
    var latencyEWMA: int

    constructor (provider: string, providerModel: string, priority: int, orgId: Option<Uuid>, weight: int,
                 strategy: string, breaker: CircuitBreaker)
      ensures this.provider == provider && this.providerModel == providerModel && this.priority == priority
      ensures this.orgId == orgId && this.weight == weight && this.strategy == strategy && this.breaker == breaker
    {
      this.provider, this.providerModel, this.priority := provider, providerModel, priority;
      this.orgId, this.weight, this.strategy, this.breaker := orgId, weight, strategy, breaker;
      latencyEWMA := 0;
    }
  }

  // ---- insertion sort --------------------------------------------------------------------------

  /** The last element sinks past the elements it beats. */
  function Sink<T>(s: seq<T>, x: T, beats: (T, T) -> bool): seq<T>
    decreases |s|
  {
    if s == [] || !beats(x, s[|s| - 1]) then s + [x]
    else Sink(s[..|s| - 1], x, beats) + [s[|s| - 1]]
  }

  function Sorted<T>(s: seq<T>, beats: (T, T) -> bool): (r: seq<T>)
    decreases |s|
  {
    if s == [] then [] else Sink(Sorted(s[..|s| - 1], beats), s[|s| - 1], beats)
  }

  /** The inner loop: element i moves down by swaps until it no longer beats its neighbour. */
  method SinkInPlace<T>(a: array<T>, i: nat, beats: (T, T) -> bool)
    requires i < a.Length
    modifies a
    ensures a[..i + 1] == Sink(old(a[..i]), old(a[i]), beats) && a[i + 1..] == old(a[i + 1..])
  {
    ghost var s, x := a[..i], a[i];
    var j := i;
    assert s[..i] == s;
    while j > 0
      invariant 0 <= j <= i
      invariant (forall k | 0 <= k < j :: a[k] == s[k]) && a[j] == x && (forall k | j < k <= i :: a[k] == s[k - 1])
      invariant a[i + 1..] == old(a[i + 1..])
      invariant Sink(s, x, beats) == Sink(s[..j], x, beats) + s[j..]
    {
      if beats(a[j], a[j - 1]) {
        SinkStep(s, x, beats, j);
        a[j], a[j - 1] := a[j - 1], a[j];
      } else {
        break;
      }
      j := j - 1;
    }
    SinkStop(s, x, beats, j);
    assert a[..i + 1] == s[..j] + [x] + s[j..];
  }

  /** The in-place insertion sort both priorityOrdered and cheapest run. */
  method SortInPlace<T>(a: array<T>, beats: (T, T) -> bool)
    modifies a
    ensures a[..] == Sorted(old(a[..]), beats)
  {
    ghost var was := a[..];
    var i := 1;
    if a.Length > 0 { SortedOne(was[..1], beats); }
    while i < a.Length
      invariant a.Length == 0 || 1 <= i <= a.Length
      invariant a.Length > 0 ==> a[..i] == Sorted(was[..i], beats) && a[i..] == was[i..]
    {
      SortedNext(was, beats, i);
      assert a[i] == a[i..][0] && a[i + 1..] == a[i..][1..];
      SinkInPlace(a, i, beats);
      i := i + 1;
    }
    assert a[..] == a[..a.Length] && was == was[..a.Length];
  }

  lemma SortedNext<T>(s: seq<T>, beats: (T, T) -> bool, i: nat)
    requires i < |s|
    ensures Sorted(s[..i + 1], beats) == Sink(Sorted(s[..i], beats), s[i], beats)
    ensures s[i..][0] == s[i] && s[i..][1..] == s[i + 1..]
  {
    assert s[..i + 1][..i] == s[..i];
  }

  lemma SortedOne<T>(s: seq<T>, beats: (T, T) -> bool)
    requires |s| == 1
    ensures Sorted(s, beats) == s
  {
    assert s[..0] == [];
    assert Sorted(s, beats) == Sink(Sorted(s[..0], beats), s[0], beats) == [] + [s[0]];
  }

  lemma SinkStep<T>(s: seq<T>, x: T, beats: (T, T) -> bool, j: nat)
    requires 0 < j <= |s| && beats(x, s[j - 1])
    ensures Sink(s[..j], x, beats) + s[j..] == Sink(s[..j - 1], x, beats) + s[j - 1..]
  {
    assert s[..j][..j - 1] == s[..j - 1];
    assert [s[j - 1]] + s[j..] == s[j - 1..];
  }

  lemma SinkStop<T>(s: seq<T>, x: T, beats: (T, T) -> bool, j: nat)
    requires j <= |s| && (j == 0 || !beats(x, s[j - 1]))
    requires Sink(s, x, beats) == Sink(s[..j], x, beats) + s[j..]
    ensures Sink(s, x, beats) == s[..j] + [x] + s[j..]
  {
    var init := s[..j];
    assert j > 0 ==> init[|init| - 1] == s[j - 1];
    assert Sink(init, x, beats) == init + [x];
  }

  // ---- what the sort gives ---------------------------------------------------------------------

  /** Unknown ranks come last; known ones go by cost. */
  datatype Rank = Rank(unknown: bool, cost: real)

  predicate Less(a: Rank, b: Rank) {
    !a.unknown && (b.unknown || a.cost < b.cost)
  }

  /** The sort is by this rank: an element beats an earlier one exactly when its rank is less. */
  ghost predicate ByRank<T>(s: seq<T>, beats: (T, T) -> bool, rank: T -> Rank) {
    forall i, j | 0 <= i < j < |s| :: beats(s[j], s[i]) == Less(rank(s[j]), rank(s[i]))
  }

  ghost predicate Ascending<T>(s: seq<T>, rank: T -> Rank) {
    forall i, j | 0 <= i < j < |s| :: !Less(rank(s[j]), rank(s[i]))
  }

  /** The elements of one rank, in order. */
  function OfRank<T>(s: seq<T>, rank: T -> Rank, r: Rank): seq<T>
    decreases |s|
  {
    if s == [] then [] else OfRank(s[..|s| - 1], rank, r) + if rank(s[|s| - 1]) == r then [s[|s| - 1]] else []
  }

  lemma {:induction false} SinkPermutes<T>(s: seq<T>, x: T, beats: (T, T) -> bool)
    ensures multiset(Sink(s, x, beats)) == multiset(s) + multiset{x}
    decreases |s|
  {
    if s != [] && beats(x, s[|s| - 1]) {
      SinkPermutes(s[..|s| - 1], x, beats);
      assert s == s[..|s| - 1] + [s[|s| - 1]];
    }
  }

  lemma {:induction false} SinkSorted<T>(s: seq<T>, x: T, beats: (T, T) -> bool, rank: T -> Rank)
    requires Ascending(s, rank) && forall i | 0 <= i < |s| :: beats(x, s[i]) == Less(rank(x), rank(s[i]))
    ensures Ascending(Sink(s, x, beats), rank)
    decreases |s|
  {
    if s != [] && beats(x, s[|s| - 1]) {
      var init, last := s[..|s| - 1], s[|s| - 1];
      SinkSorted(init, x, beats, rank);
      AscendingOnto(Sink(init, x, beats), init, x, last, beats, rank);
    } else {
      AscendingEnd(s, x, rank);
    }
  }

  lemma AscendingEnd<T>(s: seq<T>, x: T, rank: T -> Rank)
    requires Ascending(s, rank) && (s != [] ==> !Less(rank(x), rank(s[|s| - 1])))
    ensures Ascending(s + [x], rank)
  {
    forall i | 0 <= i < |s| ensures !Less(rank(x), rank(s[i])) {
      assert i < |s| - 1 ==> !Less(rank(s[|s| - 1]), rank(s[i]));
    }
  }

  lemma {:induction false} AscendingOnto<T>(r: seq<T>, init: seq<T>, x: T, last: T, beats: (T, T) -> bool,
                                            rank: T -> Rank)
    requires Ascending(r, rank) && r == Sink(init, x, beats)
    requires Less(rank(x), rank(last)) && forall i | 0 <= i < |init| :: !Less(rank(last), rank(init[i]))
    ensures Ascending(r + [last], rank)
  {
    SinkPermutes(init, x, beats);
    forall i | 0 <= i < |r| ensures !Less(rank(last), rank(r[i])) {
      assert r[i] in multiset(r);
      assert r[i] == x || r[i] in init;
    }
  }

  lemma {:induction false} SinkStable<T>(s: seq<T>, x: T, beats: (T, T) -> bool, rank: T -> Rank, r: Rank)
    requires forall i | 0 <= i < |s| :: beats(x, s[i]) == Less(rank(x), rank(s[i]))
    ensures OfRank(Sink(s, x, beats), rank, r) == OfRank(s + [x], rank, r)
    decreases |s|
  {
    assert (s + [x])[..|s|] == s;
    if s != [] && beats(x, s[|s| - 1]) {
      var init, last := s[..|s| - 1], s[|s| - 1];
      SinkStable(init, x, beats, rank, r);
      assert (init + [x])[..|init|] == init;
      var t := Sink(init, x, beats);
      assert (t + [last])[..|t|] == t;
      assert Less(rank(x), rank(last));
    }
  }

  /** Before the last element sinks, it compares with the sorted others as it did with the given ones. */
  lemma SinkCompares<T>(s: seq<T>, beats: (T, T) -> bool, rank: T -> Rank, t: seq<T>)
    requires s != [] && ByRank(s, beats, rank) && multiset(t) == multiset(s[..|s| - 1])
    ensures forall i | 0 <= i < |t| :: beats(s[|s| - 1], t[i]) == Less(rank(s[|s| - 1]), rank(t[i]))
  {
    var init, x := s[..|s| - 1], s[|s| - 1];
    forall i | 0 <= i < |t| ensures beats(x, t[i]) == Less(rank(x), rank(t[i])) {
      assert t[i] in multiset(t);
      var k :| 0 <= k < |init| && init[k] == t[i];
      assert s[k] == t[i];
    }
  }

  /** The sort returns the elements with ranks ascending, */
  lemma {:induction false} SortedAscending<T>(s: seq<T>, beats: (T, T) -> bool, rank: T -> Rank)
    requires ByRank(s, beats, rank)
    ensures multiset(Sorted(s, beats)) == multiset(s) && |Sorted(s, beats)| == |s|
    ensures Ascending(Sorted(s, beats), rank)
    decreases |s|
  {
    SortedPermutes(s, beats);
    SameCount(Sorted(s, beats), s);
    if s != [] {
      var init := s[..|s| - 1];
      SortedAscending(init, beats, rank);
      SinkCompares(s, beats, rank, Sorted(init, beats));
      SinkSorted(Sorted(init, beats), s[|s| - 1], beats, rank);
    }
  }

  lemma SameCount<T>(a: seq<T>, b: seq<T>)
    requires multiset(a) == multiset(b)
    ensures |a| == |b|
  {
    assert |multiset(a)| == |a| && |multiset(b)| == |b|;
  }

  /** and those of equal rank in their original order. */
  lemma {:induction false} SortedStable<T>(s: seq<T>, beats: (T, T) -> bool, rank: T -> Rank, r: Rank)
    requires ByRank(s, beats, rank)
    ensures OfRank(Sorted(s, beats), rank, r) == OfRank(s, rank, r)
    decreases |s|
  {
    if s != [] {
      var init := s[..|s| - 1];
      var t := Sorted(init, beats);
      SortedAscending(init, beats, rank);
      SinkCompares(s, beats, rank, t);
      SortedStable(init, beats, rank, r);
      SinkStable(t, s[|s| - 1], beats, rank, r);
      assert (t + [s[|s| - 1]])[..|t|] == t;
    }
  }

  // ---- rotating ties ---------------------------------------------------------------------------

  /** Length of the run of equal ranks at the front. */
  function RunLength(ks: seq<Rank>): (m: nat)
    requires ks != []
    ensures 1 <= m <= |ks| && forall i | 0 <= i < m :: ks[i] == ks[0]
    ensures m < |ks| ==> ks[m] != ks[0]
  {
    if |ks| == 1 || ks[1] != ks[0] then 1 else 1 + RunLength(ks[1..])
  }

  predicate Rotates(ks: seq<Rank>)
    requires ks != []
  {
    RunLength(ks) > 1 && !ks[0].unknown
  }

  /** Each run of equal known ranks is rotated by the counter, which it bumps once. */
  function RotateTies<T>(s: seq<T>, ks: seq<Rank>, c: nat): (r: seq<T>)
    requires |s| == |ks|
    ensures |r| == |s|
    decreases |s|
  {
    if s == [] then []
    else
      var m := RunLength(ks);
      if Rotates(ks) then Rotate(s[..m], c % m) + RotateTies(s[m..], ks[m..], c + 1)
      else s[..m] + RotateTies(s[m..], ks[m..], c)
  }

  /** How often one call bumps the counter: the number of tie groups. */
  function TieGroups(ks: seq<Rank>): nat
    decreases |ks|
  {
    if ks == [] then 0 else (if Rotates(ks) then 1 else 0) + TieGroups(ks[RunLength(ks)..])
  }

  /** Where the k-th tie group starts, and its size. */
  function GroupStart(ks: seq<Rank>, k: nat): (p: nat)
    requires k < TieGroups(ks)
    ensures p < |ks|
    decreases |ks|
  {
    if Rotates(ks) && k == 0 then 0
    else RunLength(ks) + GroupStart(ks[RunLength(ks)..], if Rotates(ks) then k - 1 else k)
  }

  function GroupSize(ks: seq<Rank>, k: nat): (m: nat)
    requires k < TieGroups(ks)
    ensures 1 < m <= |ks| - GroupStart(ks, k)
    decreases |ks|
  {
    if Rotates(ks) && k == 0 then RunLength(ks)
    else GroupSize(ks[RunLength(ks)..], if Rotates(ks) then k - 1 else k)
  }

  /** One step of RotateTies, read from position `start` of the whole list. */
  lemma TiesStep<T>(s: seq<T>, ks: seq<Rank>, start: nat, end: nat, c: nat, c': nat, group: seq<T>, m: nat,
                    head: seq<T>)
    requires |s| == |ks| && start < |s| && end == start + m && m == RunLength(ks[start..]) && group == s[start..end]
    requires c' == if Rotates(ks[start..]) then c + 1 else c
    requires head == if Rotates(ks[start..]) then Rotate(group, c % m) else group
    ensures RotateTies(s[start..], ks[start..], c) == head + RotateTies(s[end..], ks[end..], c')
    ensures c + TieGroups(ks[start..]) == c' + TieGroups(ks[end..])
  {
    var s', ks' := s[start..], ks[start..];
    Slices(s, start, end);
    Slices(ks, start, end);
    assert s'[..m] == group && s'[m..] == s[end..] && ks'[m..] == ks[end..];
    TiesUnfold(s', ks', m, c, c', group, head);
  }

  lemma TiesUnfold<T>(s: seq<T>, ks: seq<Rank>, m: nat, c: nat, c': nat, group: seq<T>, head: seq<T>)
    requires |s| == |ks| && s != [] && m == RunLength(ks) && c' == (if Rotates(ks) then c + 1 else c) && group == s[..m]
    requires head == if Rotates(ks) then Rotate(group, c % m) else group
    ensures RotateTies(s, ks, c) == head + RotateTies(s[m..], ks[m..], c')
    ensures c + TieGroups(ks) == c' + TieGroups(ks[m..])
  {
  }

  lemma Slices<T>(s: seq<T>, start: nat, end: nat)
    requires start <= end <= |s|
    ensures s[start..][..end - start] == s[start..end] && s[start..][end - start..] == s[end..]
  {
  }

  /** From the k-th group on, the list comes out as if the counter had begun at its turn. */
  lemma {:induction false} FromGroup<T>(s: seq<T>, ks: seq<Rank>, c: nat, k: nat, at: nat, turn: nat)
    requires |s| == |ks| && k < TieGroups(ks) && at == GroupStart(ks, k) && turn == c + k
    ensures RotateTies(s, ks, c)[at..] == RotateTies(s[at..], ks[at..], turn)
    ensures Rotates(ks[at..]) && RunLength(ks[at..]) == GroupSize(ks, k)
    decreases |s|
  {
    var m, r := RunLength(ks), RotateTies(s, ks, c);
    GroupIsHere(ks, k);
    if Rotates(ks) && k == 0 {
      assert s[0..] == s && ks[0..] == ks && r[0..] == r;
    } else {
      var k', c' := if Rotates(ks) then k - 1 else k, if Rotates(ks) then c + 1 else c;
      FromGroup(s[m..], ks[m..], c', k', at - m, turn);
      RotateTiesTail(s, ks, c, m, c');
      DropTwice(s, m, at);
      DropTwice(ks, m, at);
      DropTwice(r, m, at);
    }
  }

  lemma DropTwice<T>(s: seq<T>, m: nat, at: nat)
    requires m <= at <= |s|
    ensures s[m..][at - m..] == s[at..]
  {
  }

  /** The k-th group is the first run or a group of what follows it. */
  lemma GroupIsHere(ks: seq<Rank>, k: nat)
    requires k < TieGroups(ks)
    ensures var m, here := RunLength(ks), Rotates(ks) && k == 0;
            if here then GroupStart(ks, k) == 0 && GroupSize(ks, k) == m
            else var k' := if Rotates(ks) then k - 1 else k;
                 k' < TieGroups(ks[m..]) && GroupStart(ks, k) == m + GroupStart(ks[m..], k')
                     && GroupSize(ks, k) == GroupSize(ks[m..], k')
  {
  }

  lemma RotateTiesTail<T>(s: seq<T>, ks: seq<Rank>, c: nat, m: nat, c': nat)
    requires |s| == |ks| && ks != [] && m == RunLength(ks) && c' == if Rotates(ks) then c + 1 else c
    ensures RotateTies(s, ks, c)[m..] == RotateTies(s[m..], ks[m..], c')
  {
  }

  /** Rotation moves elements only within runs of one rank. */
  lemma {:induction false} RotateTiesPermutes<T>(s: seq<T>, ks: seq<Rank>, c: nat)
    requires |s| == |ks|
    ensures multiset(RotateTies(s, ks, c)) == multiset(s)
    decreases |s|
  {
    if s != [] {
      var m := RunLength(ks);
      assert s == s[..m] + s[m..];
      RotateTiesPermutes(s[m..], ks[m..], if Rotates(ks) then c + 1 else c);
      RotateHalves(s[..m], c % m);
    }
  }

  lemma {:induction false} RotateTiesRanks<T>(s: seq<T>, ks: seq<Rank>, c: nat, rank: T -> Rank)
    requires |s| == |ks| && forall i | 0 <= i < |s| :: ks[i] == rank(s[i])
    ensures forall i | 0 <= i < |s| :: rank(RotateTies(s, ks, c)[i]) == ks[i]
    decreases |s|
  {
    if s != [] {
      var m := RunLength(ks);
      var c' := if Rotates(ks) then c + 1 else c;
      RotateTiesRanks(s[m..], ks[m..], c', rank);
      HeadRanks(s[..m], ks, c % m, rank);
      RanksJoin(s, ks, if Rotates(ks) then Rotate(s[..m], c % m) else s[..m], RotateTies(s[m..], ks[m..], c'), rank);
    }
  }

  lemma HeadRanks<T>(s: seq<T>, ks: seq<Rank>, shift: nat, rank: T -> Rank)
    requires 0 < |s| <= |ks| && forall i | 0 <= i < |s| :: rank(s[i]) == ks[i] == ks[0]
    ensures forall i | 0 <= i < |s| :: rank(Rotate(s, shift)[i]) == ks[i]
  {
    forall i | 0 <= i < |s| ensures rank(Rotate(s, shift)[i]) == ks[i] {
      assert Rotate(s, shift)[i] in s;
    }
  }

  lemma RanksJoin<T>(s: seq<T>, ks: seq<Rank>, head: seq<T>, tail: seq<T>, rank: T -> Rank)
    requires |head| + |tail| == |s| == |ks|
    requires forall i | 0 <= i < |head| :: rank(head[i]) == ks[i]
    requires forall i | 0 <= i < |tail| :: rank(tail[i]) == ks[|head|..][i]
    ensures forall i | 0 <= i < |s| :: rank((head + tail)[i]) == ks[i]
  {
    forall i | |head| <= i < |s| ensures rank((head + tail)[i]) == ks[i] {
      assert (head + tail)[i] == tail[i - |head|] && ks[|head|..][i - |head|] == ks[i];
    }
  }

  /** The grouping loop of priorityOrdered and cheapest, in place. */
  method RotateInPlace<T>(ordered: array<T>, ks: seq<Rank>, counter: nat) returns (counter': nat)
    requires ordered.Length == |ks|
    modifies ordered
    ensures ordered[..] == RotateTies(old(ordered[..]), ks, counter)
    ensures counter' == counter + TieGroups(ks)
  {
    var n, start := ordered.Length, 0;
    counter' := counter;
    ghost var was := ordered[..];
    while start < n
      invariant 0 <= start <= n
      invariant ordered[start..] == was[start..]
      invariant ordered[..start] + RotateTies(was[start..], ks[start..], counter') == RotateTies(was, ks, counter)
      invariant counter' + TieGroups(ks[start..]) == counter + TieGroups(ks)
    {
      var end := RunEnd(ks, start);
      ghost var before, c := ordered[..], counter';
      assert ks[start..][0] == ks[start];
      SliceOf(before, was, start, end);
      if end - start > 1 && !ks[start].unknown {
        RotateSlice(ordered, start, end, counter' % (end - start));
        counter' := counter' + 1;
      }
      ghost var head, rest := ordered[start..end], RotateTies(was[end..], ks[end..], counter');
      TiesStep(was, ks, start, end, c, counter', was[start..end], end - start, head);
      SplitAtEnd(ordered[..], start, end);
      Reassociate(before[..start], head, rest);
      assert ordered[..end] + rest == before[..start] + (head + rest);
      start := end;
    }
    assert ordered[..] == ordered[..n];
    assert ordered[..n] + [] == ordered[..n];
  }

  lemma SliceOf<T>(a: seq<T>, b: seq<T>, start: nat, end: nat)
    requires |a| == |b| && start <= end <= |a| && a[start..] == b[start..]
    ensures a[start..end] == b[start..end] && a[end..] == b[end..]
  {
    assert a[start..end] == a[start..][..end - start] && a[end..] == a[start..][end - start..];
    assert b[start..end] == b[start..][..end - start] && b[end..] == b[start..][end - start..];
  }

  lemma SplitAtEnd<T>(a: seq<T>, start: nat, end: nat)
    requires start <= end <= |a|
    ensures a[..end] == a[..start] + a[start..end]
  {
  }

  method RunEnd(ks: seq<Rank>, start: nat) returns (end: nat)
    requires start < |ks|
    ensures end == start + RunLength(ks[start..])
  {
    end := start + 1;
    assert ks[start..][0] == ks[start];
    while end < |ks| && ks[end] == ks[start]
      invariant start < end <= |ks|
      invariant forall k | start <= k < end :: ks[k] == ks[start]
    {
      end := end + 1;
    }
    RunLengthIs(ks[start..], end - start);
  }

  lemma RunLengthIs(ks: seq<Rank>, m: nat)
    requires 1 <= m <= |ks| && (forall i | 0 <= i < m :: ks[i] == ks[0]) && (m < |ks| ==> ks[m] != ks[0])
    ensures RunLength(ks) == m
  {
    if m > 1 {
      assert ks[1] == ks[0];
      RunLengthIs(ks[1..], m - 1);
    }
  }

  method RotateSlice<T>(ordered: array<T>, start: nat, end: nat, idx: nat)
    requires start < end <= ordered.Length
    modifies ordered
    ensures ordered[..start] == old(ordered[..start]) && ordered[end..] == old(ordered[end..])
    ensures ordered[start..end] == Rotate(old(ordered[start..end]), idx)
  {
    var group := ordered[start..end];
    for i := 0 to end - start
      invariant forall k | start <= k < start + i :: ordered[k] == group[(idx + (k - start)) % (end - start)]
      invariant ordered[..start] == old(ordered[..start]) && ordered[end..] == old(ordered[end..])
    {
      ordered[start + i] := group[(idx + i) % (end - start)];
    }
  }

  // ---- priority and cheapest -------------------------------------------------------------------

  function RanksOf<T>(s: seq<T>, rank: T -> Rank): (ks: seq<Rank>)
    ensures |ks| == |s| && forall i | 0 <= i < |s| :: ks[i] == rank(s[i])
  {
    seq(|s|, i requires 0 <= i < |s| => rank(s[i]))
  }

  /** Sort, then rotate the ties if the alias has a counter. */
  function TieOrder<T>(deps: seq<T>, beats: (T, T) -> bool, rank: T -> Rank, counter: Option<nat>): seq<T> {
    var s := Sorted(deps, beats);
    match counter case None => s case Some(c) => RotateTies(s, RanksOf(s, rank), c)
  }

  /** How far the call moves the counter. */
  function Bumps<T>(deps: seq<T>, beats: (T, T) -> bool, rank: T -> Rank, counter: Option<nat>): nat {
    if counter.None? then 0 else TieGroups(RanksOf(Sorted(deps, beats), rank))
  }

  /** A permutation with the ranks ascending; what has no known rank stays in input order. */
  lemma TieOrderSpec<T>(deps: seq<T>, beats: (T, T) -> bool, rank: T -> Rank, counter: Option<nat>, r: Rank)
    requires ByRank(deps, beats, rank) && r.unknown
    ensures multiset(TieOrder(deps, beats, rank, counter)) == multiset(deps)
    ensures Ascending(TieOrder(deps, beats, rank, counter), rank)
    ensures OfRank(TieOrder(deps, beats, rank, counter), rank, r) == OfRank(deps, rank, r)
  {
    var s := Sorted(deps, beats);
    SortedAscending(deps, beats, rank);
    SortedStable(deps, beats, rank, r);
    if counter.Some? {
      var ks := RanksOf(s, rank);
      RotateTiesPermutes(s, ks, counter.value);
      RotateTiesRanks(s, ks, counter.value, rank);
      UnknownStays(s, ks, counter.value);
      OfRankPointwise(RotateTies(s, ks, counter.value), s, rank, r);
    }
  }

  lemma {:induction false} UnknownStays<T>(s: seq<T>, ks: seq<Rank>, c: nat)
    requires |s| == |ks|
    ensures forall i | 0 <= i < |s| && ks[i].unknown :: RotateTies(s, ks, c)[i] == s[i]
    decreases |s|
  {
    if s != [] {
      var m := RunLength(ks);
      UnknownStays(s[m..], ks[m..], if Rotates(ks) then c + 1 else c);
      forall i | 0 <= i < |s| && ks[i].unknown ensures RotateTies(s, ks, c)[i] == s[i] {
        if i >= m { assert s[i] == s[m..][i - m] && ks[i] == ks[m..][i - m]; }
      }
    }
  }

  lemma OfRankPointwise<T>(a: seq<T>, b: seq<T>, rank: T -> Rank, r: Rank)
    requires |a| == |b| && forall i | 0 <= i < |a| :: rank(a[i]) == rank(b[i]) && (rank(b[i]) == r ==> a[i] == b[i])
    ensures OfRank(a, rank, r) == OfRank(b, rank, r)
    decreases |a|
  {
  }

  // ---- consecutive calls -----------------------------------------------------------------------

  /** What call t of a run finds in the counter: `c`, bumped by every call before it. */
  function CounterAt<T>(deps: seq<T>, beats: (T, T) -> bool, rank: T -> Rank, c: nat, t: nat): nat {
    if t == 0 then c
    else
      var before := CounterAt(deps, beats, rank, c, t - 1);
      before + Bumps(deps, beats, rank, Some(before))
  }

  function ResultOf<T>(deps: seq<T>, beats: (T, T) -> bool, rank: T -> Rank, c: nat, t: nat): (r: seq<T>)
    ensures |r| == |Sorted(deps, beats)|
  {
    TieOrder(deps, beats, rank, Some(CounterAt(deps, beats, rank, c, t)))
  }

  lemma {:induction false} CounterMoves<T>(deps: seq<T>, beats: (T, T) -> bool, rank: T -> Rank, c: nat, t: nat, g: nat)
    requires g == TieGroups(RanksOf(Sorted(deps, beats), rank))
    ensures CounterAt(deps, beats, rank, c, t) == c + t * g
    decreases t
  {
    if t > 0 {
      CounterMoves(deps, beats, rank, c, t - 1, g);
      assert t * g == (t - 1) * g + g;
    }
  }

  /** In the result of call t the k-th tie group, of m members, is led by the member whose turn it is among them in
      input order. */
  lemma TieOrderLead<T>(deps: seq<T>, beats: (T, T) -> bool, rank: T -> Rank, c: nat, t: nat, k: nat,
                        s: seq<T>, ks: seq<Rank>, g: nat, at: nat, m: nat)
    requires s == Sorted(deps, beats) && ks == RanksOf(s, rank) && g == TieGroups(ks)
    requires k < g && at == GroupStart(ks, k) && m == GroupSize(ks, k)
    ensures var lead := TieLead(c, g, k, m, t);
            at + lead < |s| && ResultOf(deps, beats, rank, c, t)[at] == s[at + lead]
  {
    CounterMoves(deps, beats, rank, c, t, g);
    LeadWhen(s, ks, c, t, k, g, at, m, CounterAt(deps, beats, rank, c, t));
  }

  lemma LeadWhen<T>(s: seq<T>, ks: seq<Rank>, c: nat, t: nat, k: nat, g: nat, at: nat, m: nat, now: nat)
    requires |s| == |ks| && k < TieGroups(ks) && at == GroupStart(ks, k) && m == GroupSize(ks, k) && now == c + t * g
    ensures TieLead(c, g, k, m, t) < m && RotateTies(s, ks, now)[at] == s[at + TieLead(c, g, k, m, t)]
  {
    GroupHead(s, ks, now, k, now + k, at, m, TieLead(c, g, k, m, t));
  }

  lemma GroupHead<T>(s: seq<T>, ks: seq<Rank>, c: nat, k: nat, turn: nat, at: nat, m: nat, lead: nat)
    requires |s| == |ks| && k < TieGroups(ks) && at == GroupStart(ks, k) && m == GroupSize(ks, k)
    requires turn == c + k && lead == turn % m
    ensures lead < m && RotateTies(s, ks, c)[at] == s[at + lead]
  {
    FromGroup(s, ks, c, k, at, turn);
    HeadLeads(s[at..], ks[at..], turn, m, lead);
    assert s[at..][lead] == s[at + lead];
    assert RotateTies(s, ks, c)[at..][0] == RotateTies(s, ks, c)[at];
  }

  lemma HeadLeads<T>(s: seq<T>, ks: seq<Rank>, c: nat, m: nat, lead: nat)
    requires |s| == |ks| && ks != [] && Rotates(ks) && m == RunLength(ks) && lead == c % m
    ensures RotateTies(s, ks, c)[0] == s[lead]
  {
    HeadOfRotated(s[..m], lead);
    assert RotateTies(s, ks, c)[0] == Rotate(s[..m], lead)[0];
  }

  lemma HeadOfRotated<T>(s: seq<T>, lead: nat)
    requires lead < |s|
    ensures Rotate(s, lead)[0] == s[lead]
  {
  }

  /** A group as a whole comes out rotated: behind its leader the others follow it round. */
  lemma GroupMember<T>(s: seq<T>, ks: seq<Rank>, c: nat, k: nat, turn: nat, at: nat, m: nat, lead: nat, i: nat, to: nat)
    requires |s| == |ks| && k < TieGroups(ks) && at == GroupStart(ks, k) && m == GroupSize(ks, k)
    requires turn == c + k && lead == turn % m && i < m && to == (lead + i) % m
    ensures to < m && RotateTies(s, ks, c)[at + i] == s[at + to]
  {
    FromGroup(s, ks, c, k, at, turn);
    FirstGroup(s[at..], ks[at..], turn, m, lead, i, to);
    assert s[at..][to] == s[at + to];
    assert RotateTies(s, ks, c)[at..][i] == RotateTies(s, ks, c)[at + i];
  }

  lemma FirstGroup<T>(s: seq<T>, ks: seq<Rank>, c: nat, m: nat, lead: nat, i: nat, to: nat)
    requires |s| == |ks| && ks != [] && Rotates(ks) && m == RunLength(ks) && lead == c % m && i < m
    requires to == (lead + i) % m
    ensures to < m && RotateTies(s, ks, c)[i] == s[to]
  {
    assert Rotate(s[..m], lead)[i] == s[..m][to];
  }

  /** Where no two ranks are the same the counter stands still. */
  lemma {:induction false} NoTiesNoBumps(ks: seq<Rank>)
    requires forall i, j | 0 <= i < j < |ks| :: ks[i] != ks[j]
    ensures TieGroups(ks) == 0
    decreases |ks|
  {
    if ks != [] {
      assert RunLength(ks) == 1;
      assert forall i | 0 <= i < |ks| - 1 :: ks[1..][i] == ks[i + 1];
      NoTiesNoBumps(ks[1..]);
    }
  }

  predicate Distinct<T(==)>(s: seq<T>) {
    forall i, j | 0 <= i < j < |s| :: s[i] != s[j]
  }

  /** Exactly one of the first m results has `x` at position `at`. */
  ghost predicate LeadsOnce<T>(deps: seq<T>, beats: (T, T) -> bool, rank: T -> Rank, c: nat, at: nat, m: nat, x: T)
    requires at < |Sorted(deps, beats)|
  {
    exists t: nat :: t < m && ResultOf(deps, beats, rank, c, t)[at] == x
                     && forall u: nat | u < m && ResultOf(deps, beats, rank, c, u)[at] == x :: u == t
  }

  /** Of m consecutive results, each member of a tie group of m heads the group in exactly one: this holds exactly when
      the number of tie groups and m are coprime. */
  lemma TieOrderFair<T>(deps: seq<T>, beats: (T, T) -> bool, rank: T -> Rank, c: nat, k: nat,
                        s: seq<T>, ks: seq<Rank>, g: nat, at: nat, m: nat)
    requires s == Sorted(deps, beats) && ks == RanksOf(s, rank) && g == TieGroups(ks)
    requires k < g && at == GroupStart(ks, k) && m == GroupSize(ks, k) && Distinct(deps)
    ensures (forall x | x in s[at..at + m] :: LeadsOnce(deps, beats, rank, c, at, m, x)) <==> Coprime(g, m)
  {
    SortedDistinct(deps, beats);
    OnceIffFair(deps, beats, rank, c, k, s, ks, g, at, m);
    TiesFairIffCoprime(c, g, k, m);
  }

  lemma {:induction false} OnceIffFair<T>(deps: seq<T>, beats: (T, T) -> bool, rank: T -> Rank, c: nat, k: nat,
                       s: seq<T>, ks: seq<Rank>, g: nat, at: nat, m: nat)
    requires s == Sorted(deps, beats) && ks == RanksOf(s, rank) && g == TieGroups(ks)
    requires k < g && at == GroupStart(ks, k) && m == GroupSize(ks, k) && Distinct(s)
    ensures (forall x | x in s[at..at + m] :: LeadsOnce(deps, beats, rank, c, at, m, x)) <==> FairTies(c, g, k, m)
  {
    var group := s[at..at + m];
    forall t: nat, j: nat | j < m
      ensures ResultOf(deps, beats, rank, c, t)[at] == group[j] <==> TieLead(c, g, k, m, t) == j
    {
      HeadsIff(deps, beats, rank, c, t, k, s, ks, g, at, m, j);
    }
    FairIsOnce(deps, beats, rank, c, k, group, g, at, m);
  }

  lemma HeadsIff<T>(deps: seq<T>, beats: (T, T) -> bool, rank: T -> Rank, c: nat, t: nat, k: nat,
                    s: seq<T>, ks: seq<Rank>, g: nat, at: nat, m: nat, j: nat)
    requires s == Sorted(deps, beats) && ks == RanksOf(s, rank) && g == TieGroups(ks)
    requires k < g && at == GroupStart(ks, k) && m == GroupSize(ks, k) && Distinct(s) && j < m
    ensures ResultOf(deps, beats, rank, c, t)[at] == s[at..at + m][j] <==> TieLead(c, g, k, m, t) == j
  {
    TieOrderLead(deps, beats, rank, c, t, k, s, ks, g, at, m);
    HeadIs(s, at, m, c, g, k, t, j, ResultOf(deps, beats, rank, c, t)[at]);
  }

  lemma HeadIs<T>(s: seq<T>, at: nat, m: nat, c: nat, g: nat, k: nat, t: nat, j: nat, head: T)
    requires Distinct(s) && 0 < m <= |s| - at && j < m
    requires at + TieLead(c, g, k, m, t) < |s| && head == s[at + TieLead(c, g, k, m, t)]
    ensures head == s[at..at + m][j] <==> TieLead(c, g, k, m, t) == j
  {
    LeadBelow(c, g, k, m, t);
    SamePosition(s, at, m, TieLead(c, g, k, m, t), j);
  }

  lemma SamePosition<T>(s: seq<T>, at: nat, m: nat, i: nat, j: nat)
    requires Distinct(s) && at + m <= |s| && i < m && j < m
    ensures s[at + i] == s[at..at + m][j] <==> i == j
  {
  }

  lemma FairIsOnce<T>(deps: seq<T>, beats: (T, T) -> bool, rank: T -> Rank, c: nat, k: nat, group: seq<T>, g: nat,
                      at: nat, m: nat)
    requires |group| == m > 0 && at < |Sorted(deps, beats)|
    requires forall t: nat, j: nat | j < m ::
               ResultOf(deps, beats, rank, c, t)[at] == group[j] <==> TieLead(c, g, k, m, t) == j
    ensures (forall x | x in group :: LeadsOnce(deps, beats, rank, c, at, m, x)) <==> FairTies(c, g, k, m)
  {
    if FairTies(c, g, k, m) {
      forall x | x in group ensures LeadsOnce(deps, beats, rank, c, at, m, x) {
        var j: nat :| j < m && group[j] == x;
        assert HasTurn(c, g, k, m, j);
        var t: nat :| t < m && TieLead(c, g, k, m, t) == j;
        assert ResultOf(deps, beats, rank, c, t)[at] == group[j];
        forall u: nat | u < m && ResultOf(deps, beats, rank, c, u)[at] == group[j] ensures u == t {
          assert TieLead(c, g, k, m, u) == j;
        }
      }
    }
    if forall x | x in group :: LeadsOnce(deps, beats, rank, c, at, m, x) {
      OnceIsFair(deps, beats, rank, c, k, group, g, at, m);
    }
  }

  lemma OnceIsFair<T>(deps: seq<T>, beats: (T, T) -> bool, rank: T -> Rank, c: nat, k: nat, group: seq<T>, g: nat,
                      at: nat, m: nat)
    requires |group| == m > 0 && at < |Sorted(deps, beats)|
    requires forall t: nat, j: nat | j < m ::
               ResultOf(deps, beats, rank, c, t)[at] == group[j] <==> TieLead(c, g, k, m, t) == j
    requires forall x | x in group :: LeadsOnce(deps, beats, rank, c, at, m, x)
    ensures FairTies(c, g, k, m)
  {
    forall j: nat | j < m ensures HasTurn(c, g, k, m, j) {
      assert LeadsOnce(deps, beats, rank, c, at, m, group[j]);
      var t: nat :| t < m && ResultOf(deps, beats, rank, c, t)[at] == group[j];
      assert TieLead(c, g, k, m, t) == j;
    }
    forall t: nat, u: nat | t < m && u < m && TieLead(c, g, k, m, t) == TieLead(c, g, k, m, u) ensures t == u {
      var j := TieLead(c, g, k, m, t);
      LeadBelow(c, g, k, m, t);
      assert LeadsOnce(deps, beats, rank, c, at, m, group[j]);
      assert ResultOf(deps, beats, rank, c, t)[at] == group[j] && ResultOf(deps, beats, rank, c, u)[at] == group[j];
    }
  }

  lemma LeadBelow(c: nat, g: nat, k: nat, m: nat, t: nat)
    requires m > 0
    ensures TieLead(c, g, k, m, t) < m
  {
  }

  lemma SortedDistinct<T>(s: seq<T>, beats: (T, T) -> bool)
    requires Distinct(s)
    ensures Distinct(Sorted(s, beats))
  {
    SortedPermutes(s, beats);
    OnceEach(s);
    var r := Sorted(s, beats);
    forall i, j | 0 <= i < j < |r| ensures r[i] != r[j] {
      TwiceCounted(r, i, j);
    }
  }

  lemma {:induction false} SortedPermutes<T>(s: seq<T>, beats: (T, T) -> bool)
    ensures multiset(Sorted(s, beats)) == multiset(s)
    decreases |s|
  {
    if s != [] {
      SortedPermutes(s[..|s| - 1], beats);
      SinkPermutes(Sorted(s[..|s| - 1], beats), s[|s| - 1], beats);
      assert s == s[..|s| - 1] + [s[|s| - 1]];
    }
  }

  lemma {:induction false} OnceEach<T>(s: seq<T>)
    requires Distinct(s)
    ensures forall x :: multiset(s)[x] <= 1
    decreases |s|
  {
    if s != [] {
      var init, last := s[..|s| - 1], s[|s| - 1];
      assert s == init + [last];
      OnceEach(init);
      assert last !in init;
    }
  }

  lemma TwiceCounted<T>(s: seq<T>, i: nat, j: nat)
    requires i < j < |s|
    ensures s[i] == s[j] ==> multiset(s)[s[i]] >= 2
  {
    assert s == s[..i] + [s[i]] + s[i + 1..j] + [s[j]] + s[j + 1..];
  }

  lemma {:induction false} AlreadySorted<T>(s: seq<T>, beats: (T, T) -> bool)
    requires forall i, j | 0 <= i < j < |s| :: !beats(s[j], s[i])
    ensures Sorted(s, beats) == s
    decreases |s|
  {
    if s != [] {
      var init, last := s[..|s| - 1], s[|s| - 1];
      assert forall i | 0 <= i < |init| :: init[i] == s[i];
      AlreadySorted(init, beats);
      assert init != [] ==> !beats(last, init[|init| - 1]);
      assert Sink(init, last, beats) == init + [last] == s;
    }
  }

  /** Priorities 1, 1, 2, 2: two groups of two. Whatever the counter, the first of either group never changes. */
  lemma TwoPairsStuck(deps: seq<DeploymentInfo>, c: nat, t: nat)
    requires |deps| == 4 && deps[0].priority == deps[1].priority == 1 && deps[2].priority == deps[3].priority == 2
    ensures var r := ResultOf(deps, PriorityBeats, PriorityRank, c, t);
            |r| == 4 && r[0] == deps[c % 2] && r[2] == deps[2 + (c + 1) % 2]
  {
    AlreadySorted(deps, PriorityBeats);
    var ks := RanksOf(deps, PriorityRank);
    TwoPairs(ks);
    TieOrderLead(deps, PriorityBeats, PriorityRank, c, t, 0, deps, ks, 2, 0, 2);
    TieOrderLead(deps, PriorityBeats, PriorityRank, c, t, 1, deps, ks, 2, 2, 2);
  }

  lemma TwoPairs(ks: seq<Rank>)
    requires |ks| == 4 && ks[0] == ks[1] != ks[2] == ks[3] && !ks[0].unknown && !ks[2].unknown
    ensures TieGroups(ks) == 2 && GroupStart(ks, 0) == 0 && GroupStart(ks, 1) == 2
            && GroupSize(ks, 0) == GroupSize(ks, 1) == 2
  {
    var rest := ks[2..];
    assert RunLength(ks) == 2 && RunLength(rest) == 2;
    assert TieGroups(rest[2..]) == 0;
    assert TieGroups(rest) == 1 && GroupStart(rest, 0) == 0 && GroupSize(rest, 0) == 2;
  }

  predicate PriorityBeats(a: DeploymentInfo, b: DeploymentInfo) {
    a.priority < b.priority
  }

  function PriorityRank(d: DeploymentInfo): Rank {
    Rank(false, d.priority as real)
  }

  /** The result is the same deployments by ascending priority. */
  lemma PrioritySpec(deps: seq<DeploymentInfo>, counter: Option<nat>)
    ensures
      var r := TieOrder(deps, PriorityBeats, PriorityRank, counter);
      multiset(r) == multiset(deps) && forall i, j | 0 <= i < j < |r| :: r[i].priority <= r[j].priority
  {
    PriorityByRank(deps);
    TieOrderSpec(deps, PriorityBeats, PriorityRank, counter, Rank(true, 0.0));
    var r := TieOrder(deps, PriorityBeats, PriorityRank, counter);
    forall i, j | 0 <= i < j < |r| ensures r[i].priority <= r[j].priority {
      assert !Less(PriorityRank(r[j]), PriorityRank(r[i]));
    }
  }

  lemma PriorityByRank(deps: seq<DeploymentInfo>)
    ensures ByRank(deps, PriorityBeats, PriorityRank)
  {
  }

  method PriorityOrdered(deps: seq<DeploymentInfo>, counter: Option<nat>)
      returns (ordered: seq<DeploymentInfo>, bumps: nat)
    ensures ordered == TieOrder(deps, PriorityBeats, PriorityRank, counter)
    ensures bumps == Bumps(deps, PriorityBeats, PriorityRank, counter)
    ensures multiset(ordered) == multiset(deps)
    ensures forall i, j | 0 <= i < j < |ordered| :: ordered[i].priority <= ordered[j].priority
  {
    var a := new DeploymentInfo[|deps|](i requires 0 <= i < |deps| => deps[i]);
    assert a[..] == deps;
    SortInPlace(a, PriorityBeats);
    bumps := 0;
    if counter.Some? {
      var c := RotateInPlace(a, RanksOf(a[..], PriorityRank), counter.value);
      bumps := c - counter.value;
    }
    ordered := a[..];
    PrioritySpec(deps, counter);
  }

  /** SetPricingLookup's function: per-token input and output cost, if known. */
  type Pricing = Option<(string, string) -> Option<(real, real)>>

  function CostOf(pricing: Pricing, d: DeploymentInfo): Rank {
    if pricing.None? then Rank(true, 0.0)
    else
      match pricing.value(d.provider, d.providerModel)
      case None => Rank(true, 0.0)
      case Some((input, output)) => Rank(false, input + output)
  }

  function CostRank(pricing: Pricing): DeploymentInfo -> Rank {
    (d: DeploymentInfo) => CostOf(pricing, d)
  }

  function CostBeats(pricing: Pricing): (DeploymentInfo, DeploymentInfo) -> bool {
    (a: DeploymentInfo, b: DeploymentInfo) => Less(CostOf(pricing, a), CostOf(pricing, b))
  }

  datatype Scored = Scored(dep: DeploymentInfo, cost: real, known: bool, idx: nat)

  predicate Better(a: Scored, b: Scored) {
    if a.known && !b.known then true
    else if !a.known && !b.known then a.idx < b.idx
    else if a.known && b.known then a.cost < b.cost
    else false
  }

  function ScoreOf(pricing: Pricing, d: DeploymentInfo, idx: nat): Scored {
    var r := CostOf(pricing, d);
    Scored(d, r.cost, !r.unknown, idx)
  }

  function DepOf(s: Scored): DeploymentInfo {
    s.dep
  }

  function ScoredRank(s: Scored): Rank {
    Rank(!s.known, s.cost)
  }

  function Map<T, U>(f: T -> U, s: seq<T>): (r: seq<U>)
    ensures |r| == |s| && forall i | 0 <= i < |s| :: r[i] == f(s[i])
  {
    seq(|s|, i requires 0 <= i < |s| => f(s[i]))
  }

  lemma {:induction false} SinkMap<T, U>(s: seq<T>, x: T, b: (T, T) -> bool, f: T -> U, b': (U, U) -> bool)
    requires forall i | 0 <= i < |s| :: b(x, s[i]) == b'(f(x), f(s[i]))
    ensures Map(f, Sink(s, x, b)) == Sink(Map(f, s), f(x), b')
    decreases |s|
  {
    if s != [] && b(x, s[|s| - 1]) {
      var init := s[..|s| - 1];
      assert Map(f, s)[..|s| - 1] == Map(f, init);
      SinkMap(init, x, b, f, b');
      assert Map(f, Sink(init, x, b) + [s[|s| - 1]]) == Map(f, Sink(init, x, b)) + [f(s[|s| - 1])];
    } else {
      assert Map(f, s + [x]) == Map(f, s) + [f(x)];
    }
  }

  /** Sorting decorated elements and then dropping the decoration is sorting the elements. */
  lemma {:induction false} SortMap<T, U>(s: seq<T>, b: (T, T) -> bool, rank: T -> Rank, f: T -> U, b': (U, U) -> bool)
    requires ByRank(s, b, rank)
    requires forall i, j | 0 <= i < j < |s| :: b(s[j], s[i]) == b'(f(s[j]), f(s[i]))
    ensures Map(f, Sorted(s, b)) == Sorted(Map(f, s), b')
    decreases |s|
  {
    if s != [] {
      var init, x := s[..|s| - 1], s[|s| - 1];
      SortMap(init, b, rank, f, b');
      SortedAscending(init, b, rank);
      var t := Sorted(init, b);
      SameVerdicts(init, t, x, b, f, b');
      SinkMap(t, x, b, f, b');
      assert Map(f, s)[..|s| - 1] == Map(f, init);
    }
  }

  lemma SameVerdicts<T, U>(s: seq<T>, t: seq<T>, x: T, b: (T, T) -> bool, f: T -> U, b': (U, U) -> bool)
    requires multiset(t) == multiset(s) && forall i | 0 <= i < |s| :: b(x, s[i]) == b'(f(x), f(s[i]))
    ensures forall i | 0 <= i < |t| :: b(x, t[i]) == b'(f(x), f(t[i]))
  {
    forall i | 0 <= i < |t| ensures b(x, t[i]) == b'(f(x), f(t[i])) {
      assert t[i] in multiset(s);
      var k :| 0 <= k < |s| && s[k] == t[i];
    }
  }

  function Scores(deps: seq<DeploymentInfo>, pricing: Pricing): (r: seq<Scored>)
    ensures |r| == |deps| && forall i | 0 <= i < |deps| :: r[i] == ScoreOf(pricing, deps[i], i)
  {
    seq(|deps|, i requires 0 <= i < |deps| => ScoreOf(pricing, deps[i], i))
  }

  lemma {:induction false} ScoredSort(deps: seq<DeploymentInfo>, pricing: Pricing)
    ensures Map(DepOf, Sorted(Scores(deps, pricing), Better)) == Sorted(deps, CostBeats(pricing))
    ensures RanksOf(Sorted(Scores(deps, pricing), Better), ScoredRank)
            == RanksOf(Sorted(deps, CostBeats(pricing)), CostRank(pricing))
    ensures |Sorted(Scores(deps, pricing), Better)| == |deps|
  {
    var scored := Scores(deps, pricing);
    SortedAscending(scored, Better, ScoredRank);
    SortMap(scored, Better, ScoredRank, DepOf, CostBeats(pricing));
    assert Map(DepOf, scored) == deps;
    var t := Sorted(scored, Better);
    ScoresKept(deps, pricing, t);
    forall i | 0 <= i < |deps| ensures RanksOf(t, ScoredRank)[i] == CostOf(pricing, Map(DepOf, t)[i]) {}
  }

  lemma ScoresKept(deps: seq<DeploymentInfo>, pricing: Pricing, t: seq<Scored>)
    requires multiset(t) == multiset(Scores(deps, pricing))
    ensures forall i | 0 <= i < |t| :: ScoredRank(t[i]) == CostOf(pricing, t[i].dep)
  {
    forall i | 0 <= i < |t| ensures ScoredRank(t[i]) == CostOf(pricing, t[i].dep) {
      assert t[i] in multiset(t);
      assert t[i] in Scores(deps, pricing);
    }
  }

  /** Whatever has a price stands behind nothing without one, and behind nothing dearer in input and output together. */
  ghost predicate ByPrice(pricing: Pricing, s: seq<DeploymentInfo>) {
    forall i, j | 0 <= i < j < |s| && Price(pricing, s[j]).Some? ::
      Price(pricing, s[i]).Some?
      && Price(pricing, s[i]).value.0 + Price(pricing, s[i]).value.1
         <= Price(pricing, s[j]).value.0 + Price(pricing, s[j]).value.1
  }

  function Price(pricing: Pricing, d: DeploymentInfo): Option<(real, real)> {
    if pricing.None? then None else pricing.value(d.provider, d.providerModel)
  }

  function Unpriced(pricing: Pricing, s: seq<DeploymentInfo>): seq<DeploymentInfo> {
    if s == [] then []
    else
      Unpriced(pricing, s[..|s| - 1]) + if Price(pricing, s[|s| - 1]) == None then [s[|s| - 1]] else []
  }

  lemma {:induction false} UnpricedRank(pricing: Pricing, s: seq<DeploymentInfo>)
    ensures OfRank(s, CostRank(pricing), Rank(true, 0.0)) == Unpriced(pricing, s)
    decreases |s|
  {
    if s != [] { UnpricedRank(pricing, s[..|s| - 1]); }
  }

  /** Known costs ascending, then the unknown ones in input order. */
  lemma CheapestSpec(deps: seq<DeploymentInfo>, pricing: Pricing, counter: Option<nat>)
    ensures
      var r := TieOrder(deps, CostBeats(pricing), CostRank(pricing), counter);
      multiset(r) == multiset(deps) && ByPrice(pricing, r) && Unpriced(pricing, r) == Unpriced(pricing, deps)
  {
    TieOrderSpec(deps, CostBeats(pricing), CostRank(pricing), counter, Rank(true, 0.0));
    var r := TieOrder(deps, CostBeats(pricing), CostRank(pricing), counter);
    UnpricedRank(pricing, r);
    UnpricedRank(pricing, deps);
    forall i, j | 0 <= i < j < |r| && Price(pricing, r[j]).Some?
      ensures Price(pricing, r[i]).Some?
              && Price(pricing, r[i]).value.0 + Price(pricing, r[i]).value.1
                 <= Price(pricing, r[j]).value.0 + Price(pricing, r[j]).value.1
    {
      assert !Less(CostRank(pricing)(r[j]), CostRank(pricing)(r[i]));
    }
  }

  method Cheapest(deps: seq<DeploymentInfo>, pricing: Pricing, counter: Option<nat>)
      returns (ordered: seq<DeploymentInfo>, bumps: nat)
    ensures ordered == TieOrder(deps, CostBeats(pricing), CostRank(pricing), counter)
    ensures bumps == Bumps(deps, CostBeats(pricing), CostRank(pricing), counter)
    ensures multiset(ordered) == multiset(deps) && ByPrice(pricing, ordered)
    ensures Unpriced(pricing, ordered) == Unpriced(pricing, deps)
  {
    var n := |deps|;
    var scored := new Scored[n](i requires 0 <= i < n => ScoreOf(pricing, deps[i], i));
    assert scored[..] == Scores(deps, pricing);
    SortInPlace(scored, Better);
    var list := scored[..];
    ScoredSort(deps, pricing);
    var a := new DeploymentInfo[n](i requires 0 <= i < n => list[i].dep);
    assert a[..] == Map(DepOf, list);
    bumps := 0;
    if counter.Some? {
      var c := RotateInPlace(a, RanksOf(list, ScoredRank), counter.value);
      bumps := c - counter.value;
    }
    ordered := a[..];
    CheapestSpec(deps, pricing, counter);
  }
}
