/** The strategies of router/router.go that draw: weighted sampling, round robin, least latency. */
module Sampling {
  import opened Rotation
  import opened Ordering

  // ---- round robin -----------------------------------------------------------------------------

  /** The counter value taken decides where the rotation starts. */
  method RoundRobin<T>(deps: seq<T>, counter: nat) returns (ordered: seq<T>, counter': nat)
    ensures counter' == counter + 1
    ensures deps == [] ==> ordered == []
    ensures deps != [] ==> ordered == Rotate(deps, counter)
  {
    counter' := counter + 1;
    ordered := [];
    for i := 0 to |deps|
      invariant |ordered| == i && forall k | 0 <= k < i :: ordered[k] == deps[(counter + k) % |deps|]
    {
      ordered := ordered + [deps[(counter + i) % |deps|]];
    }
  }

  /** How many of `k` calls of RoundRobin in a row, the first finding the counter at `c`, put `x` first. */
  function CallsLed<T(==)>(deps: seq<T>, c: nat, k: nat, x: T): nat
    requires deps != []
    decreases k
  {
    if k == 0 then 0 else CallsLed(deps, c, k - 1, x) + if Rotate(deps, c + k - 1)[0] == x then 1 else 0
  }

  lemma LeaderIs<T>(deps: seq<T>, c: nat, i: nat)
    requires Distinct(deps) && i < |deps|
    ensures Rotate(deps, c)[0] == deps[i] <==> c % |deps| == i
  {
    assert Rotate(deps, c)[0] == deps[(c + 0) % |deps|];
  }

  lemma {:induction false} LedIsLeads<T>(deps: seq<T>, c: nat, k: nat, i: nat)
    requires Distinct(deps) && i < |deps|
    ensures CallsLed(deps, c, k, deps[i]) == Leads(c, k, |deps|, i)
    decreases k
  {
    if k > 0 {
      LeaderIs(deps, c + k - 1, i);
      LedIsLeads(deps, c, k - 1, i);
    }
  }

  /** Any two of distinct deployments come first equally often up to one, and each of n exactly once in n calls. */
  lemma CallsLedEqually<T>(deps: seq<T>, c: nat, k: nat, x: T, y: T)
    requires Distinct(deps) && x in deps && y in deps
    ensures -1 <= CallsLed(deps, c, k, x) - CallsLed(deps, c, k, y) <= 1
    ensures CallsLed(deps, c, |deps|, x) == 1
  {
    var i: nat :| i < |deps| && deps[i] == x;
    var j: nat :| j < |deps| && deps[j] == y;
    LedIsLeads(deps, c, k, i);
    LedIsLeads(deps, c, k, j);
    LedIsLeads(deps, c, |deps|, i);
    RoundRobinFair(c, k, |deps|, i, j);
  }

  // ---- weighted --------------------------------------------------------------------------------

  function EffectiveWeight(w: int): (e: nat)
    ensures e >= 1
  {
    if w <= 0 then 1 else w
  }

  function Weights(deps: seq<DeploymentInfo>): (ws: seq<nat>)
    ensures |ws| == |deps| && forall i | 0 <= i < |ws| :: ws[i] == EffectiveWeight(deps[i].weight)
  {
    seq(|deps|, i requires 0 <= i < |deps| => EffectiveWeight(deps[i].weight))
  }

  function Total(ws: seq<nat>): nat {
    if ws == [] then 0 else ws[0] + Total(ws[1..])
  }

  /** The search for the primary: the first position whose weight exceeds what is left of the pick; |ws|
      if there is none. */
  function Primary(ws: seq<nat>, pick: nat): (i: nat)
    ensures i <= |ws|
  {
    if ws == [] then 0 else if pick < ws[0] then 0 else 1 + Primary(ws[1..], pick - ws[0])
  }

  /** Position i first, the others in their order. */
  ghost predicate LedBy<T>(ordered: seq<T>, deps: seq<T>, i: nat) {
    && |ordered| == |deps| && i < |deps| && ordered[0] == deps[i]
    && (forall j | 0 <= j < i :: ordered[j + 1] == deps[j])
    && (forall j | i < j < |deps| :: ordered[j] == deps[j])
  }

  lemma LedByPermutes<T>(ordered: seq<T>, deps: seq<T>, i: nat)
    requires LedBy(ordered, deps, i)
    ensures multiset(ordered) == multiset(deps)
  {
    assert ordered == [deps[i]] + deps[..i] + deps[i + 1..];
    assert deps == deps[..i] + [deps[i]] + deps[i + 1..];
  }

  method SumWeights(deps: seq<DeploymentInfo>) returns (weights: seq<nat>, total: nat)
    ensures weights == Weights(deps) && total == Total(weights)
  {
    total, weights := 0, [];
    ghost var ws := Weights(deps);
    for i := 0 to |deps|
      invariant weights == ws[..i] && total + Total(ws[i..]) == Total(ws)
    {
      var w := deps[i].weight;
      if w <= 0 {
        w := 1;
      }
      assert ws[i..][1..] == ws[i + 1..];
      weights := weights + [w];
      total := total + w;
    }
  }

  method FindPrimary(weights: seq<nat>, draw: nat) returns (primary: nat)
    ensures primary == if Primary(weights, draw) < |weights| then Primary(weights, draw) else 0
  {
    var pick := draw;
    primary := 0;
    for i := 0 to |weights|
      invariant Primary(weights, draw) == i + Primary(weights[i..], pick)
    {
      if pick < weights[i] {
        primary := i;
        break;
      }
      assert weights[i..][1..] == weights[i + 1..];
      pick := pick - weights[i];
    }
  }

  method Promote<T>(deps: seq<T>, primary: nat) returns (ordered: seq<T>)
    requires primary < |deps|
    ensures LedBy(ordered, deps, primary)
  {
    ordered := [deps[primary]];
    for i := 0 to |deps|
      invariant ordered == [deps[primary]] + if i <= primary then deps[..i] else deps[..primary] + deps[primary + 1..i]
    {
      if i != primary {
        ordered := ordered + [deps[i]];
      }
    }
  }

  /** The strategy is round robin iff every effective weight is 1; otherwise a pick below the total decides
      the primary, and the others follow in their order. */
  method Weighted(deps: seq<DeploymentInfo>, counter: nat)
      returns (ordered: seq<DeploymentInfo>, counter': nat, ghost pick: nat)
    ensures multiset(ordered) == multiset(deps)
    ensures AllDefault(deps) ==> counter' == counter + 1 && (deps != [] ==> ordered == Rotate(deps, counter))
    ensures !AllDefault(deps) ==>
              counter' == counter && pick < Total(Weights(deps)) && Primary(Weights(deps), pick) < |deps|
              && LedBy(ordered, deps, Primary(Weights(deps), pick))
  {
    pick := 0;
    var weights, total := SumWeights(deps);
    DefaultTotal(deps);
    if total <= |deps| {
      ordered, counter' := RoundRobin(deps, counter);
      if deps != [] { RotateHalves(deps, counter); }
      return;
    }
    var draw: nat :| draw < total;
    pick := draw;
    PrimaryLands(weights, draw);
    var primary := FindPrimary(weights, draw);
    ordered := Promote(deps, primary);
    counter' := counter;
    LedByPermutes(ordered, deps, primary);
  }

  predicate AllDefault(deps: seq<DeploymentInfo>) {
    forall i | 0 <= i < |deps| :: deps[i].weight <= 1
  }

  lemma DefaultTotal(deps: seq<DeploymentInfo>)
    ensures Total(Weights(deps)) <= |deps| <==> AllDefault(deps)
  {
    TotalOfOnes(Weights(deps));
    forall i | 0 <= i < |deps| ensures deps[i].weight <= 1 <==> Weights(deps)[i] == 1 {}
  }

  /** Weights are at least 1 each, so the total is |ws| iff all are 1. */
  lemma TotalOfOnes(ws: seq<nat>)
    requires forall i | 0 <= i < |ws| :: ws[i] >= 1
    ensures Total(ws) >= |ws|
    ensures Total(ws) == |ws| <==> forall i | 0 <= i < |ws| :: ws[i] == 1
  {
    if ws != [] {
      TotalOfOnes(ws[1..]);
      assert forall i | 1 <= i < |ws| :: ws[i] == ws[1..][i - 1];
    }
  }

  lemma PrimaryLands(ws: seq<nat>, pick: nat)
    ensures Primary(ws, pick) < |ws| <==> pick < Total(ws)
  {
    if ws != [] && pick >= ws[0] {
      PrimaryLands(ws[1..], pick - ws[0]);
    }
  }

  lemma {:induction false} PrimaryRange(ws: seq<nat>, pick: nat, i: nat)
    requires i < |ws|
    ensures Primary(ws, pick) == i <==> Total(ws[..i]) <= pick < Total(ws[..i]) + ws[i]
    decreases |ws|
  {
    if i > 0 {
      assert ws[..i][1..] == ws[1..][..i - 1];
      if pick >= ws[0] {
        PrimaryRange(ws[1..], pick - ws[0], i - 1);
      }
    }
  }

  /** How many picks in [0, n) make position i the primary. */
  function Picks(ws: seq<nat>, n: nat, i: nat): nat {
    if n == 0 then 0 else Picks(ws, n - 1, i) + if Primary(ws, n - 1) == i then 1 else 0
  }

  lemma {:induction false} PicksUpTo(ws: seq<nat>, n: nat, i: nat)
    requires i < |ws|
    ensures
      var lo := Total(ws[..i]);
      Picks(ws, n, i) == if n <= lo then 0 else if n <= lo + ws[i] then n - lo else ws[i]
    decreases n
  {
    if n > 0 {
      PicksUpTo(ws, n - 1, i);
      PrimaryRange(ws, n - 1, i);
    }
  }

  lemma TotalSplit(ws: seq<nat>, i: nat)
    requires i <= |ws|
    ensures Total(ws) == Total(ws[..i]) + Total(ws[i..])
  {
    if i > 0 {
      TotalSplit(ws[1..], i - 1);
      assert ws[..i][1..] == ws[1..][..i - 1] && ws[1..][i - 1..] == ws[i..];
    }
  }

  /** Among all draws below the total each deployment is the primary of as many as its weight says, and of one if that
      is not positive. */
  lemma WeightedShare(deps: seq<DeploymentInfo>, i: nat)
    requires i < |deps|
    ensures Picks(Weights(deps), Total(Weights(deps)), i) == if deps[i].weight > 0 then deps[i].weight else 1
  {
    var ws := Weights(deps);
    PicksUpTo(ws, Total(ws), i);
    TotalSplit(ws, i);
    assert ws[i..][0] == ws[i];
  }

  // ---- least latency ---------------------------------------------------------------------------

  /** The latency x sinks while it is lower than its neighbour by more than the jitter drawn for that
      comparison. */
  function SinkJittered(s: seq<int>, x: int, jitter: nat -> nat): seq<int>
    decreases |s|
  {
    if s == [] || !(x + jitter(|s|) < s[|s| - 1]) then s + [x]
    else SinkJittered(s[..|s| - 1], x, jitter) + [s[|s| - 1]]
  }

  /** `jitter(i, j)` is what was drawn when element i, at position j by then, was compared. */
  function SortJittered(s: seq<int>, jitter: (nat, nat) -> nat): seq<int>
    decreases |s|
  {
    if s == [] then []
    else SinkJittered(SortJittered(s[..|s| - 1], jitter), s[|s| - 1], JitterAt(jitter, |s| - 1))
  }

  function JitterAt(jitter: (nat, nat) -> nat, i: nat): nat -> nat {
    (j: nat) => jitter(i, j)
  }

  /** What rand.Int63n(10) may return. */
  ghost predicate Jitters(jitter: (nat, nat) -> nat) {
    forall i, j :: jitter(i, j) < 10
  }

  /** No latency exceeds its right neighbour by more than 9 ms. */
  ghost predicate NearlySorted(s: seq<int>) {
    forall i | 0 <= i < |s| - 1 :: s[i] <= s[i + 1] + 9
  }

  lemma {:induction false} SinkNearlySorted(s: seq<int>, x: int, jitter: nat -> nat)
    requires NearlySorted(s) && forall j :: jitter(j) < 10
    ensures NearlySorted(SinkJittered(s, x, jitter)) && |SinkJittered(s, x, jitter)| == |s| + 1
    ensures SinkJittered(s, x, jitter)[|s|] == x || (s != [] && SinkJittered(s, x, jitter)[|s|] == s[|s| - 1])
    decreases |s|
  {
    if s != [] && x + jitter(|s|) < s[|s| - 1] {
      SinkNearlySorted(s[..|s| - 1], x, jitter);
    }
  }

  /** Whatever the jitters, the result is nearly sorted. */
  lemma {:induction false} JitterBound(s: seq<int>, jitter: (nat, nat) -> nat)
    requires Jitters(jitter)
    ensures NearlySorted(SortJittered(s, jitter)) && |SortJittered(s, jitter)| == |s|
    decreases |s|
  {
    if s != [] {
      JitterBound(s[..|s| - 1], jitter);
      SinkNearlySorted(SortJittered(s[..|s| - 1], jitter), s[|s| - 1], JitterAt(jitter, |s| - 1));
    }
  }

  ghost predicate Ascends(s: seq<int>) {
    forall i, j | 0 <= i < j < |s| :: s[i] <= s[j]
  }

  /** Without jitter the latencies come out ascending. */
  lemma {:induction false} NoJitterSorts(s: seq<int>, jitter: (nat, nat) -> nat)
    requires forall i, j :: jitter(i, j) == 0
    ensures Ascends(SortJittered(s, jitter))
    decreases |s|
  {
    if s != [] {
      var n := |s| - 1;
      NoJitterSorts(s[..n], jitter);
      forall j ensures JitterAt(jitter, n)(j) == 0 { assert JitterAt(jitter, n)(j) == jitter(n, j); }
      SinkAscending(SortJittered(s[..n], jitter), s[n], JitterAt(jitter, n));
    }
  }

  lemma {:induction false} SinkAscending(s: seq<int>, x: int, jitter: nat -> nat)
    requires Ascends(s) && forall j :: jitter(j) == 0
    ensures Ascends(SinkJittered(s, x, jitter)) && forall y | y in SinkJittered(s, x, jitter) :: y in s || y == x
    decreases |s|
  {
    if s != [] && x + jitter(|s|) < s[|s| - 1] {
      var init, last := s[..|s| - 1], s[|s| - 1];
      SinkAscending(init, x, jitter);
      var r := SinkJittered(init, x, jitter);
      forall i | 0 <= i < |r| ensures r[i] <= last {
        assert r[i] in r;
        if r[i] in init { var k :| 0 <= k < |init| && init[k] == r[i]; assert s[k] <= last; }
      }
      assert SinkJittered(s, x, jitter) == r + [last];
    } else {
      assert s != [] ==> s[|s| - 1] <= x + jitter(|s|);
      assert SinkJittered(s, x, jitter) == s + [x];
    }
  }

  lemma {:induction false} NearlySortedFar(s: seq<int>, i: nat, k: nat)
    requires NearlySorted(s) && i <= k < |s|
    ensures s[i] <= s[k] + 9 * (k - i)
    decreases k - i
  {
    if i < k {
      NearlySortedFar(s, i + 1, k);
    }
  }

  /** The bound is reached: latencies that fall by 9 ms at every step stay as they are when every jitter is
      9, and the primary is 9 * (n - 1) ms slower than the fastest. */
  lemma {:induction false} JitterBoundTight(s: seq<int>, jitter: (nat, nat) -> nat)
    requires forall i | 0 <= i < |s| - 1 :: s[i] == s[i + 1] + 9
    requires forall i, j :: jitter(i, j) == 9
    ensures SortJittered(s, jitter) == s
    ensures s != [] ==> s[0] == s[|s| - 1] + 9 * (|s| - 1)
    decreases |s|
  {
    if s != [] {
      var init := s[..|s| - 1];
      JitterBoundTight(init, jitter);
      assert s == init + [s[|s| - 1]];
    }
  }

  /** The snapshot: latencies[k] is the latency of ordered[k]. */
  ghost predicate Paired(ordered: seq<DeploymentInfo>, latencies: seq<int>)
    reads ordered
  {
    |ordered| == |latencies| && forall k | 0 <= k < |ordered| :: latencies[k] == ordered[k].latencyEWMA
  }

  method SwapDown(ordered: array<DeploymentInfo>, latencies: array<int>, j: nat)
    requires 0 < j < ordered.Length == latencies.Length && Paired(ordered[..], latencies[..])
    modifies ordered, latencies
    ensures Paired(ordered[..], latencies[..]) && multiset(ordered[..]) == multiset(old(ordered[..]))
    ensures latencies[j] == old(latencies[j - 1]) && latencies[j - 1] == old(latencies[j])
    ensures forall k | 0 <= k < latencies.Length && k != j && k != j - 1 :: latencies[k] == old(latencies[k])
  {
    ordered[j], ordered[j - 1] := ordered[j - 1], ordered[j];
    latencies[j], latencies[j - 1] := latencies[j - 1], latencies[j];
  }

  method SinkLatency(ordered: array<DeploymentInfo>, latencies: array<int>, i: nat, jitter: nat -> nat)
    requires ordered.Length == latencies.Length && i < ordered.Length && Paired(ordered[..], latencies[..])
    modifies ordered, latencies
    ensures Paired(ordered[..], latencies[..]) && multiset(ordered[..]) == multiset(old(ordered[..]))
    ensures latencies[..i + 1] == SinkJittered(old(latencies[..i]), old(latencies[i]), jitter)
    ensures latencies[i + 1..] == old(latencies[i + 1..])
  {
    ghost var s, x := latencies[..i], latencies[i];
    var j := i;
    assert s[..i] == s;
    while j > 0
      invariant 0 <= j <= i
      invariant Paired(ordered[..], latencies[..]) && multiset(ordered[..]) == multiset(old(ordered[..]))
      invariant (forall k | 0 <= k < j :: latencies[k] == s[k]) && latencies[j] == x
      invariant forall k | j < k <= i :: latencies[k] == s[k - 1]
      invariant latencies[i + 1..] == old(latencies[i + 1..])
      invariant SinkJittered(s, x, jitter) == SinkJittered(s[..j], x, jitter) + s[j..]
    {
      if latencies[j] + jitter(j) < latencies[j - 1] {
        JitterStep(s, x, jitter, j);
        SwapDown(ordered, latencies, j);
      } else {
        break;
      }
      j := j - 1;
    }
    assert SinkJittered(s[..j], x, jitter) == s[..j] + [x];
    assert latencies[..i + 1] == s[..j] + [x] + s[j..];
  }

  lemma JitterStep(s: seq<int>, x: int, jitter: nat -> nat, j: nat)
    requires 0 < j <= |s| && x + jitter(j) < s[j - 1]
    ensures SinkJittered(s[..j], x, jitter) + s[j..] == SinkJittered(s[..j - 1], x, jitter) + s[j - 1..]
  {
    assert s[..j][..j - 1] == s[..j - 1];
    assert [s[j - 1]] + s[j..] == s[j - 1..];
  }

  /** For every choice of jitters: a permutation in which the latency at position i exceeds that at any
      later position k by at most 9 * (k - i). */
  method LeastLatency(deps: seq<DeploymentInfo>, jitter: (nat, nat) -> nat)
      returns (out: seq<DeploymentInfo>, ghost ms: seq<int>)
    requires Jitters(jitter)
    ensures multiset(out) == multiset(deps)
    ensures forall was | Paired(deps, was) :: ms == SortJittered(was, jitter)
    ensures Paired(out, ms)
    ensures forall i, k | 0 <= i <= k < |out| :: out[i].latencyEWMA <= out[k].latencyEWMA + 9 * (k - i)
  {
    var n := |deps|;
    var ordered := new DeploymentInfo[n](i requires 0 <= i < n => deps[i]);
    var latencies := new int[n](_ => 0);
    for i := 0 to n
      invariant ordered[..] == deps
      invariant forall k | 0 <= k < i :: latencies[k] == deps[k].latencyEWMA
    {
      latencies[i] := ordered[i].latencyEWMA;
    }
    ghost var was := latencies[..];
    SortLatencies(ordered, latencies, jitter);
    out, ms := ordered[..], latencies[..];
    SameSnapshot(deps, was);
    BoundOf(out, ms, was, jitter);
  }

  /** The sort, in place on both arrays. */
  method SortLatencies(ordered: array<DeploymentInfo>, latencies: array<int>, jitter: (nat, nat) -> nat)
    requires ordered.Length == latencies.Length && Paired(ordered[..], latencies[..])
    modifies ordered, latencies
    ensures Paired(ordered[..], latencies[..]) && multiset(ordered[..]) == multiset(old(ordered[..]))
    ensures latencies[..] == SortJittered(old(latencies[..]), jitter)
  {
    var n, i := ordered.Length, 1;
    ghost var was := latencies[..];
    if n > 0 { SortOneJittered(was[..1], jitter); }
    while i < n
      invariant n == 0 || 1 <= i <= n
      invariant Paired(ordered[..], latencies[..]) && multiset(ordered[..]) == multiset(old(ordered[..]))
      invariant n > 0 ==> latencies[..i] == SortJittered(was[..i], jitter) && latencies[i..] == was[i..]
    {
      JitteredNext(was, jitter, i);
      assert latencies[i] == latencies[i..][0] && latencies[i + 1..] == latencies[i..][1..];
      SinkLatency(ordered, latencies, i, JitterAt(jitter, i));
      i := i + 1;
    }
    assert latencies[..n] == latencies[..] && was[..n] == was;
  }

  lemma SameSnapshot(deps: seq<DeploymentInfo>, was: seq<int>)
    requires Paired(deps, was)
    ensures forall w | Paired(deps, w) :: w == was
  {
  }

  lemma BoundOf(out: seq<DeploymentInfo>, ms: seq<int>, was: seq<int>, jitter: (nat, nat) -> nat)
    requires Jitters(jitter) && Paired(out, ms) && ms == SortJittered(was, jitter)
    ensures forall i, k | 0 <= i <= k < |out| :: out[i].latencyEWMA <= out[k].latencyEWMA + 9 * (k - i)
  {
    JitterBound(was, jitter);
    forall i, k | 0 <= i <= k < |out| ensures out[i].latencyEWMA <= out[k].latencyEWMA + 9 * (k - i) {
      NearlySortedFar(ms, i, k);
    }
  }

  lemma JitteredNext(s: seq<int>, jitter: (nat, nat) -> nat, i: nat)
    requires 0 < i < |s|
    ensures SortJittered(s[..i + 1], jitter) == SinkJittered(SortJittered(s[..i], jitter), s[i], JitterAt(jitter, i))
    ensures s[i..][0] == s[i] && s[i..][1..] == s[i + 1..]
  {
    assert s[..i + 1][..i] == s[..i];
  }

  lemma SortOneJittered(s: seq<int>, jitter: (nat, nat) -> nat)
    requires |s| == 1
    ensures SortJittered(s, jitter) == s
  {
    assert s[..0] == [];
    assert SortJittered(s[..0], jitter) == [];
    assert SinkJittered([], s[0], JitterAt(jitter, 0)) == [] + [s[0]];
  }
}
