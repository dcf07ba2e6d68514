/** Hash chains in general: each entry carries the link of the one before it. */
module HashChain {

  ghost predicate Linked<T>(chain: seq<T>, prev: T -> string, link: T -> string) {
    forall i | 0 < i < |chain| :: prev(chain[i]) == link(chain[i - 1])
  }

  function FromEnd<T>(chain: seq<T>, i: nat): T
    requires i < |chain|
  {
    chain[|chain| - 1 - i]
  }

  /** Counted from their ends, no different entries of the two chains have the same link. */
  ghost predicate NoCollision<T(!new)>(a: seq<T>, b: seq<T>, link: T -> string) {
    forall i: nat | i < |a| && i < |b| && link(FromEnd(a, i)) == link(FromEnd(b, i)) :: FromEnd(a, i) == FromEnd(b, i)
  }

  ghost predicate NeverBlank<T(!new)>(chain: seq<T>, link: T -> string) {
    forall x | x in chain :: link(x) != ""
  }

  predicate IsSuffix<T(==)>(a: seq<T>, b: seq<T>) {
    |a| <= |b| && a == b[|b| - |a|..]
  }

  lemma LinkedExtends<T>(chain: seq<T>, x: T, prev: T -> string, link: T -> string)
    requires Linked(chain, prev, link) && (chain != [] ==> prev(x) == link(chain[|chain| - 1]))
    ensures Linked(chain + [x], prev, link)
  {
  }

  /** Two linked chains that end in the same link agree as far back as the shorter one goes, if and only if on the way
      no link stands for two entries. */
  lemma {:induction false} SameEndSuffix<T(!new)>(a: seq<T>, b: seq<T>, prev: T -> string, link: T -> string)
    requires Linked(a, prev, link) && Linked(b, prev, link)
    requires 0 < |a| <= |b| && link(a[|a| - 1]) == link(b[|b| - 1])
    ensures IsSuffix(a, b) <==> NoCollision(a, b, link)
  {
    if IsSuffix(a, b) {
      forall i: nat | i < |a| ensures FromEnd(a, i) == FromEnd(b, i) {
        assert a[|a| - 1 - i] == b[|b| - |a|..][|a| - 1 - i];
      }
    }
    if NoCollision(a, b, link) {
      Backwards(a, b, prev, link, |a|);
      assert a == b[|b| - |a|..] by {
        forall j | 0 <= j < |a| ensures a[j] == b[|b| - |a| + j] {
          assert FromEnd(a, |a| - 1 - j) == FromEnd(b, |a| - 1 - j);
        }
      }
    }
  }

  lemma {:induction false} Backwards<T(!new)>(a: seq<T>, b: seq<T>, prev: T -> string, link: T -> string, n: nat)
    requires Linked(a, prev, link) && Linked(b, prev, link) && NoCollision(a, b, link)
    requires 0 < n <= |a| <= |b| && link(a[|a| - 1]) == link(b[|b| - 1])
    ensures forall i: nat | i < n :: FromEnd(a, i) == FromEnd(b, i)
  {
    if n == 1 {
      assert link(FromEnd(a, 0)) == link(FromEnd(b, 0));
    } else {
      Backwards(a, b, prev, link, n - 1);
      var x, y := FromEnd(a, n - 1), FromEnd(b, n - 1);
      assert link(x) == prev(FromEnd(a, n - 2)) && link(y) == prev(FromEnd(b, n - 2));
    }
  }

  /** With a blank start they are identical: nothing can have been altered, dropped, inserted or reordered. */
  lemma SameEndSameChain<T(!new)>(a: seq<T>, b: seq<T>, prev: T -> string, link: T -> string)
    requires Linked(a, prev, link) && Linked(b, prev, link) && NeverBlank(a, link) && NeverBlank(b, link)
    requires a != [] && b != [] && prev(a[0]) == "" && prev(b[0]) == "" && link(a[|a| - 1]) == link(b[|b| - 1])
    ensures a == b <==> NoCollision(a, b, link)
  {
    if |a| <= |b| {
      SameEndSuffix(a, b, prev, link);
      if NoCollision(a, b, link) { NoEarlierStart(a, b, prev, link); }
    } else {
      SameEndSuffix(b, a, prev, link);
      if NoCollision(a, b, link) {
        assert NoCollision(b, a, link);
        NoEarlierStart(b, a, prev, link);
      }
    }
  }

  lemma NoEarlierStart<T(!new)>(a: seq<T>, b: seq<T>, prev: T -> string, link: T -> string)
    requires Linked(b, prev, link) && IsSuffix(a, b) && a != [] && prev(a[0]) == "" && NeverBlank(b, link)
    ensures a == b
  {
    forall j | 0 < j < |b| ensures prev(b[j]) != "" { assert prev(b[j]) == link(b[j - 1]); }
    assert a[0] == b[|b| - |a|];
  }

  /** Without the blank start a chain and its own tail cannot be told apart by their end. */
  lemma BlankStartNeeded<T(!new)>(b: seq<T>, prev: T -> string, link: T -> string)
    requires Linked(b, prev, link) && |b| > 1
    ensures Linked(b[1..], prev, link) && link(b[1..][|b| - 2]) == link(b[|b| - 1]) && b[1..] != b
  {
    forall i | 0 < i < |b| - 1 ensures prev(b[1..][i]) == link(b[1..][i - 1]) {
      assert b[1..][i] == b[i + 1] && b[1..][i - 1] == b[i];
    }
  }
}
