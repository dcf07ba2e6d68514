/** The arithmetic behind a shared round-robin counter: who leads when, and how often. */
module Rotation {

  function Rotate<T>(s: seq<T>, k: nat): (r: seq<T>)
    requires s != []
    ensures |r| == |s| && forall i | 0 <= i < |s| :: r[i] == s[(k + i) % |s|]
  {
    seq(|s|, i requires 0 <= i < |s| => s[(k + i) % |s|])
  }

  /** A rotation is the two halves of the list exchanged. */
  lemma RotateHalves<T>(s: seq<T>, k: nat)
    requires s != []
    ensures Rotate(s, k) == s[k % |s|..] + s[..k % |s|]
    ensures multiset(Rotate(s, k)) == multiset(s)
  {
    var n, d := |s|, k % |s|;
    forall i | 0 <= i < n ensures Rotate(s, k)[i] == (s[d..] + s[..d])[i] {
      ModShift(k, i, n);
    }
    assert Rotate(s, k) == s[d..] + s[..d];
    assert s == s[..d] + s[d..];
  }

  lemma ModShift(k: nat, i: nat, n: nat)
    requires n > 0 && i < n
    ensures (k + i) % n == if k % n + i < n then k % n + i else k % n + i - n
  {
    var q, d := k / n, k % n;
    assert k == q * n + d;
    if d + i < n {
      QuotientUnique(k + i, q, d + i, n);
    } else {
      assert k + i == (q + 1) * n + (d + i - n);
      QuotientUnique(k + i, q + 1, d + i - n, n);
    }
  }

  lemma {:induction false} AddMultiple(x: int, q: int, n: nat)
    requires n > 0
    ensures (q * n + x) % n == x % n
    decreases if q < 0 then -q else q
  {
    if q > 0 {
      AddMultiple(x, q - 1, n);
      AddOnce((q - 1) * n + x, n);
      assert q * n + x == (q - 1) * n + x + n;
    } else if q < 0 {
      AddMultiple(x, q + 1, n);
      AddOnce(q * n + x, n);
      assert (q + 1) * n + x == q * n + x + n;
    }
  }

  lemma AddOnce(x: int, n: nat)
    requires n > 0
    ensures (x + n) % n == x % n
  {
    var q, r := x / n, x % n;
    assert x == q * n + r && x + n == (q + 1) * n + r;
    QuotientUnique(x + n, q + 1, r, n);
  }

  lemma QuotientUnique(x: int, q: int, r: int, n: nat)
    requires n > 0 && x == q * n + r && 0 <= r < n
    ensures x % n == r
  {
    var q', r' := x / n, x % n;
    assert (q - q') * n == r' - r;
    if q > q' {
      assert (q - q') * n >= n by { Times(q - q', n); }
    } else if q < q' {
      assert (q' - q) * n >= n by { Times(q' - q, n); }
    }
  }

  lemma Times(a: int, n: nat)
    requires a >= 1
    ensures a * n >= n
  {
  }

  /** The only multiple of m strictly between -m and m is 0. */
  lemma SmallMultiple(z: int, m: nat)
    requires -(m as int) < z * m < m
    ensures z == 0
  {
    if z > 0 {
      Times(z, m);
    } else if z < 0 {
      assert (-z) * m == -(z * m);
      Times(-z, m);
    }
  }

  // ---- round robin on one list -----------------------------------------------------------------

  /** How many of the k counter values c, c+1, ... give the lead to position i of a list of n. */
  function Leads(c: nat, k: nat, n: nat, i: nat): nat
    requires n > 0
  {
    if k == 0 then 0 else Leads(c, k - 1, n, i) + if (c + k - 1) % n == i then 1 else 0
  }

  lemma {:induction false} LeadsSplit(c: nat, a: nat, b: nat, n: nat, i: nat)
    requires n > 0
    ensures Leads(c, a + b, n, i) == Leads(c, a, n, i) + Leads(c + a, b, n, i)
    decreases b
  {
    if b > 0 {
      LeadsSplit(c, a, b - 1, n, i);
    }
  }

  /** Fewer than n consecutive counter values give a position the lead at most once, and only if its turn
      is among them. */
  lemma {:induction false} LeadsShort(c: nat, k: nat, n: nat, i: nat)
    requires n > 0 && k <= n && i < n
    ensures Leads(c, k, n, i) == if Turn(c, n, i) < k then 1 else 0
    decreases k
  {
    if k > 0 {
      LeadsShort(c, k - 1, n, i);
      TurnAt(c, n, i, k - 1);
    }
  }

  /** The offset from c at which position i next leads. */
  function Turn(c: nat, n: nat, i: nat): nat
    requires n > 0
  {
    (i - c) % n
  }

  lemma TurnAt(c: nat, n: nat, i: nat, t: nat)
    requires n > 0 && i < n && t < n
    ensures (c + t) % n == i <==> Turn(c, n, i) == t
  {
    var q, q' := (c + t) / n, (i - c) / n;
    if (c + t) % n == i {
      assert c + t == q * n + i;
      assert i - c == -q * n + t;
      QuotientUnique(i - c, -q, t, n);
    }
    if Turn(c, n, i) == t {
      assert i - c == q' * n + t;
      assert c + t == -q' * n + i;
      QuotientUnique(c + t, -q', i, n);
    }
  }

  lemma {:induction false} LeadsPeriodic(c: nat, k: nat, n: nat, i: nat, q: nat, r: nat)
    requires n > 0 && i < n && q == k / n && r == k % n
    ensures q <= Leads(c, k, n, i) <= q + 1
    ensures r == 0 ==> Leads(c, k, n, i) == q
    decreases k
  {
    if k < n {
      LeadsShort(c, k, n, i);
      SmallQuotient(k, n);
    } else {
      LeadsSplit(c, n, k - n, n, i);
      LeadsShort(c, n, n, i);
      AddOnce(k - n, n);
      DivOnce(k, n);
      LeadsPeriodic(c + n, k - n, n, i, q - 1, r);
    }
  }

  lemma SmallQuotient(k: nat, n: nat)
    requires k < n
    ensures k / n == 0 && k % n == k
  {
  }

  lemma DivOnce(k: nat, n: nat)
    requires n > 0 && k >= n
    ensures k / n == (k - n) / n + 1
  {
    AddOnce(k - n, n);
    var a: int, b: int := k / n, (k - n) / n;
    assert k == a * n + k % n && k - n == b * n + (k - n) % n;
    assert (a - b - 1) * n == 0;
    SmallMultiple(a - b - 1, n);
  }

  /** Round robin is fair: over any k consecutive calls two positions lead equally often up to one, and in
      any n calls each leads exactly once. */
  lemma RoundRobinFair(c: nat, k: nat, n: nat, i: nat, j: nat)
    requires n > 0 && i < n && j < n
    ensures -1 <= Leads(c, k, n, i) - Leads(c, k, n, j) <= 1
    ensures Leads(c, n, n, i) == 1
  {
    LeadsPeriodic(c, k, n, i, k / n, k % n);
    LeadsPeriodic(c, k, n, j, k / n, k % n);
    LeadsShort(c, n, n, i);
  }

  // ---- a counter shared by several tie groups --------------------------------------------------

  /** Call t of a run that begins at counter c bumps the counter g times; group k of m members is led by
      this one. */
  function TieLead(c: nat, g: nat, k: nat, m: nat, t: nat): nat
    requires m > 0
  {
    (c + t * g + k) % m
  }

  ghost predicate Coprime(a: nat, b: nat) {
    forall d: nat | d > 1 :: !(Divides(d, a) && Divides(d, b))
  }

  ghost predicate Divides(d: nat, a: int) {
    exists q: int :: Product(q, d) == a
  }

  function Product(q: int, d: int): int {
    q * d
  }

  ghost predicate HasTurn(c: nat, g: nat, k: nat, m: nat, j: nat)
    requires m > 0
  {
    exists t: nat :: t < m && TieLead(c, g, k, m, t) == j
  }

  /** In any m consecutive calls each member of the group leads, and leads once. */
  ghost predicate FairTies(c: nat, g: nat, k: nat, m: nat)
    requires m > 0
  {
    && (forall j: nat | j < m :: HasTurn(c, g, k, m, j))
    && (forall t: nat, u: nat | t < m && u < m && TieLead(c, g, k, m, t) == TieLead(c, g, k, m, u) :: t == u)
  }

  lemma {:induction false} Bezout(a: nat, b: nat) returns (d: nat, x: int, y: int)
    requires a > 0 || b > 0
    ensures d > 0 && Divides(d, a) && Divides(d, b) && x * a + y * b == d
    decreases b
  {
    if b == 0 {
      d, x, y := a, 1, 0;
      assert Product(1, a) == a && Product(0, a) == 0;
    } else {
      var q, r := a / b, a % b;
      assert a == q * b + r;
      var x', y';
      d, x', y' := Bezout(b, r);
      var e, f :| Product(e, d) == b && Product(f, d) == r;
      assert a == q * (e * d) + f * d == (q * e + f) * d;
      assert Product(q * e + f, d) == a;
      x, y := y', x' - y' * q;
      assert x * a + y * b == y' * (q * b + r) + (x' - y' * q) * b;
      assert y' * (q * b + r) == y' * q * b + y' * r;
      assert (x' - y' * q) * b == x' * b - y' * q * b;
    }
  }

  lemma CoprimeInverse(g: nat, m: nat) returns (x: int, y: int)
    requires m > 0 && Coprime(g, m)
    ensures x * g + y * m == 1
  {
    var d;
    d, x, y := Bezout(g, m);
    assert d <= 1;
  }

  /** The member whose turn is wanted: solve for the call. */
  lemma SomeCallLeads(c: nat, g: nat, k: nat, m: nat, j: nat) returns (t: nat)
    requires m > 0 && j < m && Coprime(g, m)
    ensures t < m && TieLead(c, g, k, m, t) == j
  {
    var x, y := CoprimeInverse(g, m);
    var want := j - c - k;
    t := (x * want) % m;
    var q := (x * want) / m;
    assert x * want == q * m + t;
    var h := -(y * want) - q * g;
    assert t * g == (x * want - q * m) * g;
    Rearrange(x, g, y, m, want, q);
    assert c + t * g + k == h * m + j;
    QuotientUnique(c + t * g + k, h, j, m);
  }

  lemma Rearrange(x: int, g: int, y: int, m: int, want: int, q: int)
    requires x * g + y * m == 1
    ensures (x * want - q * m) * g == want + (-(y * want) - q * g) * m
  {
    calc {
      (x * want - q * m) * g;
      (x * g) * want - q * m * g;
      (1 - y * m) * want - q * m * g;
      want - y * m * want - q * m * g;
      want + (-(y * want) - q * g) * m;
    }
  }

  lemma LeadsDiffer(c: nat, g: nat, k: nat, m: nat, t: nat, u: nat)
    requires m > 0 && Coprime(g, m) && t < m && u < m && TieLead(c, g, k, m, t) == TieLead(c, g, k, m, u)
    ensures t == u
  {
    var tg, ug := t * g, u * g;
    var e := SameRemainder(c + tg + k, c + ug + k, m);
    assert (t - u) * g == tg - ug;
    NoSmallMultiple(t - u, g, e, m);
  }

  lemma NoSmallMultiple(d: int, g: nat, e: int, m: nat)
    requires m > 0 && Coprime(g, m) && d * g == e * m && -(m as int) < d < m
    ensures d == 0
  {
    var x, y := CoprimeInverse(g, m);
    Cancelled(x, g, y, m, d, e);
    SmallMultiple(x * e + y * d, m);
  }

  lemma SameRemainder(a: int, b: int, m: nat) returns (e: int)
    requires m > 0 && a % m == b % m
    ensures a - b == e * m
  {
    e := a / m - b / m;
    assert a == (a / m) * m + a % m && b == (b / m) * m + b % m;
  }

  lemma Cancelled(x: int, g: int, y: int, m: int, d: int, e: int)
    requires x * g + y * m == 1 && d * g == e * m
    ensures d == (x * e + y * d) * m
  {
    calc {
      d;
      (x * g + y * m) * d;
      x * (d * g) + y * m * d;
      x * (e * m) + y * m * d;
      (x * e + y * d) * m;
    }
  }

  /** A common divisor of g and m keeps the lead in one residue class. */
  lemma CommonDivisorStarves(c: nat, g: nat, k: nat, m: nat, d: nat, t: nat)
    requires m > 0 && d > 1 && Divides(d, g) && Divides(d, m)
    ensures TieLead(c, g, k, m, t) % d == (c + k) % d
  {
    var e, f :| Product(e, d) == g && Product(f, d) == m;
    var a := c + t * g + k;
    var q, r := a / m, a % m;
    assert a == q * m + r;
    assert r == (t * e - q * f) * d + (c + k) by {
      assert t * g == t * e * d && q * m == q * f * d;
      assert (t * e - q * f) * d == t * e * d - q * f * d;
    }
    AddMultiple(c + k, t * e - q * f, d);
  }

  lemma NextResidue(x: nat, m: nat, d: nat)
    requires m > 0 && d > 1 && Divides(d, m)
    ensures ((x + 1) % m) % d != x % d
  {
    var f :| Product(f, d) == m;
    var q, j := (x + 1) / m, (x + 1) % m;
    assert x + 1 == q * m + j;
    assert j == (-q * f) * d + (x + 1) by { assert q * m == q * f * d; assert (-q * f) * d == -(q * f * d); }
    AddMultiple(x + 1, -q * f, d);
    var p, r := x / d, x % d;
    assert x == p * d + r;
    if r + 1 < d {
      assert x + 1 == p * d + (r + 1);
      QuotientUnique(x + 1, p, r + 1, d);
    } else {
      assert x + 1 == (p + 1) * d + 0;
      QuotientUnique(x + 1, p + 1, 0, d);
    }
  }

  lemma UnfairWhenShared(c: nat, g: nat, k: nat, m: nat, d: nat)
    requires m > 0 && d > 1 && Divides(d, g) && Divides(d, m)
    ensures !HasTurn(c, g, k, m, (c + k + 1) % m)
  {
    forall t: nat | t < m ensures TieLead(c, g, k, m, t) != (c + k + 1) % m {
      CommonDivisorStarves(c, g, k, m, d, t);
      NextResidue(c + k, m, d);
    }
  }

  /** Ties rotate fairly exactly when the number of tie groups and the size of the group are coprime. */
  lemma TiesFairIffCoprime(c: nat, g: nat, k: nat, m: nat)
    requires m > 0
    ensures FairTies(c, g, k, m) <==> Coprime(g, m)
  {
    if Coprime(g, m) {
      forall j: nat | j < m ensures HasTurn(c, g, k, m, j) {
        var t := SomeCallLeads(c, g, k, m, j);
      }
      forall t: nat, u: nat | t < m && u < m && TieLead(c, g, k, m, t) == TieLead(c, g, k, m, u) ensures t == u {
        LeadsDiffer(c, g, k, m, t, u);
      }
    } else {
      var d: nat :| d > 1 && Divides(d, g) && Divides(d, m);
      UnfairWhenShared(c, g, k, m, d);
    }
  }
}
