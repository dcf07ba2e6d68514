/** The two check-digit filters of privacy/redactor.go: Luhn for cards (Annex B of ISO/IEC 7812-1) and
    MOD 97-10 for IBANs (ISO/IEC 7064). */
module CheckDigits {
  import opened Wrappers


  predicate IsDigit(c: char) { '0' <= c <= '9' }

  predicate IsUpper(c: char) { 'A' <= c <= 'Z' }

  function DigitValue(c: char): (v: nat)
    requires IsDigit(c)
    ensures v <= 9
  {
    (c - '0') as nat
  }

  predicate AllDigits(s: string) {
    forall i | 0 <= i < |s| :: IsDigit(s[i])
  }

  // ---- Luhn ------------------------------------------------------------------------------------

  /** The digits of a text that may also hold spaces and dashes. */
  function DigitsOf(s: string): (ds: seq<nat>)
    ensures forall i | 0 <= i < |ds| :: ds[i] <= 9
    ensures |ds| <= |s|
  {
    if s == "" then []
    else DigitsOf(s[..|s| - 1]) + if IsDigit(s[|s| - 1]) then [DigitValue(s[|s| - 1])] else []
  }

  function Doubled(d: nat): nat {
    if 2 * d > 9 then 2 * d - 9 else 2 * d
  }

  function Weight(d: nat, double: bool): nat {
    if double then Doubled(d) else d
  }

  /** The Luhn sum, counting from the right; `double` is whether the last digit counts doubled. */
  function LuhnSum(ds: seq<nat>, double: bool): nat {
    if ds == [] then 0
    else Weight(ds[|ds| - 1], double) + LuhnSum(ds[..|ds| - 1], !double)
  }

  predicate LuhnOk(ds: seq<nat>) {
    13 <= |ds| <= 19 && LuhnSum(ds, false) % 10 == 0
  }

  method LuhnValid(s: string) returns (ok: bool)
    ensures ok == LuhnOk(DigitsOf(s))
  {
    var digits: seq<nat> := [];
    for i := 0 to |s|
      invariant digits == DigitsOf(s[..i])
    {
      assert s[..i + 1][..i] == s[..i];
      if s[i] >= '0' && s[i] <= '9' {
        digits := digits + [(s[i] - '0') as nat];
      }
    }
    assert s[..|s|] == s;
    if |digits| < 13 || |digits| > 19 {
      return false;
    }
    var sum, alt := 0, false;
    var i := |digits| - 1;
    assert digits[..i + 1] == digits;
    while i >= 0
      invariant -1 <= i < |digits|
      invariant sum + LuhnSum(digits[..i + 1], alt) == LuhnSum(digits, false)
    {
      assert digits[..i + 1][..i] == digits[..i];
      var d: nat := digits[i];
      if alt {
        d := d * 2;
        if d > 9 {
          d := d - 9;
        }
      }
      sum := sum + d;
      alt := !alt;
      i := i - 1;
    }
    return sum % 10 == 0;
  }

  predicate IsDoubled(n: nat, k: nat, double: bool)
    requires k < n
  {
    if (n - 1 - k) % 2 == 0 then double else !double
  }

  lemma DoublingAlternates(n: nat, k: nat, double: bool)
    requires k < n
    ensures k < n - 1 ==> IsDoubled(n, k, double) == IsDoubled(n - 1, k, !double) == !IsDoubled(n, k + 1, double)
    ensures k == n - 1 ==> IsDoubled(n, k, double) == double
  {
  }

  /** The sum depends on one digit through its weight alone. */
  lemma {:induction false} LuhnOneDigit(ds: seq<nat>, k: nat, d: nat, double: bool)
    requires k < |ds|
    ensures LuhnSum(ds[k := d], double) - Weight(d, IsDoubled(|ds|, k, double))
            == LuhnSum(ds, double) - Weight(ds[k], IsDoubled(|ds|, k, double))
  {
    var n := |ds|;
    DoublingAlternates(n, k, double);
    if k < n - 1 {
      assert ds[k := d][..n - 1] == ds[..n - 1][k := d];
      LuhnOneDigit(ds[..n - 1], k, d, !double);
    } else {
      assert ds[k := d][..n - 1] == ds[..n - 1];
    }
  }

  /** Changing one digit of a valid number always makes it invalid. */
  lemma LuhnDetectsOneDigit(ds: seq<nat>, k: nat, d: nat)
    requires (forall i | 0 <= i < |ds| :: ds[i] <= 9) && k < |ds| && d <= 9 && d != ds[k]
    requires LuhnOk(ds)
    ensures !LuhnOk(ds[k := d])
  {
    LuhnOneDigit(ds, k, d, false);
    var double := IsDoubled(|ds|, k, false);
    WeightsDiffer(d, ds[k], double);
    SmallShift(LuhnSum(ds, false), LuhnSum(ds[k := d], false));
  }

  lemma WeightsDiffer(a: nat, b: nat, double: bool)
    requires a <= 9 && b <= 9 && a != b
    ensures Weight(a, double) != Weight(b, double) && Weight(a, double) <= 9 && Weight(b, double) <= 9
  {
  }

  /** The payload sum of Annex B of ISO/IEC 7812-1: from the right every other digit, the first one included, is
      doubled, and the digits of the products are added up with the others. */
  function PayloadSum(payload: seq<nat>): nat {
    if payload == [] then 0
    else
      var product := if |payload| % 2 == 1 then 2 * payload[0] else payload[0];
      product / 10 + product % 10 + PayloadSum(payload[1..])
  }

  lemma {:induction false} LuhnFromLeft(ds: seq<nat>, double: bool)
    requires ds != []
    ensures LuhnSum(ds, double) == Weight(ds[0], IsDoubled(|ds|, 0, double)) + LuhnSum(ds[1..], double)
    decreases |ds|
  {
    var n := |ds|;
    if n > 1 {
      LuhnFromLeft(ds[..n - 1], !double);
      assert ds[..n - 1][1..] == ds[1..][..n - 2];
      DoublingAlternates(n, 0, double);
    } else {
      assert ds[..0] == ds[1..] == [];
    }
  }

  lemma {:induction false} PayloadIsLuhn(payload: seq<nat>)
    requires forall i | 0 <= i < |payload| :: payload[i] <= 9
    ensures LuhnSum(payload, true) == PayloadSum(payload)
    decreases |payload|
  {
    if payload != [] {
      LuhnFromLeft(payload, true);
      PayloadIsLuhn(payload[1..]);
      Term(payload[0], |payload|);
    }
  }

  lemma Term(d: nat, n: nat)
    requires d <= 9 && n > 0
    ensures var product := if n % 2 == 1 then 2 * d else d;
            Weight(d, IsDoubled(n, 0, true)) == product / 10 + product % 10
  {
    assert IsDoubled(n, 0, true) <==> n % 2 == 1;
  }

  /** A digit completes a payload if and only if it brings that sum to a multiple of ten. */
  lemma LuhnCompletes(payload: seq<nat>, c: nat, sum: nat)
    requires (forall i | 0 <= i < |payload| :: payload[i] <= 9) && sum == PayloadSum(payload) + c
    ensures LuhnOk(payload + [c]) <==> 12 <= |payload| <= 18 && sum % 10 == 0
  {
    PayloadIsLuhn(payload);
    assert (payload + [c])[..|payload|] == payload;
    assert LuhnSum(payload + [c], false) == sum;
  }

  /** The digits of a text are its digits, one by one, and whatever else it holds. */
  lemma {:induction false} DigitsCat(a: string, b: string)
    ensures DigitsOf(a + b) == DigitsOf(a) + DigitsOf(b)
    decreases |b|
  {
    if b == "" {
      assert a + b == a;
    } else {
      var b' := b[..|b| - 1];
      DigitsCat(a, b');
      assert (a + b)[..|a + b| - 1] == a + b' && (a + b)[|a + b| - 1] == b[|b| - 1];
    }
  }

  lemma DigitsOfOne(c: char)
    ensures DigitsOf([c]) == if '0' <= c <= '9' then [c as int - 48] else []
  {
    assert [c][..0] == "";
    assert DigitsOf("") == [];
  }

  /** What is no digit makes no difference to a card number, wherever it stands. */
  lemma SeparatorsIgnored(a: string, c: char, b: string)
    requires !('0' <= c <= '9')
    ensures DigitsOf(a + [c] + b) == DigitsOf(a + b)
  {
    DigitsCat(a + [c], b);
    DigitsCat(a, [c]);
    DigitsOfOne(c);
    DigitsCat(a, b);
  }

  function Swapped(ds: seq<nat>, k: nat): seq<nat>
    requires k + 1 < |ds|
  {
    ds[k := ds[k + 1]][k + 1 := ds[k]]
  }

  /** Swapping two different adjacent digits of a valid number goes unnoticed only for 0 and 9. */
  lemma LuhnAdjacentSwap(ds: seq<nat>, k: nat)
    requires (forall i | 0 <= i < |ds| :: ds[i] <= 9) && k + 1 < |ds| && ds[k] != ds[k + 1]
    requires LuhnOk(ds)
    ensures LuhnOk(Swapped(ds, k)) <==> (ds[k] == 0 && ds[k + 1] == 9) || (ds[k] == 9 && ds[k + 1] == 0)
  {
    var a, b := ds[k], ds[k + 1];
    var once := ds[k := b];
    LuhnOneDigit(ds, k, b, false);
    LuhnOneDigit(once, k + 1, a, false);
    var double := IsDoubled(|ds|, k, false);
    DoublingAlternates(|ds|, k, false);
    assert a <= 9 && b <= 9;
    var before: int, after: int := LuhnSum(ds, false), LuhnSum(Swapped(ds, k), false);
    assert after - before ==
           if double then (Doubled(b) as int - Doubled(a)) + (a as int - b)
           else (b as int - a) + (Doubled(a) as int - Doubled(b));
    SmallShift(before, after);
  }

  lemma SmallShift(before: int, after: int)
    requires before % 10 == 0 && -9 <= after - before <= 9
    ensures after % 10 == 0 <==> after == before
  {
  }

  // ---- IBAN ------------------------------------------------------------------------------------

  /** The number a string of digits writes. */
  function Number(s: string): nat
    requires AllDigits(s)
  {
    if s == "" then 0 else 10 * Number(s[..|s| - 1]) + DigitValue(s[|s| - 1])
  }

  function Decimal(n: nat): (s: string)
    ensures AllDigits(s) && s != ""
    ensures n < 10 ==> |s| == 1
    ensures 10 <= n < 100 ==> |s| == 2
  {
    if n < 10 then [('0' as int + n) as char]
    else
      assert 10 <= n < 100 ==> n / 10 < 10;
      Decimal(n / 10) + [('0' as int + n % 10) as char]
  }

  predicate Expandable(s: string) {
    forall i | 0 <= i < |s| :: IsDigit(s[i]) || IsUpper(s[i])
  }

  /** A letter stands for its two-digit number, A for 10 and Z for 35. */
  function CharText(c: char): (t: string)
    requires IsDigit(c) || IsUpper(c)
    ensures AllDigits(t) && |t| == (if IsDigit(c) then 1 else 2)
  {
    if IsDigit(c) then [c] else Decimal((c - 'A') as nat + 10)
  }

  function Expanded(s: string): (t: string)
    requires Expandable(s)
    ensures AllDigits(t)
  {
    if s == "" then "" else Expanded(s[..|s| - 1]) + CharText(s[|s| - 1])
  }

  /** d times the k-th power of ten. */
  function Shift(d: int, k: nat): int {
    if k == 0 then d else 10 * Shift(d, k - 1)
  }

  /** ASCII upper-casing with the spaces dropped. */
  function Normal(s: string): string {
    if s == "" then ""
    else
      var c := s[|s| - 1];
      Normal(s[..|s| - 1]) + if c == ' ' then "" else if 'a' <= c <= 'z' then [(c as int - 32) as char] else [c]
  }

  function Rearranged(up: string): string
    requires |up| >= 4
  {
    up[4..] + up[..4]
  }

  predicate IbanOk(up: string) {
    15 <= |up| <= 34 && Expandable(Rearranged(up)) && Number(Expanded(Rearranged(up))) % 97 == 1
  }

  lemma NumberDecimal(n: nat)
    ensures Number(Decimal(n)) == n
  {
    if n >= 10 {
      NumberDecimal(n / 10);
      var s := Decimal(n);
      assert s[..|s| - 1] == Decimal(n / 10);
    } else {
      assert Decimal(n)[..0] == "";
    }
  }

  lemma ShiftAdd(d: int, a: nat, b: nat)
    ensures Shift(d, a + b) == Shift(Shift(d, a), b)
  {
  }

  lemma ShiftDifference(x: int, y: int, k: nat)
    ensures Shift(x, k) - Shift(y, k) == Shift(x - y, k)
  {
    if k > 0 { ShiftDifference(x, y, k - 1); }
  }

  lemma ShiftGrows(a: nat, b: nat)
    requires a <= b
    ensures 0 < Shift(1, a) <= Shift(1, b)
  {
  }

  lemma {:induction false} NumberCat(a: string, b: string)
    requires AllDigits(a) && AllDigits(b)
    ensures AllDigits(a + b) && Number(a + b) == Shift(Number(a), |b|) + Number(b)
  {
    if b == "" {
      assert a + b == a;
    } else {
      var b' := b[..|b| - 1];
      NumberCat(a, b');
      assert (a + b)[..|a + b| - 1] == a + b';
    }
  }

  lemma NumberBelow(s: string)
    requires AllDigits(s)
    ensures Number(s) < Shift(1, |s|)
  {
  }

  lemma ModAddMultiple(x: int, q: int)
    ensures (97 * q + x) % 97 == x % 97
  {
  }

  lemma TenTimesMod(x: int, y: int)
    requires x % 97 == y % 97
    ensures (10 * x) % 97 == (10 * y) % 97
  {
    assert 10 * x == 97 * (10 * (x / 97)) + 10 * (x % 97);
    assert 10 * y == 97 * (10 * (y / 97)) + 10 * (y % 97);
    ModAddMultiple(10 * (x % 97), 10 * (x / 97));
    ModAddMultiple(10 * (y % 97), 10 * (y / 97));
  }

  lemma {:induction false} ShiftMod(x: int, k: nat)
    ensures Shift(x, k) % 97 == Shift(x % 97, k) % 97
  {
    if k > 0 {
      ShiftMod(x, k - 1);
      TenTimesMod(Shift(x, k - 1), Shift(x % 97, k - 1));
    }
  }

  lemma AddMod(x: int, y: int, z: int)
    requires x % 97 == y % 97
    ensures (x + z) % 97 == (y + z) % 97
  {
    assert x + z == 97 * (x / 97 - y / 97) + (y + z);
    ModAddMultiple(y + z, x / 97 - y / 97);
  }

  /** The number a chunk writes; no intermediate value reaches 10^9. */
  method ChunkValue(chunk: string) returns (n: nat)
    requires AllDigits(chunk) && |chunk| <= 9
    ensures n == Number(chunk)
  {
    n := 0;
    for j := 0 to |chunk|
      invariant n == Number(chunk[..j]) && n < 1_000_000_000
    {
      assert chunk[..j + 1][..j] == chunk[..j];
      PrefixBelow(chunk, j + 1);
      n := n * 10 + (chunk[j] - '0') as nat;
    }
    assert chunk[..|chunk|] == chunk;
  }

  /** The chunked division: seven digits at a time behind the running remainder; the result is the
      remainder of the whole number. */
  method Mod97(numStr: string) returns (rem: nat)
    requires AllDigits(numStr)
    ensures rem == Number(numStr) % 97
  {
    rem := 0;
    var i := 0;
    while i < |numStr|
      invariant 0 <= i && rem < 97
      invariant rem == Number(numStr[..if i <= |numStr| then i else |numStr|]) % 97
    {
      var end := i + 7;
      if end > |numStr| {
        end := |numStr|;
      }
      ChunkNumber(rem, numStr[i..end]);
      ChunkStep(numStr, i, end, rem);
      var n := ChunkValue(Decimal(rem) + numStr[i..end]);
      rem := n % 97;
      i := i + 7;
    }
    assert numStr[..|numStr|] == numStr;
  }

  lemma ChunkStep(s: string, i: nat, end: nat, rem: nat)
    requires AllDigits(s) && i <= end <= |s| && rem == Number(s[..i]) % 97
    ensures Number(s[..end]) % 97 == (Shift(rem, end - i) + Number(s[i..end])) % 97
  {
    NumberCat(s[..i], s[i..end]);
    assert s[..end] == s[..i] + s[i..end];
    ShiftMod(Number(s[..i]), end - i);
    AddMod(Shift(Number(s[..i]), end - i), Shift(rem, end - i), Number(s[i..end]));
  }

  lemma ChunkNumber(rem: nat, digits: string)
    requires rem < 97 && AllDigits(digits) && |digits| <= 7
    ensures AllDigits(Decimal(rem) + digits) && |Decimal(rem) + digits| <= 9
    ensures Number(Decimal(rem) + digits) == Shift(rem, |digits|) + Number(digits)
  {
    NumberDecimal(rem);
    NumberCat(Decimal(rem), digits);
  }

  lemma PrefixBelow(chunk: string, j: nat)
    requires AllDigits(chunk) && |chunk| <= 9 && j <= |chunk|
    ensures Number(chunk[..j]) < 1_000_000_000
  {
    NumberBelow(chunk[..j]);
    ShiftGrows(j, 9);
    assert Shift(1, 9) == 1_000_000_000;
  }

  method Normalize(s: string) returns (up: string)
    ensures up == Normal(s)
  {
    up := "";
    for i := 0 to |s|
      invariant up == Normal(s[..i])
    {
      assert s[..i + 1][..i] == s[..i];
      if s[i] != ' ' {
        up := up + [if 'a' <= s[i] <= 'z' then (s[i] as int - 32) as char else s[i]];
      }
    }
    assert s[..|s|] == s;
  }

  lemma ExpandedNext(s: string, i: nat)
    requires i < |s| && Expandable(s[..i])
    ensures Expandable(s[..i + 1]) <==> IsDigit(s[i]) || IsUpper(s[i])
    ensures IsDigit(s[i]) || IsUpper(s[i]) ==> Expanded(s[..i + 1]) == Expanded(s[..i]) + CharText(s[i])
    ensures Expandable(s) ==> Expandable(s[..i + 1])
  {
    assert s[..i + 1][..i] == s[..i] && s[..i + 1][i] == s[i];
    assert forall j | 0 <= j < i :: s[..i + 1][j] == s[..i][j];
  }

  /** The expansion loop; it gives up at the first character that is neither digit nor letter. */
  method Expand(rearranged: string) returns (ok: bool, numStr: string)
    ensures ok == Expandable(rearranged)
    ensures ok ==> numStr == Expanded(rearranged)
  {
    numStr := "";
    for i := 0 to |rearranged|
      invariant Expandable(rearranged[..i]) && numStr == Expanded(rearranged[..i])
    {
      var c := rearranged[i];
      ExpandedNext(rearranged, i);
      if c >= '0' && c <= '9' {
        numStr := numStr + [c];
      } else if c >= 'A' && c <= 'Z' {
        numStr := numStr + Decimal((c - 'A') as nat + 10);
      } else {
        return false, numStr;
      }
    }
    assert rearranged[..|rearranged|] == rearranged;
    return true, numStr;
  }

  method IbanValid(s: string) returns (ok: bool)
    ensures ok == IbanOk(Normal(s))
  {
    var up := Normalize(s);
    if |up| < 15 || |up| > 34 {
      return false;
    }
    var expanded, numStr := Expand(up[4..] + up[..4]);
    if !expanded {
      return false;
    }
    var rem := Mod97(numStr);
    return rem == 1;
  }

  predicate SameKind(a: char, b: char) {
    (IsDigit(a) && IsDigit(b)) || (IsUpper(a) && IsUpper(b))
  }

  lemma CharNumber(c: char)
    requires IsDigit(c) || IsUpper(c)
    ensures Number(CharText(c)) == CharValue(c)
  {
    if IsDigit(c) {
      assert [c][..0] == "";
      assert Number([c]) == 10 * Number([c][..0]) + DigitValue(c);
    } else {
      NumberDecimal((c - 'A') as nat + 10);
    }
  }

  function Width(c: char): nat {
    if IsDigit(c) then 1 else 2
  }

  /** How many digits of the expanded number come after character k. */
  function DigitsAfter(s: string, k: nat): nat
    requires k < |s|
  {
    if k == |s| - 1 then 0 else DigitsAfter(s[..|s| - 1], k) + Width(s[|s| - 1])
  }

  function CharValue(c: char): (v: nat)
    requires IsDigit(c) || IsUpper(c)
    ensures v < 36
  {
    if IsDigit(c) then DigitValue(c) else (c - 'A') as nat + 10
  }

  /** The expanded number, read off the characters directly. */
  function IbanNumber(s: string): int
    requires Expandable(s)
  {
    if s == "" then 0
    else Shift(IbanNumber(s[..|s| - 1]), Width(s[|s| - 1])) + CharValue(s[|s| - 1])
  }

  lemma ExpandedNumber(s: string)
    requires Expandable(s)
    ensures Number(Expanded(s)) == IbanNumber(s)
  {
    if s != "" {
      var init, c := s[..|s| - 1], s[|s| - 1];
      ExpandedNumber(init);
      NumberCat(Expanded(init), CharText(c));
      CharNumber(c);
    }
  }

  /** Changing a character to one of its kind shifts the number by the difference, scaled by the digits
      behind it. */
  lemma {:induction false} IbanOneChar(s: string, k: nat, c: char, d: int)
    requires Expandable(s) && k < |s| && SameKind(s[k], c) && d == CharValue(c) - CharValue(s[k])
    ensures Expandable(s[k := c])
    ensures IbanNumber(s[k := c]) == IbanNumber(s) + Shift(d, DigitsAfter(s, k))
    decreases |s|
  {
    var n, s' := |s| - 1, s[k := c];
    if k == n {
      assert s'[..n] == s[..n];
    } else {
      assert s'[..n] == s[..n][k := c];
      IbanOneChar(s[..n], k, c, d);
      ShiftSum(d, DigitsAfter(s[..n], k), IbanNumber(s[..n]), Width(s[n]));
    }
  }

  lemma ShiftSum(d: int, p: nat, e: int, w: nat)
    ensures Shift(e + Shift(d, p), w) == Shift(e, w) + Shift(d, p + w)
  {
    ShiftAdd(d, p, w);
    ShiftDifference(e + Shift(d, p), e, w);
  }

  /** 97 is prime and does not divide ten: a small difference times a power of ten is no multiple. */
  lemma {:induction false} NotMultiple(d: int, k: nat)
    requires d % 97 != 0
    ensures Shift(d, k) % 97 != 0
  {
    if k > 0 {
      NotMultiple(d, k - 1);
      TenTimes(Shift(d, k - 1));
    }
  }

  lemma TenTimes(x: int)
    requires x % 97 != 0
    ensures (10 * x) % 97 != 0
  {
    var q, r := x / 97, x % 97;
    assert 10 * x == 97 * (10 * q) + 10 * r;
    ModAddMultiple(10 * r, 10 * q);
    assert 1 <= r <= 96 ==> (10 * r) % 97 != 0;
  }

  /** Changing one digit to another, or one letter to another, always makes a valid IBAN invalid. */
  lemma IbanDetectsOneChar(up: string, k: nat, c: char)
    requires IbanOk(up) && k < |up| && SameKind(up[k], c) && c != up[k]
    ensures !IbanOk(up[k := c])
  {
    var r := Rearranged(up);
    var j := if k >= 4 then k - 4 else |up| - 4 + k;
    assert r[j] == up[k] && Rearranged(up[k := c]) == r[j := c];
    ExpandedNumber(r);
    RearrangedOneChar(r, j, c);
    ExpandedNumber(r[j := c]);
  }

  lemma RearrangedOneChar(r: string, j: nat, c: char)
    requires Expandable(r) && IbanNumber(r) % 97 == 1
    requires j < |r| && SameKind(r[j], c) && c != r[j]
    ensures Expandable(r[j := c]) && IbanNumber(r[j := c]) % 97 != 1
  {
    var d := CharValue(c) - CharValue(r[j]);
    SmallNotMultiple(d);
    NotMultiple(d, DigitsAfter(r, j));
    IbanOneChar(r, j, c, d);
    SameRemainder(IbanNumber(r[j := c]), IbanNumber(r));
  }

  lemma SmallNotMultiple(d: int)
    requires d != 0 && -97 < d < 97
    ensures d % 97 != 0
  {
  }

  lemma SameRemainder(x: int, y: int)
    requires y % 97 == 1
    ensures x % 97 == 1 ==> (x - y) % 97 == 0
  {
    if x % 97 == 1 {
      assert x - y == 97 * (x / 97 - y / 97);
      ModAddMultiple(0, x / 97 - y / 97);
    }
  }

  /** Check digits complete a country code and an account number if and only if they bring the number that has 00 in
      their place to 1 modulo 97 (section 6 of ISO 13616-1). */
  lemma IbanCompletes(country: string, check: string, account: string, n: int)
    requires |country| == 2 && Expandable(country) && 11 <= |account| <= 30 && Expandable(account)
    requires |check| == 2 && AllDigits(check) && n == IbanNumber(account + country + "00") + Number(check)
    ensures IbanOk(country + check + account) <==> n % 97 == 1
  {
    var base := account + country;
    RearrangedIs(country, check, account);
    TwoMore(base, check);
    TwoMore(base, "00");
    TwoDigits(check);
    assert IbanNumber(base + check) == n;
    IbanOkIff(country + check + account, base + check);
  }

  lemma RearrangedIs(country: string, check: string, account: string)
    requires |country| == |check| == 2
    ensures Rearranged(country + check + account) == account + country + check
  {
    var up := country + check + account;
    assert up[4..] == account && up[..4] == country + check;
    Reassociate(account, country, check);
  }

  /** Whether an IBAN passes is a matter of the number of its rearranged form. */
  lemma IbanOkIff(up: string, r: string)
    requires 15 <= |up| <= 34 && Rearranged(up) == r && Expandable(r)
    ensures IbanOk(up) <==> IbanNumber(r) % 97 == 1
  {
    ExpandedNumber(r);
  }

  lemma TwoMore(s: string, t: string)
    requires Expandable(s) && |t| == 2 && AllDigits(t)
    ensures Expandable(s + t)
    ensures IbanNumber(s + t) == 100 * IbanNumber(s) + 10 * DigitValue(t[0]) + DigitValue(t[1])
  {
    OneMore(s, t[0]);
    OneMore(s + [t[0]], t[1]);
    assert s + t == s + [t[0]] + [t[1]];
  }

  lemma OneMore(s: string, c: char)
    requires Expandable(s) && IsDigit(c)
    ensures Expandable(s + [c]) && IbanNumber(s + [c]) == 10 * IbanNumber(s) + DigitValue(c)
  {
    var t := s + [c];
    assert t[..|t| - 1] == s;
    assert Shift(IbanNumber(s), 1) == 10 * Shift(IbanNumber(s), 0);
  }

  lemma TwoDigits(t: string)
    requires |t| == 2 && AllDigits(t)
    ensures Number(t) == 10 * DigitValue(t[0]) + DigitValue(t[1])
  {
    assert t[..1][..0] == "" && Number("") == 0;
    assert Number(t[..1]) == DigitValue(t[0]);
  }

  /** Spaces and case make no difference to an IBAN. */
  lemma {:induction false} NormalCat(a: string, b: string)
    ensures Normal(a + b) == Normal(a) + Normal(b)
    decreases |b|
  {
    if b == "" {
      assert a + b == a;
    } else {
      var b' := b[..|b| - 1];
      NormalCat(a, b');
      assert (a + b)[..|a + b| - 1] == a + b' && (a + b)[|a + b| - 1] == b[|b| - 1];
    }
  }

  lemma CaseAndSpacesIgnored(a: string, c: char, b: string)
    ensures Normal(a + " " + b) == Normal(a + b)
    ensures 'a' <= c <= 'z' ==> Normal(a + [c] + b) == Normal(a + [(c as int - 32) as char] + b)
    ensures Expandable(a) ==> Normal(a) == a
  {
    NormalCat(a + " ", b);
    NormalCat(a, " ");
    NormalCat(a, b);
    NormalOne(' ');
    if 'a' <= c <= 'z' {
      var u := (c as int - 32) as char;
      NormalCat(a + [c], b);
      NormalCat(a, [c]);
      NormalCat(a + [u], b);
      NormalCat(a, [u]);
      NormalOne(c);
      NormalOne(u);
    }
    if Expandable(a) { NormalKeeps(a); }
  }

  lemma NormalOne(c: char)
    ensures Normal([c]) == if c == ' ' then "" else if 'a' <= c <= 'z' then [(c as int - 32) as char] else [c]
  {
    assert [c][..0] == "" && Normal("") == "";
  }

  lemma {:induction false} NormalKeeps(a: string)
    requires Expandable(a)
    ensures Normal(a) == a
    decreases |a|
  {
    if a != "" {
      NormalKeeps(a[..|a| - 1]);
      assert a == a[..|a| - 1] + [a[|a| - 1]];
    }
  }
}
