/** Redaction (privacy/redactor.go) and the proof that rehydration undoes it. */
module Redaction {
  import opened Wrappers
  import opened Tokens

  /** A rule: its category, the regex as the index pairs it finds, and the optional post-match filter. */
  datatype Rule = Rule(category: string, find: string -> seq<(nat, nat)>, validate: Option<string -> bool>)

  datatype Match = Match(category: string, start: nat, end: nat)

  datatype Span = Span(category: string, start: nat, end: nat, value: string, token: string)

  predicate PairsIn(pairs: seq<(nat, nat)>, text: string) {
    forall i | 0 <= i < |pairs| :: pairs[i].0 <= pairs[i].1 <= |text|
  }

  /** What the regex library promises: every pair delimits a substring of the text. */
  ghost predicate FindsInBounds(r: Rule) {
    forall text :: PairsIn(r.find(text), text)
  }

  function Accepted(category: string, validate: Option<string -> bool>, pairs: seq<(nat, nat)>,
                    text: string): (ms: seq<Match>)
    requires PairsIn(pairs, text)
  {
    if pairs == [] then []
    else
      var p := pairs[|pairs| - 1];
      Accepted(category, validate, pairs[..|pairs| - 1], text)
      + if validate.Some? && !validate.value(text[p.0..p.1]) then [] else [Match(category, p.0, p.1)]
  }

  /** All accepted matches, rule by rule. */
  ghost function Matches(rules: seq<Rule>, text: string): (ms: seq<Match>)
    requires forall r | r in rules :: FindsInBounds(r)
  {
    if rules == [] then []
    else
      var r := rules[|rules| - 1];
      assert FindsInBounds(r);
      Matches(rules[..|rules| - 1], text) + Accepted(r.category, r.validate, r.find(text), text)
  }

  /** Some rule of this category finds these offsets, and its filter, if it has one, lets the text between them pass. */
  ghost predicate Selected(rules: seq<Rule>, text: string, category: string, i: nat, j: nat) {
    exists r | r in rules && r.category == category && (i, j) in r.find(text) ::
      i <= j <= |text| && (r.validate.None? || r.validate.value(text[i..j]))
  }

  lemma {:induction false} AcceptedAre(category: string, validate: Option<string -> bool>, pairs: seq<(nat, nat)>,
                                       text: string, x: Match)
    requires PairsIn(pairs, text)
    ensures x in Accepted(category, validate, pairs, text)
            <==> x.category == category && (x.start, x.end) in pairs && x.start <= x.end <= |text|
                 && (validate.None? || validate.value(text[x.start..x.end]))
    decreases |pairs|
  {
    if pairs != [] {
      var init, p := pairs[..|pairs| - 1], pairs[|pairs| - 1];
      AcceptedAre(category, validate, init, text, x);
      assert pairs == init + [p];
      assert (x.start, x.end) in pairs <==> (x.start, x.end) in init || (x.start, x.end) == p;
    }
  }

  lemma {:induction false} MatchesAre(rules: seq<Rule>, text: string, x: Match)
    requires forall r | r in rules :: FindsInBounds(r)
    ensures x in Matches(rules, text) <==> Selected(rules, text, x.category, x.start, x.end)
    decreases |rules|
  {
    if rules != [] {
      var init, r := rules[..|rules| - 1], rules[|rules| - 1];
      assert rules == init + [r];
      MatchesAre(init, text, x);
      assert FindsInBounds(r);
      AcceptedAre(r.category, r.validate, r.find(text), text, x);
    }
  }

  function MemoKey(category: string, value: string): string {
    category + "|" + value
  }

  /** The token a (category, key) pair is minted as; `digest` is the salted, truncated hash. */
  function Mint(digest: string -> string, category: string, key: string): string {
    MARKER + category + ":" + digest(key) + ">>"
  }

  predicate PlainText(s: string) {
    forall c | c in s :: c != '<' && c != '>'
  }

  /** Neither category, with the bar after it, begins the other: their memo keys cannot be confused. */
  predicate SplitApart(c1: string, c2: string) {
    c1 == c2 || !(c1 + "|" <= c2 + "|" || c2 + "|" <= c1 + "|")
  }

  /** The built-in categories are so; a custom one may be anything. */
  predicate Separate(cats: set<string>) {
    (forall c | c in cats :: PlainText(c)) && forall c1, c2 | c1 in cats && c2 in cats :: SplitApart(c1, c2)
  }

  /** Ten hexadecimal characters. */
  ghost predicate ShortHash(digest: string -> string) {
    forall key :: |digest(key)| == 10 && PlainText(digest(key))
  }

  // ---- what the walk over the spans writes -----------------------------------------------------

  predicate SpansIn(text: string, spans: seq<Span>) {
    forall s | s in spans :: s.start <= s.end <= |text| && s.value == text[s.start..s.end]
  }

  predicate SortedByStart(spans: seq<Span>) {
    forall i, j | 0 <= i < j < |spans| :: spans[i].start <= spans[j].start
  }

  /** The spans that survive: each starts no earlier than the previous survivor ends. */
  function Kept(spans: seq<Span>, prev: nat): (ks: seq<Span>)
    ensures forall s | s in ks :: s in spans
  {
    if spans == [] then []
    else if spans[0].start < prev then Kept(spans[1..], prev)
    else [spans[0]] + Kept(spans[1..], spans[0].end)
  }

  /** The redacted text from offset `prev` on, as pieces. */
  ghost function Redacted(text: string, ks: seq<Span>, prev: nat): seq<Piece>
    requires prev <= |text|
  {
    if ks == [] || !(prev <= ks[0].start <= ks[0].end <= |text|) then Chars(text[prev..])
    else Chars(text[prev..ks[0].start]) + [Tok(ks[0].token)] + Redacted(text, ks[1..], ks[0].end)
  }

  /** The same text, written out: what the walk over the sorted spans builds. */
  function RedactedText(text: string, spans: seq<Span>, prev: nat): string
    requires SpansIn(text, spans) && prev <= |text|
  {
    if spans == [] then text[prev..]
    else if spans[0].start < prev then RedactedText(text, spans[1..], prev)
    else text[prev..spans[0].start] + spans[0].token + RedactedText(text, spans[1..], spans[0].end)
  }

  function Recorded(ks: seq<Span>, m: map<string, string>): map<string, string> {
    if ks == [] then m else Recorded(ks[1..], m[ks[0].token := ks[0].value])
  }

  ghost predicate NoBlankTokens(spans: seq<Span>) {
    forall s | s in spans :: s.token != ""
  }

  /** Two spans that share a token share the value. */
  ghost predicate NoClash(spans: seq<Span>) {
    forall a, b | a in spans && b in spans && a.token == b.token :: a.value == b.value
  }

  ghost predicate TokenMap(m: map<string, string>) {
    forall t | t in m :: IsToken(t)
  }

  ghost predicate Resolves(m: map<string, string>, spans: seq<Span>) {
    forall s | s in spans :: s.token in m && m[s.token] == s.value
  }

  /** A possible iteration order of the map: each key once. */
  ghost predicate IterationOrder(order: seq<string>, m: map<string, string>) {
    && (forall t :: t in order <==> t in m)
    && (forall i, j | 0 <= i < j < |order| :: order[i] != order[j])
  }

  /** Rewriting `red` gives `orig` for every iteration order of the mapping. */
  ghost predicate Restores(red: string, m: map<string, string>, orig: string) {
    && TokenMap(m)
    && forall order | IterationOrder(order, m) ::
         (forall t | t in order :: t in m && t != "") && RewriteIn(red, order, m) == orig
  }

  lemma FillStep(text: string, prev: nat, s: Span, rest: seq<Piece>, m: map<string, string>)
    requires prev <= s.start <= s.end <= |text| && s.value == text[s.start..s.end]
    requires s.token in m && m[s.token] == s.value && Fill(rest, m) == text[s.end..]
    ensures Fill(Chars(text[prev..s.start]) + [Tok(s.token)] + rest, m) == text[prev..]
  {
    var gap := text[prev..s.start];
    FillCat(Chars(gap) + [Tok(s.token)], rest, m);
    FillCat(Chars(gap), [Tok(s.token)], m);
    CharsText(gap, m);
    assert Fill([Tok(s.token)], m) == s.value;
    ThreeSlices(text, prev, s.start, s.end);
  }

  lemma ThreeSlices(text: string, a: nat, b: nat, c: nat)
    requires a <= b <= c <= |text|
    ensures text[a..b] + text[b..c] + text[c..] == text[a..]
  {
  }

  /** Kept spans do not overlap: filling their tokens back in gives the text itself. */
  lemma {:induction false} FillRedacted(text: string, spans: seq<Span>, prev: nat, m: map<string, string>)
    requires SpansIn(text, spans) && prev <= |text| && Resolves(m, Kept(spans, prev))
    ensures Fill(Redacted(text, Kept(spans, prev), prev), m) == text[prev..]
  {
    if spans == [] {
      CharsText(text[prev..], m);
    } else {
      var s, ks := spans[0], Kept(spans, prev);
      assert s in spans;
      forall x | x in spans[1..] ensures x in spans {}
      if s.start < prev {
        FillRedacted(text, spans[1..], prev, m);
      } else {
        var ks' := Kept(spans[1..], s.end);
        assert ks == [s] + ks' && ks[1..] == ks';
        forall x | x in ks' ensures x in ks {}
        assert s in ks;
        FillRedacted(text, spans[1..], s.end, m);
        FillStep(text, prev, s, Redacted(text, ks', s.end), m);
      }
    }
  }

  lemma RedactedTokens(text: string, ks: seq<Span>, prev: nat)
    requires prev <= |text|
    ensures forall p | p in Redacted(text, ks, prev) && p.Tok? :: exists s :: s in ks && s.token == p.w
  {
    if ks != [] && prev <= ks[0].start <= ks[0].end <= |text| {
      RedactedTokens(text, ks[1..], ks[0].end);
      forall p | p in Redacted(text, ks, prev) && p.Tok? ensures exists s :: s in ks && s.token == p.w {
        if p == Tok(ks[0].token) {
          assert ks[0] in ks;
        } else {
          assert p in Redacted(text, ks[1..], ks[0].end);
          var s :| s in ks[1..] && s.token == p.w;
          assert s in ks;
        }
      }
    }
  }

  /** The round trip: whatever the spans (overlapping or not, in any order), a redacted text is restored
      by any mapping of tokens that resolves its kept spans, whatever else that mapping holds and
      whatever order it is iterated in. */
  lemma RoundTrip(text: string, spans: seq<Span>, m: map<string, string>)
    requires MarkerFree(text) && SpansIn(text, spans)
    requires TokenMap(m) && Resolves(m, Kept(spans, 0))
    ensures Restores(Render(Redacted(text, Kept(spans, 0), 0)), m, text)
  {
    var ks := Kept(spans, 0);
    var ps := Redacted(text, ks, 0);
    forall order | IterationOrder(order, m)
      ensures (forall t | t in order :: t in m && t != "") && RewriteIn(Render(ps), order, m) == text
    {
      FillRedacted(text, spans, 0, m);
      assert text[0..] == text;
      RedactedTokens(text, ks, 0);
      forall p | p in ps ensures p.Tok? ==> p.w in order {}
      var t := MARKER + ">>";
      assert t[|t| - 2..] == ">>";
      RewriteFills(ps, "", t, order, m);
      assert Render(ps) + "" == Render(ps) && Fill(ps, m) + "" == Fill(ps, m);
    }
  }

  lemma {:induction false} RecordedResolves(ks: seq<Span>, m: map<string, string>)
    requires NoClash(ks)
    ensures Resolves(Recorded(ks, m), ks)
    ensures forall t :: t in Recorded(ks, m) <==> t in m || exists s :: s in ks && s.token == t
    ensures forall t | t in m && (forall s | s in ks :: s.token == t ==> s.value == m[t]) :: Recorded(ks, m)[t] == m[t]
  {
    if ks != [] {
      var m' := m[ks[0].token := ks[0].value];
      assert ks == [ks[0]] + ks[1..];
      forall s ensures s in ks <==> s == ks[0] || s in ks[1..] {}
      RecordedResolves(ks[1..], m');
      forall s | s in ks ensures s.token in Recorded(ks, m) && Recorded(ks, m)[s.token] == s.value {
        if s !in ks[1..] {
          assert s == ks[0] && m'[s.token] == s.value;
          forall x | x in ks[1..] && x.token == s.token ensures x.value == s.value { assert x in ks && s in ks; }
        }
      }
      forall t | t in m && (forall s | s in ks :: s.token == t ==> s.value == m[t])
        ensures Recorded(ks, m)[t] == m[t]
      {
        assert ks[0] in ks && m'[t] == m[t];
      }
    }
  }

  /** Each matched span begins inside a kept one, so no match is left wholly in the clear. */
  lemma {:induction false} EveryMatchTouched(spans: seq<Span>, prev: nat, s: Span)
    requires SortedByStart(spans) && s in spans
    ensures s in Kept(spans, prev) || s.start < prev || exists k :: k in Kept(spans, prev) && k.start <= s.start < k.end
  {
    if spans[0].start < prev {
      if s != spans[0] { assert s in spans[1..]; EveryMatchTouched(spans[1..], prev, s); }
    } else if s != spans[0] {
      assert s in spans[1..];
      EveryMatchTouched(spans[1..], spans[0].end, s);
      var ks := Kept(spans, prev);
      assert ks == [spans[0]] + Kept(spans[1..], spans[0].end);
      if s.start < spans[0].end {
        assert spans[0] in ks;
      } else if s !in ks {
        var k :| k in Kept(spans[1..], spans[0].end) && k.start <= s.start < k.end;
        assert k in ks;
      }
    }
  }

  // ---- what is left in the clear ---------------------------------------------------------------

  /** The characters from `prev` on that lie in no span. */
  function Outside(text: string, ks: seq<Span>, prev: nat): string
    requires prev <= |text|
    decreases |text| - prev
  {
    if prev == |text| then ""
    else (if Covered(ks, prev) then "" else [text[prev]]) + Outside(text, ks, prev + 1)
  }

  predicate Covered(ks: seq<Span>, i: nat) {
    exists k | k in ks :: k.start <= i < k.end
  }

  function Literals(ps: seq<Piece>): string {
    if ps == [] then "" else (match ps[0] case Ch(c) => [c] case Tok(_) => "") + Literals(ps[1..])
  }

  function TokensIn(ps: seq<Piece>): seq<string> {
    if ps == [] then [] else (match ps[0] case Ch(_) => [] case Tok(w) => [w]) + TokensIn(ps[1..])
  }

  lemma {:induction false} LiteralsCat(a: seq<Piece>, b: seq<Piece>)
    ensures Literals(a + b) == Literals(a) + Literals(b)
    decreases |a|
  {
    if a == [] {
      assert a + b == b;
    } else {
      var head := match a[0] case Ch(c) => [c] case Tok(_) => "";
      assert (a + b)[1..] == a[1..] + b;
      LiteralsCat(a[1..], b);
      Reassociate(head, Literals(a[1..]), Literals(b));
    }
  }

  lemma {:induction false} TokensInCat(a: seq<Piece>, b: seq<Piece>)
    ensures TokensIn(a + b) == TokensIn(a) + TokensIn(b)
    decreases |a|
  {
    if a == [] {
      assert a + b == b;
    } else {
      var head := match a[0] case Ch(_) => [] case Tok(w) => [w];
      assert (a + b)[1..] == a[1..] + b;
      TokensInCat(a[1..], b);
      Reassociate(head, TokensIn(a[1..]), TokensIn(b));
    }
  }

  lemma {:induction false} LiteralsChars(s: string)
    ensures Literals(Chars(s)) == s && TokensIn(Chars(s)) == []
    decreases |s|
  {
    if s != "" {
      assert Chars(s)[1..] == Chars(s[1..]);
      LiteralsChars(s[1..]);
    }
  }

  lemma {:induction false} OutsideFrom(text: string, ks: seq<Span>, a: nat, b: nat, covered: bool)
    requires a <= b <= |text| && forall i: nat | a <= i < b :: Covered(ks, i) == covered
    ensures Outside(text, ks, a) == (if covered then "" else text[a..b]) + Outside(text, ks, b)
    decreases b - a
  {
    if a < b {
      assert Covered(ks, a) == covered;
      var rest := if covered then "" else text[a + 1..b];
      OutsideFrom(text, ks, a + 1, b, covered);
      assert text[a..b] == [text[a]] + text[a + 1..b];
      Reassociate(if covered then "" else [text[a]], rest, Outside(text, ks, b));
    }
  }

  lemma {:induction false} OutsideSame(text: string, ks: seq<Span>, ls: seq<Span>, a: nat)
    requires a <= |text| && forall i: nat | a <= i :: Covered(ks, i) == Covered(ls, i)
    ensures Outside(text, ks, a) == Outside(text, ls, a)
    decreases |text| - a
  {
    if a < |text| { OutsideSame(text, ks, ls, a + 1); }
  }

  lemma {:induction false} KeptAfter(spans: seq<Span>, prev: nat)
    requires forall s | s in spans :: s.start <= s.end
    ensures forall k | k in Kept(spans, prev) :: prev <= k.start
    decreases |spans|
  {
    if spans != [] {
      assert spans == [spans[0]] + spans[1..];
      KeptAfter(spans[1..], if spans[0].start < prev then prev else spans[0].end);
    }
  }

  /** Exactly the characters outside the kept spans are left, and for each span its token, in their order. */
  lemma {:induction false} ClearIsOutside(text: string, spans: seq<Span>, prev: nat)
    requires SpansIn(text, spans) && prev <= |text|
    ensures var ks := Kept(spans, prev);
            && Literals(Redacted(text, ks, prev)) == Outside(text, ks, prev)
            && TokensIn(Redacted(text, ks, prev)) == TokensOf(ks)
    decreases |spans|
  {
    if spans == [] {
      LiteralsChars(text[prev..]);
      OutsideFrom(text, [], prev, |text|, false);
    } else {
      var s := spans[0];
      assert s in spans;
      forall x | x in spans[1..] ensures x in spans {}
      if s.start < prev {
        ClearIsOutside(text, spans[1..], prev);
      } else {
        ClearIsOutside(text, spans[1..], s.end);
        KeptAfter(spans[1..], s.end);
        SpanLeaves(text, s, Kept(spans[1..], s.end), prev);
        SpanWrites(text, s, Kept(spans[1..], s.end), prev);
      }
    }
  }

  function TokensOf(ks: seq<Span>): seq<string> {
    if ks == [] then [] else [ks[0].token] + TokensOf(ks[1..])
  }

  lemma SpanWrites(text: string, s: Span, ks: seq<Span>, prev: nat)
    requires prev <= s.start <= s.end <= |text|
    ensures var ps, rest := Redacted(text, [s] + ks, prev), Redacted(text, ks, s.end);
            Literals(ps) == text[prev..s.start] + Literals(rest) && TokensIn(ps) == [s.token] + TokensIn(rest)
  {
    var gap, tok, rest := Chars(text[prev..s.start]), [Tok(s.token)], Redacted(text, ks, s.end);
    assert ([s] + ks)[1..] == ks;
    LiteralsChars(text[prev..s.start]);
    LiteralsCat(gap + tok, rest);
    LiteralsCat(gap, tok);
    TokensInCat(gap + tok, rest);
    TokensInCat(gap, tok);
    assert Literals(tok) == "" && TokensIn(tok) == [s.token] + TokensIn(tok[1..]);
  }

  lemma SpanLeaves(text: string, s: Span, ks: seq<Span>, prev: nat)
    requires prev <= s.start <= s.end <= |text| && forall k | k in ks :: s.end <= k.start
    ensures Outside(text, [s] + ks, prev) == text[prev..s.start] + Outside(text, ks, s.end)
  {
    var all := [s] + ks;
    forall i: nat | s.start <= i < s.end ensures Covered(all, i) { assert s in all; }
    OutsideFrom(text, all, prev, s.start, false);
    OutsideFrom(text, all, s.start, s.end, true);
    forall i: nat | s.end <= i ensures Covered(all, i) == Covered(ks, i) {
      if Covered(ks, i) { var k :| k in ks && k.start <= i < k.end; assert k in all; }
    }
    OutsideSame(text, all, ks, s.end);
  }

  // ---- tokens ----------------------------------------------------------------------------------

  lemma MintedIsToken(digest: string -> string, category: string, key: string)
    requires ShortHash(digest) && PlainText(category)
    ensures IsToken(Mint(digest, category, key))
  {
    var w := Mint(digest, category, key);
    var mid := category + ":" + digest(key);
    assert w == MARKER + mid + ">>";
    assert w[|w| - 2..] == ">>";
    forall i | 6 <= i < |w| - 2 ensures w[i] != '<' && w[i] != '>' {
      assert w[i] == mid[i - 6];
      assert i - 6 < |category| ==> mid[i - 6] in category;
      assert i - 6 > |category| ==> mid[i - 6] in digest(key);
    }
  }

  /** The token determines the category, which stands in it behind the marker, and the hash. */
  lemma MintedHash(digest: string -> string, c1: string, k1: string, c2: string, k2: string)
    requires ShortHash(digest) && Mint(digest, c1, k1) == Mint(digest, c2, k2)
    ensures c1 == c2 && digest(k1) == digest(k2) && "<<pii:" + c1 + ":" <= Mint(digest, c1, k1)
  {
    var w1, w2 := Mint(digest, c1, k1), Mint(digest, c2, k2);
    assert |digest(k1)| == 10 && |digest(k2)| == 10;
    assert w1[|w1| - 12..|w1| - 2] == digest(k1);
    assert w2[|w2| - 12..|w2| - 2] == digest(k2);
    assert w1[6..|w1| - 13] == c1 && w2[6..|w2| - 13] == c2;
  }

  /** The exact condition on two categories: none of their memo keys stands for two different pairs. */
  lemma KeysDifferIff(c1: string, c2: string)
    ensures (forall v1, v2 | MemoKey(c1, v1) == MemoKey(c2, v2) :: c1 == c2 && v1 == v2) <==> SplitApart(c1, c2)
  {
    if SplitApart(c1, c2) {
      forall v1, v2 | MemoKey(c1, v1) == MemoKey(c2, v2) ensures c1 == c2 && v1 == v2 {
        KeySplits(c1, v1, c2, v2);
      }
    } else if c1 + "|" <= c2 + "|" {
      SharedKey(c1, c2, "");
    } else {
      SharedKey(c2, c1, "");
    }
  }

  lemma KeySplits(c1: string, v1: string, c2: string, v2: string)
    requires SplitApart(c1, c2) && MemoKey(c1, v1) == MemoKey(c2, v2)
    ensures c1 == c2 && v1 == v2
  {
    var k, p1, p2 := MemoKey(c1, v1), c1 + "|", c2 + "|";
    assert p1 == k[..|p1|] && p2 == k[..|p2|];
    assert |p1| <= |p2| ==> p1 == p2[..|p1|];
    assert |p2| <= |p1| ==> p2 == p1[..|p2|];
    assert v1 == k[|p1|..] && v2 == k[|p2|..];
  }

  /** Where one category begins the other up to a bar, every value of the longer one has the key of a longer value of
      the shorter one. */
  lemma SharedKey(c1: string, c2: string, v2: string)
    requires c1 + "|" <= c2 + "|" && c1 != c2
    ensures |LongerValue(c1, c2, v2)| > |v2| && MemoKey(c1, LongerValue(c1, c2, v2)) == MemoKey(c2, v2)
  {
    var p1, p2 := c1 + "|", c2 + "|";
    assert p1[..|c1|] == c1 && p2[..|c2|] == c2;
    assert p2 == p1 + p2[|p1|..];
  }

  function LongerValue(c1: string, c2: string, v2: string): string
    requires c1 + "|" <= c2 + "|"
  {
    (c2 + "|")[|c1| + 1..] + v2
  }

  /** Categories without angle brackets and bars are separate. */
  lemma BarFreeSeparate(cats: set<string>)
    requires forall c | c in cats :: PlainText(c) && '|' !in c
    ensures Separate(cats)
  {
    forall c1, c2 | c1 in cats && c2 in cats && c1 + "|" <= c2 + "|" ensures c1 == c2 {
      assert (c1 + "|")[|c1|] == (c2 + "|")[|c1|] == '|';
      assert forall i | 0 <= i < |c2| :: c2[i] in c2;
      assert c1 == (c1 + "|")[..|c1|] && c2 == (c2 + "|")[..|c2|];
    }
  }

  ghost predicate MintedSpans(digest: string -> string, cats: set<string>, spans: seq<Span>) {
    forall s | s in spans :: s.category in cats && s.token == Mint(digest, s.category, MemoKey(s.category, s.value))
  }

  /** The truncated hash does not collide on the keys of these spans. */
  ghost predicate NoCollision(digest: string -> string, spans: seq<Span>) {
    forall a, b | a in spans && b in spans ::
      var ka, kb := MemoKey(a.category, a.value), MemoKey(b.category, b.value);
      digest(ka) == digest(kb) ==> ka == kb
  }

  lemma NoCollisionNoClash(digest: string -> string, cats: set<string>, spans: seq<Span>)
    requires ShortHash(digest) && Separate(cats) && MintedSpans(digest, cats, spans) && NoCollision(digest, spans)
    ensures NoClash(spans) && forall s | s in spans :: IsToken(s.token)
  {
    forall s | s in spans ensures IsToken(s.token) {
      MintedIsToken(digest, s.category, MemoKey(s.category, s.value));
    }
    forall a, b | a in spans && b in spans && a.token == b.token ensures a.value == b.value {
      MintedHash(digest, a.category, MemoKey(a.category, a.value), b.category, MemoKey(b.category, b.value));
      KeySplits(a.category, a.value, b.category, b.value);
    }
  }

  /** What Redact returns is restored by the mapping it returns. */
  lemma RedactedRestores(digest: string -> string, cats: set<string>, text: string, spans: seq<Span>)
    requires ShortHash(digest) && Separate(cats) && MintedSpans(digest, cats, spans) && NoCollision(digest, spans)
    requires MarkerFree(text) && SpansIn(text, spans)
    ensures Restores(Render(Redacted(text, Kept(spans, 0), 0)), Recorded(Kept(spans, 0), map[]), text)
  {
    NoCollisionNoClash(digest, cats, spans);
    RecordedResolves(Kept(spans, 0), map[]);
    RoundTrip(text, spans, Recorded(Kept(spans, 0), map[]));
  }

  /** The assumption on the text is needed: a text that already holds a token the redactor mints for
      another part of it does not come back. */
  lemma MarkerFreeNeeded(digest: string -> string)
    ensures
      var tok := Mint(digest, "SSN", MemoKey("SSN", "9"));
      var text := tok + "9";
      var spans := [Span("SSN", |tok|, |tok| + 1, "9", tok)];
      && SpansIn(text, spans)
      && RewriteIn(Render(Redacted(text, Kept(spans, 0), 0)), [tok], map[tok := "9"]) == "99"
      && "99" != text
  {
    var tok := Mint(digest, "SSN", MemoKey("SSN", "9"));
    var text := tok + "9";
    var s := Span("SSN", |tok|, |tok| + 1, "9", tok);
    assert [s][1..] == [] && Kept([s], 0) == [s];
    assert text[0..|tok|] == tok && text[|tok|..|tok| + 1] == "9";
    var ps := Redacted(text, [s], 0);
    assert Redacted(text, [], |tok| + 1) == Chars("") == [] by { assert text[|tok| + 1..] == ""; }
    assert ps == Chars(text[0..|tok|]) + [Tok(tok)] + Redacted(text, [s][1..], |tok| + 1);
    assert ps == Chars(tok) + [Tok(tok)];
    RenderCat(Chars(tok), [Tok(tok)]);
    CharsText(tok, map[]);
    assert Render([Tok(tok)]) == tok;
    assert (tok + tok)[|tok|..] == tok && tok[|tok|..] == "";
    assert tok <= tok && tok <= tok + tok;
    assert ReplaceAll("", tok, "9") == "";
    assert ReplaceAll(tok, tok, "9") == "9" + ReplaceAll("", tok, "9");
    assert ReplaceAll(tok + tok, tok, "9") == "9" + ReplaceAll(tok, tok, "9");
    var m := map[tok := "9"];
    assert Render(ps) == tok + tok;
    assert ReplaceAll(tok + tok, tok, m[tok]) == "9" + ("9" + "") == "99";
    assert [tok][1..] == [];
    assert RewriteIn(tok + tok, [tok], m) == RewriteIn("99", [], m);
    assert |text| > 2;
  }

  // ---- the redactor ----------------------------------------------------------------------------

  predicate SpanOf(s: Span, x: Match, text: string, memo: map<string, string>) {
    && x.start <= x.end <= |text|
    && MemoKey(x.category, text[x.start..x.end]) in memo
    && s == Span(x.category, x.start, x.end, text[x.start..x.end], memo[MemoKey(x.category, text[x.start..x.end])])
  }

  ghost predicate SpansOf(spans: seq<Span>, ms: seq<Match>, text: string, memo: map<string, string>) {
    |spans| == |ms| && forall i | 0 <= i < |spans| :: SpanOf(spans[i], ms[i], text, memo)
  }

  ghost predicate Grown(before: map<string, string>, after: map<string, string>) {
    forall k | k in before :: k in after && after[k] == before[k]
  }

  lemma SpansKept(spans: seq<Span>, ms: seq<Match>, text: string,
                  before: map<string, string>, after: map<string, string>)
    requires SpansOf(spans, ms, text, before) && Grown(before, after)
    ensures SpansOf(spans, ms, text, after)
  {
    forall i | 0 <= i < |spans| ensures SpanOf(spans[i], ms[i], text, after) {
      assert SpanOf(spans[i], ms[i], text, before);
    }
  }

  lemma SpansJoin(a: seq<Span>, ma: seq<Match>, b: seq<Span>, mb: seq<Match>, text: string, memo: map<string, string>)
    requires SpansOf(a, ma, text, memo) && SpansOf(b, mb, text, memo)
    ensures SpansOf(a + b, ma + mb, text, memo)
  {
  }

  lemma SpansGrow(spans: seq<Span>, ms: seq<Match>, text: string, memo: map<string, string>, x: Match, tok: string)
    requires SpansOf(spans, ms, text, memo) && x.start <= x.end <= |text|
    requires MemoKey(x.category, text[x.start..x.end]) in memo && tok == memo[MemoKey(x.category, text[x.start..x.end])]
    ensures SpansOf(spans + [Span(x.category, x.start, x.end, text[x.start..x.end], tok)], ms + [x], text, memo)
  {
  }

  lemma RuleFound(all: seq<Rule>, i: nat, spans: seq<Span>, found: seq<Span>, text: string,
                  before: map<string, string>, after: map<string, string>)
    requires (forall r | r in all :: FindsInBounds(r)) && i < |all| && FindsInBounds(all[i])
    requires SpansOf(spans, Matches(all[..i], text), text, before) && Grown(before, after)
    requires SpansOf(found, Accepted(all[i].category, all[i].validate, all[i].find(text), text), text, after)
    ensures SpansOf(spans + found, Matches(all[..i + 1], text), text, after)
  {
    assert all[..i + 1][..i] == all[..i];
    SpansKept(spans, Matches(all[..i], text), text, before, after);
    SpansJoin(spans, Matches(all[..i], text), found,
              Accepted(all[i].category, all[i].validate, all[i].find(text), text), text, after);
  }

  lemma GrownTwice(a: map<string, string>, b: map<string, string>, c: map<string, string>)
    requires Grown(a, b) && Grown(b, c)
    ensures Grown(a, c)
  {
  }

  /** sort.Slice by start: of its result only the order and the contents are used. */
  method SortSpans(spans: seq<Span>) returns (sorted: seq<Span>)
    ensures SortedByStart(sorted) && multiset(sorted) == multiset(spans)
  {
    sorted := [];
    for i := 0 to |spans|
      invariant SortedByStart(sorted) && multiset(sorted) == multiset(spans[..i])
    {
      assert spans[..i + 1] == spans[..i] + [spans[i]];
      sorted := Inserted(sorted, Position(sorted, spans[i].start), spans[i]);
    }
    assert spans[..|spans|] == spans;
  }

  function Position(sorted: seq<Span>, start: nat): (k: nat)
    requires SortedByStart(sorted)
    ensures k <= |sorted| && (forall j | 0 <= j < k :: sorted[j].start <= start)
            && (k < |sorted| ==> start <= sorted[k].start)
  {
    if sorted == [] || sorted[|sorted| - 1].start <= start then |sorted| else Position(sorted[..|sorted| - 1], start)
  }

  function Inserted(sorted: seq<Span>, k: nat, x: Span): (out: seq<Span>)
    requires k <= |sorted| && SortedByStart(sorted)
    requires (forall j | 0 <= j < k :: sorted[j].start <= x.start) && (k < |sorted| ==> x.start <= sorted[k].start)
    ensures SortedByStart(out) && multiset(out) == multiset(sorted) + multiset{x}
  {
    assert sorted == sorted[..k] + sorted[k..];
    InsertedSorted(sorted, k, x);
    sorted[..k] + [x] + sorted[k..]
  }

  lemma InsertedSorted(sorted: seq<Span>, k: nat, x: Span)
    requires k <= |sorted| && SortedByStart(sorted)
    requires (forall j | 0 <= j < k :: sorted[j].start <= x.start) && (k < |sorted| ==> x.start <= sorted[k].start)
    ensures SortedByStart(sorted[..k] + [x] + sorted[k..])
  {
    var out := sorted[..k] + [x] + sorted[k..];
    assert forall j | k <= j < |sorted| :: x.start <= sorted[j].start;
    assert forall i | 0 <= i < |out| :: out[i] == if i < k then sorted[i] else if i == k then x else sorted[i - 1];
  }

  /** The memo holds what was minted for these categories. */
  ghost predicate MintedMemo(digest: string -> string, cats: set<string>, memo: map<string, string>) {
    forall key | key in memo :: MintedKey(digest, cats, memo, key)
  }

  ghost predicate MintedKey(digest: string -> string, cats: set<string>, memo: map<string, string>, key: string)
    requires key in memo
  {
    exists c, v :: c in cats && key == MemoKey(c, v) && memo[key] == Mint(digest, c, key)
  }

  function CategoriesOf(rules: seq<Rule>): (cats: set<string>)
    ensures forall r | r in rules :: r.category in cats
  {
    set i | 0 <= i < |rules| :: rules[i].category
  }

  lemma MemoToken(digest: string -> string, cats: set<string>, memo: map<string, string>, category: string,
                  value: string)
    requires Separate(cats) && MintedMemo(digest, cats, memo) && category in cats && MemoKey(category, value) in memo
    ensures memo[MemoKey(category, value)] == Mint(digest, category, MemoKey(category, value))
  {
    var key := MemoKey(category, value);
    assert MintedKey(digest, cats, memo, key);
    var c, v :| c in cats && key == MemoKey(c, v) && memo[key] == Mint(digest, c, key);
    KeySplits(category, value, c, v);
  }

  lemma MemoMints(digest: string -> string, cats: set<string>, memo: map<string, string>, category: string,
                  value: string)
    requires MintedMemo(digest, cats, memo) && category in cats
    ensures MintedMemo(digest, cats, memo[MemoKey(category, value) := Mint(digest, category, MemoKey(category, value))])
  {
    var key := MemoKey(category, value);
    var memo' := memo[key := Mint(digest, category, key)];
    forall k | k in memo' ensures MintedKey(digest, cats, memo', k) {
      if k != key { assert MintedKey(digest, cats, memo, k); }
    }
  }

  lemma MoreCategories(digest: string -> string, cats: set<string>, more: set<string>, memo: map<string, string>)
    requires MintedMemo(digest, cats, memo) && cats <= more
    ensures MintedMemo(digest, more, memo)
  {
    forall key | key in memo ensures MintedKey(digest, more, memo, key) { assert MintedKey(digest, cats, memo, key); }
  }

  lemma FoundSpans(digest: string -> string, rules: seq<Rule>, found: seq<Span>, text: string,
                   memo: map<string, string>, sorted: seq<Span>)
    requires forall r | r in rules :: FindsInBounds(r)
    requires SpansOf(found, Matches(rules, text), text, memo) && multiset(sorted) == multiset(found)
    ensures SpansIn(text, sorted) && ("" !in memo.Values ==> NoBlankTokens(sorted))
    ensures var cats := CategoriesOf(rules);
            Separate(cats) && MintedMemo(digest, cats, memo) ==> MintedSpans(digest, cats, sorted)
  {
    var ms, cats := Matches(rules, text), CategoriesOf(rules);
    forall s | s in sorted
      ensures s.token in memo.Values
      ensures s.start <= s.end <= |text| && s.value == text[s.start..s.end]
      ensures Separate(cats) && MintedMemo(digest, cats, memo) ==>
                s.category in cats && s.token == Mint(digest, s.category, MemoKey(s.category, s.value))
    {
      assert s in multiset(sorted);
      var i :| 0 <= i < |found| && found[i] == s;
      assert SpanOf(s, ms[i], text, memo);
      MatchesAre(rules, text, ms[i]);
      if Separate(cats) && MintedMemo(digest, cats, memo) {
        MemoToken(digest, cats, memo, s.category, s.value);
      }
    }
  }

  /** The spans are exactly what the rules select. */
  ghost predicate SpansAreSelected(spans: seq<Span>, rules: seq<Rule>, text: string) {
    forall category, i: nat, j: nat ::
      Selected(rules, text, category, i, j)
      <==> exists s :: s in spans && s.category == category && s.start == i && s.end == j
  }

  lemma FoundSelected(rules: seq<Rule>, found: seq<Span>, spans: seq<Span>, text: string, memo: map<string, string>)
    requires (forall r | r in rules :: FindsInBounds(r)) && multiset(spans) == multiset(found)
    requires SpansOf(found, Matches(rules, text), text, memo)
    ensures SpansAreSelected(spans, rules, text)
  {
    var ms := Matches(rules, text);
    forall category, i: nat, j: nat
      ensures Selected(rules, text, category, i, j)
              <==> exists s :: s in spans && s.category == category && s.start == i && s.end == j
    {
      MatchesAre(rules, text, Match(category, i, j));
      if Selected(rules, text, category, i, j) {
        var k :| 0 <= k < |ms| && ms[k] == Match(category, i, j);
        assert SpanOf(found[k], ms[k], text, memo) && found[k] in multiset(spans);
      }
      if s :| s in spans && s.category == category && s.start == i && s.end == j {
        assert s in multiset(found);
        var k :| 0 <= k < |found| && found[k] == s;
        assert SpanOf(found[k], ms[k], text, memo);
      }
    }
  }

  /** Whatever a rule selects begins in a span that is replaced. */
  ghost predicate NoneInClear(rules: seq<Rule>, text: string, kept: seq<Span>) {
    forall category, i: nat, j: nat | Selected(rules, text, category, i, j) ::
      exists k :: k in kept && k.start <= i && (i < k.end || (i == k.start && j == k.end))
  }

  lemma AllTouched(rules: seq<Rule>, text: string, spans: seq<Span>)
    requires SortedByStart(spans) && SpansAreSelected(spans, rules, text)
    ensures NoneInClear(rules, text, Kept(spans, 0))
  {
    forall category, i: nat, j: nat | Selected(rules, text, category, i, j)
      ensures exists k :: k in Kept(spans, 0) && k.start <= i && (i < k.end || (i == k.start && j == k.end))
    {
      var s :| s in spans && s.category == category && s.start == i && s.end == j;
      EveryMatchTouched(spans, 0, s);
    }
  }

  class Redactor {
    const digest: string -> string
    const rules: seq<Rule>
    var custom: seq<Rule>
    var memo: map<string, string>

    ghost predicate Valid()
      reads this
    {
      ShortHash(digest) && (forall r | r in rules + custom :: FindsInBounds(r)) && "" !in memo.Values
    }

    function Categories(): set<string>
      reads this
    {
      CategoriesOf(rules + custom)
    }

    /** The categories so far are separate, and so the tokens are a function of category and value. */
    ghost predicate Plain()
      reads this
    {
      Separate(Categories()) && MintedMemo(digest, Categories(), memo)
    }

    constructor (digest: string -> string, rules: seq<Rule>)
      requires ShortHash(digest) && forall r | r in rules :: FindsInBounds(r)
      ensures Valid() && memo == map[] && this.digest == digest && this.rules == rules && custom == []
      ensures Separate(CategoriesOf(rules)) ==> Plain()
    {
      this.digest, this.rules, custom, memo := digest, rules, [], map[];
      new;
      assert rules + [] == rules;
    }

    /** A pattern that does not compile changes nothing. */
    method AddCustomPattern(category: string, compiled: Option<string -> seq<(nat, nat)>>) returns (ok: bool)
      requires Valid()
      requires compiled.Some? ==> FindsInBounds(Rule(category, compiled.value, None))
      modifies this`custom
      ensures Valid() && ok == compiled.Some?
      ensures custom == if ok then old(custom) + [Rule(category, compiled.value, None)] else old(custom)
      ensures Categories() == if ok then old(Categories()) + {category} else old(Categories())
      ensures old(Plain()) && Separate(Categories()) ==> Plain()
    {
      ok := compiled.Some?;
      if ok {
        ghost var before := rules + custom;
        custom := custom + [Rule(category, compiled.value, None)];
        assert rules + custom == before + [Rule(category, compiled.value, None)];
        if MintedMemo(digest, CategoriesOf(before), memo) {
          MoreCategories(digest, CategoriesOf(before), Categories(), memo);
        }
      }
    }

    /** The memo never forgets or changes a token; for separate categories the token is a function of the category
        and the value alone. */
    method TokenFor(category: string, value: string, ghost cats: set<string>) returns (tok: string)
      modifies this`memo
      ensures "" !in old(memo).Values ==> "" !in memo.Values && tok != ""
      ensures MemoKey(category, value) in memo && tok == memo[MemoKey(category, value)]
      ensures memo == if MemoKey(category, value) in old(memo) then old(memo) else
                        old(memo)[MemoKey(category, value) := Mint(digest, category, MemoKey(category, value))]
      ensures Separate(cats) && MintedMemo(digest, cats, old(memo)) && category in cats ==>
                MintedMemo(digest, cats, memo) && tok == Mint(digest, category, MemoKey(category, value))
    {
      var key := MemoKey(category, value);
      if key in memo {
        tok := memo[key];
        if Separate(cats) && MintedMemo(digest, cats, memo) && category in cats {
          MemoToken(digest, cats, memo, category, value);
        }
        return;
      }
      if MintedMemo(digest, cats, memo) && category in cats { MemoMints(digest, cats, memo, category, value); }
      tok := Mint(digest, category, key);
      memo := memo[key := tok];
    }

    /** The inner loop of FindSpans: the accepted matches of one rule. */
    method FindRule(category: string, validate: Option<string -> bool>, pairs: seq<(nat, nat)>, text: string,
                    ghost cats: set<string>)
      returns (spans: seq<Span>)
      requires PairsIn(pairs, text)
      modifies this`memo
      ensures "" !in old(memo).Values ==> "" !in memo.Values
      ensures SpansOf(spans, Accepted(category, validate, pairs, text), text, memo)
      ensures Grown(old(memo), memo)
      ensures Separate(cats) && MintedMemo(digest, cats, old(memo)) && category in cats
              ==> MintedMemo(digest, cats, memo)
    {
      spans := [];
      for j := 0 to |pairs|
        invariant SpansOf(spans, Accepted(category, validate, pairs[..j], text), text, memo)
        invariant "" !in old(memo).Values ==> "" !in memo.Values
        invariant Grown(old(memo), memo)
        invariant Separate(cats) && MintedMemo(digest, cats, old(memo)) && category in cats
                  ==> MintedMemo(digest, cats, memo)
      {
        var p := pairs[j];
        ghost var before, ms := memo, Accepted(category, validate, pairs[..j], text);
        assert pairs[..j + 1][..j] == pairs[..j];
        var val := text[p.0..p.1];
        if validate.Some? && !validate.value(val) {
          continue;
        }
        var tok := TokenFor(category, val, cats);
        SpansKept(spans, ms, text, before, memo);
        SpansGrow(spans, ms, text, memo, Match(category, p.0, p.1), tok);
        spans := spans + [Span(category, p.0, p.1, val, tok)];
      }
      assert pairs[..|pairs|] == pairs;
    }

    method FindSpans(text: string) returns (spans: seq<Span>)
      requires Valid()
      modifies this`memo
      ensures Valid() && SpansOf(spans, Matches(rules + custom, text), text, memo)
      ensures SpansAreSelected(spans, rules + custom, text)
      ensures Grown(old(memo), memo)
      ensures old(Plain()) ==> Plain()
    {
      spans := [];
      var all := rules + custom;
      ghost var cats := CategoriesOf(all);
      for i := 0 to |all|
        invariant SpansOf(spans, Matches(all[..i], text), text, memo)
        invariant "" !in memo.Values
        invariant Grown(old(memo), memo)
        invariant Separate(cats) && MintedMemo(digest, cats, old(memo)) ==> MintedMemo(digest, cats, memo)
      {
        var r := all[i];
        assert r in all && FindsInBounds(r);
        ghost var before := memo;
        var found := FindRule(r.category, r.validate, r.find(text), text, cats);
        RuleFound(all, i, spans, found, text, before, memo);
        GrownTwice(old(memo), before, memo);
        spans := spans + found;
      }
      assert all[..|all|] == all;
      FoundSelected(all, spans, spans, text, memo);
    }

    /** `spans` is what sort.Slice made of the matches. */
    method Redact(text: string) returns (out: string, mapping: map<string, string>, ghost spans: seq<Span>)
      requires Valid()
      modifies this`memo
      ensures Valid() && SortedByStart(spans) && SpansIn(text, spans) && NoBlankTokens(spans)
      ensures exists found ::
                SpansOf(found, Matches(rules + custom, text), text, memo) && multiset(found) == multiset(spans)
      ensures SpansAreSelected(spans, rules + custom, text) && NoneInClear(rules + custom, text, Kept(spans, 0))
      ensures out == RedactedText(text, spans, 0)
      ensures mapping == Recorded(Kept(spans, 0), map[])
      ensures old(Plain()) ==> Plain() && MintedSpans(digest, Categories(), spans)
      ensures old(Plain()) && MarkerFree(text) && NoCollision(digest, spans) ==> Restores(out, mapping, text)
    {
      var found := FindSpans(text);
      var sorted := SortSpans(found);
      spans := sorted;
      FoundSpans(digest, rules + custom, found, text, memo, sorted);
      FoundSelected(rules + custom, found, sorted, text, memo);
      AllTouched(rules + custom, text, sorted);
      out, mapping := Walk(text, sorted);
      if old(Plain()) && MarkerFree(text) && NoCollision(digest, spans) {
        RedactedTextRenders(text, spans, 0);
        RedactedRestores(digest, Categories(), text, spans);
      }
    }
  }

  // ---- categories that are not separate --------------------------------------------------------

  /** What two custom patterns find in `text`, and nowhere else: its first n characters, and the rest. */
  function FindHead(text: string, n: nat): string -> seq<(nat, nat)>
    requires n <= |text|
  {
    (t: string) => if t == text then [(0, n)] else []
  }

  function FindTail(text: string, n: nat): string -> seq<(nat, nat)>
    requires n <= |text|
  {
    (t: string) => if t == text then [(n, |text|)] else []
  }

  /** For any two categories that are not split apart: the redactor takes both patterns, but gives one token to two
      values, and the text comes back wrong. */
  method SharedTokenLoses(digest: string -> string, c1: string, c2: string, v2: string)
    returns (out: string, mapping: map<string, string>, ghost text: string)
    requires ShortHash(digest) && c1 != c2 && c1 + "|" <= c2 + "|"
    ensures text == LongerValue(c1, c2, v2) + v2 && |mapping| == 1
    ensures forall order | IterationOrder(order, mapping) ::
              (forall t | t in order :: t in mapping && t != "") && RewriteIn(out, order, mapping) == v2 + v2 != text
  {
    var v1 := LongerValue(c1, c2, v2);
    var s, n := v1 + v2, |v1|;
    SharedKey(c1, c2, v2);
    var redactor := TwoPatterns(digest, c1, c2, s, n);
    ghost var spans;
    out, mapping, spans := redactor.Redact(s);
    text := s;
    assert s[0..n] == v1 && s[n..|s|] == v2;
    TwoSpans(spans, redactor.rules + redactor.custom, c1, c2, s, n, redactor.memo);
    var tok := redactor.memo[MemoKey(c2, v2)];
    BothReplaced(spans, v1, v2, s, n, tok);
    AlwaysWrong(tok, v1, v2, mapping);
  }

  method TwoPatterns(digest: string -> string, c1: string, c2: string, text: string, n: nat)
      returns (redactor: Redactor)
    requires ShortHash(digest) && n <= |text|
    ensures redactor.Valid() && fresh(redactor)
    ensures Matches(redactor.rules + redactor.custom, text) == [Match(c1, 0, n), Match(c2, n, |text|)]
  {
    redactor := new Redactor(digest, []);
    ghost var rules := [Rule(c1, FindHead(text, n), None), Rule(c2, FindTail(text, n), None)];
    assert FindsInBounds(rules[0]) && FindsInBounds(rules[1]);
    var ok := redactor.AddCustomPattern(c1, Some(FindHead(text, n)));
    ok := redactor.AddCustomPattern(c2, Some(FindTail(text, n)));
    assert redactor.rules + redactor.custom == rules;
    TwoMatches(rules, c1, c2, text, n);
  }

  lemma TwoMatches(rules: seq<Rule>, c1: string, c2: string, text: string, n: nat)
    requires n <= |text| && (forall r | r in rules :: FindsInBounds(r))
    requires rules == [Rule(c1, FindHead(text, n), None), Rule(c2, FindTail(text, n), None)]
    ensures Matches(rules, text) == [Match(c1, 0, n), Match(c2, n, |text|)]
  {
    assert rules[..1] == [rules[0]] && rules[..1][..0] == [] && [(0, n)][..0] == [] && [(n, |text|)][..0] == [];
    assert Accepted(c1, None, [(0, n)], text) == [Match(c1, 0, n)];
    assert Accepted(c2, None, [(n, |text|)], text) == [Match(c2, n, |text|)];
    assert Matches(rules[..1], text) == [Match(c1, 0, n)];
  }

  lemma TwoSpans(spans: seq<Span>, rules: seq<Rule>, c1: string, c2: string, text: string, n: nat,
                 memo: map<string, string>)
    requires 0 < n <= |text| && (forall r | r in rules :: FindsInBounds(r)) && SortedByStart(spans)
    requires Matches(rules, text) == [Match(c1, 0, n), Match(c2, n, |text|)]
    requires exists found :: SpansOf(found, Matches(rules, text), text, memo) && multiset(found) == multiset(spans)
    ensures MemoKey(c1, text[0..n]) in memo && MemoKey(c2, text[n..|text|]) in memo
    ensures spans == [Span(c1, 0, n, text[0..n], memo[MemoKey(c1, text[0..n])]),
                      Span(c2, n, |text|, text[n..|text|], memo[MemoKey(c2, text[n..|text|])])]
  {
    var found :| SpansOf(found, Matches(rules, text), text, memo) && multiset(found) == multiset(spans);
    assert SpanOf(found[0], Matches(rules, text)[0], text, memo)
        && SpanOf(found[1], Matches(rules, text)[1], text, memo);
    assert found == [found[0], found[1]];
    SortedPair(spans, found[0], found[1]);
  }

  lemma SortedPair(spans: seq<Span>, a: Span, b: Span)
    requires multiset(spans) == multiset([a, b]) && SortedByStart(spans) && a.start < b.start
    ensures spans == [a, b]
  {
    assert |multiset(spans)| == |spans| == 2;
    assert spans == [spans[0], spans[1]];
    assert a in multiset(spans) && b in multiset(spans);
  }

  lemma {:induction false} BothReplaced(spans: seq<Span>, v1: string, v2: string, text: string, n: nat, tok: string)
    requires text == v1 + v2 && n == |v1| && SpansIn(text, spans)
    requires |spans| == 2 && spans[0].start == 0 && spans[0].end == spans[1].start == n && spans[1].end == |text|
    requires spans[0].token == spans[1].token == tok && spans[1].value == v2
    ensures RedactedText(text, spans, 0) == tok + tok && Recorded(Kept(spans, 0), map[]) == map[tok := v2]
  {
    var a, b := spans[0], spans[1];
    assert spans == [a, b];
    TwoKept(a, b, n);
    TwoRecorded(a, b);
    TwoTexts(text, a, b);
  }

  lemma TwoKept(a: Span, b: Span, n: nat)
    requires a.start == 0 && a.end == b.start == n
    ensures Kept([a, b], 0) == [a, b]
  {
    assert [a, b][1..] == [b] && [b][1..] == [];
    assert Kept([b], n) == [b] + Kept([], b.end);
    assert Kept([a, b], 0) == [a] + Kept([b], n);
  }

  lemma TwoRecorded(a: Span, b: Span)
    requires a.token == b.token
    ensures Recorded([a, b], map[]) == map[b.token := b.value]
  {
    assert [a, b][1..] == [b] && [b][1..] == [];
    var m := map[a.token := a.value];
    assert Recorded([b], m) == Recorded([], m[b.token := b.value]);
    assert Recorded([a, b], map[]) == Recorded([b], m);
  }

  lemma TwoTexts(text: string, a: Span, b: Span)
    requires SpansIn(text, [a, b]) && a.start == 0 && a.end == b.start && b.end == |text|
    ensures RedactedText(text, [a, b], 0) == a.token + b.token
  {
    assert [a, b][1..] == [b] && [b][1..] == [] && a in [a, b] && b in [a, b];
    assert text[0..a.start] == "" && text[a.end..b.start] == "" && text[b.end..] == "";
    assert RedactedText(text, [], |text|) == "";
    assert RedactedText(text, [b], a.end) == "" + b.token + "";
    assert RedactedText(text, [a, b], 0) == "" + a.token + RedactedText(text, [b], a.end);
  }

  lemma AlwaysWrong(tok: string, v1: string, v2: string, m: map<string, string>)
    requires tok != "" && m == map[tok := v2] && |v1| != |v2|
    ensures v2 + v2 != v1 + v2
    ensures forall order | IterationOrder(order, m) ::
              (forall t | t in order :: t in m && t != "") && RewriteIn(tok + tok, order, m) == v2 + v2
  {
    forall order | IterationOrder(order, m)
      ensures (forall t | t in order :: t in m && t != "") && RewriteIn(tok + tok, order, m) == v2 + v2
    {
      OneToken(order, tok, v2, m);
    }
    assert |v2 + v2| != |v1 + v2|;
  }

  lemma OneToken(order: seq<string>, tok: string, v: string, m: map<string, string>)
    requires tok != "" && m == map[tok := v] && IterationOrder(order, m)
    ensures (forall t | t in order :: t in m && t != "") && RewriteIn(tok + tok, order, m) == v + v
  {
    assert tok in order;
    assert |order| > 1 ==> order[0] != order[1];
    forall i | 0 <= i < |order| ensures order[i] == tok { assert order[i] in order; }
    assert order == [tok] && order[1..] == [];
    assert (tok + tok)[|tok|..] == tok && tok[|tok|..] == "" && tok <= tok + tok && tok <= tok;
    assert ReplaceAll("", tok, v) == "" && ReplaceAll(tok, tok, v) == v + "";
    assert ReplaceAll(tok + tok, tok, v) == v + ReplaceAll(tok, tok, v);
  }

  /** Redact after the sort: the walk over the spans. */
  method Walk(text: string, spans: seq<Span>) returns (out: string, mapping: map<string, string>)
    requires SpansIn(text, spans)
    ensures out == RedactedText(text, spans, 0)
    ensures mapping == Recorded(Kept(spans, 0), map[])
  {
    if |spans| == 0 {
      return text, map[];
    }
    var prev: nat := 0;
    out, mapping := "", map[];
    for i := 0 to |spans|
      invariant prev <= |text|
      invariant out + RedactedText(text, spans[i..], prev) == RedactedText(text, spans, 0)
      invariant Recorded(Kept(spans[i..], prev), mapping) == Recorded(Kept(spans, 0), map[])
    {
      var s := spans[i];
      ghost var rest := spans[i..];
      assert s in spans && rest[0] == s && rest[1..] == spans[i + 1..];
      if s.start < prev {
        continue;
      }
      assert Kept(rest, prev)[1..] == Kept(rest[1..], s.end);
      out := out + text[prev..s.start];
      out := out + s.token;
      mapping := mapping[s.token := s.value];
      prev := s.end;
    }
    out := out + text[prev..];
  }

  lemma RedactedTextRenders(text: string, spans: seq<Span>, prev: nat)
    requires SpansIn(text, spans) && prev <= |text|
    ensures RedactedText(text, spans, prev) == Render(Redacted(text, Kept(spans, prev), prev))
  {
    if spans == [] {
      CharsText(text[prev..], map[]);
    } else {
      var s := spans[0];
      assert s in spans;
      forall x | x in spans[1..] ensures x in spans {}
      if s.start < prev {
        RedactedTextRenders(text, spans[1..], prev);
      } else {
        RedactedTextRenders(text, spans[1..], s.end);
        RenderStep(text, spans, prev);
      }
    }
  }

  lemma RenderStep(text: string, spans: seq<Span>, prev: nat)
    requires spans != [] && prev <= spans[0].start <= spans[0].end <= |text|
    ensures Render(Redacted(text, Kept(spans, prev), prev))
            == text[prev..spans[0].start] + spans[0].token
               + Render(Redacted(text, Kept(spans[1..], spans[0].end), spans[0].end))
  {
    var s := spans[0];
    var ks := Kept(spans[1..], s.end);
    var gap, rest := text[prev..s.start], Redacted(text, ks, s.end);
    assert Kept(spans, prev) == [s] + ks && Kept(spans, prev)[1..] == ks;
    RenderCat(Chars(gap) + [Tok(s.token)], rest);
    RenderCat(Chars(gap), [Tok(s.token)]);
    CharsText(gap, map[]);
    assert Render([Tok(s.token)]) == s.token;
  }
}
