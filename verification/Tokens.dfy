/** The token language of the privacy package and what `strings.ReplaceAll` does to a text in
    which tokens stand for original values. A Go string is a byte string; a byte is a `char` here. */
module Tokens {

  const MARKER: string := "<<pii:"

  /** `<<pii:` ... `>>` with neither angle bracket in between: the shape of every token the redactor
      makes from a category and a hash that hold no angle bracket. */
  predicate IsToken(w: string) {
    && |w| >= 8
    && MARKER <= w
    && w[|w| - 2..] == ">>"
    && forall i | 6 <= i < |w| - 2 :: w[i] != '<' && w[i] != '>'
  }

  /** strings.Contains */
  predicate Contains(s: string, w: string) {
    exists p | 0 <= p <= |s| :: w <= s[p..]
  }

  ghost predicate MarkerFree(s: string) {
    !Contains(s, MARKER)
  }

  /** strings.ReplaceAll: leftmost, non-overlapping. */
  function ReplaceAll(s: string, tok: string, val: string): string
    requires tok != ""
    decreases |s|
  {
    if tok <= s then val + ReplaceAll(s[|tok|..], tok, val)
    else if s == "" then ""
    else [s[0]] + ReplaceAll(s[1..], tok, val)
  }

  /** One pass of ReplaceAll per token of `order`, in that order. */
  function RewriteIn(s: string, order: seq<string>, m: map<string, string>): string
    requires forall t | t in order :: t in m && t != ""
    decreases |order|
  {
    if order == [] then s
    else RewriteIn(ReplaceAll(s, order[0], m[order[0]]), order[1..], m)
  }

  /** A text as literal characters and tokens standing for values. */
  datatype Piece = Ch(c: char) | Tok(w: string)

  function Render(ps: seq<Piece>): string {
    if ps == [] then ""
    else (match ps[0] case Ch(c) => [c] case Tok(w) => w) + Render(ps[1..])
  }

  /** Every mapped token replaced by its value, all at once. */
  function Fill(ps: seq<Piece>, m: map<string, string>): string {
    if ps == [] then ""
    else (match ps[0] case Ch(c) => [c] case Tok(w) => if w in m then m[w] else w) + Fill(ps[1..], m)
  }

  function Chars(s: string): (ps: seq<Piece>)
    ensures |ps| == |s| && forall i | 0 <= i < |s| :: ps[i] == Ch(s[i])
  {
    if s == "" then [] else [Ch(s[0])] + Chars(s[1..])
  }

  /** One token replaced by the characters of its value. */
  function Put(ps: seq<Piece>, tok: string, val: string): seq<Piece> {
    if ps == [] then []
    else (if ps[0] == Tok(tok) then Chars(val) else [ps[0]]) + Put(ps[1..], tok, val)
  }

  ghost predicate AllTokens(ps: seq<Piece>) {
    forall p | p in ps :: p.Tok? ==> IsToken(p.w)
  }

  ghost predicate StartsToken(s: string) {
    exists w :: IsToken(w) && w <= s
  }

  /** No token begins at a literal character. */
  ghost predicate Clean(ps: seq<Piece>) {
    ps == [] || ((ps[0].Ch? ==> !StartsToken(Render(ps))) && Clean(ps[1..]))
  }

  /** `f` is a token cut short: a proper, possibly empty, prefix of `t`. */
  ghost predicate CutShort(f: string, t: string) {
    IsToken(t) && |f| < |t| && f == t[..|f|]
  }

  // ---- concatenation ---------------------------------------------------------------------------

  lemma {:induction false} RenderCat(a: seq<Piece>, b: seq<Piece>)
    ensures Render(a + b) == Render(a) + Render(b)
  {
    if a == [] {
      assert a + b == b;
    } else {
      assert (a + b)[1..] == a[1..] + b;
      RenderCat(a[1..], b);
    }
  }

  lemma {:induction false} FillCat(a: seq<Piece>, b: seq<Piece>, m: map<string, string>)
    ensures Fill(a + b, m) == Fill(a, m) + Fill(b, m)
  {
    if a == [] {
      assert a + b == b;
    } else {
      assert (a + b)[1..] == a[1..] + b;
      FillCat(a[1..], b, m);
    }
  }

  lemma {:induction false} CharsText(s: string, m: map<string, string>)
    ensures Render(Chars(s)) == s && Fill(Chars(s), m) == s
  {
    if s != "" {
      assert Chars(s)[1..] == Chars(s[1..]);
      CharsText(s[1..], m);
    }
  }

  lemma {:induction false} PutCat(a: seq<Piece>, b: seq<Piece>, tok: string, val: string)
    ensures Put(a + b, tok, val) == Put(a, tok, val) + Put(b, tok, val)
  {
    if a == [] {
      assert a + b == b;
    } else {
      assert (a + b)[1..] == a[1..] + b;
      PutCat(a[1..], b, tok, val);
    }
  }

  lemma {:induction false} PutChars(s: string, tok: string, val: string)
    ensures Put(Chars(s), tok, val) == Chars(s)
  {
    if s != "" {
      assert Chars(s)[1..] == Chars(s[1..]);
      PutChars(s[1..], tok, val);
    }
  }

  lemma {:induction false} PutMembers(ps: seq<Piece>, tok: string, val: string)
    ensures forall p | p in Put(ps, tok, val) && p.Tok? :: p in ps && p.w != tok
  {
    if ps != [] {
      PutMembers(ps[1..], tok, val);
    }
  }

  lemma {:induction false} PutKeepsFill(ps: seq<Piece>, tok: string, m: map<string, string>)
    requires tok in m
    ensures Fill(Put(ps, tok, m[tok]), m) == Fill(ps, m)
  {
    if ps != [] {
      var head := if ps[0] == Tok(tok) then Chars(m[tok]) else [ps[0]];
      CharsText(m[tok], m);
      FillCat(head, Put(ps[1..], tok, m[tok]), m);
      PutKeepsFill(ps[1..], tok, m);
    }
  }

  lemma SuffixMarkerFree(a: string, b: string)
    requires MarkerFree(a + b)
    ensures MarkerFree(b) && MarkerFree(a)
  {
    forall p | 0 <= p <= |b| ensures !(MARKER <= b[p..]) {
      assert (a + b)[|a| + p..] == b[p..];
    }
    forall p | 0 <= p <= |a| ensures !(MARKER <= a[p..]) {
      assert (a + b)[p..] == a[p..] + b;
    }
  }

  // ---- tokens are a prefix code without self-overlap -------------------------------------------

  lemma PrefixFree(a: string, b: string, s: string)
    requires IsToken(a) && IsToken(b) && a <= s && b <= s
    ensures a == b
  {
    assert a[|a| - 2] == a[|a| - 2..][0] == '>' && a[|a| - 1] == a[|a| - 2..][1] == '>';
    assert b[|b| - 2] == b[|b| - 2..][0] == '>' && b[|b| - 1] == b[|b| - 2..][1] == '>';
    assert forall i | 0 <= i < |a| && i < |b| :: a[i] == s[i] == b[i];
  }

  lemma TokenBrackets(w: string, i: nat)
    requires IsToken(w) && 1 < i < |w|
    ensures w[i] != '<'
  {
    if i >= |w| - 2 {
      assert w[i] == w[|w| - 2..][i - (|w| - 2)];
    }
  }

  /** Nothing starts strictly inside a token, whatever follows it. */
  lemma NothingInside(w: string, i: nat, rest: string)
    requires IsToken(w) && 0 < i < |w|
    ensures !StartsToken(w[i..] + rest)
  {
    var s := w[i..] + rest;
    assert s[0] == w[i] && w[2] == 'p' && (i == 1 ==> s[1] == w[2]);
    if i > 1 { TokenBrackets(w, i); }
    forall t | IsToken(t) ensures !(t <= s) {
      assert t[0] == '<' && t[1] == '<';
    }
  }

  // ---- what ReplaceAll does --------------------------------------------------------------------

  lemma ReplaceSkips(w: string, i: nat, rest: string, tok: string, val: string)
    requires IsToken(w) && IsToken(tok) && w != tok && i <= |w|
    ensures ReplaceAll(w[i..] + rest, tok, val) == w[i..] + ReplaceAll(rest, tok, val)
    decreases |w| - i
  {
    var s := w[i..] + rest;
    if i == |w| {
      assert s == rest;
    } else {
      if tok <= s {
        if i == 0 {
          assert w <= s;
          PrefixFree(w, tok, s);
        } else {
          NothingInside(w, i, rest);
        }
      }
      assert s[1..] == w[i + 1..] + rest;
      ReplaceSkips(w, i + 1, rest, tok, val);
    }
  }

  lemma ReplacePieces(ps: seq<Piece>, tok: string, val: string)
    requires IsToken(tok) && AllTokens(ps) && Clean(ps)
    ensures ReplaceAll(Render(ps), tok, val) == Render(Put(ps, tok, val))
  {
    if ps != [] {
      var s, rest := Render(ps), Render(ps[1..]);
      ReplacePieces(ps[1..], tok, val);
      match ps[0] {
        case Ch(c) =>
          assert s[1..] == rest;
          RenderCat([ps[0]], Put(ps[1..], tok, val));
        case Tok(w) =>
          assert ps[0] in ps && IsToken(w);
          if w == tok {
            assert s[|tok|..] == rest;
            CharsText(val, map[]);
            RenderCat(Chars(val), Put(ps[1..], tok, val));
          } else {
            ReplaceSkips(w, 0, rest, tok, val);
            RenderCat([ps[0]], Put(ps[1..], tok, val));
          }
      }
    }
  }

  // ---- when no token begins at a literal character ---------------------------------------------

  /** A proper tail of the marker cannot run into a token, nor into a token cut short: a token opens
      with two angle brackets. */
  lemma {:induction false} TailMeetsCharacter(ps: seq<Piece>, f: string, t: string, k: nat)
    requires AllTokens(ps) && CutShort(f, t) && 1 <= k < 6
    ensures MARKER[k..] <= Render(ps) + f ==> ps != [] && ps[0].Ch?
  {
    var s, u := Render(ps) + f, MARKER[k..];
    assert u[0] == MARKER[k] && (k == 1 ==> u[1] == 'p');
    assert t[0] == '<' && t[1] == '<';
    if ps == [] {
      assert s == f;
    } else if ps[0].Tok? {
      assert ps[0] in ps;
      assert s[0] == ps[0].w[0] && s[1] == ps[0].w[1];
    }
  }

  /** So a proper tail of the marker that opens a partly filled text also opens the filled one. */
  lemma MarkerTail(ps: seq<Piece>, f: string, t: string, m: map<string, string>, k: nat)
    requires AllTokens(ps) && CutShort(f, t) && 1 <= k <= 6
    requires MARKER[k..] <= Render(ps) + f
    ensures MARKER[k..] <= Fill(ps, m)
    decreases 6 - k
  {
    if k < 6 {
      TailMeetsCharacter(ps, f, t, k);
      assert (Render(ps) + f)[1..] == Render(ps[1..]) + f;
      assert MARKER[k..] == [MARKER[k]] + MARKER[k + 1..];
      MarkerTail(ps[1..], f, t, m, k + 1);
      assert Fill(ps, m) == [ps[0].c] + Fill(ps[1..], m);
    }
  }

  lemma CutShortClean(f: string, t: string, k: nat)
    requires CutShort(f, t) && k <= |f|
    ensures Clean(Chars(f[k..]))
    decreases |f| - k
  {
    var g := f[k..];
    if g != "" {
      assert Chars(g)[1..] == Chars(f[k + 1..]);
      CutShortClean(f, t, k + 1);
      CharsText(g, map[]);
      if k == 0 {
        forall w | IsToken(w) ensures !(w <= g) {
          if w <= g { PrefixFree(w, t, t); }
        }
      } else {
        assert t[k..] + "" == g + t[|f|..];
        NothingInside(t, k, "");
      }
    }
  }

  lemma MarkerAtHead(ps: seq<Piece>, f: string, t: string, m: map<string, string>)
    requires ps != [] && ps[0].Ch? && AllTokens(ps) && CutShort(f, t)
    ensures MARKER <= Render(ps) + f ==> MARKER <= Fill(ps, m)
  {
    var s := Render(ps[1..]) + f;
    assert Render(ps) + f == [ps[0].c] + s;
    if MARKER <= Render(ps) + f {
      PrefixTail(MARKER, ps[0].c, s);
      MarkerTail(ps[1..], f, t, m, 1);
      PrefixTail(MARKER, ps[0].c, Fill(ps[1..], m));
    }
  }

  lemma PrefixTail(u: string, c: char, s: string)
    requires u != ""
    ensures u <= [c] + s <==> u[0] == c && u[1..] <= s
  {
    assert u == [u[0]] + u[1..];
    if u <= [c] + s { assert forall i | 0 <= i < |u| :: u[i] == ([c] + s)[i]; }
  }

  lemma FillMarkerFreeIsClean(ps: seq<Piece>, f: string, t: string, m: map<string, string>)
    requires AllTokens(ps) && CutShort(f, t) && MarkerFree(Fill(ps, m))
    ensures Clean(ps + Chars(f))
  {
    if ps == [] {
      assert ps + Chars(f) == Chars(f[0..]);
      CutShortClean(f, t, 0);
    } else {
      assert (ps + Chars(f))[1..] == ps[1..] + Chars(f);
      FillCat(ps[..1], ps[1..], m);
      assert ps[..1] + ps[1..] == ps;
      SuffixMarkerFree(Fill(ps[..1], m), Fill(ps[1..], m));
      FillMarkerFreeIsClean(ps[1..], f, t, m);
      if ps[0].Ch? {
        RenderCat(ps, Chars(f));
        CharsText(f, m);
        MarkerAtHead(ps, f, t, m);
        assert Fill(ps, m)[0..] == Fill(ps, m);
      }
    }
  }

  // ---- the rewriting loop, in any order --------------------------------------------------------

  /** A text made of tokens of `order` and literal characters, followed by a token cut short, is
      rewritten to the filled text followed by that unfinished token, whatever the order. */
  lemma {:induction false} RewriteFills(ps: seq<Piece>, f: string, t: string, order: seq<string>,
                                       m: map<string, string>)
    requires forall w | w in order :: w in m && w != "" && IsToken(w)
    requires forall p | p in ps :: p.Tok? ==> p.w in order
    requires CutShort(f, t) && MarkerFree(Fill(ps, m))
    ensures RewriteIn(Render(ps) + f, order, m) == Fill(ps, m) + f
    decreases |order|
  {
    if order == [] {
      NoTokens(ps, m);
    } else {
      var tok, val := order[0], m[order[0]];
      forall p | p in ps ensures p.Tok? ==> IsToken(p.w) {}
      FillMarkerFreeIsClean(ps, f, t, m);
      forall p | p in ps + Chars(f) ensures p.Tok? ==> IsToken(p.w) {}
      ReplacePieces(ps + Chars(f), tok, val);
      RenderCat(ps, Chars(f));
      CharsText(f, m);
      PutCat(ps, Chars(f), tok, val);
      PutChars(f, tok, val);
      var qs := Put(ps, tok, val);
      RenderCat(qs, Chars(f));
      PutMembers(ps, tok, val);
      PutKeepsFill(ps, tok, m);
      assert order == [tok] + order[1..];
      forall w | w in order[1..] ensures w in m && w != "" && IsToken(w) { assert w in order; }
      RewriteFills(qs, f, t, order[1..], m);
    }
  }

  lemma NoTokens(ps: seq<Piece>, m: map<string, string>)
    requires forall p | p in ps :: p.Ch?
    ensures Render(ps) == Fill(ps, m)
  {
    if ps != [] {
      assert ps[0] in ps;
      NoTokens(ps[1..], m);
    }
  }
}
