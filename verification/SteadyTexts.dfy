/** Rehydration of texts that redact nothing in particular: whatever a model may answer, with unmapped or
    mangled tokens in it. */
module SteadyTexts {
  import opened Wrappers
  import opened Tokens
  import opened Redaction
  import opened Rehydration

  // ---- every text is a sequence of pieces ------------------------------------------------------

  /** Left to right, a token where one begins and a character elsewhere. */
  ghost function Parse(s: string): (ps: seq<Piece>)
    ensures Render(ps) == s && AllTokens(ps)
    decreases |s|
  {
    if s == "" then []
    else if StartsToken(s) then
      var w :| IsToken(w) && w <= s;
      assert s == w + s[|w|..];
      [Tok(w)] + Parse(s[|w|..])
    else
      assert s == [s[0]] + s[1..];
      [Ch(s[0])] + Parse(s[1..])
  }

  /** The mapped tokens among `done` replaced, the others left. */
  function PutAll(ps: seq<Piece>, done: set<string>, m: map<string, string>): seq<Piece> {
    if ps == [] then []
    else
      (if ps[0].Tok? && ps[0].w in done && ps[0].w in m then Chars(m[ps[0].w]) else [ps[0]])
      + PutAll(ps[1..], done, m)
  }

  /** Whichever tokens have been replaced, none begins at a literal character: replacing never makes one. */
  ghost predicate Steady(ps: seq<Piece>, m: map<string, string>) {
    AllTokens(ps) && forall done :: Clean(PutAll(ps, done, m))
  }

  lemma {:induction false} PutAllCat(a: seq<Piece>, b: seq<Piece>, done: set<string>, m: map<string, string>)
    ensures PutAll(a + b, done, m) == PutAll(a, done, m) + PutAll(b, done, m)
    decreases |a|
  {
    if a == [] {
      assert a + b == b;
    } else {
      assert (a + b)[1..] == a[1..] + b;
      PutAllCat(a[1..], b, done, m);
    }
  }

  lemma {:induction false} PutAllChars(s: string, done: set<string>, m: map<string, string>)
    ensures PutAll(Chars(s), done, m) == Chars(s)
    decreases |s|
  {
    if s != "" {
      assert Chars(s)[1..] == Chars(s[1..]);
      PutAllChars(s[1..], done, m);
    }
  }

  lemma {:induction false} PutAllNone(ps: seq<Piece>, m: map<string, string>)
    ensures PutAll(ps, {}, m) == ps
    decreases |ps|
  {
    if ps != [] { PutAllNone(ps[1..], m); }
  }

  lemma {:induction false} PutThenAll(ps: seq<Piece>, tok: string, done: set<string>, m: map<string, string>)
    requires tok in m
    ensures PutAll(Put(ps, tok, m[tok]), done, m) == PutAll(ps, done + {tok}, m)
    decreases |ps|
  {
    if ps != [] {
      var head := if ps[0] == Tok(tok) then Chars(m[tok]) else [ps[0]];
      PutThenAll(ps[1..], tok, done, m);
      PutAllCat(head, Put(ps[1..], tok, m[tok]), done, m);
      if ps[0] == Tok(tok) {
        PutAllChars(m[tok], done, m);
      } else {
        assert [ps[0]][1..] == [];
      }
    }
  }

  lemma SteadyPut(ps: seq<Piece>, tok: string, m: map<string, string>)
    requires Steady(ps, m) && tok in m
    ensures Steady(Put(ps, tok, m[tok]), m)
  {
    PutMembers(ps, tok, m[tok]);
    forall done ensures Clean(PutAll(Put(ps, tok, m[tok]), done, m)) {
      PutThenAll(ps, tok, done, m);
    }
  }

  /** All mapped tokens are replaced, in whatever order, and nothing else is. */
  lemma {:induction false} RewriteSteady(ps: seq<Piece>, order: seq<string>, m: map<string, string>)
    requires Steady(ps, m) && forall w | w in order :: w in m && w != "" && IsToken(w)
    requires forall p | p in ps :: p.Tok? && p.w in m ==> p.w in order
    ensures RewriteIn(Render(ps), order, m) == Fill(ps, m)
    decreases |order|
  {
    if order == [] {
      NoMapped(ps, m);
    } else {
      var tok, val := order[0], m[order[0]];
      PutAllNone(ps, m);
      ReplacePieces(ps, tok, val);
      SteadyPut(ps, tok, m);
      PutMembers(ps, tok, val);
      PutKeepsFill(ps, tok, m);
      assert order == [tok] + order[1..];
      forall w | w in order[1..] ensures w in m && w != "" && IsToken(w) { assert w in order; }
      RewriteSteady(Put(ps, tok, val), order[1..], m);
    }
  }

  lemma {:induction false} NoMapped(ps: seq<Piece>, m: map<string, string>)
    requires forall p | p in ps :: p.Tok? ==> p.w !in m
    ensures Render(ps) == Fill(ps, m)
    decreases |ps|
  {
    if ps != [] {
      assert ps[0] in ps;
      NoMapped(ps[1..], m);
    }
  }

  /** Whole fills a steady text, for every iteration order. */
  lemma {:induction false} WholeSteady(ps: seq<Piece>, m: map<string, string>, out: string)
    requires "" !in m && TokenMap(m) && Steady(ps, m) && Rewrites(m, Render(ps), out)
    ensures out == Fill(ps, m)
  {
    if |m| == 0 || !Contains(Render(ps), MARKER) {
      forall p | p in ps && p.Tok? ensures p.w !in m {
        MarkerOfToken(ps, "", p);
        assert Render(ps) + "" == Render(ps);
      }
      NoMapped(ps, m);
    } else {
      var order :| IterationOrder(order, m) && RewrittenBy(m, order, Render(ps), out);
      RewriteSteady(ps, order, m);
    }
  }

  /** A text whose filled form has no marker is steady. */
  lemma RedactsSteady(ps: seq<Piece>, m: map<string, string>)
    requires Redacts(ps, m)
    ensures Steady(ps, m)
  {
    var t := MARKER + ">>";
    assert t[|t| - 2..] == ">>";
    forall done ensures Clean(PutAll(ps, done, m)) {
      PutAllFill(ps, done, m);
      FillMarkerFreeIsClean(PutAll(ps, done, m), "", t, m);
      assert PutAll(ps, done, m) + Chars("") == PutAll(ps, done, m);
    }
  }

  lemma {:induction false} PutAllFill(ps: seq<Piece>, done: set<string>, m: map<string, string>)
    ensures Fill(PutAll(ps, done, m), m) == Fill(ps, m)
    ensures forall p | p in PutAll(ps, done, m) && p.Tok? :: p in ps
    decreases |ps|
  {
    if ps != [] {
      var p, rest := ps[0], PutAll(ps[1..], done, m);
      PutAllFill(ps[1..], done, m);
      if p.Tok? && p.w in done && p.w in m {
        FillCat(Chars(m[p.w]), rest, m);
        CharsText(m[p.w], m);
      } else {
        assert ([p] + rest)[1..] == rest;
      }
    }
  }

  // ---- when a redacted text comes back ---------------------------------------------------------

  /** The redacted text from offset `prev` on, with the tokens that stand in the text itself. */
  ghost function Around(text: string, ks: seq<Span>, prev: nat): seq<Piece>
    requires prev <= |text|
  {
    if ks == [] || !(prev <= ks[0].start <= ks[0].end <= |text|) then Parse(text[prev..])
    else Parse(text[prev..ks[0].start]) + ([Tok(ks[0].token)] + Around(text, ks[1..], ks[0].end))
  }

  ghost predicate NoneIn(s: string, m: map<string, string>) {
    forall t | t in m :: !Contains(s, t)
  }

  /** No mapped token stands in the text outside the kept spans. */
  ghost predicate NoneOutside(text: string, ks: seq<Span>, prev: nat, m: map<string, string>)
    requires prev <= |text|
  {
    if ks == [] || !(prev <= ks[0].start <= ks[0].end <= |text|) then NoneIn(text[prev..], m)
    else NoneIn(text[prev..ks[0].start], m) && NoneOutside(text, ks[1..], ks[0].end, m)
  }

  /** A text, with tokens or without, comes back if and only if no mapped token stands outside its kept spans. */
  lemma {:induction false} ComesBackIff(text: string, spans: seq<Span>, m: map<string, string>, out: string)
    requires SpansIn(text, spans) && "" !in m && TokenMap(m) && Resolves(m, Kept(spans, 0))
    requires Steady(Around(text, Kept(spans, 0), 0), m)
    requires Rewrites(m, Render(Redacted(text, Kept(spans, 0), 0)), out)
    ensures out == text <==> NoneOutside(text, Kept(spans, 0), 0, m)
  {
    var ks := Kept(spans, 0);
    AroundRenders(text, ks, 0);
    WholeSteady(Around(text, ks, 0), m, out);
    FillsBackIff(text, spans, 0, m);
    assert text[0..] == text;
  }

  lemma {:induction false} AroundRenders(text: string, ks: seq<Span>, prev: nat)
    requires prev <= |text|
    ensures Render(Around(text, ks, prev)) == Render(Redacted(text, ks, prev))
    decreases |ks|
  {
    if ks == [] || !(prev <= ks[0].start <= ks[0].end <= |text|) {
      CharsText(text[prev..], map[]);
    } else {
      var gap, tok, end := text[prev..ks[0].start], [Tok(ks[0].token)], ks[0].end;
      AroundRenders(text, ks[1..], end);
      CharsText(gap, map[]);
      RenderCat(Parse(gap), tok + Around(text, ks[1..], end));
      RenderCat(tok, Around(text, ks[1..], end));
      RenderCat(Chars(gap) + tok, Redacted(text, ks[1..], end));
      RenderCat(Chars(gap), tok);
    }
  }

  lemma {:induction false} FillsBackIff(text: string, spans: seq<Span>, prev: nat, m: map<string, string>)
    requires SpansIn(text, spans) && prev <= |text| && TokenMap(m) && Resolves(m, Kept(spans, prev))
    requires Steady(Around(text, Kept(spans, prev), prev), m)
    ensures Fill(Around(text, Kept(spans, prev), prev), m) == text[prev..]
            <==> NoneOutside(text, Kept(spans, prev), prev, m)
    decreases |spans|
  {
    if spans == [] {
      LastGap(text[prev..], m);
    } else {
      var s, ks := spans[0], Kept(spans, prev);
      assert s in spans;
      forall x | x in spans[1..] ensures x in spans {}
      if s.start < prev {
        FillsBackIff(text, spans[1..], prev, m);
      } else {
        var ks' := Kept(spans[1..], s.end);
        assert ks == [s] + ks' && ks[1..] == ks' && s in ks;
        forall x | x in ks' ensures x in ks {}
        var gap, rest := text[prev..s.start], Around(text, ks', s.end);
        SteadyParts(Parse(gap), [Tok(s.token)] + rest, m);
        SteadyParts([Tok(s.token)], rest, m);
        FillsBackIff(text, spans[1..], s.end, m);
        GapIff(gap, s, rest, text[s.end..], m);
        ThreeSlices(text, prev, s.start, s.end);
        Reassociate(gap, s.value, text[s.end..]);
      }
    }
  }

  lemma LastGap(gap: string, m: map<string, string>)
    requires TokenMap(m) && Steady(Parse(gap), m)
    ensures Fill(Parse(gap), m) == gap <==> NoneIn(gap, m)
  {
    assert Parse(gap) + [] == Parse(gap) && gap + "" == gap;
    if NoneIn(gap, m) { GapFills(gap, [], m); } else { GapDiffers(gap, [], m, ""); }
  }

  lemma GapIff(gap: string, s: Span, rest: seq<Piece>, after: string, m: map<string, string>)
    requires TokenMap(m) && s.token in m && m[s.token] == s.value
    requires Steady(Parse(gap) + ([Tok(s.token)] + rest), m)
    ensures Fill(Parse(gap) + ([Tok(s.token)] + rest), m) == gap + (s.value + after)
            <==> NoneIn(gap, m) && Fill(rest, m) == after
  {
    var tail := [Tok(s.token)] + rest;
    FillCat([Tok(s.token)], rest, m);
    assert Fill([Tok(s.token)], m) == s.value + Fill([Tok(s.token)][1..], m);
    assert Fill(tail, m) == s.value + Fill(rest, m);
    if NoneIn(gap, m) {
      GapFills(gap, tail, m);
      if Fill(rest, m) != after {
        Differ(s.value, Fill(rest, m), after);
        Differ(gap, Fill(tail, m), s.value + after);
      }
    } else {
      GapDiffers(gap, tail, m, s.value + after);
    }
  }

  lemma GapFills(gap: string, rest: seq<Piece>, m: map<string, string>)
    requires TokenMap(m) && NoneIn(gap, m)
    ensures Fill(Parse(gap) + rest, m) == gap + Fill(rest, m)
  {
    forall p | p in Parse(gap) && p.Tok? ensures p.w !in m {
      ParseHas(gap, p.w);
    }
    NoMapped(Parse(gap), m);
    FillCat(Parse(gap), rest, m);
  }

  /** From the first mapped token on the filled text is another one: it does not begin with that token. */
  lemma GapDiffers(gap: string, rest: seq<Piece>, m: map<string, string>, after: string)
    requires TokenMap(m) && Steady(Parse(gap) + rest, m) && !NoneIn(gap, m)
    ensures Fill(Parse(gap) + rest, m) != gap + after
  {
    var t :| t in m && Contains(gap, t);
    ParseHas(gap, t);
    var k := FirstMapped(Parse(gap), m);
    FromMapped(Parse(gap), k, rest, m, after);
  }

  lemma FromMapped(ps: seq<Piece>, k: nat, rest: seq<Piece>, m: map<string, string>, after: string)
    requires TokenMap(m) && Steady(ps + rest, m)
    requires k < |ps| && ps[k].Tok? && ps[k].w in m && forall p | p in ps[..k] && p.Tok? :: p.w !in m
    ensures Fill(ps + rest, m) != Render(ps) + after
  {
    var a, b := ps[..k], ps[k..];
    assert ps == a + b && ps + rest == a + (b + rest);
    SteadyParts(a, b + rest, m);
    NoMapped(a, m);
    FillCat(a, b + rest, m);
    RenderCat(a, b);
    HeadRenders(b, ps[k].w, after);
    NotBegun(b + rest, ps[k].w, m);
    Reassociate(Render(a), Render(b), after);
    Differ(Render(a), Fill(b + rest, m), Render(b) + after);
  }

  lemma HeadRenders(ps: seq<Piece>, t: string, after: string)
    requires ps != [] && ps[0] == Tok(t)
    ensures t <= Render(ps) + after
  {
    assert t <= Render(ps);
  }

  lemma {:induction false} FirstMapped(ps: seq<Piece>, m: map<string, string>) returns (k: nat)
    requires exists p :: p in ps && p.Tok? && p.w in m
    ensures k < |ps| && ps[k].Tok? && ps[k].w in m && forall p | p in ps[..k] && p.Tok? :: p.w !in m
    decreases |ps|
  {
    if ps[0].Tok? && ps[0].w in m {
      k := 0;
    } else {
      k := FirstMapped(ps[1..], m);
      assert ps[..k + 1] == [ps[0]] + ps[1..][..k];
      k := k + 1;
    }
  }

  /** What a steady text is filled to does not begin with a mapped token. */
  lemma NotBegun(ps: seq<Piece>, t: string, m: map<string, string>)
    requires Steady(ps, m) && TokenMap(m) && t in m
    ensures !(t <= Fill(ps, m))
  {
    var qs := PutAll(ps, m.Keys, m);
    PutAllRenders(ps, m);
    if qs != [] && qs[0].Tok? {
      assert qs[0] in qs;
      if t <= Fill(ps, m) { PrefixFree(qs[0].w, t, Render(qs)); }
    }
  }

  lemma {:induction false} PutAllRenders(ps: seq<Piece>, m: map<string, string>)
    ensures Render(PutAll(ps, m.Keys, m)) == Fill(ps, m)
    ensures forall p | p in PutAll(ps, m.Keys, m) && p.Tok? :: p in ps && p.w !in m
    decreases |ps|
  {
    if ps != [] {
      var rest := PutAll(ps[1..], m.Keys, m);
      PutAllRenders(ps[1..], m);
      if ps[0].Tok? && ps[0].w in m {
        RenderCat(Chars(m[ps[0].w]), rest);
        CharsText(m[ps[0].w], m);
      } else {
        assert ([ps[0]] + rest)[1..] == rest;
      }
    }
  }

  lemma {:induction false} ParseHas(s: string, t: string)
    requires IsToken(t)
    ensures Contains(s, t) <==> Tok(t) in Parse(s)
    decreases |s|
  {
    if s == "" {
      assert s[0..] == s;
    } else {
      var p, n, rest := ParseHead(s);
      ParseHas(rest, t);
      ContainsFrom(s, n, t);
      OnlyAtHead(s, p, n, t);
    }
  }

  lemma ParseHead(s: string) returns (p: Piece, n: nat, rest: string)
    requires s != ""
    ensures 0 < n <= |s| && rest == s[n..] && Parse(s) == [p] + Parse(rest)
    ensures if p.Tok? then IsToken(p.w) && p.w == s[..n] else n == 1 && !StartsToken(s)
  {
    p := Parse(s)[0];
    n := if p.Tok? then |p.w| else 1;
    rest := s[n..];
    assert p in Parse(s);
  }

  lemma OnlyAtHead(s: string, p: Piece, n: nat, t: string)
    requires IsToken(t) && 0 < n <= |s|
    requires if p.Tok? then IsToken(p.w) && p.w == s[..n] else n == 1 && !StartsToken(s)
    ensures (exists i | 0 <= i < n :: t <= s[i..]) <==> p == Tok(t)
  {
    assert s[0..] == s;
    if p.Tok? {
      assert s == p.w + s[n..];
      if t <= s { PrefixFree(p.w, t, s); }
      forall i | 0 < i < n ensures !(t <= s[i..]) {
        NothingInside(p.w, i, s[n..]);
        assert s[i..] == p.w[i..] + s[n..];
      }
      if p.w == t { assert t <= s[0..]; }
    }
  }

  lemma ContainsFrom(s: string, n: nat, t: string)
    requires n <= |s|
    ensures Contains(s, t) <==> Contains(s[n..], t) || exists p | 0 <= p < n :: t <= s[p..]
  {
    forall p | n <= p <= |s| ensures s[p..] == s[n..][p - n..] {
    }
    if Contains(s[n..], t) {
      var q :| 0 <= q <= |s[n..]| && t <= s[n..][q..];
      assert t <= s[n + q..];
    }
  }

  /** The condition is needed: where a value completes a token around it, the result of Whole depends on the
      iteration order. */
  lemma NestedTokens()
    ensures
      var a, b := "<<pii:0>>", "<<pii:B>>";
      var m := map[a := "x", b := "0"];
      RewriteIn("<<pii:<<pii:B>>>>", [b, a], m) == "x" && RewriteIn("<<pii:<<pii:B>>>>", [a, b], m) == "<<pii:0>>"
  {
    InnerReplaced();
    OuterAbsent();
    OuterReplaced();
    TwoOrders("<<pii:0>>", "<<pii:B>>", "<<pii:<<pii:B>>>>", "x", "0");
  }

  lemma InnerReplaced()
    ensures ReplaceAll("<<pii:<<pii:B>>>>", "<<pii:B>>", "0") == "<<pii:0>>"
  {
    var s, b := "<<pii:<<pii:B>>>>", "<<pii:B>>";
    forall i | 0 <= i < 6 ensures !(b <= s[i..]) {
      assert s[i..][6] == s[i + 6] != 'B';
    }
    assert s == "<<pii:" + b + ">>" && "<<pii:" + "0" + ">>" == "<<pii:0>>";
    Spelled(s, b, "0", "<<pii:", ">>");
  }

  lemma OuterAbsent()
    ensures ReplaceAll("<<pii:<<pii:B>>>>", "<<pii:0>>", "x") == "<<pii:<<pii:B>>>>"
  {
    NotThere("<<pii:<<pii:B>>>>", "<<pii:0>>", "x", 6);
  }

  lemma OuterReplaced()
    ensures ReplaceAll("<<pii:0>>", "<<pii:0>>", "x") == "x"
  {
    var a := "<<pii:0>>";
    assert a == "" + a + "" && "" + "x" + "" == "x";
    Spelled(a, a, "x", "", "");
  }

  lemma TwoOrders(a: string, b: string, s: string, x: string, v: string)
    requires a != "" && b != "" && a != b
    requires ReplaceAll(s, b, v) == a && ReplaceAll(s, a, x) == s && ReplaceAll(a, a, x) == x
    ensures var m := map[a := x, b := v]; RewriteIn(s, [b, a], m) == x && RewriteIn(s, [a, b], m) == a
  {
    assert [b, a][1..] == [a] && [a, b][1..] == [b] && [a][1..] == [] && [b][1..] == [];
    var m := map[a := x, b := v];
    assert RewriteIn(s, [b, a], m) == RewriteIn(a, [a], m) == RewriteIn(x, [], m);
    assert RewriteIn(s, [a, b], m) == RewriteIn(s, [b], m) == RewriteIn(a, [], m);
  }

  lemma Spelled(s: string, tok: string, val: string, before: string, after: string)
    requires tok != "" && s == before + tok + after
    requires forall i | 0 <= i < |before| :: !(tok <= s[i..])
    requires !Contains(after, tok)
    ensures ReplaceAll(s, tok, val) == before + val + after
    decreases |before|
  {
    if before == "" {
      assert s[|tok|..] == after;
      NoOccurrence(after, tok, val);
    } else {
      assert s[0..] == s && s[1..] == before[1..] + tok + after;
      forall i | 0 <= i < |before[1..]| ensures !(tok <= s[1..][i..]) { assert s[1..][i..] == s[i + 1..]; }
      Spelled(s[1..], tok, val, before[1..], after);
    }
  }

  lemma NotThere(s: string, tok: string, val: string, k: nat)
    requires k < |tok| && tok[k] !in s
    ensures ReplaceAll(s, tok, val) == s
  {
    assert forall j | 0 <= j < |s| :: s[j] != tok[k];
    forall i | 0 <= i <= |s| ensures !(tok <= s[i..]) {
      assert i + k < |s| ==> s[i..][k] == s[i + k];
    }
    NoOccurrence(s, tok, val);
  }

  // ---- the stream ------------------------------------------------------------------------------

  lemma {:induction false} CleanParts(a: seq<Piece>, b: seq<Piece>)
    requires Clean(a + b)
    ensures Clean(a) && Clean(b)
    decreases |a|
  {
    if a == [] {
      assert a + b == b;
    } else {
      assert (a + b)[1..] == a[1..] + b;
      CleanParts(a[1..], b);
      RenderCat(a, b);
      LongerStarts(Render(a), Render(b));
    }
  }

  lemma LongerStarts(s: string, rest: string)
    ensures StartsToken(s) ==> StartsToken(s + rest)
  {
    if StartsToken(s) {
      var w :| IsToken(w) && w <= s;
      assert w <= s + rest;
    }
  }

  lemma SteadyParts(a: seq<Piece>, b: seq<Piece>, m: map<string, string>)
    requires Steady(a + b, m)
    ensures Steady(a, m) && Steady(b, m)
  {
    forall p | p in a || p in b ensures p in a + b {}
    forall done ensures Clean(PutAll(a, done, m)) && Clean(PutAll(b, done, m)) {
      PutAllCat(a, b, done, m);
      CleanParts(PutAll(a, done, m), PutAll(b, done, m));
    }
  }

  /** A token cut short begins no token, nor do the characters before it: none has an angle bracket inside. */
  lemma {:induction false} CleanBeforeCut(a: seq<Piece>, f: string, t: string)
    requires Clean(a) && CutShort(f, t)
    ensures Clean(a + Chars(f))
    decreases |a|
  {
    if a == [] {
      CutShortClean(f, t, 0);
      assert a + Chars(f) == Chars(f[0..]);
    } else {
      assert (a + Chars(f))[1..] == a[1..] + Chars(f);
      CleanBeforeCut(a[1..], f, t);
      CharsText(f, map[]);
      RenderCat(a, Chars(f));
      if a[0].Ch? {
        assert Render(a) == [a[0].c] + Render(a[1..]);
        NoneReachesCut(Render(a), f, t);
      }
    }
  }

  lemma NoneReachesCut(s: string, f: string, t: string)
    requires s != "" && CutShort(f, t)
    ensures StartsToken(s + f) ==> StartsToken(s)
  {
    var u, n := s + f, |s|;
    assert t[0] == '<' && t[1] == '<';
    assert forall i | n <= i < |u| :: u[i] == t[i - n];
    assert s == u[..n];
    if StartsToken(u) {
      var w :| IsToken(w) && w <= u;
      assert w[2] == 'p' && forall i | 0 <= i < |w| :: w[i] == u[i];
      if 1 < n < |w| { TokenBrackets(w, n); }
    }
  }

  /** Nor does anything in the rest of it. */
  lemma {:induction false} CleanAfterCut(t: string, i: nat, b: seq<Piece>)
    requires IsToken(t) && 0 < i <= |t| && Clean(b)
    ensures Clean(Chars(t[i..]) + b)
    decreases |t| - i
  {
    if i == |t| {
      assert Chars(t[i..]) + b == b;
    } else {
      CleanAfterCut(t, i + 1, b);
      NothingInside(t, i, Render(b));
      CharsStep(t, i, b);
      CleanCons(t[i], Chars(t[i + 1..]) + b, Chars(t[i..]) + b);
    }
  }

  lemma CharsStep(t: string, i: nat, b: seq<Piece>)
    requires i < |t|
    ensures Render(Chars(t[i..]) + b) == t[i..] + Render(b)
    ensures (Chars(t[i..]) + b)[0] == Ch(t[i]) && (Chars(t[i..]) + b)[1..] == Chars(t[i + 1..]) + b
  {
    CharsText(t[i..], map[]);
    RenderCat(Chars(t[i..]), b);
  }

  lemma CleanCons(c: char, rest: seq<Piece>, ps: seq<Piece>)
    requires |ps| == |rest| + 1 && ps[0] == Ch(c) && ps[1..] == rest && Clean(rest) && !StartsToken(Render(ps))
    ensures Clean(ps)
  {
  }

  /** So a steady text cut inside a token falls into two steady ones. */
  lemma {:induction false} SteadyCut(pre: seq<Piece>, t: string, f: string, post: seq<Piece>, m: map<string, string>)
    requires Steady(pre + [Tok(t)] + post, m) && CutShort(f, t) && f != ""
    ensures Steady(pre + Chars(f), m) && Steady(Chars(t[|f|..]) + post, m)
  {
    SteadyParts(pre + [Tok(t)], post, m);
    SteadyParts(pre, [Tok(t)], m);
    SteadyBefore(pre, f, t, m);
    SteadyAfter(t, |f|, post, m);
  }

  lemma SteadyBefore(pre: seq<Piece>, f: string, t: string, m: map<string, string>)
    requires Steady(pre, m) && CutShort(f, t)
    ensures Steady(pre + Chars(f), m)
  {
    forall done ensures Clean(PutAll(pre + Chars(f), done, m)) {
      PutAllCat(pre, Chars(f), done, m);
      PutAllChars(f, done, m);
      CleanBeforeCut(PutAll(pre, done, m), f, t);
    }
  }

  lemma SteadyAfter(t: string, i: nat, post: seq<Piece>, m: map<string, string>)
    requires IsToken(t) && 0 < i <= |t| && Steady(post, m)
    ensures Steady(Chars(t[i..]) + post, m)
  {
    forall done ensures Clean(PutAll(Chars(t[i..]) + post, done, m)) {
      PutAllCat(Chars(t[i..]), post, done, m);
      PutAllChars(t[i..], done, m);
      CleanAfterCut(t, i, PutAll(post, done, m));
    }
  }

  /** Chunk by chunk a steady text is filled like the whole if no mapped token lies across a cut. */
  lemma {:induction false} StreamSteady(ps: seq<Piece>, chunks: seq<string>, outs: seq<string>, m: map<string, string>)
    requires "" !in m && TokenMap(m) && Steady(ps, m)
    requires Render(ps) == Concat(chunks) && AllRewritten(m, chunks, outs) && Aligned(Render(ps), m, chunks, 0)
    ensures Concat(outs) == Fill(ps, m)
    decreases |chunks|
  {
    if chunks == [] {
      RenderEmpty(ps);
    } else {
      var s, c := Render(ps), chunks[0];
      assert s[..|c|] == c && s[|c|..] == Concat(chunks[1..]);
      var k, f := SplitAt(ps, |c|);
      AlignedFirst(s, m, chunks);
      var left, right := CutPieces(ps, k, f, c, m);
      WholeSteady(left, m, outs[0]);
      StreamSteady(right, chunks[1..], outs[1..], m);
    }
  }

  /** The pieces before and after a cut that no mapped token lies across. */
  lemma CutPieces(ps: seq<Piece>, k: nat, f: string, c: string, m: map<string, string>)
      returns (left: seq<Piece>, right: seq<Piece>)
    requires TokenMap(m) && Steady(ps, m) && k <= |ps| && Render(ps[..k]) + f == c
    requires f != "" ==> k < |ps| && ps[k].Tok? && CutShort(f, ps[k].w)
    requires |c| <= |Render(ps)| && Render(ps)[..|c|] == c && !Straddles(Render(ps), m, |c|)
    ensures Steady(left, m) && Steady(right, m)
    ensures Render(left) == c && Render(right) == Render(ps)[|c|..]
    ensures Fill(ps, m) == Fill(left, m) + Fill(right, m)
  {
    if f == "" {
      left, right := ps[..k], ps[k..];
      assert ps == left + right;
      SteadyParts(left, right, m);
      RenderCat(left, right);
      FillCat(left, right, m);
    } else {
      var pre, t, post := ps[..k], ps[k].w, ps[k + 1..];
      assert ps == pre + ([Tok(t)] + post) == pre + [Tok(t)] + post;
      if t in m { StraddledToken(pre, t, f, post, m, ps); }
      left, right := pre + Chars(f), Chars(t[|f|..]) + post;
      SteadyCut(pre, t, f, post, m);
      CutText(pre, t, f, post, m);
    }
  }

  lemma {:induction false} CutText(pre: seq<Piece>, t: string, f: string, post: seq<Piece>, m: map<string, string>)
    requires CutShort(f, t) && t !in m
    ensures
      var ps, left, right := pre + ([Tok(t)] + post), pre + Chars(f), Chars(t[|f|..]) + post;
      && Render(left) == Render(pre) + f && Render(ps) == Render(left) + Render(right)
      && Fill(ps, m) == Fill(left, m) + Fill(right, m)
  {
    var g := t[|f|..];
    assert t == f + g;
    CharsText(f, m);
    CharsText(g, m);
    RenderCat(pre, Chars(f));
    RenderCat(Chars(g), post);
    TokenRender(pre, t, post);
    Reassociate(f, g, Render(post));
    Reassociate(Render(pre), f, g + Render(post));
    FillCat(pre, Chars(f), m);
    FillCat(Chars(g), post, m);
    FillCat(pre, [Tok(t)] + post, m);
    FillCat([Tok(t)], post, m);
    assert Fill([Tok(t)], m) == t + Fill([Tok(t)][1..], m);
    Reassociate(f, g, Fill(post, m));
    Reassociate(Fill(pre, m), f, g + Fill(post, m));
  }

  /** What no value of a built-in pattern fails to be. */
  predicate PlainValues(m: map<string, string>) {
    forall t | t in m :: m[t] != "" && m[t][0] != '<'
  }

  /** Chunk by chunk it comes out otherwise if one does. */
  lemma {:induction false} StreamDiffers(ps: seq<Piece>, chunks: seq<string>, outs: seq<string>, m: map<string, string>)
    requires "" !in m && TokenMap(m) && Steady(ps, m) && PlainValues(m)
    requires Render(ps) == Concat(chunks) && AllRewritten(m, chunks, outs) && !Aligned(Render(ps), m, chunks, 0)
    ensures Concat(outs) != Fill(ps, m)
    decreases |chunks|
  {
    var s, c := Render(ps), chunks[0];
    assert s[..|c|] == c && s[|c|..] == Concat(chunks[1..]);
    var k, f := SplitAt(ps, |c|);
    if f == "" || ps[k].w !in m {
      CutIsClear(ps, k, f, m);
      AlignedFirst(s, m, chunks);
      var left, right := CutPieces(ps, k, f, c, m);
      WholeSteady(left, m, outs[0]);
      StreamDiffers(right, chunks[1..], outs[1..], m);
      Differ(outs[0], Concat(outs[1..]), Fill(right, m));
    } else {
      var pre, t, post := ps[..k], ps[k].w, ps[k + 1..];
      assert ps == pre + ([Tok(t)] + post) == pre + [Tok(t)] + post;
      SteadyCut(pre, t, f, post, m);
      RenderCat(pre, Chars(f));
      FillCat(pre, Chars(f), m);
      CharsText(f, m);
      WholeSteady(pre + Chars(f), m, outs[0]);
      FillCat(pre, [Tok(t)] + post, m);
      FillCat([Tok(t)], post, m);
      assert Fill([Tok(t)], m) == m[t] + Fill([Tok(t)][1..], m);
      Reassociate(Fill(pre, m), f, Concat(outs[1..]));
      FirstDiffers(Fill(pre, m), f, Concat(outs[1..]), m[t], Fill(post, m));
    }
  }

  lemma Differ(a: string, b: string, c: string)
    requires b != c
    ensures a + b != a + c
  {
    if a + b == a + c { Cancel(a, b, c); }
  }

  lemma FirstDiffers(a: string, f: string, x: string, v: string, y: string)
    requires f != "" && v != "" && f[0] != v[0]
    ensures a + (f + x) != a + (v + y)
  {
    assert (f + x)[0] == f[0] && (v + y)[0] == v[0];
    Differ(a, f + x, v + y);
  }

  /** No mapped token lies across a piece boundary or inside an unmapped token. */
  lemma CutIsClear(ps: seq<Piece>, k: nat, f: string, m: map<string, string>)
    requires TokenMap(m) && Steady(ps, m) && k <= |ps|
    requires f != "" ==> k < |ps| && ps[k].Tok? && CutShort(f, ps[k].w) && ps[k].w !in m
    ensures !Straddles(Render(ps), m, |Render(ps[..k]) + f|)
  {
    PutAllNone(ps, m);
    var s, n := Render(ps), |Render(ps[..k])|;
    assert ps == ps[..k] + ps[k..];
    RenderCat(ps[..k], ps[k..]);
    CleanParts(ps[..k], ps[k..]);
    forall p | p in ps[k..] ensures p in ps {}
    forall p: nat, tok | tok in m && OccursAt(s, p, tok) ensures !(p < n + |f| < p + |tok|) {
      if p < n {
        OccurrenceInPiece(ps, p, tok, k);
      } else if p < n + |f| {
        assert s[p..] == Render(ps[k..])[p - n..];
        assert OccursAt(Render(ps[k..]), p - n, tok);
        NoOccurrenceInHead(ps[k..], p - n, tok);
      }
    }
  }

  /** In terms of the writes: the stream emits what Whole makes of everything written if no mapped token lies
      across a cut at (bytes written so far) - 64, and for plain values only then. */
  lemma StreamIsWhole(m: map<string, string>, writes: seq<string>, outs: seq<string>, whole: string)
    requires "" !in m && TokenMap(m) && Steady(Parse(Concat(writes)), m)
    requires AllRewritten(m, ChunksOf(writes, ""), outs) && Rewrites(m, Concat(writes), whole)
    ensures CutsClear(Concat(writes), m, writes, 0) ==> Concat(outs) == whole
    ensures PlainValues(m) ==> (Concat(outs) == whole <==> CutsClear(Concat(writes), m, writes, 0))
  {
    var ps := Parse(Concat(writes));
    ChunksConcat(writes, "");
    CutsOfWrites(Concat(writes), m, writes, "", 0, 0);
    WholeSteady(ps, m, whole);
    if CutsClear(Concat(writes), m, writes, 0) {
      StreamSteady(ps, ChunksOf(writes, ""), outs, m);
    } else if PlainValues(m) {
      StreamDiffers(ps, ChunksOf(writes, ""), outs, m);
    }
  }
}
