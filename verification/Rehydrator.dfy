/** Rehydration (privacy/rehydrator.go): of a whole body, and of a stream cut into chunks. */
module Rehydration {
  import opened Wrappers
  import opened Tokens
  import opened Redaction

  const MAX_TOKEN_LEN := 64

  /** What one call of Whole or rewrite may return: map iteration order is unspecified. */
  ghost predicate Rewrites(m: map<string, string>, s: string, out: string)
    requires "" !in m
  {
    if |m| == 0 || !Contains(s, MARKER) then out == s
    else exists order :: IterationOrder(order, m) && RewrittenBy(m, order, s, out)
  }

  ghost predicate RewrittenBy(m: map<string, string>, order: seq<string>, s: string, out: string) {
    (forall t | t in order :: t in m && t != "") && out == RewriteIn(s, order, m)
  }

  lemma NoOccurrence(s: string, tok: string, val: string)
    requires tok != "" && !Contains(s, tok)
    ensures ReplaceAll(s, tok, val) == s
  {
    assert !(tok <= s[0..]) && s[0..] == s;
    if s != "" {
      forall p | 0 <= p <= |s| - 1 ensures !(tok <= s[1..][p..]) {
        assert s[1..][p..] == s[p + 1..];
      }
      NoOccurrence(s[1..], tok, val);
    }
  }

  lemma RewriteLast(s: string, order: seq<string>, t: string, m: map<string, string>)
    requires forall x | x in order + [t] :: x in m && x != ""
    ensures (forall x | x in order :: x in m && x != "") && t in m && t != ""
    ensures RewriteIn(s, order + [t], m) == ReplaceAll(RewriteIn(s, order, m), t, m[t])
    decreases |order|
  {
    assert t in order + [t];
    forall x | x in order ensures x in m && x != "" { assert x in order + [t]; }
    if order == [] {
      assert order + [t] == [t] && [t][1..] == [];
    } else {
      assert (order + [t])[0] == order[0] && (order + [t])[1..] == order[1..] + [t];
      RewriteLast(ReplaceAll(s, order[0], m[order[0]]), order[1..], t, m);
    }
  }

  method Whole(m: map<string, string>, s: string) returns (out: string)
    requires "" !in m
    ensures Rewrites(m, s, out)
  {
    if |m| == 0 || !Contains(s, MARKER) {
      return s;
    }
    out := s;
    var left := m.Keys;
    ghost var order: seq<string> := [];
    while left != {}
      invariant left <= m.Keys
      invariant forall t :: t in order <==> t in m && t !in left
      invariant forall i, j | 0 <= i < j < |order| :: order[i] != order[j]
      invariant RewrittenBy(m, order, s, out)
      decreases left
    {
      var tok :| tok in left;
      left := left - {tok};
      RewriteLast(s, order, tok, m);
      order := order + [tok];
      if !Contains(out, tok) {
        NoOccurrence(out, tok, m[tok]);
        continue;
      }
      out := ReplaceAll(out, tok, m[tok]);
    }
  }

  lemma OrderExists(m: map<string, string>) returns (order: seq<string>)
    ensures IterationOrder(order, m)
  {
    order := [];
    var left := m.Keys;
    while left != {}
      invariant left <= m.Keys
      invariant forall t :: t in order <==> t in m && t !in left
      invariant forall i, j | 0 <= i < j < |order| :: order[i] != order[j]
      decreases left
    {
      var t :| t in left;
      left, order := left - {t}, order + [t];
    }
  }

  lemma TokenHasMarker(s: string, t: string)
    requires IsToken(t)
    ensures Contains(s, t) ==> Contains(s, MARKER)
  {
    if Contains(s, t) {
      var p :| 0 <= p <= |s| && t <= s[p..];
      assert MARKER <= s[p..];
    }
  }

  lemma NoMarkerNoToken(s: string, order: seq<string>, m: map<string, string>)
    requires MarkerFree(s) && forall t | t in order :: t in m && t != "" && IsToken(t)
    ensures RewriteIn(s, order, m) == s
  {
    if order != [] {
      var t := order[0];
      TokenHasMarker(s, t);
      NoOccurrence(s, t, m[t]);
      forall x | x in order[1..] ensures x in order {}
      NoMarkerNoToken(s, order[1..], m);
    }
  }

  /** Whole gives back the original of everything a mapping restores. */
  lemma WholeRestores(m: map<string, string>, s: string, out: string, orig: string)
    requires "" !in m && Rewrites(m, s, out) && Restores(s, m, orig)
    ensures out == orig
  {
    if |m| == 0 {
      assert IterationOrder([], m);
      assert RewriteIn(s, [], m) == s;
    } else if !Contains(s, MARKER) {
      var order := OrderExists(m);
      assert RewriteIn(s, order, m) == orig;
      NoMarkerNoToken(s, order, m);
    }
  }

  // ---- the stream ------------------------------------------------------------------------------

  lemma ConcatLast(ss: seq<string>, s: string)
    ensures Concat(ss + [s]) == Concat(ss) + s
  {
    if ss == [] {
      assert [] + [s] == [s];
      assert Concat([s]) == s + Concat([]);
    } else {
      assert (ss + [s])[1..] == ss[1..] + [s];
      ConcatLast(ss[1..], s);
    }
  }

  ghost predicate AllRewritten(m: map<string, string>, chunks: seq<string>, outs: seq<string>)
    requires "" !in m
  {
    |chunks| == |outs| && forall i | 0 <= i < |chunks| :: Rewrites(m, chunks[i], outs[i])
  }

  /** What a full buffer lets go, and the tail it holds back. */
  function Released(b: string): string
    requires |b| > MAX_TOKEN_LEN
  {
    b[..|b| - MAX_TOKEN_LEN]
  }

  function Held(b: string): string
    requires |b| > MAX_TOKEN_LEN
  {
    b[|b| - MAX_TOKEN_LEN..]
  }

  /** `out` collects what `emit` accepted. `input` is everything written, `chunks` how it was cut, `outs`
      what was emitted for each chunk; `sound` says that no emit has failed so far. */
  class StreamWriter {
    const mapping: map<string, string>
    var buf: string
    var out: string
    ghost var input: string
    ghost var chunks: seq<string>
    ghost var outs: seq<string>
    ghost var sound: bool

    ghost predicate Valid()
      reads this
    {
      Partitioned() && (sound ==> |buf| == if |input| < 64 then |input| else 64)
    }

    ghost predicate Partitioned()
      reads this
    {
      && "" !in mapping
      && AllRewritten(mapping, chunks, outs)
      && out == Concat(outs)
      && (sound ==> input == Concat(chunks) + buf)
    }

    constructor (mapping: map<string, string>)
      requires "" !in mapping
      ensures Valid() && sound && this.mapping == mapping && input == "" && buf == "" && chunks == [] && outs == []
    {
      this.mapping, buf, out := mapping, "", "";
      input, chunks, outs, sound := "", [], [], true;
    }

    method Rewrite(p: string) returns (r: string)
      requires "" !in mapping
      ensures Rewrites(mapping, p, r)
    {
      r := Whole(mapping, p);
    }

    /** A failing emit leaves the chunk in the buffer, and `p` too, although 0 is returned for it. */
    method Write(p: string, emitOk: bool) returns (n: nat, ok: bool)
      requires Valid()
      modifies this
      ensures Valid() && input == old(input) + p
      ensures ok == (|old(buf) + p| <= MAX_TOKEN_LEN || emitOk) && n == (if ok then |p| else 0)
      ensures sound == (old(sound) && ok)
      ensures |old(buf) + p| <= MAX_TOKEN_LEN || !ok
              ==> buf == old(buf) + p && chunks == old(chunks) && outs == old(outs)
      ensures |old(buf) + p| > MAX_TOKEN_LEN && ok ==>
                buf == Held(old(buf) + p) && chunks == old(chunks) + [Released(old(buf) + p)]
    {
      n, ok := |p|, true;
      Reassociate(Concat(chunks), buf, p);
      buf := buf + p;
      input := input + p;
      if |buf| <= MAX_TOKEN_LEN {
        return;
      }
      ok := Drain(emitOk);
      if !ok {
        n := 0;
      }
    }

    /** Write past 64 bytes: all but the last 64 go out. */
    method Drain(emitOk: bool) returns (ok: bool)
      requires Partitioned() && |buf| > MAX_TOKEN_LEN
      modifies this
      ensures Partitioned() && input == old(input) && ok == emitOk && sound == (old(sound) && ok)
      ensures !ok ==> buf == old(buf) && chunks == old(chunks) && outs == old(outs)
      ensures ok ==> buf == Held(old(buf)) && chunks == old(chunks) + [Released(old(buf))]
    {
      var chunk := Released(buf);
      var rewritten := Rewrite(chunk);
      if !emitOk {
        sound := false;
        return false;
      }
      ConcatLast(chunks, chunk);
      ConcatLast(outs, rewritten);
      Reassociate(Concat(chunks), chunk, Held(buf));
      assert buf == chunk + Held(buf);
      out := out + rewritten;
      chunks, outs := chunks + [chunk], outs + [rewritten];
      buf := Held(buf);
      return true;
    }

    /** The buffer is reset before the emit: if that fails its contents are gone. */
    method Flush(emitOk: bool) returns (ok: bool)
      requires Valid()
      modifies this
      ensures "" !in mapping && AllRewritten(mapping, chunks, outs) && out == Concat(outs)
      ensures buf == "" && input == old(input) && ok == (old(buf) == "" || emitOk)
      ensures chunks == if old(buf) == "" || !ok then old(chunks) else old(chunks) + [old(buf)]
      ensures old(sound) && ok ==> Concat(chunks) == input
    {
      ok := true;
      if |buf| == 0 {
        return;
      }
      var rewritten := Rewrite(buf);
      ghost var tail := buf;
      buf := "";
      if !emitOk {
        return false;
      }
      out := out + rewritten;
      ConcatLast(chunks, tail);
      ConcatLast(outs, rewritten);
      chunks, outs := chunks + [tail], outs + [rewritten];
    }
  }

  // ---- when chunk by chunk is as good as whole -------------------------------------------------

  /** The text redacts some marker-free text: every token in it is mapped, and filling them all in
      leaves no marker. */
  ghost predicate Redacts(ps: seq<Piece>, m: map<string, string>) {
    && "" !in m && TokenMap(m)
    && (forall p | p in ps :: p.Tok? ==> p.w in m)
    && MarkerFree(Fill(ps, m))
  }

  /** A mapped token lies across the cut. */
  ghost predicate Straddles(s: string, m: map<string, string>, cut: int) {
    exists p: nat, tok | tok in m :: p < cut < p + |tok| && OccursAt(s, p, tok)
  }

  predicate OccursAt(s: string, p: nat, tok: string) {
    p <= |s| && tok <= s[p..]
  }

  /** No mapped token lies across a cut between the chunks, which begin at offset `at` of `s`. */
  ghost predicate Aligned(s: string, m: map<string, string>, chunks: seq<string>, at: nat) {
    chunks == [] || (!Straddles(s, m, at + |chunks[0]|) && Aligned(s, m, chunks[1..], at + |chunks[0]|))
  }

  lemma RedactsClean(ps: seq<Piece>, m: map<string, string>)
    requires Redacts(ps, m)
    ensures AllTokens(ps) && Clean(ps)
  {
    var t := MARKER + ">>";
    assert t[|t| - 2..] == ">>";
    FillMarkerFreeIsClean(ps, "", t, m);
    assert ps + Chars("") == ps;
  }

  lemma RedactsParts(a: seq<Piece>, b: seq<Piece>, m: map<string, string>)
    requires Redacts(a + b, m)
    ensures Redacts(a, m) && Redacts(b, m)
  {
    FillCat(a, b, m);
    SuffixMarkerFree(Fill(a, m), Fill(b, m));
    forall p | p in a || p in b ensures p in a + b {}
  }

  lemma NoOccurrenceInHead(ps: seq<Piece>, p: nat, tok: string)
    requires AllTokens(ps) && Clean(ps) && IsToken(tok) && ps != []
    ensures ps[0].Ch? && p == 0 ==> !OccursAt(Render(ps), p, tok)
    ensures ps[0].Tok? && 0 < p < |ps[0].w| ==> !OccursAt(Render(ps), p, tok)
    ensures ps[0].Tok? && p == 0 && OccursAt(Render(ps), p, tok) ==> tok == ps[0].w
  {
    var s := Render(ps);
    assert ps[0] in ps && s[0..] == s;
    if ps[0].Tok? {
      var w := ps[0].w;
      if 0 < p < |w| {
        NothingInside(w, p, Render(ps[1..]));
        assert s[p..] == w[p..] + Render(ps[1..]);
      } else if OccursAt(s, 0, tok) {
        PrefixFree(tok, w, s);
      }
    }
  }

  /** A token occurs only where a piece stands for it, so it never reaches over a piece boundary. */
  lemma {:induction false} OccurrenceInPiece(ps: seq<Piece>, p: nat, tok: string, k: nat)
    requires AllTokens(ps) && Clean(ps) && IsToken(tok) && k <= |ps|
    requires OccursAt(Render(ps), p, tok) && p < |Render(ps[..k])|
    ensures p + |tok| <= |Render(ps[..k])|
  {
    HeadOfRender(ps, k);
    NoOccurrenceInHead(ps, p, tok);
    if p > 0 {
      var n := |Text(ps[0])|;
      assert Render(ps)[p..] == Render(ps[1..])[p - n..];
      OccurrenceInPiece(ps[1..], p - n, tok, k - 1);
    }
  }

  function Text(p: Piece): string {
    match p case Ch(c) => [c] case Tok(w) => w
  }

  lemma {:induction false} HeadOfRender(ps: seq<Piece>, k: nat)
    requires k <= |ps| && ps != []
    ensures Render(ps) == Text(ps[0]) + Render(ps[1..])
    ensures k == 0 ==> Render(ps[..k]) == ""
    ensures k > 0 ==> Render(ps[..k]) == Text(ps[0]) + Render(ps[1..][..k - 1])
  {
    if k > 0 { assert ps[..k][0] == ps[0] && ps[..k][1..] == ps[1..][..k - 1]; }
  }

  /** Where a cut falls: at a piece boundary, or inside a token. */
  lemma {:induction false} SplitAt(ps: seq<Piece>, n: nat) returns (k: nat, f: string)
    requires AllTokens(ps) && n <= |Render(ps)|
    ensures k <= |ps| && Render(ps[..k]) + f == Render(ps)[..n]
    ensures f != "" ==> k < |ps| && ps[k].Tok? && CutShort(f, ps[k].w)
  {
    if n == 0 || ps == [] {
      k, f := 0, "";
    } else {
      var first := match ps[0] case Ch(c) => [c] case Tok(w) => w;
      var s := Render(ps);
      assert s == first + Render(ps[1..]) && ps[0] in ps;
      if n < |first| {
        k, f := 0, first[..n];
      } else {
        forall x | x in ps[1..] ensures x in ps {}
        k, f := SplitAt(ps[1..], n - |first|);
        SliceAfter(first, Render(ps[1..]), n);
        assert ps[..k + 1][0] == ps[0] && ps[..k + 1][1..] == ps[1..][..k];
        assert Render(ps[..k + 1]) == first + Render(ps[1..][..k]);
        Reassociate(first, Render(ps[1..][..k]), f);
        k := k + 1;
      }
    }
  }

  lemma SliceAfter(a: string, b: string, n: nat)
    requires |a| <= n <= |a| + |b|
    ensures (a + b)[..n] == a + b[..n - |a|]
  {
  }

  /** One chunk: whole pieces, then a token cut short. Only the whole pieces are filled. */
  lemma ChunkRewritten(pre: seq<Piece>, f: string, t: string, m: map<string, string>, out: string)
    requires Redacts(pre, m) && CutShort(f, t)
    requires Rewrites(m, Render(pre) + f, out)
    ensures out == Fill(pre, m) + f
  {
    var c := Render(pre) + f;
    if |m| == 0 || !Contains(c, MARKER) {
      forall p | p in pre ensures p.Ch? {
        if p.Tok? {
          MarkerOfToken(pre, f, p);
        }
      }
      NoTokens(pre, m);
    } else {
      var order :| IterationOrder(order, m) && RewrittenBy(m, order, c, out);
      RewriteFills(pre, f, t, order, m);
    }
  }

  lemma MarkerOfToken(ps: seq<Piece>, f: string, p: Piece)
    requires p in ps && p.Tok? && IsToken(p.w)
    ensures Contains(Render(ps) + f, MARKER)
  {
    var i :| 0 <= i < |ps| && ps[i] == p;
    assert ps == ps[..i] + ([p] + ps[i + 1..]);
    RenderCat(ps[..i], [p] + ps[i + 1..]);
    RenderCat([p], ps[i + 1..]);
    assert Render([p]) == p.w + Render([p][1..]);
    var a, b := Render(ps[..i]), Render(ps[i + 1..]);
    assert MARKER <= p.w[0..];
    Reassociate(a, p.w, b);
    Reassociate(a + p.w, b, f);
    ContainsIn(a, p.w, b + f);
  }

  lemma {:induction false} AlignedShift(s: string, n: nat, m: map<string, string>, chunks: seq<string>, at: nat)
    requires n <= |s| && !Straddles(s, m, n)
    ensures Aligned(s, m, chunks, n + at) <==> Aligned(s[n..], m, chunks, at)
  {
    if chunks != [] {
      var cut := at + |chunks[0]|;
      AlignedShift(s, n, m, chunks[1..], cut);
      if Straddles(s, m, n + cut) {
        var p: nat, tok :| tok in m && p < n + cut < p + |tok| && OccursAt(s, p, tok);
        assert !(p < n < p + |tok|);
        assert s[p..] == s[n..][p - n..];
        assert OccursAt(s[n..], p - n, tok);
      }
      if Straddles(s[n..], m, cut) {
        var p: nat, tok :| tok in m && p < cut < p + |tok| && OccursAt(s[n..], p, tok);
        assert s[n..][p..] == s[n + p..];
        assert OccursAt(s, n + p, tok);
      }
    }
  }

  lemma ContainsIn(a: string, w: string, b: string)
    requires Contains(w, MARKER)
    ensures Contains(a + w + b, MARKER)
  {
    var p :| 0 <= p <= |w| && MARKER <= w[p..];
    assert (a + w + b)[|a| + p..] == w[p..] + b;
  }

  lemma RenderEmpty(ps: seq<Piece>)
    requires AllTokens(ps)
    ensures Render(ps) == "" <==> ps == []
  {
    if ps != [] { assert ps[0] in ps; }
  }

  lemma Cancel(a: string, b: string, c: string)
    requires a + b == a + c
    ensures b == c
  {
    assert b == (a + b)[|a|..] && c == (a + c)[|a|..];
  }

  /** Chunk by chunk, the output is the filled text if no mapped token lies across a cut; otherwise a
      marker is left in it. */
  lemma {:induction false} StreamOutput(ps: seq<Piece>, chunks: seq<string>, outs: seq<string>, m: map<string, string>)
    requires Redacts(ps, m) && Render(ps) == Concat(chunks) && AllRewritten(m, chunks, outs)
    ensures Aligned(Render(ps), m, chunks, 0) ==> Concat(outs) == Fill(ps, m)
    ensures !Aligned(Render(ps), m, chunks, 0) ==> Contains(Concat(outs), MARKER)
    decreases |chunks|
  {
    RedactsClean(ps, m);
    if chunks == [] {
      RenderEmpty(ps);
    } else {
      var s, c := Render(ps), chunks[0];
      assert s[..|c|] == c && s[|c|..] == Concat(chunks[1..]);
      var k, f := SplitAt(ps, |c|);
      var pre := ps[..k];
      assert ps == pre + ps[k..];
      RedactsParts(pre, ps[k..], m);
      RenderCat(pre, ps[k..]);
      FillCat(pre, ps[k..], m);
      if f == "" {
        BoundaryStep(ps, k, chunks, outs, m);
      } else {
        InsideStep(ps, k, f, chunks, outs, m);
      }
    }
  }

  lemma {:induction false} BoundaryStep(ps: seq<Piece>, k: nat, chunks: seq<string>, outs: seq<string>,
                                        m: map<string, string>)
    requires Redacts(ps, m) && Render(ps) == Concat(chunks) && AllRewritten(m, chunks, outs)
    requires chunks != [] && k <= |ps| && Render(ps[..k]) == chunks[0]
    ensures Aligned(Render(ps), m, chunks, 0) ==> Concat(outs) == Fill(ps, m)
    ensures !Aligned(Render(ps), m, chunks, 0) ==> Contains(Concat(outs), MARKER)
    decreases |chunks|, 0
  {
    var s, c, pre, right := Render(ps), chunks[0], ps[..k], ps[k..];
    assert ps == pre + right;
    RedactsParts(pre, right, m);
    RenderCat(pre, right);
    FillCat(pre, right, m);
    assert s[|c|..] == Render(right) && Render(right) == Concat(chunks[1..]);
    EmptyCut();
    assert Render(pre) + "" == c;
    ChunkRewritten(pre, "", MARKER + ">>", m, outs[0]);
    assert outs[0] == Fill(pre, m) && Concat(outs) == outs[0] + Concat(outs[1..]);
    StreamOutput(right, chunks[1..], outs[1..], m);
    BoundaryClear(ps, k, m);
    AlignedFirst(s, m, chunks);
    MarkerInTail(outs);
  }

  /** After a clear first cut, what is left decides. */
  lemma AlignedFirst(s: string, m: map<string, string>, chunks: seq<string>)
    requires chunks != [] && |chunks[0]| <= |s| && !Straddles(s, m, |chunks[0]|)
    ensures Aligned(s, m, chunks, 0) <==> Aligned(s[|chunks[0]|..], m, chunks[1..], 0)
  {
    AlignedShift(s, |chunks[0]|, m, chunks[1..], 0);
  }

  lemma BoundaryClear(ps: seq<Piece>, k: nat, m: map<string, string>)
    requires Redacts(ps, m) && k <= |ps|
    ensures !Straddles(Render(ps), m, |Render(ps[..k])|)
  {
    RedactsClean(ps, m);
    var cut := |Render(ps[..k])|;
    forall p: nat, tok | tok in m && OccursAt(Render(ps), p, tok) ensures !(p < cut < p + |tok|) {
      if p < cut { OccurrenceInPiece(ps, p, tok, k); }
    }
  }

  lemma MarkerInTail(outs: seq<string>)
    requires outs != []
    ensures Contains(Concat(outs[1..]), MARKER) ==> Contains(Concat(outs), MARKER)
  {
    if Contains(Concat(outs[1..]), MARKER) {
      ContainsIn(outs[0], Concat(outs[1..]), "");
      assert outs[0] + Concat(outs[1..]) + "" == Concat(outs);
    }
  }

  lemma EmptyCut()
    ensures CutShort("", MARKER + ">>")
  {
    var t := MARKER + ">>";
    assert t[|t| - 2..] == ">>";
  }

  /** A chunk that ends inside a token: what is left of the token is literal text for the next one. */
  lemma {:induction false} InsideStep(ps: seq<Piece>, k: nat, f: string, chunks: seq<string>, outs: seq<string>,
                                      m: map<string, string>)
    requires Redacts(ps, m) && Render(ps) == Concat(chunks) && AllRewritten(m, chunks, outs)
    requires chunks != [] && k < |ps| && Render(ps[..k]) + f == chunks[0]
    requires f != "" && ps[k].Tok? && CutShort(f, ps[k].w)
    ensures !Aligned(Render(ps), m, chunks, 0) && Contains(Concat(outs), MARKER)
    decreases |chunks|, 0
  {
    var pre, w, post := ps[..k], ps[k].w, ps[k + 1..];
    var right := Chars(w[|f|..]) + post;
    RestOfToken(pre, w, f, post, m, ps);
    StraddledToken(pre, w, f, post, m, ps);
    ChunkRewritten(pre, f, w, m, outs[0]);
    Cancel(chunks[0], Render(right), Concat(chunks[1..]));
    StreamOutput(right, chunks[1..], outs[1..], m);
    if Aligned(Render(right), m, chunks[1..], 0) {
      assert Concat(outs) == (Fill(pre, m) + f) + (w[|f|..] + Fill(post, m));
      TokenPutBack(Fill(pre, m), w, f, Fill(post, m));
    } else {
      MarkerInTail(outs);
    }
  }

  lemma TokenPutBack(a: string, w: string, f: string, b: string)
    requires CutShort(f, w)
    ensures Contains((a + f) + (w[|f|..] + b), MARKER)
  {
    assert w == f + w[|f|..] && w[0..] == w;
    Reassociate(a, f, w[|f|..] + b);
    Reassociate(f, w[|f|..], b);
    Reassociate(a, w, b);
    ContainsIn(a, w, b);
  }

  lemma RestOfToken(pre: seq<Piece>, w: string, f: string, post: seq<Piece>, m: map<string, string>, ps: seq<Piece>)
    requires ps == pre + ([Tok(w)] + post) && Redacts(ps, m) && CutShort(f, w) && f != ""
    ensures
      var right := Chars(w[|f|..]) + post;
      && Redacts(pre, m) && Redacts(right, m)
      && Render(ps) == (Render(pre) + f) + Render(right)
      && Fill(right, m) == w[|f|..] + Fill(post, m)
  {
    var g := w[|f|..];
    RedactsParts(pre, [Tok(w)] + post, m);
    RedactsParts([Tok(w)], post, m);
    FillCat(Chars(g), post, m);
    CharsText(g, m);
    TailLeavesNoMarker(w, |f|, Fill(post, m));
    RestOfText(pre, w, f, post);
  }

  lemma RestOfText(pre: seq<Piece>, w: string, f: string, post: seq<Piece>)
    requires CutShort(f, w)
    ensures Render(pre + ([Tok(w)] + post)) == (Render(pre) + f) + Render(Chars(w[|f|..]) + post)
  {
    var g := w[|f|..];
    TokenRender(pre, w, post);
    RenderCat(Chars(g), post);
    CharsText(g, map[]);
    assert w == f + g;
    Reassociate(f, g, Render(post));
    Reassociate(Render(pre), f, g + Render(post));
  }

  lemma TokenRender(pre: seq<Piece>, w: string, post: seq<Piece>)
    ensures Render(pre + ([Tok(w)] + post)) == Render(pre) + (w + Render(post))
  {
    RenderCat(pre, [Tok(w)] + post);
    RenderCat([Tok(w)], post);
    assert Render([Tok(w)]) == w + Render([Tok(w)][1..]);
  }

  lemma StraddledToken(pre: seq<Piece>, w: string, f: string, post: seq<Piece>, m: map<string, string>, ps: seq<Piece>)
    requires ps == pre + ([Tok(w)] + post) && w in m && CutShort(f, w) && f != ""
    ensures Straddles(Render(ps), m, |Render(pre) + f|)
  {
    TokenRender(pre, w, post);
    assert Render(ps)[|Render(pre)|..] == w + Render(post);
    assert OccursAt(Render(ps), |Render(pre)|, w);
  }

  lemma TailLeavesNoMarker(w: string, i: nat, rest: string)
    requires IsToken(w) && 0 < i <= |w| && MarkerFree(rest)
    ensures MarkerFree(w[i..] + rest)
  {
    var s := w[i..] + rest;
    forall p | 0 <= p <= |s| ensures !(MARKER <= s[p..]) {
      if p >= |w| - i {
        assert s[p..] == rest[p - (|w| - i)..];
      } else {
        NoMarkerInside(w, i + p, rest);
        assert s[p..] == w[i + p..] + rest;
      }
    }
  }

  lemma NoMarkerInside(w: string, i: nat, rest: string)
    requires IsToken(w) && 0 < i < |w|
    ensures !(MARKER <= w[i..] + rest)
  {
    var s := w[i..] + rest;
    assert s[0] == w[i] && w[2] == 'p' && (i == 1 ==> s[1] == w[2]);
    if i > 1 { TokenBrackets(w, i); }
  }

  // ---- in terms of the writes ------------------------------------------------------------------

  /** How the writer cuts a list of writes, the buffer holding `buf` to begin with. */
  function ChunksOf(writes: seq<string>, buf: string): seq<string> {
    if writes == [] then (if buf == "" then [] else [buf])
    else
      var b := buf + writes[0];
      if |b| <= MAX_TOKEN_LEN then ChunksOf(writes[1..], b)
      else [Released(b)] + ChunksOf(writes[1..], Held(b))
  }

  /** No mapped token of `s` lies across a cut at (bytes written so far) - 64. */
  ghost predicate CutsClear(s: string, m: map<string, string>, writes: seq<string>, total: nat) {
    writes == []
    || ((total + |writes[0]| > MAX_TOKEN_LEN ==> !Straddles(s, m, total + |writes[0]| - MAX_TOKEN_LEN))
        && CutsClear(s, m, writes[1..], total + |writes[0]|))
  }

  lemma {:induction false} ChunksConcat(writes: seq<string>, buf: string)
    ensures Concat(ChunksOf(writes, buf)) == buf + Concat(writes)
    decreases |writes|
  {
    if writes == [] {
      if buf != "" { assert [buf][1..] == []; }
    } else {
      var b := buf + writes[0];
      Reassociate(buf, writes[0], Concat(writes[1..]));
      if |b| <= MAX_TOKEN_LEN {
        ChunksConcat(writes[1..], b);
      } else {
        ChunksConcat(writes[1..], Held(b));
        Reassociate(Released(b), Held(b), Concat(writes[1..]));
        assert b == Released(b) + Held(b);
        assert ChunksOf(writes, buf)[1..] == ChunksOf(writes[1..], Held(b));
      }
    }
  }

  lemma {:induction false} CutsOfWrites(s: string, m: map<string, string>, writes: seq<string>, buf: string, at: nat,
                                        total: nat)
    requires total == at + |buf| && (if total < MAX_TOKEN_LEN then at == 0 else |buf| == MAX_TOKEN_LEN)
    requires |s| == total + |Concat(writes)| && !Straddles(s, m, at)
    ensures Aligned(s, m, ChunksOf(writes, buf), at) <==> CutsClear(s, m, writes, total)
    decreases |writes|
  {
    if writes == [] {
      assert !Straddles(s, m, |s|);
      assert buf != "" ==> ChunksOf(writes, buf)[1..] == [];
    } else {
      var b := buf + writes[0];
      var total' := total + |writes[0]|;
      if |b| <= MAX_TOKEN_LEN {
        CutsOfWrites(s, m, writes[1..], b, at, total');
      } else {
        var later := ChunksOf(writes[1..], Held(b));
        assert ChunksOf(writes, buf)[1..] == later && at + |Released(b)| == total' - MAX_TOKEN_LEN;
        if !Straddles(s, m, total' - MAX_TOKEN_LEN) {
          CutsOfWrites(s, m, writes[1..], Held(b), at + |Released(b)|, total');
        }
      }
    }
  }

  /** A whole streamed response. For a text that redacts a marker-free one the output is what Whole makes
      of it exactly when no mapped token lies across a cut at (bytes written so far) - 64. */
  method RewriteStream(m: map<string, string>, writes: seq<string>, ghost ps: seq<Piece>) returns (out: string)
    requires "" !in m
    ensures exists outs :: AllRewritten(m, ChunksOf(writes, ""), outs) && out == Concat(outs)
    ensures m == map[] ==> out == Concat(writes)
    ensures Redacts(ps, m) && Render(ps) == Concat(writes) ==>
              (out == Fill(ps, m) <==> CutsClear(Concat(writes), m, writes, 0))
  {
    var w := new StreamWriter(m);
    assert writes[0..] == writes;
    for i := 0 to |writes|
      invariant w.Valid() && fresh(w) && w.mapping == m && w.sound
      invariant w.chunks + ChunksOf(writes[i..], w.buf) == ChunksOf(writes, "")
    {
      ghost var rest, before, buf := writes[i..], w.chunks, w.buf;
      assert rest[0] == writes[i] && rest[1..] == writes[i + 1..];
      var n, ok := w.Write(writes[i], true);
      if |buf + writes[i]| > MAX_TOKEN_LEN {
        Reassociate(before, [Released(buf + writes[i])], ChunksOf(writes[i + 1..], w.buf));
      }
    }
    var ok := w.Flush(true);
    out := w.out;
    ghost var chunks, outs := w.chunks, w.outs;
    assert chunks == ChunksOf(writes, "");
    ChunksConcat(writes, "");
    if m == map[] {
      SameChunks(chunks, outs);
    }
    if Redacts(ps, m) && Render(ps) == Concat(writes) {
      assert Concat(chunks) == Concat(writes);
      StreamOutput(ps, chunks, outs, m);
      CutsOfWrites(Concat(writes), m, writes, "", 0, 0);
    }
  }

  /** The look-ahead does not protect tokens: a token followed by 63 more bytes, arriving in one write,
      is cut before its last byte. */
  lemma {:induction false} TokenIsCut(m: map<string, string>, w: string, pad: string)
    requires "" !in m && TokenMap(m) && w in m && |pad| == 63 && MarkerFree(m[w] + pad)
    ensures Redacts([Tok(w)] + Chars(pad), m) && Render([Tok(w)] + Chars(pad)) == w + pad
    ensures !CutsClear(w + pad, m, [w + pad], 0)
  {
    var ps := [Tok(w)] + Chars(pad);
    CharsText(pad, m);
    assert ps[1..] == Chars(pad);
    assert Concat([w + pad]) == w + pad + Concat([w + pad][1..]);
    assert OccursAt(w + pad, 0, w) by { assert (w + pad)[0..] == w + pad; }
    assert Straddles(w + pad, m, |w| - 1);
  }

  lemma SameChunks(chunks: seq<string>, outs: seq<string>)
    requires AllRewritten(map[], chunks, outs)
    ensures chunks == outs
  {
    forall i | 0 <= i < |chunks| ensures chunks[i] == outs[i] {
      assert Rewrites(map[], chunks[i], outs[i]);
    }
  }
}
