/** strings.TrimSpace, with the white space of Go's unicode.IsSpace. */
module Text {

  predicate IsSpace(c: char) {
    c in {'\t', '\n', '\U{0B}', '\U{0C}', '\r', ' ', '\U{85}', '\U{A0}', '\U{1680}', '\U{2028}', '\U{2029}',
        '\U{202F}', '\U{205F}', '\U{3000}'}
    || '\U{2000}' <= c <= '\U{200A}'
  }

  predicate Trimmed(s: string) {
    s == "" || (!IsSpace(s[0]) && !IsSpace(s[|s| - 1]))
  }

  function TrimLeft(s: string): string {
    if s != "" && IsSpace(s[0]) then TrimLeft(s[1..]) else s
  }

  function TrimRight(s: string): (t: string)
    ensures t <= s
  {
    if s != "" && IsSpace(s[|s| - 1]) then TrimRight(s[..|s| - 1]) else s
  }

  function TrimSpace(s: string): string {
    TrimRight(TrimLeft(s))
  }

  /** White space around a trimmed text is all that is removed. */
  lemma {:induction false} TrimSpaceStrips(before: string, s: string, after: string)
    requires Trimmed(s) && s != ""
    requires (forall c | c in before :: IsSpace(c)) && forall c | c in after :: IsSpace(c)
    ensures TrimSpace(before + s + after) == s
  {
    if before != "" {
      assert (before + s + after)[1..] == before[1..] + s + after;
      TrimSpaceStrips(before[1..], s, after);
    } else {
      assert before + s + after == s + after;
      TrimRightStrips(s, after);
    }
  }

  lemma {:induction false} TrimRightStrips(s: string, after: string)
    requires Trimmed(s) && s != "" && forall c | c in after :: IsSpace(c)
    ensures TrimRight(s + after) == s
  {
    if after == "" {
      assert s + after == s;
    } else {
      assert (s + after)[..|s + after| - 1] == s + after[..|after| - 1];
      TrimRightStrips(s, after[..|after| - 1]);
    }
  }
}
