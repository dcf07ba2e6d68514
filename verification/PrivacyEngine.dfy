/** The facade over redactor and vault (privacy/engine.go, privacy/vault.go). */
module PrivacyEngine {
  import opened Wrappers
  import opened Tokens
  import opened Redaction
  import opened Rehydration
  import opened SteadyTexts

  /** A message's JSON content, decoded: a string, the `text` fields of a list of parts ("" where a part
      has none), or anything else. */
  datatype Content = Absent | Text(s: string) | Parts(texts: seq<string>) | Other

  function ExtractText(c: Content): Option<string> {
    match c
    case Text(s) => Some(s)
    case Parts(texts) => if Concat(texts) == "" then None else Some(Concat(texts))
    case _ => None
  }

  class MemoryVault {
    var entries: map<string, map<string, string>>

    constructor ()
      ensures entries == map[]
    {
      entries := map[];
    }

    method Put(id: string, m: map<string, string>)
      modifies this
      ensures entries == old(entries)[id := m]
    {
      entries := entries[id := m];
    }

    method Get(id: string) returns (m: Option<map<string, string>>)
      ensures m == if id in entries then Some(entries[id]) else None
    {
      m := if id in entries then Some(entries[id]) else None;
    }

    method Delete(id: string)
      modifies this
      ensures entries == old(entries) - {id}
    {
      entries := entries - {id};
    }
  }

  /** The kept spans of all messages, one after the other. */
  function KeptAll(found: seq<seq<Span>>): seq<Span> {
    if found == [] then [] else KeptAll(found[..|found| - 1]) + Kept(found[|found| - 1], 0)
  }

  lemma {:induction false} KeptInAll(found: seq<seq<Span>>, i: nat, s: Span)
    requires i < |found| && s in Kept(found[i], 0)
    ensures s in KeptAll(found)
  {
    if i < |found| - 1 { KeptInAll(found[..|found| - 1], i, s); }
  }

  /** The merged mapping holds exactly the tokens of these spans. */
  ghost predicate Merges(merged: map<string, string>, kept: seq<Span>) {
    && (forall t | t in merged :: exists s :: s in kept && s.token == t && s.value == merged[t])
    && (forall s | s in kept :: s.token in merged)
  }

  lemma MergesAdd(m: map<string, string>, kept: seq<Span>, s: Span)
    requires Merges(m, kept)
    ensures Merges(m[s.token := s.value], kept + [s])
  {
    var m', all := m[s.token := s.value], kept + [s];
    assert s in all;
    forall t | t in m' ensures exists r :: r in all && r.token == t && r.value == m'[t] {
      if t != s.token {
        var r :| r in kept && r.token == t && r.value == m[t];
        assert r in all;
      }
    }
  }

  lemma {:induction false} RecordedMerges(ks: seq<Span>, m: map<string, string>, kept: seq<Span>)
    requires Merges(m, kept)
    ensures Merges(Recorded(ks, m), kept + ks)
    decreases |ks|
  {
    if ks == [] {
      assert kept + ks == kept;
    } else {
      MergesAdd(m, kept, ks[0]);
      RecordedMerges(ks[1..], m[ks[0].token := ks[0].value], kept + [ks[0]]);
      assert kept + ks == kept + [ks[0]] + ks[1..];
    }
  }

  lemma {:induction false} MergeOne(merged: map<string, string>, kept: seq<Span>, ks: seq<Span>)
    requires Merges(merged, kept)
    ensures Merges(merged + Recorded(ks, map[]), kept + ks)
    ensures |Recorded(ks, map[])| == 0 <==> ks == []
  {
    var r := Recorded(ks, map[]);
    RecordedMerges(ks, map[], []);
    assert [] + ks == ks;
    assert ks != [] ==> ks[0] in ks && ks[0].token in r;
    forall t | t in merged + r ensures exists s :: s in kept + ks && s.token == t && s.value == (merged + r)[t] {
      if t in r {
        var s :| s in ks && s.token == t && s.value == r[t];
        assert s in kept + ks;
      } else {
        var s :| s in kept && s.token == t && s.value == merged[t];
        assert s in kept + ks;
      }
    }
  }

  /** Under the merged mapping each message is restored, whatever the other messages added to it. */
  lemma {:induction false} MergedRestores(digest: string -> string, cats: set<string>, kept: seq<Span>,
                                          merged: map<string, string>, text: string, spans: seq<Span>)
    requires ShortHash(digest) && Separate(cats) && MintedSpans(digest, cats, kept) && NoCollision(digest, kept)
             && Merges(merged, kept)
    requires SpansIn(text, spans) && MarkerFree(text)
    requires forall s | s in Kept(spans, 0) :: s in kept
    ensures Restores(RedactedText(text, spans, 0), merged, text)
  {
    NoCollisionNoClash(digest, cats, kept);
    forall t | t in merged ensures IsToken(t) {
      var s :| s in kept && s.token == t && s.value == merged[t];
    }
    forall s | s in Kept(spans, 0) ensures s.token in merged && merged[s.token] == s.value {
      var r :| r in kept && r.token == s.token && r.value == merged[s.token];
    }
    RedactedTextRenders(text, spans, 0);
    RoundTrip(text, spans, merged);
  }

  /** What RedactRequest leaves of one message. */
  function RedactedContent(c: Content, spans: seq<Span>): Content
    requires SpansOfContent(c, spans)
  {
    if Kept(spans, 0) == [] then c else Text(RedactedText(ExtractText(c).value, spans, 0))
  }

  /** A message made of parts becomes one string exactly when some rule matches in its texts joined together: the first
      match is always kept. */
  lemma ContentChangesIff(c: Content, rules: seq<Rule>, found: seq<Span>, spans: seq<Span>, memo: map<string, string>)
    requires c.Parts? && ExtractText(c).Some? && forall r | r in rules :: FindsInBounds(r)
    requires SpansOf(found, Matches(rules, ExtractText(c).value), ExtractText(c).value, memo)
    requires multiset(spans) == multiset(found)
    ensures SpansOfContent(c, spans)
    ensures RedactedContent(c, spans) != c <==> Matches(rules, Concat(c.texts)) != []
  {
    FoundSpans(digest => "", rules, found, Concat(c.texts), memo, spans);
    assert |spans| == |multiset(spans)| == |multiset(found)| == |found|;
    if spans != [] { assert Kept(spans, 0) == [spans[0]] + Kept(spans[1..], spans[0].end); }
  }

  predicate SpansOfContent(c: Content, spans: seq<Span>) {
    match ExtractText(c) case Some(text) => SpansIn(text, spans) case None => spans == []
  }

  /** The first |found| messages are redacted, the others untouched. */
  ghost predicate RedactedSoFar(before: seq<Content>, found: seq<seq<Span>>, now: seq<Content>) {
    && |found| <= |before| == |now|
    && (forall i | 0 <= i < |found| ::
          SpansOfContent(before[i], found[i]) && now[i] == RedactedContent(before[i], found[i]))
    && (forall i | |found| <= i < |now| :: now[i] == before[i])
  }

  ghost predicate TextsMarkerFree(texts: seq<Content>) {
    forall i | 0 <= i < |texts| :: ExtractText(texts[i]).Some? ==> MarkerFree(ExtractText(texts[i]).value)
  }

  /** Every message that had a text has one that the mapping restores to it. */
  ghost predicate AllRestored(before: seq<Content>, now: seq<Content>, m: map<string, string>) {
    |now| == |before| && forall i | 0 <= i < |before| :: ContentRestored(before[i], now[i], m)
  }

  ghost predicate ContentRestored(before: Content, now: Content, m: map<string, string>) {
    ExtractText(before).Some? ==>
      ExtractText(now).Some? && Restores(ExtractText(now).value, m, ExtractText(before).value)
  }

  lemma {:induction false} RequestRestored(digest: string -> string, cats: set<string>, before: seq<Content>,
                                           found: seq<seq<Span>>, now: seq<Content>, merged: map<string, string>)
    requires RedactedSoFar(before, found, now) && |found| == |before| && TextsMarkerFree(before)
    requires ShortHash(digest) && Separate(cats) && MintedSpans(digest, cats, KeptAll(found))
             && NoCollision(digest, KeptAll(found))
    requires Merges(merged, KeptAll(found))
    ensures AllRestored(before, now, merged)
  {
    forall i | 0 <= i < |before| ensures ContentRestored(before[i], now[i], merged) {
      assert SpansOfContent(before[i], found[i]) && now[i] == RedactedContent(before[i], found[i]);
      if ExtractText(before[i]).Some? {
        var text := ExtractText(before[i]).value;
        forall s | s in Kept(found[i], 0) ensures s in KeptAll(found) { KeptInAll(found, i, s); }
        MergedRestores(digest, cats, KeptAll(found), merged, text, found[i]);
        KeptNone(text, found[i], 0);
        assert text[0..] == text;
      }
    }
  }

  /** What the rules find in the text of a message, the texts of its parts joined together; nothing in an empty one. */
  ghost predicate Searched(rules: seq<Rule>, c: Content, spans: seq<Span>) {
    match c
    case Text(text) => if text == "" then spans == [] else FoundIn(rules, text, spans)
    case Parts(texts) => if Concat(texts) == "" then spans == [] else FoundIn(rules, Concat(texts), spans)
    case _ => spans == []
  }

  ghost predicate FoundIn(rules: seq<Rule>, text: string, spans: seq<Span>) {
    SpansAreSelected(spans, rules, text) && NoneInClear(rules, text, Kept(spans, 0))
  }

  ghost predicate AllSearched(rules: seq<Rule>, contents: seq<Content>, found: seq<seq<Span>>) {
    |found| <= |contents| && forall i | 0 <= i < |found| :: Searched(rules, contents[i], found[i])
  }

  /** How many tokens each message gets, all together. */
  function Redactions(found: seq<seq<Span>>): nat {
    if found == [] then 0
    else Redactions(found[..|found| - 1]) + |TokenSet(Kept(found[|found| - 1], 0))|
  }

  function TokenSet(spans: seq<Span>): set<string> {
    set s | s in spans :: s.token
  }

  lemma {:induction false} RecordedTokens(ks: seq<Span>, m: map<string, string>)
    ensures Recorded(ks, m).Keys == m.Keys + TokenSet(ks)
    decreases |ks|
  {
    if ks != [] {
      RecordedTokens(ks[1..], m[ks[0].token := ks[0].value]);
      assert ks == [ks[0]] + ks[1..];
    }
  }

  lemma RedactionsNext(found: seq<seq<Span>>, spans: seq<Span>, mapping: map<string, string>)
    requires mapping == Recorded(Kept(spans, 0), map[])
    ensures Redactions(found + [spans]) == Redactions(found) + |mapping|
  {
    RecordedTokens(Kept(spans, 0), map[]);
    assert mapping.Keys == TokenSet(Kept(spans, 0));
    assert |mapping| == |mapping.Keys| && (found + [spans])[..|found|] == found;
  }

  lemma SearchedNext(rules: seq<Rule>, contents: seq<Content>, found: seq<seq<Span>>, spans: seq<Span>)
    requires AllSearched(rules, contents, found) && |found| < |contents| && Searched(rules, contents[|found|], spans)
    ensures AllSearched(rules, contents, found + [spans])
  {
  }

  lemma KeptNone(text: string, spans: seq<Span>, prev: nat)
    requires SpansIn(text, spans) && prev <= |text|
    ensures Kept(spans, prev) == [] ==> RedactedText(text, spans, prev) == text[prev..]
  {
    if spans != [] && spans[0].start < prev {
      assert spans[0] in spans;
      forall s | s in spans[1..] ensures s in spans {}
      KeptNone(text, spans[1..], prev);
    }
  }

  class Engine {
    const redactor: Redactor
    const vault: MemoryVault

    ghost predicate Valid()
      reads redactor, vault
    {
      redactor.Valid() && forall id | id in vault.entries :: "" !in vault.entries[id]
    }

    constructor (redactor: Redactor)
      requires redactor.Valid()
      ensures this.redactor == redactor && fresh(vault) && vault.entries == map[] && Valid()
    {
      this.redactor := redactor;
      vault := new MemoryVault();
    }

    /** `found` lists the sorted spans of each message. A message made of parts comes back as one string. */
    method RedactRequest(id: string, messages: array<Content>) returns (n: nat, ghost found: seq<seq<Span>>)
      requires Valid()
      modifies redactor, vault, messages
      ensures Valid() && |found| == messages.Length && RedactedSoFar(old(messages[..]), found, messages[..])
      ensures AllSearched(redactor.rules + old(redactor.custom), old(messages[..]), found) && n == Redactions(found)
      ensures n == 0 <==> KeptAll(found) == []
      ensures old(redactor.Plain()) ==>
                redactor.Plain() && MintedSpans(redactor.digest, redactor.Categories(), KeptAll(found))
      ensures n == 0 ==> vault.entries == old(vault.entries)
      ensures n > 0 ==> id in vault.entries && vault.entries == old(vault.entries)[id := vault.entries[id]]
                        && Merges(vault.entries[id], KeptAll(found))
      ensures n > 0 && old(redactor.Plain()) && TextsMarkerFree(old(messages[..]))
              && NoCollision(redactor.digest, KeptAll(found))
              ==> AllRestored(old(messages[..]), messages[..], vault.entries[id])
    {
      ghost var before := messages[..];
      var merged;
      merged, n, found := RedactAll(messages);
      if n == 0 {
        return;
      }
      vault.Put(id, merged);
      if old(redactor.Plain()) && TextsMarkerFree(before) && NoCollision(redactor.digest, KeptAll(found)) {
        RequestRestored(redactor.digest, redactor.Categories(), before, found, messages[..], merged);
      }
    }

    /** The loop over the messages. */
    method RedactAll(messages: array<Content>)
      returns (merged: map<string, string>, n: nat, ghost found: seq<seq<Span>>)
      requires Valid()
      modifies redactor, messages
      ensures redactor.Valid() && |found| == messages.Length && RedactedSoFar(old(messages[..]), found, messages[..])
      ensures AllSearched(redactor.rules + old(redactor.custom), old(messages[..]), found) && n == Redactions(found)
      ensures Merges(merged, KeptAll(found)) && "" !in merged && (n == 0 <==> KeptAll(found) == [])
      ensures old(redactor.Plain()) ==>
                redactor.Plain() && MintedSpans(redactor.digest, redactor.Categories(), KeptAll(found))
    {
      merged, n, found := map[], 0, [];
      ghost var before, cats := messages[..], redactor.Categories();
      for i := 0 to messages.Length
        invariant redactor.Valid() && redactor.Categories() == cats && redactor.custom == old(redactor.custom)
        invariant AllSearched(redactor.rules + redactor.custom, before, found) && n == Redactions(found)
        invariant |found| == i && RedactedSoFar(before, found, messages[..])
        invariant Merges(merged, KeptAll(found)) && "" !in merged && (n == 0 <==> KeptAll(found) == [])
        invariant old(redactor.Plain()) ==> redactor.Plain() && MintedSpans(redactor.digest, cats, KeptAll(found))
      {
        var now, mapping;
        ghost var spans;
        now, mapping, spans := RedactOne(messages[i]);
        MergeOne(merged, KeptAll(found), Kept(spans, 0));
        NextMessage(before, found, messages[..], spans);
        KeptNext(found, spans);
        RedactionsNext(found, spans, mapping);
        SearchedNext(redactor.rules + redactor.custom, before, found, spans);
        found := found + [spans];
        if |mapping| == 0 {
          continue;
        }
        merged := merged + mapping;
        n := n + |mapping|;
        messages[i] := now;
      }
    }

    /** One message; it stays as it is if it has no text or nothing is found. */
    method RedactOne(c: Content) returns (now: Content, mapping: map<string, string>, ghost spans: seq<Span>)
      requires Valid()
      modifies redactor`memo
      ensures redactor.Valid() && Searched(redactor.rules + redactor.custom, c, spans)
      ensures SpansOfContent(c, spans) && now == RedactedContent(c, spans)
      ensures mapping == Recorded(Kept(spans, 0), map[]) && "" !in mapping
      ensures old(redactor.Plain()) ==> redactor.Plain() && MintedSpans(redactor.digest, redactor.Categories(), spans)
    {
      var text := ExtractText(c);
      if text == None || text.value == "" {
        return c, map[], [];
      }
      var red;
      red, mapping, spans := redactor.Redact(text.value);
      MappingNotBlank(Kept(spans, 0), map[]);
      MergeOne(map[], [], Kept(spans, 0));
      now := if |mapping| == 0 then c else Text(red);
    }

    /** Each choice becomes what Whole makes of it; the vault entry is dropped only if it was used. */
    method RehydrateResponse(id: string, choices: array<Option<Content>>)
      requires Valid()
      modifies vault, choices
      ensures Valid()
      ensures vault.entries == if Used(old(vault.entries), id) then old(vault.entries) - {id} else old(vault.entries)
      ensures !Used(old(vault.entries), id) ==> choices[..] == old(choices[..])
      ensures Used(old(vault.entries), id) ==>
                forall i | 0 <= i < choices.Length :: Rehydrated(old(vault.entries)[id], old(choices[i]), choices[i])
    {
      var got := vault.Get(id);
      if got == None || |got.value| == 0 {
        return;
      }
      var m := got.value;
      for i := 0 to choices.Length
        invariant vault.entries == old(vault.entries)
        invariant forall k | i <= k < choices.Length :: choices[k] == old(choices[k])
        invariant forall k | 0 <= k < i :: Rehydrated(m, old(choices[k]), choices[k])
      {
        if choices[i].Some? {
          var text := ExtractText(choices[i].value);
          if text.Some? {
            var restored := Whole(m, text.value);
            if restored != text.value {
              choices[i] := Some(Text(restored));
            }
          }
        }
      }
      vault.Delete(id);
    }
  }

  lemma MappingNotBlank(ks: seq<Span>, m: map<string, string>)
    requires "" !in m && NoBlankTokens(ks)
    ensures "" !in Recorded(ks, m)
  {
    if ks != [] {
      assert ks[0] in ks;
      forall s | s in ks[1..] ensures s in ks {}
      MappingNotBlank(ks[1..], m[ks[0].token := ks[0].value]);
    }
  }

  lemma KeptNext(found: seq<seq<Span>>, spans: seq<Span>)
    ensures KeptAll(found + [spans]) == KeptAll(found) + Kept(spans, 0)
  {
    assert (found + [spans])[..|found|] == found;
  }

  lemma NextMessage(before: seq<Content>, found: seq<seq<Span>>, now: seq<Content>, spans: seq<Span>)
    requires RedactedSoFar(before, found, now) && |found| < |now| && SpansOfContent(before[|found|], spans)
    ensures RedactedSoFar(before, found + [spans], now[|found| := RedactedContent(before[|found|], spans)])
  {
    var all, n := found + [spans], |found|;
    var next := now[n := RedactedContent(before[n], spans)];
    forall i | 0 <= i < |all| ensures SpansOfContent(before[i], all[i])
        && next[i] == RedactedContent(before[i], all[i]) {
      if i < n { assert SpansOfContent(before[i], found[i]); }
    }
  }

  predicate Used(entries: map<string, map<string, string>>, id: string) {
    id in entries && |entries[id]| > 0
  }

  /** A text becomes what Whole makes of it; anything else stays. */
  ghost predicate Rehydrated(m: map<string, string>, before: Option<Content>, after: Option<Content>)
    requires "" !in m
  {
    if before.None? || ExtractText(before.value).None? then after == before
    else
      && after.Some? && ExtractText(after.value).Some?
      && Rewrites(m, ExtractText(before.value).value, ExtractText(after.value).value)
  }

  /** End to end: a model that echoes the redacted messages hands the caller back the original texts. */
  method Echo(e: Engine, id: string, messages: array<Content>, choices: array<Option<Content>>)
    returns (n: nat, ghost found: seq<seq<Span>>)
    requires e.Valid() && choices.Length == messages.Length
    modifies e.redactor, e.vault, messages, choices
    ensures |found| == messages.Length
    ensures n > 0 && old(e.redactor.Plain()) && TextsMarkerFree(old(messages[..]))
            && NoCollision(e.redactor.digest, KeptAll(found))
            ==> id !in e.vault.entries
                && forall i | 0 <= i < choices.Length && ExtractText(old(messages[i])).Some? ::
                     choices[i].Some? && ExtractText(choices[i].value) == ExtractText(old(messages[i]))
  {
    ghost var before := messages[..];
    n, found := e.RedactRequest(id, messages);
    ghost var now := messages[..];
    forall i | 0 <= i < choices.Length {
      choices[i] := Some(messages[i]);
    }
    ghost var entries, echoed := e.vault.entries, choices[..];
    e.RehydrateResponse(id, choices);
    if n > 0 && AllRestored(before, now, entries[id]) {
      MergedSize(entries[id], KeptAll(found));
      forall i | 0 <= i < choices.Length && ExtractText(before[i]).Some?
        ensures choices[i].Some? && ExtractText(choices[i].value) == ExtractText(before[i])
      {
        assert ContentRestored(before[i], now[i], entries[id]);
        assert Rehydrated(entries[id], echoed[i], choices[i]);
        WholeRestores(entries[id], ExtractText(now[i]).value, ExtractText(choices[i].value).value,
            ExtractText(before[i]).value);
      }
    }
  }

  /** End to end for any reply: the model puts tokens and text of its own together as it likes. The caller gets it with
      every token it was given replaced by the value it stands for, whether or not other tokens occur. */
  method Converse(e: Engine, id: string, messages: array<Content>, replies: seq<seq<Piece>>,
                  choices: array<Option<Content>>)
    returns (n: nat, ghost found: seq<seq<Span>>, ghost m: map<string, string>)
    requires e.Valid() && choices.Length == |replies|
    modifies e.redactor, e.vault, messages, choices
    ensures n > 0 && old(e.redactor.Plain()) && NoCollision(e.redactor.digest, KeptAll(found)) ==>
              StandsFor(m, KeptAll(found)) && AllFilled(m, replies, choices[..])
  {
    n, found := e.RedactRequest(id, messages);
    m := if n > 0 then e.vault.entries[id] else map[];
    if n > 0 && old(e.redactor.Plain()) && NoCollision(e.redactor.digest, KeptAll(found)) {
      NoCollisionNoClash(e.redactor.digest, e.redactor.Categories(), KeptAll(found));
      MergedTokens(m, KeptAll(found));
      MergedSize(m, KeptAll(found));
    }
    Answer(e, id, replies, choices, m);
  }

  /** The second half: the replies arrive and go through RehydrateResponse. */
  method Answer(e: Engine, id: string, replies: seq<seq<Piece>>, choices: array<Option<Content>>,
                ghost m: map<string, string>)
    requires e.Valid() && choices.Length == |replies|
    modifies e.vault, choices
    ensures TokenMap(m) && |m| > 0 && id in old(e.vault.entries) && old(e.vault.entries[id]) == m ==>
              AllFilled(m, replies, choices[..])
  {
    forall i | 0 <= i < choices.Length {
      choices[i] := Some(Text(Render(replies[i])));
    }
    ghost var sent := choices[..];
    e.RehydrateResponse(id, choices);
    if TokenMap(m) && |m| > 0 && id in old(e.vault.entries) && old(e.vault.entries[id]) == m {
      ghost var got := choices[..];
      assert forall i | 0 <= i < |got| :: Rehydrated(m, sent[i], got[i]);
      RepliesFilled(m, replies, sent, got);
    }
  }

  /** The mapping holds the tokens of these spans and what each stands for. */
  ghost predicate StandsFor(m: map<string, string>, kept: seq<Span>) {
    && (forall t :: t in m <==> exists s :: s in kept && s.token == t)
    && (forall s | s in kept :: m[s.token] == s.value)
  }

  ghost predicate AllFilled(m: map<string, string>, replies: seq<seq<Piece>>, got: seq<Option<Content>>) {
    |got| == |replies|
    && forall i | 0 <= i < |replies| && Steady(replies[i], m) ::
         got[i].Some? && ExtractText(got[i].value) == Some(Fill(replies[i], m))
  }

  lemma RepliesFilled(m: map<string, string>, replies: seq<seq<Piece>>, sent: seq<Option<Content>>,
                      got: seq<Option<Content>>)
    requires |sent| == |got| == |replies| && "" !in m && TokenMap(m)
    requires forall i | 0 <= i < |sent| :: sent[i] == Some(Text(Render(replies[i]))) && Rehydrated(m, sent[i], got[i])
    ensures AllFilled(m, replies, got)
  {
    forall i | 0 <= i < |replies| && Steady(replies[i], m)
      ensures got[i].Some? && ExtractText(got[i].value) == Some(Fill(replies[i], m))
    {
      assert Rehydrated(m, sent[i], got[i]);
      WholeSteady(replies[i], m, ExtractText(got[i].value).value);
    }
  }

  lemma MergedTokens(m: map<string, string>, kept: seq<Span>)
    requires Merges(m, kept) && NoClash(kept) && forall s | s in kept :: IsToken(s.token)
    ensures TokenMap(m) && StandsFor(m, kept)
  {
  }

  lemma MergedSize(merged: map<string, string>, kept: seq<Span>)
    requires Merges(merged, kept) && kept != []
    ensures |merged| > 0
  {
    assert kept[0] in kept && kept[0].token in merged;
  }
}
