/** The ingress side of a stream: OpenAI lines in, Anthropic events out (ingress/anthropic/anthropic.go), and the
    composition with the provider. */
module StreamTranslation {
  import opened Wrappers
  import opened SseFraming
  import opened AnthropicStream
  import Strings = Text

  function MapFinishReason(r: string): string {
    if r == "stop" || r == "stop_sequence" then "end_turn"
    else if r == "length" then "max_tokens"
    else if r == "tool_calls" then "tool_use"
    else if r == "content_filter" then "stop_sequence"
    else "end_turn"
  }

  // ---- what a line says ------------------------------------------------------------------------

  datatype Read = Ignored | Finish | Got(chunk: Chunk)

  function ReadOf(json: Json, line: string): Read {
    var trim := Strings.TrimSpace(line);
    if trim == "" || !IsData(trim) then Ignored
    else if Value(trim) == DONE then Finish
    else match json.unchunk(Value(trim)) case None => Ignored case Some(c) => Got(c)
  }

  function ReadsOf(json: Json, lines: seq<string>): seq<Read>
    decreases |lines|
  {
    if lines == [] then [] else [ReadOf(json, lines[0])] + ReadsOf(json, lines[1..])
  }

  function DecodeContent(c: Content): string {
    match c
    case Text(t) => t
    case Parts(texts) => Concat(texts)
    case _ => ""
  }

  /** Only the first choice is looked at. */
  function TextOf(c: Chunk): string {
    if c.choices != [] && c.choices[0].delta.Some? then DecodeContent(c.choices[0].delta.value.content) else ""
  }

  function FinishOf(c: Chunk): Option<string> {
    if c.choices != [] then c.choices[0].finishReason else None
  }

  function TokensOf(c: Chunk): int {
    match c.usage case None => 0 case Some(u) => u.completionTokens
  }

  // ---- the translator --------------------------------------------------------------------------

  datatype T = T(started: bool, done: bool, outputText: string)

  const START := T(false, false, "")

  datatype Ids = Ids(messageID: string, model: string)

  function Opening(ids: Ids): seq<Event> {
    [MessageStart(ids.messageID, ids.model), BlockStart(0, Block("text", "", ""))]
  }

  function TextEvent(t: string): Event {
    BlockDelta(0, Delta("text_delta", t))
  }

  function Closing(reason: string, tokens: int): seq<Event> {
    [BlockStop(0), MessageDelta(Some(MapFinishReason(reason)), Some(Tokens(0, tokens)))]
  }

  function Emit(ids: Ids, t: T, r: Read): seq<Event> {
    match r
    case Ignored => []
    case Finish => if t.done then [MessageStop] else []
    case Got(c) => OpeningFor(ids, t) + TextEvents(c) + ClosingFor(c)
  }

  function OpeningFor(ids: Ids, t: T): seq<Event> {
    if t.started then [] else Opening(ids)
  }

  function TextEvents(c: Chunk): seq<Event> {
    if TextOf(c) == "" then [] else [TextEvent(TextOf(c))]
  }

  function ClosingFor(c: Chunk): seq<Event> {
    match FinishOf(c) case None => [] case Some(reason) => Closing(reason, TokensOf(c))
  }

  function After(t: T, r: Read): T {
    match r
    case Got(c) => T(true, t.done || FinishOf(c).Some?, t.outputText + TextOf(c))
    case _ => t
  }

  function Run(ids: Ids, t: T, heard: seq<Read>): seq<Event>
    decreases |heard|
  {
    if heard == [] then [] else Emit(ids, t, heard[0]) + Run(ids, After(t, heard[0]), heard[1..])
  }

  function End(t: T, heard: seq<Read>): T
    decreases |heard|
  {
    if heard == [] then t else End(After(t, heard[0]), heard[1..])
  }

  function Written(json: Json, events: seq<Event>): string {
    if events == [] then "" else WriteEvent(Framed(Name(events[0]), json.event(events[0]))) + Written(json, events[1..])
  }

  lemma {:induction false} WrittenConcat(json: Json, a: seq<Event>, b: seq<Event>)
    ensures Written(json, a + b) == Written(json, a) + Written(json, b)
    decreases |a|
  {
    if a == [] {
      assert a + b == b;
    } else {
      assert (a + b)[1..] == a[1..] + b;
      WrittenConcat(json, a[1..], b);
      Reassociate(WriteEvent(Framed(Name(a[0]), json.event(a[0]))), Written(json, a[1..]), Written(json, b));
    }
  }

  class StreamTranslator {
    const json: Json
    const ids: Ids
    var started: bool
    var done: bool
    var outputText: string

    constructor (json: Json, ids: Ids)
      ensures this.json == json && this.ids == ids && State() == START
    {
      this.json, this.ids, started, done, outputText := json, ids, false, false, "";
    }

    function State(): T
      reads this
    {
      T(started, done, outputText)
    }

    method Feed(line: string) returns (out: string)
      modifies this
      ensures State() == After(old(State()), ReadOf(json, line))
      ensures out == Written(json, Emit(ids, old(State()), ReadOf(json, line)))
    {
      var trim := Strings.TrimSpace(line);
      if |trim| == 0 || !HasPrefix(trim, "data:") {
        return "";
      }
      var payload := Strings.TrimSpace(trim[5..]);
      if payload == DONE {
        out := FinishStream();
        return;
      }
      var decoded := json.unchunk(payload);
      if decoded.None? {
        return "";
      }
      out := FeedChunk(decoded.value);
    }

    method FeedChunk(c: Chunk) returns (out: string)
      modifies this
      ensures State() == After(old(State()), Got(c))
      ensures out == Written(json, Emit(ids, old(State()), Got(c)))
    {
      ghost var opening := OpeningFor(ids, State());
      var first := Open();
      var second := Say(c);
      var third := Close(c);
      WrittenConcat(json, opening, TextEvents(c));
      WrittenConcat(json, opening + TextEvents(c), ClosingFor(c));
      return first + second + third;
    }

    method Open() returns (out: string)
      modifies this
      ensures State() == old(State()).(started := true) && out == Written(json, OpeningFor(ids, old(State())))
    {
      if started {
        return "";
      }
      started := true;
      out := Write("", [], MessageStart(ids.messageID, ids.model));
      out := Write(out, [MessageStart(ids.messageID, ids.model)], BlockStart(0, Block("text", "", "")));
    }

    method Say(c: Chunk) returns (out: string)
      modifies this
      ensures State() == old(State()).(outputText := old(outputText) + TextOf(c)) && out == Written(json, TextEvents(c))
    {
      if |c.choices| > 0 && c.choices[0].delta.Some? {
        var dt := DecodeContent(c.choices[0].delta.value.content);
        if dt != "" {
          outputText := outputText + dt;
          out := Write("", [], TextEvent(dt));
          return;
        }
      }
      return "";
    }

    method Close(c: Chunk) returns (out: string)
      modifies this
      ensures State() == old(State()).(done := old(done) || FinishOf(c).Some?) && out == Written(json, ClosingFor(c))
    {
      if |c.choices| > 0 && c.choices[0].finishReason.Some? {
        var reason := c.choices[0].finishReason.value;
        var tokens := if c.usage.Some? then c.usage.value.completionTokens else 0;
        out := Write("", [], BlockStop(0));
        out := Write(out, [BlockStop(0)], MessageDelta(Some(MapFinishReason(reason)), Some(Tokens(0, tokens))));
        done := true;
        return;
      }
      return "";
    }

    method Write(buffer: string, ghost before: seq<Event>, e: Event) returns (out: string)
      requires buffer == Written(json, before)
      ensures out == Written(json, before + [e])
    {
      out := buffer + WriteEvent(Framed(Name(e), json.event(e)));
      WrittenConcat(json, before, [e]);
      assert [e][1..] == [];
    }

    method FinishStream() returns (out: string)
      ensures out == Written(json, Emit(ids, State(), Finish))
    {
      if done {
        out := Write("", [], MessageStop);
        assert [] + [MessageStop] == [MessageStop];
        return;
      }
      return "";
    }
  }

  method TranslateStream(json: Json, openaiSSE: string, ids: Ids) returns (out: string)
    ensures out == Written(json, Run(ids, START, ReadsOf(json, Split(openaiSSE))))
  {
    var ts := new StreamTranslator(json, ids);
    var lines := Split(openaiSSE);
    out := "";
    ghost var before: seq<Event> := [];
    for i := 0 to |lines|
      invariant fresh(ts) && ts.json == json && ts.ids == ids && out == Written(json, before)
      invariant before + Run(ids, ts.State(), ReadsOf(json, lines[i..])) == Run(ids, START, ReadsOf(json, lines))
    {
      RunsOn(json, ids, ts.State(), lines, i, before);
      ghost var emitted := Emit(ids, ts.State(), ReadOf(json, lines[i]));
      var events := ts.Feed(lines[i]);
      WrittenConcat(json, before, emitted);
      out := out + events;
      before := before + emitted;
    }
    assert lines[|lines|..] == [] && before + [] == before;
  }

  lemma RunsOn(json: Json, ids: Ids, t: T, lines: seq<string>, i: nat, before: seq<Event>)
    requires i < |lines|
    ensures before + Run(ids, t, ReadsOf(json, lines[i..]))
            == before + Emit(ids, t, ReadOf(json, lines[i]))
               + Run(ids, After(t, ReadOf(json, lines[i])), ReadsOf(json, lines[i + 1..]))
  {
    assert lines[i..][1..] == lines[i + 1..];
    var r, rest := ReadOf(json, lines[i]), ReadsOf(json, lines[i + 1..]);
    assert ReadsOf(json, lines[i..]) == [r] + rest;
    RunFirst(ids, t, r, rest);
    Reassociate(before, Emit(ids, t, r), Run(ids, After(t, r), rest));
  }

  lemma RunFirst(ids: Ids, t: T, r: Read, rest: seq<Read>)
    ensures Run(ids, t, [r] + rest) == Emit(ids, t, r) + Run(ids, After(t, r), rest)
  {
    assert ([r] + rest)[1..] == rest;
  }
}
