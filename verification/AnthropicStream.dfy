/** The provider's side of a stream: Anthropic events in, OpenAI chunks out (providers/anthropic/stream.go).
    JSON is a codec of which only `Sound` is used. */
module AnthropicStream {
  import opened Wrappers
  import opened SseFraming
  import Text

  // ---- data ------------------------------------------------------------------------------------

  datatype Block = Block(kind: string, id: string, name: string)

  datatype Delta = Delta(kind: string, text: string)

  datatype Tokens = Tokens(input: int, output: int)

  /** Fields that are missing or do not decode are None. */
  datatype Event =
    | MessageStart(id: string, model: string)
    | BlockStart(index: int, block: Block)
    | BlockDelta(index: int, delta: Delta)
    | BlockStop(index: int)
    | MessageDelta(stopReason: Option<string>, usage: Option<Tokens>)
    | MessageStop
    | Other(kind: string)

  function Name(e: Event): string {
    match e
    case MessageStart(_, _) => "message_start"
    case BlockStart(_, _) => "content_block_start"
    case BlockDelta(_, _) => "content_block_delta"
    case BlockStop(_) => "content_block_stop"
    case MessageDelta(_, _) => "message_delta"
    case MessageStop => "message_stop"
    case Other(kind) => kind
  }

  predicate Proper(e: Event) {
    e.Other? ==> OneLine(e.kind) && e.kind !in {"message_start", "content_block_start", "content_block_delta",
                                                "content_block_stop", "message_delta", "message_stop"}
  }

  datatype ToolCall = ToolCall(id: string, name: string, arguments: string)

  /** Raw JSON content: absent or null, a string, parts of which those with a text count, anything else. */
  datatype Content = Absent | Text(text: string) | Parts(texts: seq<string>) | Opaque

  datatype Message = Message(role: string, content: Content, toolCalls: seq<ToolCall>)

  datatype Choice = Choice(delta: Option<Message>, finishReason: Option<string>)

  datatype Usage = Usage(promptTokens: int, completionTokens: int, totalTokens: int)

  datatype Chunk = Chunk(id: string, created: int, model: string, choices: seq<Choice>, usage: Option<Usage>)

  datatype Json = Json(chunk: Chunk -> string, unchunk: string -> Option<Chunk>,
                       event: Event -> string, unevent: string -> Option<Event>)
  {
    ghost predicate Sound() {
      && (forall c :: unchunk(chunk(c)) == Some(c) && Carried(chunk(c)))
      && (forall e | Proper(e) :: unevent(event(e)) == Some(e) && Carried(event(e)))
    }
  }

  // ---- one event -------------------------------------------------------------------------------

  datatype State = State(id: string, model: string, created: int, blockType: map<int, string>,
                         toolIndex: map<int, nat>, toolID: map<int, string>, toolName: map<int, string>, nextTool: nat)

  const FRESH := State("", "", 0, map[], map[], map[], map[], 0)

  const NO_MESSAGE := Message("", Absent, [])

  function ChunkOf(s: State, message: Message, finish: Option<string>, usage: Option<Usage>): Chunk {
    Chunk(s.id, s.created, s.model, [Choice(Some(message), finish)], usage)
  }

  /** strings.EqualFold with a lower-case text; the long s folds to s. */
  predicate FoldsTo(s: string, lower: string) {
    |s| == |lower| && forall i | 0 <= i < |s| ::
      s[i] == lower[i] || ('a' <= lower[i] <= 'z' && s[i] as int == lower[i] as int - 32)
          || (lower[i] == 's' && s[i] == '\U{17F}')
  }

  function MapStopReason(stopReason: string, hasTools: bool): string {
    if stopReason == "end_turn" || stopReason == "stop_sequence" then "stop"
    else if stopReason == "max_tokens" then "length"
    else if stopReason == "tool_use" || hasTools then "tool_calls"
    else "stop"
  }

  function Next(s: State, e: Event, now: int): State {
    match e
    case MessageStart(id, model) => s.(id := id, model := model, created := now)
    case BlockStart(index, block) =>
      var s' := s.(blockType := s.blockType[index := block.kind]);
      if block.kind != "tool_use" then s' else
        s'.(toolIndex := s.toolIndex[index := s.nextTool], nextTool := s.nextTool + 1,
            toolID := s.toolID[index := block.id], toolName := s.toolName[index := block.name])
    case _ => s
  }

  function Lookup(m: map<int, string>, i: int): string {
    if i in m then m[i] else ""
  }

  function UsageChunk(s: State, usage: Option<Tokens>): seq<Chunk> {
    match usage
    case None => []
    case Some(u) => [ChunkOf(s, NO_MESSAGE, None, Some(Usage(u.input, u.output, u.input + u.output)))]
  }

  function StopChunk(s: State, stopReason: Option<string>): seq<Chunk> {
    if stopReason == None || stopReason.value == "" then []
    else
      var finish := MapStopReason(stopReason.value, FoldsTo(stopReason.value, "tool_use"));
      [ChunkOf(s, NO_MESSAGE, Some(finish), None)]
  }

  /** The chunks of an event, from the state after it. */
  function Chunks(s: State, e: Event): seq<Chunk> {
    match e
    case MessageStart(_, _) => [ChunkOf(s, Message("assistant", Absent, []), None, None)]
    case BlockStart(_, block) =>
      if block.kind != "tool_use" then []
      else [ChunkOf(s, Message("", Absent, [ToolCall(block.id, block.name, "")]), None, None)]
    case BlockDelta(index, delta) =>
      if delta.kind == "text_delta" then [ChunkOf(s, Message("", Text(delta.text), []), None, None)]
      else if delta.kind == "input_json_delta" then
        var call := ToolCall(Lookup(s.toolID, index), Lookup(s.toolName, index), delta.text);
        [ChunkOf(s, Message("", Absent, [call]), None, None)]
      else []
    case MessageDelta(stopReason, usage) =>
      UsageChunk(s, usage) + StopChunk(s, stopReason)
    case _ => []
  }

  class SseState {
    var id: string
    var model: string
    var created: int
    var blockType: map<int, string>
    var toolIndex: map<int, nat>
    var toolID: map<int, string>
    var toolName: map<int, string>
    var nextTool: nat

    constructor ()
      ensures Value() == FRESH
    {
      id, model, created, blockType, toolIndex, toolID, toolName, nextTool := "", "", 0, map[], map[], map[], map[], 0;
    }

    function Value(): State
      reads this
    {
      State(id, model, created, blockType, toolIndex, toolID, toolName, nextTool)
    }

    method MapEvent(e: Event, now: int) returns (chunks: seq<Chunk>)
      modifies this
      ensures Value() == Next(old(Value()), e, now) && chunks == Chunks(Value(), e)
    {
      match e
      case MessageStart(id, model) =>
        this.id, this.model, created := id, model, now;
        return [ChunkOf(Value(), Message("assistant", Absent, []), None, None)];
      case BlockStart(index, block) =>
        blockType := blockType[index := block.kind];
        if block.kind == "tool_use" {
          toolIndex := toolIndex[index := nextTool];
          nextTool := nextTool + 1;
          toolID := toolID[index := block.id];
          toolName := toolName[index := block.name];
          return [ChunkOf(Value(), Message("", Absent, [ToolCall(block.id, block.name, "")]), None, None)];
        }
        return [];
      case BlockDelta(index, delta) =>
        if delta.kind == "text_delta" {
          return [ChunkOf(Value(), Message("", Text(delta.text), []), None, None)];
        }
        if delta.kind == "input_json_delta" {
          var call := ToolCall(Lookup(toolID, index), Lookup(toolName, index), delta.text);
          return [ChunkOf(Value(), Message("", Absent, [call]), None, None)];
        }
        return [];
      case MessageDelta(stopReason, usage) =>
        chunks := [];
        if usage.Some? {
          var u := usage.value;
          chunks := chunks + [ChunkOf(Value(), NO_MESSAGE, None, Some(Usage(u.input, u.output, u.input + u.output)))];
        }
        if stopReason.Some? && stopReason.value != "" {
          var finish := MapStopReason(stopReason.value, FoldsTo(stopReason.value, "tool_use"));
          chunks := chunks + [ChunkOf(Value(), NO_MESSAGE, Some(finish), None)];
        }
      case _ =>
        return [];
    }
  }

  // ---- a run -----------------------------------------------------------------------------------

  function StateAfter(s: State, events: seq<Event>, now: int): State
    decreases |events|
  {
    if events == [] then s else StateAfter(Next(s, events[0], now), events[1..], now)
  }

  function RunChunks(s: State, events: seq<Event>, now: int): seq<Chunk>
    decreases |events|
  {
    if events == [] then []
    else var s' := Next(s, events[0], now); Chunks(s', events[0]) + RunChunks(s', events[1..], now)
  }

  /** Id and model of the message last started. */
  function Current(events: seq<Event>): (string, string) {
    if events == [] then ("", "")
    else
      var e := events[|events| - 1];
      if e.MessageStart? then (e.id, e.model) else Current(events[..|events| - 1])
  }

  predicate Started(events: seq<Event>) {
    exists e | e in events :: e.MessageStart?
  }

  /** Every chunk names the message it belongs to, and carries the time that one started. */
  lemma {:induction false} ChunksNameTheirMessage(events: seq<Event>, e: Event, now: int)
    ensures forall c | c in Chunks(StateAfter(FRESH, events + [e], now), e) ::
              (c.id, c.model) == Current(events + [e]) && c.created == if Started(events + [e]) then now else 0
  {
    MessageRemembered(events + [e], now);
  }

  lemma {:induction false} MessageRemembered(events: seq<Event>, now: int)
    ensures var s := StateAfter(FRESH, events, now);
            (s.id, s.model) == Current(events) && s.created == if Started(events) then now else 0
  {
    if events != [] {
      var init, e := events[..|events| - 1], events[|events| - 1];
      MessageRemembered(init, now);
      AfterLast(FRESH, init, e, now);
      assert events == init + [e];
    }
  }

  /** The tool call last opened at an index. */
  function OpenTool(events: seq<Event>, index: int): Option<Block> {
    if events == [] then None
    else
      var e := events[|events| - 1];
      if e.BlockStart? && e.index == index && e.block.kind == "tool_use" then Some(e.block)
      else OpenTool(events[..|events| - 1], index)
  }

  /** Argument fragments go to the tool call last opened at their index, whatever was interleaved. */
  lemma {:induction false} FragmentsFindTheirTool(events: seq<Event>, index: int, fragment: string, now: int)
    ensures var s, tool := StateAfter(FRESH, events, now), OpenTool(events, index);
            var call := if tool.Some? then ToolCall(tool.value.id, tool.value.name, fragment)
                        else ToolCall("", "", fragment);
            Chunks(s, BlockDelta(index, Delta("input_json_delta", fragment)))
            == [ChunkOf(s, Message("", Absent, [call]), None, None)]
  {
    ToolsRemembered(events, index, now);
  }

  lemma {:induction false} ToolsRemembered(events: seq<Event>, index: int, now: int)
    ensures var s, tool := StateAfter(FRESH, events, now), OpenTool(events, index);
            Lookup(s.toolID, index) == (if tool.Some? then tool.value.id else "")
            && Lookup(s.toolName, index) == (if tool.Some? then tool.value.name else "")
  {
    if events != [] {
      var init, e := events[..|events| - 1], events[|events| - 1];
      ToolsRemembered(init, index, now);
      AfterLast(FRESH, init, e, now);
      assert events == init + [e];
    }
  }

  function ToolStarts(events: seq<Event>): nat {
    if events == [] then 0
    else
      var e := events[|events| - 1];
      ToolStarts(events[..|events| - 1]) + if e.BlockStart? && e.block.kind == "tool_use" then 1 else 0
  }

  /** Tool calls are numbered from 0 in the order they open, no two open ones alike. */
  lemma {:induction false} ToolsNumbered(events: seq<Event>, now: int)
    ensures var s := StateAfter(FRESH, events, now);
            && s.nextTool == ToolStarts(events)
            && (forall i :: i in s.toolIndex <==> OpenTool(events, i).Some?)
            && (forall i | i in s.toolIndex :: s.toolIndex[i] < s.nextTool)
            && (forall i, j | i in s.toolIndex && j in s.toolIndex && i != j :: s.toolIndex[i] != s.toolIndex[j])
  {
    if events != [] {
      var init, e := events[..|events| - 1], events[|events| - 1];
      ToolsNumbered(init, now);
      AfterLast(FRESH, init, e, now);
      assert events == init + [e];
    }
  }

  /** The usage the handler ends up with, and the one the stream reported last. */
  function LastUsage(chunks: seq<Chunk>): Option<Usage> {
    if chunks == [] then None
    else if chunks[|chunks| - 1].usage.Some? then chunks[|chunks| - 1].usage
    else LastUsage(chunks[..|chunks| - 1])
  }

  function Reported(events: seq<Event>): Option<Tokens> {
    if events == [] then None
    else
      var e := events[|events| - 1];
      if e.MessageDelta? && e.usage.Some? then e.usage else Reported(events[..|events| - 1])
  }

  lemma {:induction false} UsagePassedOn(events: seq<Event>, now: int)
    ensures LastUsage(RunChunks(FRESH, events, now)) ==
            match Reported(events) case None => None case Some(u) => Some(Summed(u))
  {
    if events != [] {
      var init, e := events[..|events| - 1], events[|events| - 1];
      UsagePassedOn(init, now);
      UsageStep(init, e, now);
      assert events == init + [e];
    }
  }

  lemma UsageStep(init: seq<Event>, e: Event, now: int)
    ensures LastUsage(RunChunks(FRESH, init + [e], now)) ==
            if e.MessageDelta? && e.usage.Some? then Some(Summed(e.usage.value))
            else LastUsage(RunChunks(FRESH, init, now))
  {
    AfterLast(FRESH, init, e, now);
    OneUsage(StateAfter(FRESH, init + [e], now), e, RunChunks(FRESH, init, now));
  }

  function Summed(u: Tokens): Usage {
    Usage(u.input, u.output, u.input + u.output)
  }

  lemma OneUsage(s: State, e: Event, chunks: seq<Chunk>)
    ensures LastUsage(chunks + Chunks(s, e)) ==
            if e.MessageDelta? && e.usage.Some? then Some(Summed(e.usage.value)) else LastUsage(chunks)
  {
    LastUsageOf(chunks, Chunks(s, e));
  }

  lemma LastUsageOf(chunks: seq<Chunk>, more: seq<Chunk>)
    requires |more| <= 2 && (|more| == 2 ==> more[1].usage.None?)
    ensures LastUsage(chunks + more) == if more != [] && more[0].usage.Some? then more[0].usage else LastUsage(chunks)
  {
    if more == [] {
      assert chunks + more == chunks;
    } else {
      assert (chunks + more)[..|chunks + more| - 1] == chunks + more[..|more| - 1];
      if |more| == 2 {
        assert (chunks + more[..1])[..|chunks|] == chunks;
      } else {
        assert chunks + more[..0] == chunks;
      }
    }
  }

  lemma {:induction false} AfterLast(s: State, events: seq<Event>, e: Event, now: int)
    ensures StateAfter(s, events + [e], now) == Next(StateAfter(s, events, now), e, now)
    ensures RunChunks(s, events + [e], now) == RunChunks(s, events, now) + Chunks(StateAfter(s, events + [e], now), e)
    decreases |events|
  {
    if events == [] {
      assert [e][1..] == [];
    } else {
      assert (events + [e])[1..] == events[1..] + [e];
      AfterLast(Next(s, events[0], now), events[1..], e, now);
    }
  }

  // ---- the parser ------------------------------------------------------------------------------

  datatype StreamEvent = Data(bytes: string) | Error | Done

  function Wrapped(json: Json, chunks: seq<Chunk>): (out: seq<StreamEvent>)
    ensures |out| == |chunks| && forall i | 0 <= i < |out| :: out[i] == Data(json.chunk(chunks[i]))
  {
    seq(|chunks|, i requires 0 <= i < |chunks| => Data(json.chunk(chunks[i])))
  }

  function PayloadState(json: Json, payloads: seq<string>, now: int): State {
    if payloads == [] then FRESH
    else
      var s := PayloadState(json, payloads[..|payloads| - 1], now);
      match json.unevent(payloads[|payloads| - 1]) case None => s case Some(e) => Next(s, e, now)
  }

  /** A payload that does not decode becomes an error event, and the stream goes on. */
  function PayloadEvents(json: Json, payloads: seq<string>, now: int): seq<StreamEvent> {
    if payloads == [] then []
    else
      PayloadEvents(json, payloads[..|payloads| - 1], now)
      + match json.unevent(payloads[|payloads| - 1])
        case None => [Error]
        case Some(e) => Wrapped(json, Chunks(PayloadState(json, payloads, now), e))
  }

  method Dispatch(json: Json, st: SseState, dataLines: string, ghost sent: seq<string>, now: int)
      returns (out: seq<StreamEvent>)
    requires st.Value() == PayloadState(json, sent, now)
    modifies st
    ensures var sent' := Flushed(Frame(dataLines, sent)).payloads;
            st.Value() == PayloadState(json, sent', now)
                && PayloadEvents(json, sent', now) == PayloadEvents(json, sent, now) + out
  {
    assert PayloadEvents(json, sent, now) + [] == PayloadEvents(json, sent, now);
    if |dataLines| == 0 {
      return [];
    }
    var payload := Text.TrimSpace(dataLines);
    if |payload| == 0 || payload == DONE {
      return [];
    }
    assert (sent + [payload])[..|sent|] == sent;
    var decoded := json.unevent(payload);
    if decoded.None? {
      return [Error];
    }
    var chunks := st.MapEvent(decoded.value, now);
    return Wrapped(json, chunks);
  }

  /** The whole read loop: what it sends is what its payloads map to, then the end mark. */
  method ParseSSE(json: Json, body: string, now: int) returns (out: seq<StreamEvent>)
    ensures out == PayloadEvents(json, Payloads(ScanLines(body)), now) + [Done]
  {
    var st := new SseState();
    var lines := ScanLines(body);
    var dataLines := "";
    ghost var sent: seq<string> := [];
    out := [];
    for i := 0 to |lines|
      invariant fresh(st) && ReadLines(EMPTY, lines) == ReadLines(Frame(dataLines, sent), lines[i..])
      invariant st.Value() == PayloadState(json, sent, now) && out == PayloadEvents(json, sent, now)
    {
      var line := lines[i];
      assert lines[i..][1..] == lines[i + 1..];
      if line == "" {
        var events := Dispatch(json, st, dataLines, sent, now);
        sent := Flushed(Frame(dataLines, sent)).payloads;
        dataLines := "";
        out := out + events;
      } else if HasPrefix(line, ":") {
        assert line[0] == ':';
      } else if HasPrefix(line, "data:") {
        var rest := Text.TrimSpace(line[5..]);
        if dataLines != "" {
          dataLines := dataLines + "\n";
        }
        dataLines := dataLines + rest;
      }
    }
    assert lines[|lines|..] == [];
    var events := Dispatch(json, st, dataLines, sent, now);
    out := out + events + [Done];
  }
}
