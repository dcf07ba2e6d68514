/** The whole way on the wire: Anthropic bytes through the provider, the handler's lines and the ingress translator. */
module StreamRelay {
  import opened Wrappers
  import opened SseFraming
  import opened AnthropicStream
  import opened StreamTranslation
  import opened StreamComposition
  import Strings = Text

  /** The handler's loop (handlers/chat.go:442-460): an error ends the output without an end mark. */
  function Printed(events: seq<StreamEvent>): string
    decreases |events|
  {
    if events == [] then ""
    else
      match events[0]
      case Error => ""
      case Done => "data: [DONE]\n\n"
      case Data(bytes) => "data: " + bytes + "\n" + "\n" + Printed(events[1..])
  }

  /** Every body whose payloads decode to the events of a finished run, however they are spelled and framed. */
  method Relay(json: Json, body: string, ids: Ids, now: int) returns (out: string)
    requires json.Sound()
    ensures forall events: seq<Event>, i: nat
              | Decodes(json, Payloads(ScanLines(body)), events) && FinishedRun(events, i) ::
              out == Written(json, Expected(ids, events[..i], events[i].stopReason.value))
  {
    var streamed := ParseSSE(json, body, now);
    out := TranslateStream(json, Printed(streamed), ids);
    forall events: seq<Event>, i: nat
      | Decodes(json, Payloads(ScanLines(body)), events) && FinishedRun(events, i)
      ensures out == Written(json, Expected(ids, events[..i], events[i].stopReason.value))
    {
      RelayedRun(json, Payloads(ScanLines(body)), ids, now, events, i);
    }
  }

  predicate Decodes(json: Json, payloads: seq<string>, events: seq<Event>) {
    |payloads| == |events| && forall i | 0 <= i < |payloads| :: json.unevent(payloads[i]) == Some(events[i])
  }

  predicate AllProper(events: seq<Event>) {
    forall i | 0 <= i < |events| :: Proper(events[i])
  }

  lemma RelayedRun(json: Json, payloads: seq<string>, ids: Ids, now: int, events: seq<Event>, i: nat)
    requires json.Sound() && Decodes(json, payloads, events) && FinishedRun(events, i)
    ensures var streamed := PayloadEvents(json, payloads, now) + [Done];
            Run(ids, START, ReadsOf(json, Split(Printed(streamed))))
                == Expected(ids, events[..i], events[i].stopReason.value)
  {
    DecodesRun(json, events, payloads, now);
    PrintedReads(json, ids, START, RunChunks(FRESH, events, now));
    Composition(ids, events, i, now);
  }

  // ---- writing events and reading them back ----------------------------------------------------

  function Frames(json: Json, events: seq<Event>): (frames: seq<Framed>)
    ensures |frames| == |events|
    ensures forall i | 0 <= i < |frames| :: frames[i] == Framed(Name(events[i]), json.event(events[i]))
  {
    seq(|events|, i requires 0 <= i < |events| => Framed(Name(events[i]), json.event(events[i])))
  }

  function Encoded(json: Json, events: seq<Event>): seq<string>
    decreases |events|
  {
    if events == [] then [] else [json.event(events[0])] + Encoded(json, events[1..])
  }

  lemma {:induction false} FramesWrite(json: Json, events: seq<Event>)
    ensures WriteEvents(Frames(json, events)) == Written(json, events)
    ensures PayloadsOf(Frames(json, events)) == Encoded(json, events)
    decreases |events|
  {
    if events != [] {
      assert Frames(json, events)[1..] == Frames(json, events[1..]);
      FramesWrite(json, events[1..]);
    }
  }

  lemma NameOneLine(e: Event)
    requires Proper(e)
    ensures OneLine(Name(e))
  {
    match e
    case MessageStart(_, _) => assert OneLine("message_start");
    case BlockStart(_, _) => assert OneLine("content_block_start");
    case BlockDelta(_, _) => assert OneLine("content_block_delta");
    case BlockStop(_) => assert OneLine("content_block_stop");
    case MessageDelta(_, _) => assert OneLine("message_delta");
    case MessageStop => assert OneLine("message_stop");
    case Other(_) =>
  }

  /** Every event is written under the name of its kind, on two lines and a blank one. */
  lemma WrittenAs(json: Json, e: Event)
    ensures exists name ::
              && Written(json, [e]) == "event: " + name + "\ndata: " + json.event(e) + "\n\n"
              && (e.MessageStart? ==> name == "message_start")
              && (e.BlockStart? ==> name == "content_block_start")
              && (e.BlockDelta? ==> name == "content_block_delta")
              && (e.BlockStop? ==> name == "content_block_stop")
              && (e.MessageDelta? ==> name == "message_delta")
              && (e.MessageStop? ==> name == "message_stop")
  {
    var name, line := Name(e), json.event(e);
    assert [e][1..] == [] && Written(json, []) == "";
    assert Written(json, [e]) == WriteEvent(Framed(name, line)) + "";
    assert "event: " + name + "\n" + "data: " + line + "\n" + "\n" + ""
           == "event: " + name + "\ndata: " + line + "\n\n";
  }

  /** Each event survives its encoding, which fits on a line. */
  ghost predicate Legible(json: Json, events: seq<Event>) {
    forall i | 0 <= i < |events| ::
      json.unevent(json.event(events[i])) == Some(events[i]) && Carried(json.event(events[i]))
          && OneLine(Name(events[i]))
  }

  lemma ProperLegible(json: Json, events: seq<Event>)
    requires json.Sound() && AllProper(events)
    ensures Legible(json, events)
  {
    forall i | 0 <= i < |events|
      ensures json.unevent(json.event(events[i])) == Some(events[i]) && Carried(json.event(events[i]))
              && OneLine(Name(events[i]))
    {
      assert Proper(events[i]);
      NameOneLine(events[i]);
    }
  }

  /** The provider, fed with what writeEvent printed, maps exactly the events that were printed. */
  lemma {:induction false} ReadBack(json: Json, events: seq<Event>, now: int)
    requires json.Sound() && AllProper(events)
    ensures Payloads(ScanLines(Written(json, events))) == Encoded(json, events)
    ensures PayloadEvents(json, Payloads(ScanLines(Written(json, events))), now)
            == Wrapped(json, RunChunks(FRESH, events, now))
  {
    ProperLegible(json, events);
    WrittenPayloads(json, events, Written(json, events));
    EncodedDecodes(json, events);
    DecodesRun(json, events, Encoded(json, events), now);
  }

  lemma {:induction false} WrittenPayloads(json: Json, events: seq<Event>, written: string)
    requires Legible(json, events) && written == Written(json, events)
    ensures Payloads(ScanLines(written)) == Encoded(json, events)
  {
    var frames := Frames(json, events);
    FramesWrite(json, events);
    FramesCarried(json, events, frames);
    FramesRead(frames);
  }

  lemma {:induction false} FramesRead(frames: seq<Framed>)
    requires forall i | 0 <= i < |frames| :: OneLine(frames[i].name) && Carried(frames[i].payload)
    ensures Payloads(ScanLines(WriteEvents(frames))) == PayloadsOf(frames)
  {
    ReadsWhatIsWritten(EMPTY, frames);
    NothingLeft(ScanLines(WriteEvents(frames)), PayloadsOf(frames));
  }

  lemma NothingLeft(lines: seq<string>, payloads: seq<string>)
    requires ReadLines(EMPTY, lines) == Frame("", EMPTY.payloads + payloads)
    ensures Payloads(lines) == payloads
  {
    assert EMPTY.payloads + payloads == payloads;
  }

  lemma FramesCarried(json: Json, events: seq<Event>, frames: seq<Framed>)
    requires Legible(json, events) && frames == Frames(json, events)
    ensures forall i | 0 <= i < |frames| :: OneLine(frames[i].name) && Carried(frames[i].payload)
  {
  }

  lemma {:induction false} EncodedDecodes(json: Json, events: seq<Event>)
    requires Legible(json, events)
    ensures Decodes(json, Encoded(json, events), events)
    decreases |events|
  {
    if events != [] {
      assert forall i | 0 <= i < |events| - 1 :: events[1..][i] == events[i + 1];
      EncodedDecodes(json, events[1..]);
    }
  }

  lemma {:induction false} DecodesRun(json: Json, events: seq<Event>, payloads: seq<string>, now: int)
    requires Decodes(json, payloads, events)
    ensures PayloadState(json, payloads, now) == StateAfter(FRESH, events, now)
    ensures PayloadEvents(json, payloads, now) == Wrapped(json, RunChunks(FRESH, events, now))
    decreases |events|
  {
    if events != [] {
      var n := |events| - 1;
      var init, e, before := events[..n], events[n], payloads[..n];
      assert events == init + [e] && payloads == before + [payloads[n]];
      DecodesRun(json, init, before, now);
      AfterLast(FRESH, init, e, now);
      DecodesLast(json, before, payloads[n], e, now);
      WrappedConcat(json, RunChunks(FRESH, init, now), Chunks(StateAfter(FRESH, events, now), e));
    }
  }

  lemma DecodesLast(json: Json, payloads: seq<string>, payload: string, e: Event, now: int)
    requires json.unevent(payload) == Some(e)
    ensures var all := payloads + [payload];
            PayloadState(json, all, now) == Next(PayloadState(json, payloads, now), e, now)
            && PayloadEvents(json, all, now)
               == PayloadEvents(json, payloads, now) + Wrapped(json, Chunks(PayloadState(json, all, now), e))
  {
    assert (payloads + [payload])[..|payloads|] == payloads;
  }

  lemma WrappedConcat(json: Json, a: seq<Chunk>, b: seq<Chunk>)
    ensures Wrapped(json, a + b) == Wrapped(json, a) + Wrapped(json, b)
  {
  }

  // ---- the handler's lines ---------------------------------------------------------------------

  lemma {:induction false} PrintedReads(json: Json, ids: Ids, t: T, chunks: seq<Chunk>)
    requires json.Sound()
    ensures Run(ids, t, ReadsOf(json, Split(Printed(Wrapped(json, chunks) + [Done]))))
            == Run(ids, t, Gots(chunks) + [Finish])
    decreases |chunks|
  {
    if chunks == [] {
      assert Wrapped(json, chunks) + [Done] == [Done] && Gots(chunks) + [Finish] == [Finish];
      PrintedEnd(json, ids, t);
    } else {
      var c, rest := chunks[0], Wrapped(json, chunks[1..]) + [Done];
      PrintedReads(json, ids, After(t, Got(c)), chunks[1..]);
      FirstChunk(json, chunks);
      ChunkRead(json, ids, t, c, rest);
      RunFirst(ids, t, Got(c), Gots(chunks[1..]) + [Finish]);
    }
  }

  lemma FirstChunk(json: Json, chunks: seq<Chunk>)
    requires chunks != []
    ensures Wrapped(json, chunks) + [Done] == [Data(json.chunk(chunks[0]))] + (Wrapped(json, chunks[1..]) + [Done])
    ensures Gots(chunks) + [Finish] == [Got(chunks[0])] + (Gots(chunks[1..]) + [Finish])
  {
  }

  lemma {:induction false} ChunkRead(json: Json, ids: Ids, t: T, c: Chunk, rest: seq<StreamEvent>)
    requires json.Sound()
    ensures Run(ids, t, ReadsOf(json, Split(Printed([Data(json.chunk(c))] + rest))))
            == Emit(ids, t, Got(c)) + Run(ids, After(t, Got(c)), ReadsOf(json, Split(Printed(rest))))
  {
    assert ([Data(json.chunk(c))] + rest)[1..] == rest;
    LineRead(json, ids, t, json.chunk(c), Printed(rest), Got(c));
  }

  lemma {:induction false} PrintedEnd(json: Json, ids: Ids, t: T)
    ensures Run(ids, t, ReadsOf(json, Split(Printed([Done])))) == Run(ids, t, [Finish])
  {
    DoneLine();
    LineRead(json, ids, t, DONE, "", Finish);
    NothingRead(json, ids, After(t, Finish));
    RunFirst(ids, t, Finish, []);
    assert [Finish] + [] == [Finish];
  }

  lemma DoneLine()
    ensures Printed([Done]) == "data: " + DONE + "\n" + "\n" + ""
    ensures OneLine(DONE) && Strings.Trimmed(DONE)
  {
    assert "data: [DONE]\n\n" == "data: " + DONE + "\n" + "\n" + "";
  }

  lemma NothingRead(json: Json, ids: Ids, t: T)
    ensures Run(ids, t, ReadsOf(json, Split(""))) == []
  {
    assert ReadsOf(json, [""]) == [Ignored] + ReadsOf(json, [""][1..]);
    RunFirst(ids, t, Ignored, []);
    assert [Ignored] + [] == [Ignored];
  }

  /** One printed line and the blank line after it are read as `r`. */
  lemma LineRead(json: Json, ids: Ids, t: T, bytes: string, rest: string, r: Read)
    requires OneLine(bytes) && Strings.Trimmed(bytes) && bytes != ""
    requires if bytes == DONE then r == Finish else json.unchunk(bytes).Some? && r == Got(json.unchunk(bytes).value)
    ensures Run(ids, t, ReadsOf(json, Split("data: " + bytes + "\n" + "\n" + rest)))
            == Emit(ids, t, r) + Run(ids, After(t, r), ReadsOf(json, Split(rest)))
  {
    var line := "data: " + bytes;
    assert line + "\n" + "\n" + rest == line + "\n" + ("\n" + rest);
    SplitLine(line, "\n" + rest);
    assert "\n" + rest == "" + "\n" + rest;
    SplitLine("", rest);
    ReadOfLine(json, bytes, r);
    var later := ReadsOf(json, Split(rest));
    var pieces := [""] + Split(rest);
    assert ([line] + pieces)[1..] == pieces && pieces[1..] == Split(rest);
    assert ReadOf(json, "") == Ignored;
    assert ReadsOf(json, pieces) == [Ignored] + later;
    RunFirst(ids, t, r, [Ignored] + later);
    RunFirst(ids, After(t, r), Ignored, later);
    assert [] + Run(ids, After(t, r), later) == Run(ids, After(t, r), later);
  }

  lemma ReadOfLine(json: Json, bytes: string, r: Read)
    requires Strings.Trimmed(bytes) && bytes != ""
    requires if bytes == DONE then r == Finish else json.unchunk(bytes).Some? && r == Got(json.unchunk(bytes).value)
    ensures ReadOf(json, "data: " + bytes) == r
  {
    TrimmedLine(bytes);
    ValueOfLine(bytes);
  }

  lemma TrimmedLine(bytes: string)
    requires Strings.Trimmed(bytes) && bytes != ""
    ensures Strings.TrimSpace("data: " + bytes) == "data: " + bytes != ""
  {
    var line := "data: " + bytes;
    assert line[0] == 'd' && line[|line| - 1] == bytes[|bytes| - 1];
    Strings.TrimSpaceStrips("", line, "");
    assert "" + line + "" == line;
  }

  lemma ValueOfLine(bytes: string)
    requires Strings.Trimmed(bytes) && bytes != ""
    ensures IsData("data: " + bytes) && Value("data: " + bytes) == bytes
  {
    var line := "data: " + bytes;
    assert "data:" <= line && line[5..] == " " + bytes + "";
    Strings.TrimSpaceStrips(" ", bytes, "");
  }

  // ---- there and back --------------------------------------------------------------------------

  function ChunkText(chunks: seq<Chunk>): string
    decreases |chunks|
  {
    if chunks == [] then "" else TextOf(chunks[0]) + ChunkText(chunks[1..])
  }

  lemma {:induction false} ChunkTextConcat(a: seq<Chunk>, b: seq<Chunk>)
    ensures ChunkText(a + b) == ChunkText(a) + ChunkText(b)
    decreases |a|
  {
    if a == [] {
      assert a + b == b;
    } else {
      assert (a + b)[1..] == a[1..] + b;
      ChunkTextConcat(a[1..], b);
    }
  }

  /** The provider passes on the text of its events. */
  lemma {:induction false} ChunksKeepText(s: State, events: seq<Event>, now: int)
    ensures ChunkText(RunChunks(s, events, now)) == DeltaText(events)
    decreases |events|
  {
    if events != [] {
      var s' := Next(s, events[0], now);
      ChunksKeepText(s', events[1..], now);
      OneKeepsText(s', events[0]);
      ChunkTextConcat(Chunks(s', events[0]), RunChunks(s', events[1..], now));
    }
  }

  lemma OneKeepsText(s: State, e: Event)
    ensures ChunkText(Chunks(s, e)) == if e.BlockDelta? && e.delta.kind == "text_delta" then e.delta.text else ""
  {
    var chunks := Chunks(s, e);
    if chunks != [] {
      assert ChunkText(chunks[1..]) == "" by {
        if |chunks| == 2 { assert chunks[1..][1..] == [] && TextOf(chunks[1]) == ""; }
      }
    }
  }

  lemma {:induction false} EmitsProper(ids: Ids, t: T, heard: seq<Read>)
    ensures AllProper(Run(ids, t, heard))
    decreases |heard|
  {
    if heard != [] {
      EmitProper(ids, t, heard[0]);
      EmitsProper(ids, After(t, heard[0]), heard[1..]);
      ProperCat(Emit(ids, t, heard[0]), Run(ids, After(t, heard[0]), heard[1..]));
    }
  }

  lemma EmitProper(ids: Ids, t: T, r: Read)
    ensures forall i | 0 <= i < |Emit(ids, t, r)| :: !Emit(ids, t, r)[i].Other?
  {
  }

  lemma ProperCat(a: seq<Event>, b: seq<Event>)
    requires AllProper(a) && AllProper(b)
    ensures AllProper(a + b)
  {
  }

  /** Whatever chunks the ingress translated, the provider reads their text back from what it wrote. */
  lemma TextRoundTrip(json: Json, ids: Ids, heard: seq<Read>, now: int)
    requires json.Sound()
    ensures var written := Written(json, Run(ids, START, heard));
            exists chunks :: PayloadEvents(json, Payloads(ScanLines(written)), now) == Wrapped(json, chunks)
                             && ChunkText(chunks) == HeardText(heard)
  {
    var events := Run(ids, START, heard);
    EmitsProper(ids, START, heard);
    ReadBack(json, events, now);
    ChunksKeepText(FRESH, events, now);
    TextConserved(ids, START, heard);
  }
}
