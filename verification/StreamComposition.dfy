/** What the two stream translations guarantee, each alone and composed. */
module StreamComposition {
  import opened Wrappers
  import opened SseFraming
  import opened AnthropicStream
  import opened StreamTranslation
  import Strings = Text

  lemma {:induction false} RunConcat(ids: Ids, t: T, a: seq<Read>, b: seq<Read>)
    ensures Run(ids, t, a + b) == Run(ids, t, a) + Run(ids, End(t, a), b)
    ensures End(t, a + b) == End(End(t, a), b)
    decreases |a|
  {
    if a == [] {
      assert a + b == b;
    } else {
      var t', rest := After(t, a[0]), a[1..];
      assert (a + b)[1..] == rest + b;
      RunConcat(ids, t', rest, b);
      Reassociate(Emit(ids, t, a[0]), Run(ids, t', rest), Run(ids, End(t', rest), b));
    }
  }

  // ---- any input -------------------------------------------------------------------------------

  predicate AnyChunk(heard: seq<Read>) {
    exists i :: 0 <= i < |heard| && heard[i].Got?
  }

  /** The opening comes first, and only if a chunk comes at all; the rest is what a started stream emits. */
  lemma {:induction false} OpensFirst(ids: Ids, heard: seq<Read>)
    ensures Run(ids, START, heard) ==
            if AnyChunk(heard) then Opening(ids) + Run(ids, START.(started := true), heard) else []
    decreases |heard|
  {
    if heard != [] {
      var r, rest := heard[0], heard[1..];
      match r
      case Got(c) =>
        assert AnyChunk(heard);
        OpensNow(ids, c, rest);
      case _ =>
        OpensFirst(ids, rest);
        assert AnyChunk(heard) <==> AnyChunk(rest) by {
          assert forall i | 0 < i < |heard| :: heard[i] == rest[i - 1];
          assert forall i | 0 <= i < |rest| :: rest[i] == heard[i + 1];
        }
        assert Emit(ids, START, r) == [] && Emit(ids, START.(started := true), r) == [];
        assert forall s: seq<Event> :: [] + s == s;
    }
  }

  lemma OpensNow(ids: Ids, c: Chunk, rest: seq<Read>)
    ensures Run(ids, START, [Got(c)] + rest) == Opening(ids) + Run(ids, START.(started := true), [Got(c)] + rest)
  {
    RunFirst(ids, START, Got(c), rest);
    RunFirst(ids, START.(started := true), Got(c), rest);
    var body, after := TextEvents(c) + ClosingFor(c), Run(ids, After(START, Got(c)), rest);
    assert Emit(ids, START, Got(c)) == Opening(ids) + body;
    assert Emit(ids, START.(started := true), Got(c)) == body;
    Reassociate(Opening(ids), body, after);
  }

  predicate IsOpening(e: Event) {
    e.MessageStart? || e.BlockStart?
  }

  /** A started stream never opens again, whatever it hears. */
  lemma {:induction false} NeverReopens(ids: Ids, t: T, heard: seq<Read>)
    requires t.started
    ensures forall e | e in Run(ids, t, heard) :: !IsOpening(e)
    decreases |heard|
  {
    if heard != [] {
      NeverReopens(ids, After(t, heard[0]), heard[1..]);
    }
  }

  function DeltaText(events: seq<Event>): string
    decreases |events|
  {
    if events == [] then ""
    else
      var e := events[0];
      (if e.BlockDelta? && e.delta.kind == "text_delta" then e.delta.text else "") + DeltaText(events[1..])
  }

  function HeardText(heard: seq<Read>): string
    decreases |heard|
  {
    if heard == [] then "" else TextIn(heard[0]) + HeardText(heard[1..])
  }

  function TextIn(r: Read): string {
    if !r.Got? || r.chunk.choices == [] || r.chunk.choices[0].delta == None then ""
    else
      match r.chunk.choices[0].delta.value.content
      case Text(t) => t
      case Parts(texts) => Concat(texts)
      case _ => ""
  }

  lemma {:induction false} DeltaTextConcat(a: seq<Event>, b: seq<Event>)
    ensures DeltaText(a + b) == DeltaText(a) + DeltaText(b)
    decreases |a|
  {
    if a == [] {
      assert a + b == b;
    } else {
      assert (a + b)[1..] == a[1..] + b;
      DeltaTextConcat(a[1..], b);
    }
  }

  lemma EmitText(ids: Ids, t: T, r: Read)
    ensures DeltaText(Emit(ids, t, r)) == TextIn(r)
    ensures After(t, r).outputText == t.outputText + TextIn(r)
  {
    match r
    case Got(c) =>
      DeltaTextConcat(OpeningFor(ids, t) + TextEvents(c), ClosingFor(c));
      DeltaTextConcat(OpeningFor(ids, t), TextEvents(c));
      Silent(OpeningFor(ids, t));
      Silent(ClosingFor(c));
      TextEventsText(c);
    case _ => Silent(Emit(ids, t, r));
  }

  lemma TextEventsText(c: Chunk)
    ensures DeltaText(TextEvents(c)) == TextOf(c)
  {
    if TextOf(c) != "" { assert TextEvents(c)[1..] == []; }
  }

  lemma {:induction false} Silent(events: seq<Event>)
    requires forall i | 0 <= i < |events| :: !events[i].BlockDelta?
    ensures DeltaText(events) == ""
    decreases |events|
  {
    if events != [] { Silent(events[1..]); }
  }

  /** No text is lost, doubled or moved: the deltas, the chunks and `outputText` agree. */
  lemma {:induction false} TextConserved(ids: Ids, t: T, heard: seq<Read>)
    ensures DeltaText(Run(ids, t, heard)) == HeardText(heard)
    ensures End(t, heard).outputText == t.outputText + HeardText(heard)
    decreases |heard|
  {
    if heard != [] {
      var r, rest := heard[0], heard[1..];
      var t' := After(t, r);
      EmitText(ids, t, r);
      TextConserved(ids, t', rest);
      DeltaTextConcat(Emit(ids, t, r), Run(ids, t', rest));
      Reassociate(t.outputText, TextIn(r), HeardText(rest));
    }
  }

  // ---- when the output is one message ----------------------------------------------------------

  predicate IsText(e: Event) {
    e.BlockDelta? && e == BlockDelta(0, Delta("text_delta", e.delta.text)) && e.delta.text != ""
  }

  /** Texts, then one stop of each kind. */
  predicate IsBody(events: seq<Event>)
    decreases |events|
  {
    events != [] &&
    if IsText(events[0]) then IsBody(events[1..])
    else |events| == 3 && events[0] == BlockStop(0) && events[1].MessageDelta? && events[2] == MessageStop
  }

  predicate IsMessage(ids: Ids, events: seq<Event>) {
    && |events| >= 2 && events[0] == MessageStart(ids.messageID, ids.model)
    && events[1] == BlockStart(0, Block("text", "", "")) && IsBody(events[2..])
  }

  datatype Phase = Talking | Finished | Stopped

  /** One chunk finishes, exactly one end mark follows it, and after it no chunk finishes or has text. */
  predicate FinishesOnce(heard: seq<Read>, phase: Phase)
    decreases |heard|
  {
    if heard == [] then phase == Stopped
    else
      match heard[0]
      case Ignored => FinishesOnce(heard[1..], phase)
      case Finish => phase != Stopped && FinishesOnce(heard[1..], if phase == Finished then Stopped else phase)
      case Got(c) =>
        if phase == Talking then FinishesOnce(heard[1..], if FinishOf(c).Some? then Finished else Talking)
        else TextOf(c) == "" && FinishOf(c).None? && FinishesOnce(heard[1..], phase)
  }

  predicate Fits(events: seq<Event>, phase: Phase) {
    match phase
    case Talking => IsBody(events)
    case Finished => events == [MessageStop]
    case Stopped => events == []
  }

  lemma {:induction false} FitsIff(ids: Ids, t: T, heard: seq<Read>, phase: Phase)
    requires t.started && (t.done <==> phase != Talking)
    ensures Fits(Run(ids, t, heard), phase) <==> FinishesOnce(heard, phase)
    decreases |heard|
  {
    if heard != [] {
      var r, rest := heard[0], heard[1..];
      var t' := After(t, r);
      var tail := Run(ids, t', rest);
      match r
      case Ignored => FitsIff(ids, t', rest, phase); assert [] + tail == tail;
      case Finish =>
        if phase == Talking {
          FitsIff(ids, t', rest, phase);
          assert [] + tail == tail;
        } else {
          FitsIff(ids, t', rest, Stopped);
          assert |[MessageStop] + tail| == 1 + |tail|;
          assert [MessageStop] + tail == [MessageStop] <==> tail == [];
        }
      case Got(c) =>
        var closed := FinishOf(c).Some?;
        FitsIff(ids, t', rest, if phase == Talking && closed then Finished else phase);
        ChunkFits(c, tail, phase);
        assert Emit(ids, t, r) == TextEvents(c) + ClosingFor(c);
    }
  }

  lemma ChunkFits(c: Chunk, tail: seq<Event>, phase: Phase)
    ensures var events := TextEvents(c) + ClosingFor(c) + tail;
            Fits(events, phase) <==>
            if phase == Talking then Fits(tail, if FinishOf(c).Some? then Finished else Talking)
            else TextOf(c) == "" && FinishOf(c).None? && Fits(tail, phase)
  {
    var events, closing := TextEvents(c) + ClosingFor(c) + tail, ClosingFor(c) + tail;
    if TextOf(c) == "" {
      assert events == closing;
    } else {
      assert events[0] == TextEvent(TextOf(c)) && events[1..] == closing;
    }
    assert Fits(events, phase) <==> (phase == Talking || TextOf(c) == "") && Fits(closing, phase);
    if FinishOf(c).Some? {
      assert closing[0] == BlockStop(0) && closing[1].MessageDelta? && closing[2..] == tail;
      assert |closing| == 3 && closing[2] == MessageStop <==> tail == [MessageStop];
    } else {
      assert closing == tail;
    }
  }

  /** The output is one complete message exactly when the chunks finish once. */
  lemma MessageIff(ids: Ids, heard: seq<Read>)
    ensures IsMessage(ids, Run(ids, START, heard)) <==> FinishesOnce(heard, Talking)
  {
    var t := START.(started := true);
    OpensFirst(ids, heard);
    FitsIff(ids, t, heard, Talking);
    if AnyChunk(heard) {
      var out := Opening(ids) + Run(ids, t, heard);
      assert out[..2] == Opening(ids) && out[2..] == Run(ids, t, heard);
    } else {
      NoChunkNoFinish(heard);
    }
  }

  lemma {:induction false} NoChunkNoFinish(heard: seq<Read>)
    requires !AnyChunk(heard)
    ensures !FinishesOnce(heard, Talking)
    decreases |heard|
  {
    if heard != [] {
      assert !heard[0].Got?;
      assert forall i | 0 <= i < |heard| - 1 :: heard[1..][i] == heard[i + 1];
      NoChunkNoFinish(heard[1..]);
    }
  }

  // ---- provider, then ingress ------------------------------------------------------------------

  function Gots(chunks: seq<Chunk>): (heard: seq<Read>)
    ensures |heard| == |chunks| && forall i | 0 <= i < |heard| :: heard[i] == Got(chunks[i])
  {
    seq(|chunks|, i requires 0 <= i < |chunks| => Got(chunks[i]))
  }

  // ---- what a finish reason makes of a message -------------------------------------------------

  function StopsIn(events: seq<Event>): seq<Event>
    decreases |events|
  {
    if events == [] then []
    else (if events[0].BlockStop? || events[0].MessageDelta? then [events[0]] else []) + StopsIn(events[1..])
  }

  /** For every chunk with a finish reason the block stops and the reason is reported, with the completion tokens the
      chunk carries, or none. */
  function StopsHeard(heard: seq<Read>): seq<Event>
    decreases |heard|
  {
    if heard == [] then [] else StopsOf(heard[0]) + StopsHeard(heard[1..])
  }

  function StopsOf(r: Read): seq<Event> {
    if !r.Got? || r.chunk.choices == [] || r.chunk.choices[0].finishReason == None then []
    else
      var tokens := if r.chunk.usage == None then 0 else r.chunk.usage.value.completionTokens;
      [BlockStop(0), MessageDelta(Some(Told(r.chunk.choices[0].finishReason.value)), Some(Tokens(0, tokens)))]
  }

  function Told(finish: string): string {
    match finish
    case "length" => "max_tokens"
    case "tool_calls" => "tool_use"
    case "content_filter" => "stop_sequence"
    case _ => "end_turn"
  }

  lemma {:induction false} StopsAreHeard(ids: Ids, t: T, heard: seq<Read>)
    ensures StopsIn(Run(ids, t, heard)) == StopsHeard(heard)
    decreases |heard|
  {
    if heard != [] {
      StopsAreHeard(ids, After(t, heard[0]), heard[1..]);
      StopsInCat(Emit(ids, t, heard[0]), Run(ids, After(t, heard[0]), heard[1..]));
      StopsEmitted(ids, t, heard[0]);
    }
  }

  lemma StopsEmitted(ids: Ids, t: T, r: Read)
    ensures StopsIn(Emit(ids, t, r)) == StopsOf(r)
  {
    match r
    case Got(c) =>
      var opening, text, closing := OpeningFor(ids, t), TextEvents(c), ClosingFor(c);
      StopsInCat(opening + text, closing);
      StopsInCat(opening, text);
      Openings(ids, t, c);
      ClosingStops(c);
      assert [] + [] + StopsOf(r) == StopsOf(r);
    case _ => NoStops(Emit(ids, t, r));
  }

  lemma Openings(ids: Ids, t: T, c: Chunk)
    ensures StopsIn(OpeningFor(ids, t)) == [] && StopsIn(TextEvents(c)) == []
  {
    NoStops(OpeningFor(ids, t));
    NoStops(TextEvents(c));
  }

  lemma ClosingStops(c: Chunk)
    ensures StopsIn(ClosingFor(c)) == StopsOf(Got(c))
  {
    assert ClosingFor(c) == StopsOf(Got(c));
    AllStops(ClosingFor(c));
  }

  lemma {:induction false} NoStops(events: seq<Event>)
    requires forall e | e in events :: !e.BlockStop? && !e.MessageDelta?
    ensures StopsIn(events) == []
    decreases |events|
  {
    if events != [] { NoStops(events[1..]); }
  }

  lemma {:induction false} AllStops(events: seq<Event>)
    requires forall e | e in events :: e.BlockStop? || e.MessageDelta?
    ensures StopsIn(events) == events
    decreases |events|
  {
    if events != [] { AllStops(events[1..]); }
  }

  lemma {:induction false} StopsInCat(a: seq<Event>, b: seq<Event>)
    ensures StopsIn(a + b) == StopsIn(a) + StopsIn(b)
    decreases |a|
  {
    if a == [] {
      assert a + b == b;
    } else {
      assert (a + b)[1..] == a[1..] + b;
      StopsInCat(a[1..], b);
      Reassociate(if a[0].BlockStop? || a[0].MessageDelta? then [a[0]] else [], StopsIn(a[1..]), StopsIn(b));
    }
  }

  predicate GivesReason(e: Event) {
    e.MessageDelta? && e.stopReason.Some? && e.stopReason.value != ""
  }

  predicate HasText(e: Event) {
    e.BlockDelta? && e.delta.kind == "text_delta" && e.delta.text != ""
  }

  /** The non-empty texts, in order. */
  function Said(events: seq<Event>): seq<Event>
    decreases |events|
  {
    if events == [] then []
    else
      (if HasText(events[0]) then [BlockDelta(0, Delta("text_delta", events[0].delta.text))] else [])
      + Said(events[1..])
  }

  /** Events without a stop reason, tool calls included, pass on nothing but their texts. */
  lemma {:induction false} SaysTexts(ids: Ids, t: T, s: State, events: seq<Event>, now: int)
    requires t.started && forall i | 0 <= i < |events| :: !GivesReason(events[i])
    ensures var heard := Gots(RunChunks(s, events, now));
            Run(ids, t, heard) == Said(events) && End(t, heard).started && End(t, heard).done == t.done
    decreases |events|
  {
    if events != [] {
      var e, rest, s' := events[0], events[1..], Next(s, events[0], now);
      var first, later := Chunks(s', e), RunChunks(s', rest, now);
      OneSaysText(ids, t, s', e);
      SaysTexts(ids, End(t, Gots(first)), s', rest, now);
      RunGots(ids, t, first, later);
    }
  }

  lemma RunGots(ids: Ids, t: T, a: seq<Chunk>, b: seq<Chunk>)
    ensures Run(ids, t, Gots(a + b)) == Run(ids, t, Gots(a)) + Run(ids, End(t, Gots(a)), Gots(b))
    ensures End(t, Gots(a + b)) == End(End(t, Gots(a)), Gots(b))
  {
    GotsConcat(a, b);
    RunConcat(ids, t, Gots(a), Gots(b));
  }

  lemma GotsConcat(a: seq<Chunk>, b: seq<Chunk>)
    ensures Gots(a + b) == Gots(a) + Gots(b)
  {
  }

  lemma OneSaysText(ids: Ids, t: T, s: State, e: Event)
    requires t.started && !GivesReason(e)
    ensures var heard := Gots(Chunks(s, e));
            Run(ids, t, heard) == (if HasText(e) then [TextEvent(e.delta.text)] else [])
            && End(t, heard).started && End(t, heard).done == t.done
  {
    var chunks := Chunks(s, e);
    if chunks != [] {
      var c := chunks[0];
      assert chunks == [c];
      assert Gots(chunks) == [Got(c)] + [];
      RunFirst(ids, t, Got(c), []);
      assert TextOf(c) == if HasText(e) then e.delta.text else "";
      assert FinishOf(c).None?;
    }
  }

  /** What a stop reason has become on the other side: a tool's, in whatever case, and the token limit's are told
      apart, everything else is the end of a turn. */
  function Composed(reason: string): string {
    if FoldsTo(reason, "tool_use") then "tool_use" else if reason == "max_tokens" then "max_tokens" else "end_turn"
  }

  /** A stop reason survives both mappings only if it is one of these; "stop_sequence" becomes "end_turn". */
  lemma ReasonSurvives(reason: string)
    ensures MapFinishReason(MapStopReason(reason, FoldsTo(reason, "tool_use"))) == Composed(reason)
    ensures Composed(reason) == reason <==> reason in {"end_turn", "max_tokens", "tool_use"}
    ensures Composed("stop_sequence") == "end_turn" && Composed(reason) in {"end_turn", "max_tokens", "tool_use"}
  {
    assert FoldsTo("tool_use", "tool_use");
    assert !FoldsTo("end_turn", "tool_use") && !FoldsTo("stop_sequence", "tool_use") by {
      assert "end_turn"[0] == 'e' && "tool_use"[0] == 't';
    }
    assert !FoldsTo("max_tokens", "tool_use");
  }

  /** The other way round: a content filter cannot be told from a stop any more. */
  lemma FinishReasonReturns(reason: string)
    ensures var back := MapStopReason(MapFinishReason(reason), FoldsTo(MapFinishReason(reason), "tool_use"));
            (back == reason <==> reason in {"stop", "length", "tool_calls"}) && back in {"stop", "length", "tool_calls"}
    ensures MapFinishReason(reason) == "stop_sequence" <==> reason == "content_filter"
  {
  }

  /** A run that gives one stop reason, and no text after it. */
  ghost predicate FinishedRun(events: seq<Event>, i: nat) {
    && i < |events| && GivesReason(events[i])
    && (forall j | 0 <= j < |events| && j != i :: !GivesReason(events[j]))
    && (forall j | i < j < |events| :: !HasText(events[j]))
  }

  function Expected(ids: Ids, events: seq<Event>, reason: string): seq<Event> {
    [MessageStart(ids.messageID, ids.model), BlockStart(0, Block("text", "", ""))]
    + (Said(events) + Stops(reason) + [MessageStop])
  }

  /** One start, one block, the same texts in order, one stop, the mapped reason; the usage, which comes in
      a chunk of its own, is reported as zero. */
  lemma Composition(ids: Ids, events: seq<Event>, i: nat, now: int)
    requires FinishedRun(events, i)
    ensures Run(ids, START, Gots(RunChunks(FRESH, events, now)) + [Finish])
            == Expected(ids, events[..i], events[i].stopReason.value)
  {
    var t, heard := START.(started := true), Gots(RunChunks(FRESH, events, now));
    StartedRun(ids, t, events, i, now);
    AndFinish(ids, t, heard);
    assert AnyChunk(heard + [Finish]) by {
      var j :| 0 <= j < |heard| && heard[j].Got?;
      assert (heard + [Finish])[j].Got?;
    }
    OpensFirst(ids, heard + [Finish]);
  }

  lemma {:induction false} StartedRun(ids: Ids, t: T, events: seq<Event>, i: nat, now: int)
    requires FinishedRun(events, i) && t.started
    ensures var heard := Gots(RunChunks(FRESH, events, now));
            Run(ids, t, heard) == Said(events[..i]) + Stops(events[i].stopReason.value) && End(t, heard).done
                && AnyChunk(heard)
  {
    var before, e, after := events[..i], events[i], events[i + 1..];
    var s := StateAfter(FRESH, before, now);
    var a, b, c := RunChunks(FRESH, before, now), Chunks(s, e), RunChunks(s, after, now);
    ThreeParts(events, i, now);
    SaysTexts(ids, t, FRESH, before, now);
    var t' := End(t, Gots(a));
    ReasonCloses(ids, t', s, e);
    var t'' := End(t', Gots(b));
    SaysTexts(ids, t'', s, after, now);
    SaysNothing(after);
    RunGots(ids, t, a, b);
    RunGots(ids, t, a + b, c);
    assert Gots(a + b + c)[|a|].Got?;
    assert Run(ids, t, Gots(a + b)) + [] == Run(ids, t, Gots(a + b));
  }

  function Stops(reason: string): seq<Event> {
    [BlockStop(0), MessageDelta(Some(Composed(reason)), Some(Tokens(0, 0)))]
  }

  lemma ThreeParts(events: seq<Event>, i: nat, now: int)
    requires i < |events| && GivesReason(events[i])
    ensures var s := StateAfter(FRESH, events[..i], now);
            RunChunks(FRESH, events, now)
            == RunChunks(FRESH, events[..i], now) + Chunks(s, events[i]) + RunChunks(s, events[i + 1..], now)
  {
    var before, rest := events[..i], events[i..];
    assert events == before + rest && rest[1..] == events[i + 1..];
    RunChunksConcat(FRESH, before, rest, now);
    var s := StateAfter(FRESH, before, now);
    assert Next(s, events[i], now) == s;
    Reassociate(RunChunks(FRESH, before, now), Chunks(s, events[i]), RunChunks(s, rest[1..], now));
  }

  lemma AndFinish(ids: Ids, t: T, heard: seq<Read>)
    requires End(t, heard).done
    ensures Run(ids, t, heard + [Finish]) == Run(ids, t, heard) + [MessageStop]
  {
    RunConcat(ids, t, heard, [Finish]);
    RunFirst(ids, End(t, heard), Finish, []);
    assert [Finish] + [] == [Finish];
  }

  lemma {:induction false} RunChunksConcat(s: State, a: seq<Event>, b: seq<Event>, now: int)
    ensures RunChunks(s, a + b, now) == RunChunks(s, a, now) + RunChunks(StateAfter(s, a, now), b, now)
    decreases |a|
  {
    if a == [] {
      assert a + b == b;
    } else {
      assert (a + b)[1..] == a[1..] + b;
      RunChunksConcat(Next(s, a[0], now), a[1..], b, now);
    }
  }

  lemma {:induction false} SaysNothing(events: seq<Event>)
    requires forall j | 0 <= j < |events| :: !HasText(events[j])
    ensures Said(events) == []
    decreases |events|
  {
    if events != [] { SaysNothing(events[1..]); }
  }

  lemma ReasonCloses(ids: Ids, t: T, s: State, e: Event)
    requires t.started && GivesReason(e)
    ensures var heard := Gots(Chunks(s, e));
            heard != [] && Run(ids, t, heard) == Stops(e.stopReason.value)
            && End(t, heard).started && End(t, heard).done
  {
    ReasonSurvives(e.stopReason.value);
    var chunks := Chunks(s, e);
    var last := chunks[|chunks| - 1];
    var usage := Gots(chunks[..|chunks| - 1]);
    assert Gots(chunks) == usage + [Got(last)];
    RunConcat(ids, t, usage, [Got(last)]);
    RunFirst(ids, End(t, usage), Got(last), []);
    assert [Got(last)] + [] == [Got(last)];
    if usage != [] {
      assert usage == [Got(chunks[0])] + [];
      RunFirst(ids, t, Got(chunks[0]), []);
    }
  }
}
