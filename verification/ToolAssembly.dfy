/** What a client gets that puts the provider's chunks together (providers/anthropic/stream.go): the tool calls by id,
    the roles, the finish reasons. Told from the events alone. */
module ToolAssembly {
  import opened Wrappers
  import opened AnthropicStream

  // ---- tool calls ------------------------------------------------------------------------------

  function CallsIn(chunks: seq<Chunk>): seq<ToolCall>
    decreases |chunks|
  {
    if chunks == [] then [] else CallsOf(chunks[0]) + CallsIn(chunks[1..])
  }

  function CallsOf(c: Chunk): seq<ToolCall> {
    if c.choices != [] && c.choices[0].delta.Some? then c.choices[0].delta.value.toolCalls else []
  }

  /** The pieces a client collects under an id, */
  function Pieces(calls: seq<ToolCall>, id: string): seq<ToolCall>
    decreases |calls|
  {
    if calls == [] then [] else (if calls[0].id == id then [calls[0]] else []) + Pieces(calls[1..], id)
  }

  /** and the arguments they make up. */
  function Arguments(calls: seq<ToolCall>): string
    decreases |calls|
  {
    if calls == [] then "" else calls[0].arguments + Arguments(calls[1..])
  }

  predicate Opens(e: Event) {
    e.BlockStart? && e.block.kind == "tool_use"
  }

  /** The fragments sent for an index until another tool call opens there. */
  function Fragments(events: seq<Event>, index: int): string
    decreases |events|
  {
    if events == [] || (Opens(events[0]) && events[0].index == index) then ""
    else
      (if events[0].BlockDelta? && events[0].index == index && events[0].delta.kind == "input_json_delta"
       then events[0].delta.text else "")
      + Fragments(events[1..], index)
  }

  /** No tool call of this id opens. */
  ghost predicate NotOpened(events: seq<Event>, id: string) {
    forall e | e in events && Opens(e) :: e.block.id != id
  }

  /** A tool call whose id no other one has reaches the client whole: first its id and its name without arguments, then
      under the same id and name the fragments sent for its index, in order, up to the next tool call opened there. */
  lemma CallAssembled(before: seq<Event>, index: int, block: Block, after: seq<Event>, now: int)
    requires block.kind == "tool_use" && block.id != "" && NotOpened(before + after, block.id)
    ensures
      var chunks := RunChunks(FRESH, before + [BlockStart(index, block)] + after, now);
      var pieces := Pieces(CallsIn(chunks), block.id);
      && pieces != [] && pieces[0] == ToolCall(block.id, block.name, "")
      && (forall c | c in pieces :: c.id == block.id && c.name == block.name)
      && Arguments(pieces) == Fragments(after, index)
  {
    var e, call := BlockStart(index, block), ToolCall(block.id, block.name, "");
    var s' := Next(StateAfter(FRESH, before, now), e, now);
    var later := Pieces(CallsIn(RunChunks(s', after, now)), block.id);
    assert Pieces(CallsIn(RunChunks(FRESH, before + [e] + after, now)), block.id) == [call] + later by {
      NoneBefore(before, after, block.id, now);
      Opening(s', index, block);
      PiecesOfRun(before, e, after, block.id, now);
      assert [] + ([call] + later) == [call] + later;
    }
    assert (forall c | c in later :: c.id == block.id && c.name == block.name)
           && Arguments(later) == Fragments(after, index) by {
      NoneBefore(before, after, block.id, now);
      NextLookup(StateAfter(FRESH, before, now), e, now);
      Collected(s', after, index, block.id, block.name, now);
    }
    ArgumentsCat([call], later);
    OnePiece(call, block.id);
  }

  lemma NoneBefore(before: seq<Event>, after: seq<Event>, id: string, now: int)
    requires id != "" && NotOpened(before + after, id)
    ensures Pieces(CallsIn(RunChunks(FRESH, before, now)), id) == [] && NotOpened(after, id)
    ensures forall i :: Lookup(StateAfter(FRESH, before, now).toolID, i) != id
  {
    forall x | x in before || x in after ensures x in before + after {}
    forall i ensures Lookup(FRESH.toolID, i) == "" {}
    Elsewhere(FRESH, before, id, now);
  }

  lemma PiecesOfRun(before: seq<Event>, e: Event, after: seq<Event>, id: string, now: int)
    ensures var s := StateAfter(FRESH, before, now);
            var s' := Next(s, e, now);
            Pieces(CallsIn(RunChunks(FRESH, before + [e] + after, now)), id)
            == Pieces(CallsIn(RunChunks(FRESH, before, now)), id)
               + (Pieces(CallsIn(Chunks(s', e)), id) + Pieces(CallsIn(RunChunks(s', after, now)), id))
  {
    var s := StateAfter(FRESH, before, now);
    var s' := Next(s, e, now);
    var first, opening, rest := RunChunks(FRESH, before, now), Chunks(s', e), RunChunks(s', after, now);
    Reassociate(before, [e], after);
    RunSplit(FRESH, before, [e] + after, now);
    assert ([e] + after)[1..] == after && RunChunks(s, [e] + after, now) == opening + rest;
    CallsInCat(first, opening + rest);
    CallsInCat(opening, rest);
    PiecesCat(CallsIn(first), CallsIn(opening) + CallsIn(rest), id);
    PiecesCat(CallsIn(opening), CallsIn(rest), id);
  }

  lemma Opening(s: State, index: int, block: Block)
    requires block.kind == "tool_use"
    ensures CallsIn(Chunks(s, BlockStart(index, block))) == [ToolCall(block.id, block.name, "")]
    ensures Pieces([ToolCall(block.id, block.name, "")], block.id) == [ToolCall(block.id, block.name, "")]
  {
    var chunks := Chunks(s, BlockStart(index, block));
    assert chunks[1..] == [];
    assert [ToolCall(block.id, block.name, "")][1..] == [];
  }

  /** While no index holds the id nothing is sent under it. */
  lemma {:induction false} Elsewhere(s: State, events: seq<Event>, id: string, now: int)
    requires id != "" && NotOpened(events, id) && forall i :: Lookup(s.toolID, i) != id
    ensures Pieces(CallsIn(RunChunks(s, events, now)), id) == []
    ensures forall i :: Lookup(StateAfter(s, events, now).toolID, i) != id
    decreases |events|
  {
    if events != [] {
      var e, s' := events[0], Next(s, events[0], now);
      assert e in events;
      forall x | x in events[1..] ensures x in events {}
      NextLookup(s, e, now);
      Elsewhere(s', events[1..], id, now);
      CallsInCat(Chunks(s', e), RunChunks(s', events[1..], now));
      PiecesCat(CallsIn(Chunks(s', e)), CallsIn(RunChunks(s', events[1..], now)), id);
      OneEvent(s', e);
      OtherPieces(CallsIn(Chunks(s', e)), id);
    }
  }

  lemma NextLookup(s: State, e: Event, now: int)
    ensures var s' := Next(s, e, now);
            forall i ::
              && Lookup(s'.toolID, i) == (if Opens(e) && i == e.index then e.block.id else Lookup(s.toolID, i))
              && Lookup(s'.toolName, i) == (if Opens(e) && i == e.index then e.block.name else Lookup(s.toolName, i))
  {
  }

  /** The calls of one event: a tool call opened, or a fragment under what its index holds. */
  lemma OneEvent(s: State, e: Event)
    ensures CallsIn(Chunks(s, e)) ==
            if Opens(e) then [ToolCall(e.block.id, e.block.name, "")]
            else if e.BlockDelta? && e.delta.kind == "input_json_delta"
            then [ToolCall(Lookup(s.toolID, e.index), Lookup(s.toolName, e.index), e.delta.text)]
            else []
  {
    var chunks := Chunks(s, e);
    if chunks != [] {
      assert CallsIn(chunks) == CallsOf(chunks[0]) + CallsIn(chunks[1..]);
      if |chunks| == 2 {
        assert CallsIn(chunks[1..]) == CallsOf(chunks[1]) + CallsIn(chunks[1..][1..]);
      } else {
        assert chunks[1..] == [];
      }
    }
  }

  lemma OtherPieces(calls: seq<ToolCall>, id: string)
    requires |calls| <= 1 && forall c | c in calls :: c.id != id
    ensures Pieces(calls, id) == []
  {
  }

  /** While an index holds the id, and no other does, what is sent under it are the fragments for that index. */
  lemma {:induction false} Collected(s: State, events: seq<Event>, index: int, id: string, name: string, now: int)
    requires id != "" && NotOpened(events, id)
    requires forall i :: Lookup(s.toolID, i) == id <==> i == index
    requires Lookup(s.toolName, index) == name
    ensures var pieces := Pieces(CallsIn(RunChunks(s, events, now)), id);
            (forall c | c in pieces :: c.id == id && c.name == name) && Arguments(pieces) == Fragments(events, index)
    decreases |events|
  {
    if events != [] {
      var e, s' := events[0], Next(s, events[0], now);
      assert e in events;
      forall x | x in events[1..] ensures x in events {}
      NextLookup(s, e, now);
      var here, later := CallsIn(Chunks(s', e)), CallsIn(RunChunks(s', events[1..], now));
      CallsInCat(Chunks(s', e), RunChunks(s', events[1..], now));
      PiecesCat(here, later, id);
      OneEvent(s', e);
      if Opens(e) && e.index == index {
        Elsewhere(s', events[1..], id, now);
        OtherPieces(here, id);
      } else {
        Collected(s', events[1..], index, id, name, now);
        ArgumentsCat(Pieces(here, id), Pieces(later, id));
        if here != [] { OnePiece(here[0], id); }
      }
    }
  }

  lemma OnePiece(c: ToolCall, id: string)
    ensures Pieces([c], id) == if c.id == id then [c] else []
    ensures Arguments([c]) == c.arguments
  {
    assert [c][1..] == [];
  }

  lemma {:induction false} CallsInCat(a: seq<Chunk>, b: seq<Chunk>)
    ensures CallsIn(a + b) == CallsIn(a) + CallsIn(b)
    decreases |a|
  {
    if a == [] {
      assert a + b == b;
    } else {
      assert (a + b)[1..] == a[1..] + b;
      CallsInCat(a[1..], b);
      Reassociate(CallsOf(a[0]), CallsIn(a[1..]), CallsIn(b));
    }
  }

  lemma {:induction false} PiecesCat(a: seq<ToolCall>, b: seq<ToolCall>, id: string)
    ensures Pieces(a + b, id) == Pieces(a, id) + Pieces(b, id)
    decreases |a|
  {
    if a == [] {
      assert a + b == b;
    } else {
      assert (a + b)[1..] == a[1..] + b;
      PiecesCat(a[1..], b, id);
      Reassociate(if a[0].id == id then [a[0]] else [], Pieces(a[1..], id), Pieces(b, id));
    }
  }

  lemma {:induction false} ArgumentsCat(a: seq<ToolCall>, b: seq<ToolCall>)
    ensures Arguments(a + b) == Arguments(a) + Arguments(b)
    decreases |a|
  {
    if a == [] {
      assert a + b == b;
    } else {
      assert (a + b)[1..] == a[1..] + b;
      ArgumentsCat(a[1..], b);
      Reassociate(a[0].arguments, Arguments(a[1..]), Arguments(b));
    }
  }

  lemma {:induction false} RunSplit(s: State, a: seq<Event>, b: seq<Event>, now: int)
    ensures RunChunks(s, a + b, now) == RunChunks(s, a, now) + RunChunks(StateAfter(s, a, now), b, now)
    decreases |a|
  {
    if a == [] {
      assert a + b == b;
    } else {
      var s' := Next(s, a[0], now);
      assert (a + b)[1..] == a[1..] + b;
      RunSplit(s', a[1..], b, now);
      Reassociate(Chunks(s', a[0]), RunChunks(s', a[1..], now), RunChunks(StateAfter(s', a[1..], now), b, now));
    }
  }

  // ---- roles and finish reasons ----------------------------------------------------------------

  function RolesIn(chunks: seq<Chunk>): seq<string>
    decreases |chunks|
  {
    if chunks == [] then []
    else
      (if chunks[0].choices != [] && chunks[0].choices[0].delta.Some? && chunks[0].choices[0].delta.value.role != ""
       then [chunks[0].choices[0].delta.value.role] else [])
      + RolesIn(chunks[1..])
  }

  function ReasonsIn(chunks: seq<Chunk>): seq<string>
    decreases |chunks|
  {
    if chunks == [] then []
    else
      (if chunks[0].choices != [] && chunks[0].choices[0].finishReason.Some?
       then [chunks[0].choices[0].finishReason.value] else [])
      + ReasonsIn(chunks[1..])
  }

  /** One role for every message that starts, */
  function RolesOf(events: seq<Event>): seq<string>
    decreases |events|
  {
    if events == [] then [] else (if events[0].MessageStart? then ["assistant"] else []) + RolesOf(events[1..])
  }

  /** one finish reason for every stop reason that is not blank. */
  function ReasonsOf(events: seq<Event>): seq<string>
    decreases |events|
  {
    if events == [] then []
    else
      (if events[0].MessageDelta? && events[0].stopReason.Some? && events[0].stopReason.value != ""
       then [Finish(events[0].stopReason.value)] else [])
      + ReasonsOf(events[1..])
  }

  /** Tokens running out is "length", a tool being called, in any case, "tool_calls", and everything else "stop". */
  function Finish(reason: string): string {
    if FoldsTo(reason, "tool_use") then "tool_calls" else if reason == "max_tokens" then "length" else "stop"
  }

  lemma {:induction false} RolesAndReasons(s: State, events: seq<Event>, now: int)
    ensures RolesIn(RunChunks(s, events, now)) == RolesOf(events)
    ensures ReasonsIn(RunChunks(s, events, now)) == ReasonsOf(events)
    decreases |events|
  {
    if events != [] {
      var s' := Next(s, events[0], now);
      RolesAndReasons(s', events[1..], now);
      RolesInCat(Chunks(s', events[0]), RunChunks(s', events[1..], now));
      OneRoleAndReason(s', events[0]);
    }
  }

  lemma OneRoleAndReason(s: State, e: Event)
    ensures RolesIn(Chunks(s, e)) == if e.MessageStart? then ["assistant"] else []
    ensures ReasonsIn(Chunks(s, e)) ==
            if e.MessageDelta? && e.stopReason.Some? && e.stopReason.value != "" then [Finish(e.stopReason.value)]
            else []
  {
    NoOtherFold();
    var chunks := Chunks(s, e);
    if |chunks| == 2 {
      assert chunks == [chunks[0]] + [chunks[1]];
      RolesInCat([chunks[0]], [chunks[1]]);
      OneChunk(chunks[0]);
      OneChunk(chunks[1]);
    } else if chunks != [] {
      assert chunks == [chunks[0]];
      OneChunk(chunks[0]);
    }
  }

  lemma OneChunk(c: Chunk)
    requires |c.choices| == 1 && c.choices[0].delta.Some?
    ensures RolesIn([c]) == if c.choices[0].delta.value.role != "" then [c.choices[0].delta.value.role] else []
    ensures ReasonsIn([c]) == if c.choices[0].finishReason.Some? then [c.choices[0].finishReason.value] else []
  {
    assert [c][1..] == [];
  }

  lemma NoOtherFold()
    ensures !FoldsTo("end_turn", "tool_use") && !FoldsTo("stop_sequence", "tool_use")
            && !FoldsTo("max_tokens", "tool_use") && FoldsTo("tool_use", "tool_use")
  {
    assert "end_turn"[0] == 'e' && "tool_use"[0] == 't';
  }

  lemma {:induction false} RolesInCat(a: seq<Chunk>, b: seq<Chunk>)
    ensures RolesIn(a + b) == RolesIn(a) + RolesIn(b) && ReasonsIn(a + b) == ReasonsIn(a) + ReasonsIn(b)
    decreases |a|
  {
    if a == [] {
      assert a + b == b;
    } else {
      assert (a + b)[1..] == a[1..] + b;
      RolesInCat(a[1..], b);
    }
  }
}
