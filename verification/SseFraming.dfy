/** Server-sent events as the Anthropic provider reads them (providers/anthropic/stream.go:103-172) and the
    ingress writes them (ingress/anthropic/anthropic.go:484-492). Events are those of section 9.2.6 of the
    WHATWG HTML Standard, except as noted. */
module SseFraming {
  import opened Wrappers
  import opened Text

  // ---- lines -----------------------------------------------------------------------------------

  /** bytes.Split on line feeds. */
  function Split(s: string): (pieces: seq<string>)
    ensures |pieces| > 0
  {
    if s == "" then [""]
    else if s[0] == '\n' then [""] + Split(s[1..])
    else var rest := Split(s[1..]); [[s[0]] + rest[0]] + rest[1..]
  }

  function DropCR(line: string): string {
    if line != "" && line[|line| - 1] == '\r' then line[..|line| - 1] else line
  }

  function DropCRs(lines: seq<string>): seq<string>
    decreases |lines|
  {
    if lines == [] then [] else [DropCR(lines[0])] + DropCRs(lines[1..])
  }

  /** A last piece counts as a line unless it is empty. */
  function Whole(pieces: seq<string>): seq<string>
    requires pieces != []
  {
    if pieces[|pieces| - 1] == "" then pieces[..|pieces| - 1] else pieces
  }

  /** bufio.ScanLines. */
  function ScanLines(s: string): seq<string> {
    DropCRs(Whole(Split(s)))
  }

  predicate OneLine(s: string) {
    '\n' !in s
  }

  lemma {:induction false} SplitLine(line: string, rest: string)
    requires OneLine(line)
    ensures Split(line + "\n" + rest) == [line] + Split(rest)
  {
    var s := line + "\n" + rest;
    if line == "" {
      assert s[1..] == rest;
    } else {
      assert line[0] == s[0] && s[1..] == line[1..] + "\n" + rest;
      SplitLine(line[1..], rest);
      assert [line[0]] + line[1..] == line;
    }
  }

  /** Lines with their endings, and a last one that may lack it. */
  function Joined(lines: seq<string>, ending: string, last: string): string
    decreases |lines|
  {
    if lines == [] then last else lines[0] + ending + Joined(lines[1..], ending, last)
  }

  /** Read back they are the same lines, whether they end in a line feed or in a carriage return and a line feed; a last
      line without an ending counts if it is not empty. */
  lemma {:induction false} ScansLines(lines: seq<string>, crlf: bool, last: string)
    requires OneLine(last) && !EndsInCR(last)
    requires forall l | l in lines :: OneLine(l) && (!crlf ==> !EndsInCR(l))
    ensures ScanLines(Joined(lines, if crlf then "\r\n" else "\n", last)) == lines + if last == "" then [] else [last]
    decreases |lines|
  {
    var ending := if crlf then "\r\n" else "\n";
    var tail := if last == "" then [] else [last];
    if lines == [] {
      SplitOne(last);
      assert Whole([last]) == tail && DropCRs(tail) == tail by {
        if last != "" { assert [last][1..] == []; }
      }
    } else {
      var rest := Joined(lines[1..], ending, last);
      assert lines[0] in lines;
      forall l | l in lines[1..] ensures l in lines {}
      ScansLines(lines[1..], crlf, last);
      ScansFirst(lines[0], crlf, rest);
      assert lines + tail == [lines[0]] + (lines[1..] + tail);
    }
  }

  predicate EndsInCR(line: string) {
    line != "" && line[|line| - 1] == '\r'
  }

  lemma SplitOne(line: string)
    requires OneLine(line)
    ensures Split(line) == [line]
  {
    if line != "" {
      SplitOne(line[1..]);
      assert [line[0]] + line[1..] == line;
    }
  }

  lemma ScansFirst(line: string, crlf: bool, rest: string)
    requires OneLine(line) && (!crlf ==> !EndsInCR(line))
    ensures ScanLines(line + (if crlf then "\r\n" else "\n") + rest) == [line] + ScanLines(rest)
  {
    var whole := if crlf then line + "\r" else line;
    assert line + (if crlf then "\r\n" else "\n") + rest == whole + "\n" + rest;
    SplitLine(whole, rest);
    var pieces := Split(rest);
    assert ([whole] + pieces)[|pieces|] == pieces[|pieces| - 1];
    assert Whole([whole] + pieces) == [whole] + Whole(pieces);
    assert DropCR(whole) == line;
    assert DropCRs([whole] + Whole(pieces)) == [DropCR(whole)] + DropCRs(([whole] + Whole(pieces))[1..]);
    assert ([whole] + Whole(pieces))[1..] == Whole(pieces);
  }

  // ---- reading ---------------------------------------------------------------------------------

  predicate HasPrefix(s: string, prefix: string) {
    prefix <= s
  }

  const DONE := "[DONE]"

  predicate IsData(line: string) {
    HasPrefix(line, "data:")
  }

  function Value(line: string): string
    requires IsData(line)
  {
    TrimSpace(line[5..])
  }

  /** The data read since the last blank line, and the payloads dispatched so far. */
  datatype Frame = Frame(dataLines: string, payloads: seq<string>)

  const EMPTY := Frame("", [])

  predicate Dispatched(payload: string) {
    payload != "" && payload != DONE
  }

  function Flushed(f: Frame): Frame {
    var payload := TrimSpace(f.dataLines);
    if f.dataLines == "" then f
    else if Dispatched(payload) then Frame("", f.payloads + [payload])
    else Frame("", f.payloads)
  }

  function ReadLine(f: Frame, line: string): Frame {
    if line == "" then Flushed(f)
    else if IsData(line) then f.(dataLines := (if f.dataLines != "" then f.dataLines + "\n" else "") + Value(line))
    else f
  }

  function ReadLines(f: Frame, lines: seq<string>): Frame
    decreases |lines|
  {
    if lines == [] then f else ReadLines(ReadLine(f, lines[0]), lines[1..])
  }

  /** What the read loop dispatches, the flush at the end of input included. */
  function Payloads(lines: seq<string>): seq<string> {
    Flushed(ReadLines(EMPTY, lines)).payloads
  }

  lemma {:induction false} ReadConcat(f: Frame, a: seq<string>, b: seq<string>)
    ensures ReadLines(f, a + b) == ReadLines(ReadLines(f, a), b)
    decreases |a|
  {
    if a == [] {
      assert a + b == b;
    } else {
      assert (a + b)[1..] == a[1..] + b;
      ReadConcat(ReadLine(f, a[0]), a[1..], b);
    }
  }

  // ---- the standard's view ---------------------------------------------------------------------

  /** Lines between blank lines. The standard drops an unfinished last block; the loop flushes it. */
  function Blocks(lines: seq<string>): (blocks: seq<seq<string>>)
    ensures |blocks| > 0
    decreases |lines|
  {
    if lines == [] then [[]]
    else
      var rest := Blocks(lines[1..]);
      if lines[0] == "" then [[]] + rest else [[lines[0]] + rest[0]] + rest[1..]
  }

  /** The data buffer of a block: every data field, empty ones too, adds a line. Values are trimmed on both
      sides where the standard drops one leading space. */
  function DataBuffer(block: seq<string>): string {
    if block == [] then ""
    else (if IsData(block[0]) then "\n" + Value(block[0]) else "") + DataBuffer(block[1..])
  }

  function Sent(buffer: string): seq<string> {
    if TrimSpace(buffer) == "" || TrimSpace(buffer) == "[DONE]" then [] else [TrimSpace(buffer)]
  }

  function SentAll(blocks: seq<seq<string>>): seq<string>
    decreases |blocks|
  {
    if blocks == [] then [] else Sent(DataBuffer(blocks[0])) + SentAll(blocks[1..])
  }

  predicate Blank(s: string) {
    forall c | c in s :: c == '\n'
  }

  lemma {:induction false} TrimLead(lead: string, s: string)
    requires Blank(lead)
    ensures TrimSpace(lead + s) == TrimSpace(s)
  {
    if lead == "" {
      assert lead + s == s;
    } else {
      assert lead[0] in lead;
      assert (lead + s)[0] == '\n' && (lead + s)[1..] == lead[1..] + s;
      forall c | c in lead[1..] ensures c == '\n' { assert c in lead; }
      TrimLead(lead[1..], s);
    }
  }

  /** What the loop holds is the standard's buffer up to leading line feeds, which do not matter. */
  lemma FlushedSends(f: Frame, lead: string)
    requires Blank(lead)
    ensures Flushed(f) == Frame("", f.payloads + Sent(lead + f.dataLines))
  {
    TrimLead(lead, f.dataLines);
  }

  lemma DataGrows(f: Frame, lead: string, line: string) returns (lead': string)
    requires Blank(lead) && IsData(line)
    ensures Blank(lead') && ReadLine(f, line).payloads == f.payloads
    ensures lead' + ReadLine(f, line).dataLines == lead + f.dataLines + ("\n" + Value(line))
  {
    lead' := if f.dataLines == "" then lead + "\n" else lead;
  }

  lemma {:induction false} LoopReadsBlocks(f: Frame, lead: string, lines: seq<string>, blocks: seq<seq<string>>)
    requires Blank(lead) && blocks == Blocks(lines)
    ensures Flushed(ReadLines(f, lines)).payloads
            == f.payloads + Sent(lead + f.dataLines + DataBuffer(blocks[0])) + SentAll(blocks[1..])
    decreases |lines|
  {
    if lines == [] {
      assert lead + f.dataLines + "" == lead + f.dataLines;
      FlushedSends(f, lead);
    } else {
      var line, rest := lines[0], Blocks(lines[1..]);
      if line == "" {
        assert lead + f.dataLines + "" == lead + f.dataLines;
        FlushedSends(f, lead);
        LoopReadsBlocks(Flushed(f), "", lines[1..], rest);
        assert "" + "" + DataBuffer(rest[0]) == DataBuffer(rest[0]);
        assert blocks[1..] == rest;
      } else {
        assert blocks[0][1..] == rest[0] && blocks[1..] == rest[1..];
        if IsData(line) {
          var lead' := DataGrows(f, lead, line);
          LoopReadsBlocks(ReadLine(f, line), lead', lines[1..], rest);
          Reassociate(lead + f.dataLines, "\n" + Value(line), DataBuffer(rest[0]));
        } else {
          LoopReadsBlocks(f, lead, lines[1..], rest);
          assert DataBuffer(blocks[0]) == DataBuffer(rest[0]);
        }
      }
    }
  }

  lemma NothingBefore(buffer: string, later: seq<string>)
    ensures [] + Sent("" + "" + buffer) + later == Sent(buffer) + later
  {
    assert "" + "" + buffer == buffer;
  }

  /** The loop dispatches the payloads of the blocks, in order. */
  lemma PayloadsAreTheBlocks(lines: seq<string>)
    ensures Payloads(lines) == SentAll(Blocks(lines))
  {
    var blocks := Blocks(lines);
    LoopReadsBlocks(EMPTY, "", lines, blocks);
    NothingBefore(DataBuffer(blocks[0]), SentAll(blocks[1..]));
  }

  // ---- writing ---------------------------------------------------------------------------------

  datatype Framed = Framed(name: string, payload: string)

  function WriteEvent(e: Framed): string {
    "event: " + e.name + "\n" + "data: " + e.payload + "\n" + "\n"
  }

  function WriteEvents(events: seq<Framed>): string {
    if events == [] then "" else WriteEvent(events[0]) + WriteEvents(events[1..])
  }

  /** What JSON output always is. */
  predicate Carried(payload: string) {
    OneLine(payload) && Trimmed(payload) && Dispatched(payload)
  }

  function PayloadsOf(events: seq<Framed>): seq<string> {
    if events == [] then [] else [events[0].payload] + PayloadsOf(events[1..])
  }

  /** Reading what was written gives back every payload, whole and in order. */
  lemma {:induction false} ReadsWhatIsWritten(f: Frame, events: seq<Framed>)
    requires f.dataLines == "" && forall i | 0 <= i < |events| :: OneLine(events[i].name) && Carried(events[i].payload)
    ensures ReadLines(f, ScanLines(WriteEvents(events))) == Frame("", f.payloads + PayloadsOf(events))
    decreases |events|
  {
    if events == [] {
      assert f.payloads + [] == f.payloads;
    } else {
      var e, rest := events[0], events[1..];
      var f' := ReadsFirst(f, e, WriteEvents(rest));
      ReadsWhatIsWritten(f', rest);
      Reassociate(f.payloads, [e.payload], PayloadsOf(rest));
    }
  }

  lemma {:induction false} ReadsFirst(f: Frame, e: Framed, rest: string) returns (f': Frame)
    requires f.dataLines == "" && OneLine(e.name) && Carried(e.payload)
    ensures f' == Frame("", f.payloads + [e.payload])
    ensures ReadLines(f, ScanLines(WriteEvent(e) + rest)) == ReadLines(f', ScanLines(rest))
  {
    f' := Frame("", f.payloads + [e.payload]);
    WrittenLines(e, rest);
    ReadEvent(f, e);
    ReadConcat(f, [DropCR("event: " + e.name), "data: " + e.payload, ""], ScanLines(rest));
  }

  lemma WrittenLines(e: Framed, rest: string)
    requires OneLine(e.name) && Carried(e.payload)
    ensures ScanLines(WriteEvent(e) + rest) == [DropCR("event: " + e.name), "data: " + e.payload, ""] + ScanLines(rest)
  {
    var a, b := "event: " + e.name, "data: " + e.payload;
    var tail := b + "\n" + "\n" + rest;
    assert WriteEvent(e) + rest == a + "\n" + tail;
    SplitLine(a, tail);
    assert tail == b + "\n" + ("\n" + rest);
    SplitLine(b, "\n" + rest);
    assert "\n" + rest == "" + "\n" + rest;
    SplitLine("", rest);
    var pieces := Split(rest);
    assert Split(WriteEvent(e) + rest) == [a, b, ""] + pieces;
    LastDropped(a, b, pieces);
    assert DropCR(b) == b && DropCR("") == "" by { assert b[|b| - 1] == e.payload[|e.payload| - 1]; }
  }

  lemma LastDropped(a: string, b: string, pieces: seq<string>)
    requires pieces != []
    ensures DropCRs(Whole([a, b, ""] + pieces)) == [DropCR(a), DropCR(b), DropCR("")] + DropCRs(Whole(pieces))
  {
    var kept, all := Whole(pieces), [a, b, ""] + pieces;
    assert all[|all| - 1] == pieces[|pieces| - 1];
    assert Whole(all) == [a, b, ""] + kept;
    assert ([a, b, ""] + kept)[1..] == [b, ""] + kept && ([b, ""] + kept)[1..] == [""] + kept
        && ([""] + kept)[1..] == kept;
    assert DropCRs([""] + kept) == [DropCR("")] + DropCRs(kept);
    assert DropCRs([b, ""] + kept) == [DropCR(b)] + DropCRs([""] + kept);
  }

  lemma ReadEvent(f: Frame, e: Framed)
    requires f.dataLines == "" && Carried(e.payload)
    ensures ReadLines(f, [DropCR("event: " + e.name), "data: " + e.payload, ""]) == Frame("", f.payloads + [e.payload])
  {
    var a, b := DropCR("event: " + e.name), "data: " + e.payload;
    assert a[..6] == "event:";
    SkipsOther(f, a);
    var g := TakesData(f, b, e.payload);
    ReadThree(f, a, b, "");
  }

  lemma SkipsOther(f: Frame, line: string)
    requires |line| >= 6 && line[..6] == "event:"
    ensures ReadLine(f, line) == f
  {
    assert line[0] == line[..6][0] == 'e';
    assert line[..5][0] != "data:"[0];
  }

  lemma TakesData(f: Frame, line: string, payload: string) returns (g: Frame)
    requires f.dataLines == "" && Carried(payload) && line == "data: " + payload
    ensures g == ReadLine(f, line) && Flushed(g) == Frame("", f.payloads + [payload])
  {
    g := ReadLine(f, line);
    assert "data:" <= line && line[5..] == " " + payload + "";
    TrimSpaceStrips(" ", payload, "");
    assert "" + payload + "" == payload;
    TrimSpaceStrips("", payload, "");
    assert "" + payload == payload;
  }

  lemma ReadThree(f: Frame, a: string, b: string, c: string)
    ensures ReadLines(f, [a, b, c]) == ReadLine(ReadLine(ReadLine(f, a), b), c)
  {
    assert [a, b, c][1..] == [b, c] && [b, c][1..] == [c] && [c][1..] == [];
    var g := ReadLine(f, a);
    assert ReadLines(f, [a, b, c]) == ReadLines(g, [b, c]);
    assert ReadLines(g, [b, c]) == ReadLines(ReadLine(g, b), [c]);
    assert ReadLines(ReadLine(g, b), [c]) == ReadLines(ReadLine(ReadLine(g, b), c), []);
  }
}
