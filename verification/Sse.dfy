/** Server-sent events: the whole-text parser and the line-by-line parser. JSON decoding is
    a parameter. */
module Sse {
  import opened Text
  import opened SeqFacts

  datatype Decoded<+J> = Malformed | Null | Json(value: J)

  /** What a parser hands on: a decoded value, or Python's `None` for a JSON `null`. */
  datatype Event<+J> = NullEvent | Event(value: J)

  // ---- line and block breaks ----

  /** Length of a line break (`\r?\n`) at the start of the text, or 0. */
  function Break(s: string): (n: nat)
    ensures n <= |s| && n <= 2
  {
    if s != [] && s[0] == '\n' then 1
    else if |s| >= 2 && s[0] == '\r' && s[1] == '\n' then 2
    else 0
  }

  /** `re.split(r"\r?\n", s)`. */
  function Lines(s: string): (ls: seq<string>)
    ensures ls != []
    decreases |s|
  {
    if s == [] then [[]]
    else if Break(s) > 0 then [[]] + Lines(s[Break(s)..])
    else
      var rest := Lines(s[1..]);
      [[s[0]] + rest[0]] + rest[1..]
  }

  /** Length of a blank-line separator (`\r?\n\r?\n`) at the start of the text, or 0. */
  function Separator(s: string): (n: nat)
    ensures n <= |s|
  {
    var a := Break(s);
    if a > 0 && Break(s[a..]) > 0 then a + Break(s[a..]) else 0
  }

  /** `_BLOCK_SEPARATOR.split(s)`. */
  function Blocks(s: string): (bs: seq<string>)
    ensures bs != []
    decreases |s|
  {
    if s == [] then [[]]
    else if Separator(s) > 0 then [[]] + Blocks(s[Separator(s)..])
    else
      var rest := Blocks(s[1..]);
      [[s[0]] + rest[0]] + rest[1..]
  }

  // ---- one line, one block ----

  datatype LineEffect = Ignored | Data(text: string) | Done

  function Effect(line: string): LineEffect {
    if |line| >= 1 && line[0] == ':' then Ignored
    else if |line| >= 5 && line[..5] == "data:" then
      var value := if |line| >= 6 && line[5] == ' ' then line[6..] else line[5..];
      if value == "[DONE]" then Done else Data(value)
    else Ignored
  }

  datatype BlockData = Stop | Parts(parts: seq<string>)

  /** The data lines of a block after `before`, or the end-of-stream marker. */
  function Collect(lines: seq<string>, before: seq<string>): BlockData {
    if lines == [] then Parts(before)
    else match Effect(lines[0])
      case Done => Stop
      case Ignored => Collect(lines[1..], before)
      case Data(text) => Collect(lines[1..], before + [text])
  }

  function Emit<J>(parts: seq<string>, decode: string -> Decoded<J>): seq<Event<J>> {
    if parts == [] then []
    else match decode(Join(parts))
      case Malformed => []
      case Null => [NullEvent]
      case Json(v) => [Event(v)]
  }

  // ---- the whole-text parser ----

  function BatchBlocks<J>(blocks: seq<string>, decode: string -> Decoded<J>): seq<Event<J>> {
    if blocks == [] then []
    else
      var block := Strip(blocks[0]);
      if block == [] then BatchBlocks(blocks[1..], decode)
      else match Collect(Lines(block), [])
        case Stop => []
        case Parts(parts) => Emit(parts, decode) + BatchBlocks(blocks[1..], decode)
  }

  function Batch<J>(raw: string, decode: string -> Decoded<J>): seq<Event<J>> {
    BatchBlocks(Blocks(raw), decode)
  }

  method ParseSseEvents<J>(raw: string, decode: string -> Decoded<J>) returns (events: seq<Event<J>>)
    ensures events == Batch(raw, decode)
  {
    events := [];
    var blocks := Blocks(raw);
    var k := 0;
    while k < |blocks|
      invariant 0 <= k <= |blocks|
      invariant events + BatchBlocks(blocks[k..], decode) == Batch(raw, decode)
    {
      hide Strip, Blocks, Lines, Collect, Emit;
      assert blocks[k..][1..] == blocks[k + 1..];
      var block := Strip(blocks[k]);
      k := k + 1;
      if block == [] { continue; }
      var data := BlockDataOf(Lines(block));
      if data.Stop? {
        assert events + [] == events;
        return;
      }
      TakeSome(events, Emit(data.parts, decode), BatchBlocks(blocks[k..], decode));
      events := events + Emit(data.parts, decode);
    }
  }

  /** The loop over one block's lines. */
  method BlockDataOf(lines: seq<string>) returns (data: BlockData)
    ensures data == Collect(lines, [])
  {
    var parts: seq<string> := [];
    var k := 0;
    while k < |lines|
      invariant 0 <= k <= |lines|
      invariant Collect(lines[k..], parts) == Collect(lines, [])
    {
      assert lines[k..][1..] == lines[k + 1..];
      match Effect(lines[k]) {
        case Done => return Stop;
        case Ignored =>
        case Data(text) => parts := parts + [text];
      }
      k := k + 1;
    }
    data := Parts(parts);
  }

  // ---- the line-by-line parser ----

  /** `_emit` cannot tell a JSON `null` from "nothing to emit", so the null is lost. */
  function EmitLive<J>(parts: seq<string>, decode: string -> Decoded<J>): seq<Event<J>> {
    if parts == [] then []
    else match decode(Join(parts))
      case Json(v) => [Event(v)]
      case _ => []
  }

  function Live<J>(lines: seq<string>, parts: seq<string>, decode: string -> Decoded<J>): seq<Event<J>> {
    if lines == [] then EmitLive(parts, decode)
    else if lines[0] == [] then EmitLive(parts, decode) + Live(lines[1..], [], decode)
    else match Effect(lines[0])
      case Done => []
      case Ignored => Live(lines[1..], parts, decode)
      case Data(text) => Live(lines[1..], parts + [text], decode)
  }

  method ParseSseLines<J>(lines: seq<string>, decode: string -> Decoded<J>) returns (events: seq<Event<J>>)
    ensures events == Live(lines, [], decode)
  {
    events := [];
    var parts: seq<string> := [];
    var k := 0;
    while k < |lines|
      invariant 0 <= k <= |lines|
      invariant events + Live(lines[k..], parts, decode) == Live(lines, [], decode)
    {
      hide Effect, EmitLive;
      assert lines[k..][1..] == lines[k + 1..];
      if lines[k] == [] {
        TakeSome(events, EmitLive(parts, decode), Live(lines[k + 1..], [], decode));
        events := events + EmitLive(parts, decode);
        parts := [];
      } else {
        match Effect(lines[k]) {
          case Done => return;
          case Ignored =>
          case Data(text) => parts := parts + [text];
        }
      }
      k := k + 1;
    }
    events := events + EmitLive(parts, decode);
  }
}
