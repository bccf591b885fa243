/** When the two SSE parsers agree: the ends of each block decide. */
module SseAgreement {
  import opened SeqFacts
  import opened Text
  import opened Sse
  import opened SseLines
  import opened SseBlockEnds

  // ---- from blocks to the line-by-line parser ----

  function DropNull<J>(events: seq<Event<J>>): seq<Event<J>> {
    if events == [] then []
    else (if events[0].NullEvent? then [] else [events[0]]) + DropNull(events[1..])
  }

  lemma {:induction false} DropNullAppend<J>(a: seq<Event<J>>, b: seq<Event<J>>)
    ensures DropNull(a + b) == DropNull(a) + DropNull(b)
    decreases |a|
  {
    if a == [] {
      assert a + b == b;
    } else {
      assert (a + b)[1..] == a[1..] + b;
      DropNullAppend(a[1..], b);
    }
  }

  lemma {:induction false} DropNullKeepsAll<J>(events: seq<Event<J>>)
    ensures |DropNull(events)| <= |events|
    ensures DropNull(events) == events <==> NullEvent !in events
    decreases |events|
  {
    if events != [] {
      DropNullKeepsAll(events[1..]);
      assert events == [events[0]] + events[1..];
    }
  }

  /** The whole-text parser on blocks given as line lists, `before` holding data lines that
      belong to the first of them. */
  function BatchLines<J>(lbs: seq<seq<string>>, before: seq<string>, decode: string -> Decoded<J>): seq<Event<J>> {
    if lbs == [] then []
    else match Collect(lbs[0], before)
      case Stop => []
      case Parts(parts) => Emit(parts, decode) + BatchLines(lbs[1..], [], decode)
  }

  lemma LiveOfLine<J>(ls: seq<string>, parts: seq<string>, decode: string -> Decoded<J>)
    requires ls != [] && (ls[0] == [] ==> parts == [])
    ensures match Effect(ls[0])
      case Done => Live(ls, parts, decode) == []
      case Ignored => Live(ls, parts, decode) == Live(ls[1..], parts, decode)
      case Data(text) => Live(ls, parts, decode) == Live(ls[1..], parts + [text], decode)
  {
  }

  lemma {:induction false} LiveOnLines<J>(ls: seq<string>, parts: seq<string>, decode: string -> Decoded<J>)
    requires ls != [] && (ls[0] == [] ==> parts == [] || |ls| == 1)
    ensures Live(ls, parts, decode) == DropNull(BatchLines(LineBlocks(ls), parts, decode))
    decreases |ls|
  {
    if |ls| == 1 {
      LiveOnLastLine(ls[0], parts, decode);
      assert ls == [ls[0]];
    } else if |ls| >= 3 && ls[1] == [] {
      LiveAtBlankLine(ls, parts, decode);
    } else {
      var rest := LineBlocks(ls[1..]);
      var block := [ls[0]] + rest[0];
      assert block[1..] == rest[0] && ([block] + rest[1..])[1..] == rest[1..];
      LiveOfLine(ls, parts, decode);
      match Effect(ls[0]) {
        case Done =>
        case Ignored => LiveOnLines(ls[1..], parts, decode);
        case Data(text) => LiveOnLines(ls[1..], parts + [text], decode);
      }
    }
  }

  lemma LiveOnLastLine<J>(line: string, parts: seq<string>, decode: string -> Decoded<J>)
    ensures Live([line], parts, decode) == DropNull(BatchLines([[line]], parts, decode))
  {
    var none: seq<string> := [];
    assert Live(none, [], decode) == [];
    assert [line][1..] == none;
    match Effect(line) {
      case Done =>
      case Ignored => assert Collect(none, parts) == Parts(parts);
      case Data(text) => assert Collect(none, parts + [text]) == Parts(parts + [text]);
    }
  }

  lemma LiveAtBlankLine<J>(ls: seq<string>, parts: seq<string>, decode: string -> Decoded<J>)
    requires |ls| >= 3 && ls[1] == [] && (ls[0] == [] ==> parts == [])
    ensures Live(ls, parts, decode) == DropNull(BatchLines(LineBlocks(ls), parts, decode))
    decreases |ls|, 0
  {
    var later := LineBlocks(ls[2..]);
    assert LineBlocks(ls) == [[ls[0]]] + later;
    assert DropNull<J>([]) == [];
    hide DropNull, LineBlocks, Emit, EmitLive;
    assert LineBlocks(ls)[1..] == later;
    LiveOnLines(ls[2..], [], decode);
    LiveOfLine(ls, parts, decode);
    assert ls[1..][1..] == ls[2..] && ls[1..][0] == [];
    var data := Collect([ls[0]], parts);
    assert [ls[0]][1..] == [];
    match Effect(ls[0]) {
      case Done =>
      case Ignored =>
        assert Live(ls[1..], parts, decode) == EmitLive(parts, decode) + Live(ls[2..], [], decode);
        assert Collect([], parts) == Parts(parts);
        AtBlank(parts, BatchLines(later, [], decode), decode);
      case Data(text) =>
        assert Collect([], parts + [text]) == Parts(parts + [text]);
        AtBlank(parts + [text], BatchLines(later, [], decode), decode);
    }
  }

  lemma AtBlank<J>(parts: seq<string>, later: seq<Event<J>>, decode: string -> Decoded<J>)
    ensures EmitLive(parts, decode) + DropNull(later) == DropNull(Emit(parts, decode) + later)
  {
    DropNullAppend(Emit(parts, decode), later);
  }

  lemma LastLineBreakIsOptional<J>(raw: string, decode: string -> Decoded<J>)
    ensures Live(WireLines(raw), [], decode) == Live(Lines(raw), [], decode)
  {
    var ls := Lines(raw);
    if ls[|ls| - 1] == [] {
      FinalBlankLineIsOptional(WireLines(raw), [], decode);
      assert ls == WireLines(raw) + [[]];
    }
  }

  /** A blank line at the very end changes nothing, so it does not matter whether the line
      source reports one. */
  lemma {:induction false} FinalBlankLineIsOptional<J>(ls: seq<string>, parts: seq<string>, decode: string -> Decoded<J>)
    ensures Live(ls + [[]], parts, decode) == Live(ls, parts, decode)
    decreases |ls|
  {
    if ls == [] {
      assert ls + [[]] == [[]];
    } else {
      assert (ls + [[]])[1..] == ls[1..] + [[]];
      if ls[0] == [] {
        FinalBlankLineIsOptional(ls[1..], [], decode);
      } else {
        match Effect(ls[0]) {
          case Done =>
          case Ignored => FinalBlankLineIsOptional(ls[1..], parts, decode);
          case Data(text) => FinalBlankLineIsOptional(ls[1..], parts + [text], decode);
        }
      }
    }
  }

  // ---- what the two parsers decode ----

  function Payload(parts: seq<string>): seq<string> {
    if parts == [] then [] else [Join(parts)]
  }

  /** What is decoded of the blocks before the end marker, in order. */
  function Payloads(lbs: seq<seq<string>>): seq<string> {
    if lbs == [] then []
    else match Collect(lbs[0], [])
      case Stop => []
      case Parts(parts) => Payload(parts) + Payloads(lbs[1..])
  }

  /** The events of a list of payloads. */
  function Read<J>(payloads: seq<string>, decode: string -> Decoded<J>): seq<Event<J>> {
    if payloads == [] then [] else Emit([payloads[0]], decode) + Read(payloads[1..], decode)
  }

  lemma ReadPayload<J>(parts: seq<string>, rest: seq<string>, decode: string -> Decoded<J>)
    ensures Read(Payload(parts) + rest, decode) == Emit(parts, decode) + Read(rest, decode)
  {
    if parts == [] {
      assert [] + rest == rest && [] + Read(rest, decode) == Read(rest, decode);
    } else {
      assert ([Join(parts)] + rest)[1..] == rest;
      assert Join([Join(parts)]) == Join(parts);
    }
  }

  lemma {:induction false} BlocksRead<J>(lbs: seq<seq<string>>, decode: string -> Decoded<J>)
    ensures BatchLines(lbs, [], decode) == Read(Payloads(lbs), decode)
    decreases |lbs|
  {
    hide Collect, Emit, Payload;
    if lbs != [] {
      BlocksRead(lbs[1..], decode);
      var data := Collect(lbs[0], []);
      if data.Parts? {
        ReadPayload(data.parts, Payloads(lbs[1..]), decode);
      }
    }
  }

  lemma NothingToRead()
    ensures Lines([]) == [[]] && Collect([[]], []) == Parts([])
  {
    assert Lines([])[1..] == [];
  }

  lemma {:induction false} BatchOnLines<J>(bs: seq<string>, lbs: seq<seq<string>>, decode: string -> Decoded<J>)
    requires SameBlocks(bs, lbs)
    ensures BatchBlocks(bs, decode) == BatchLines(StrippedBlocks(lbs), [], decode)
    decreases |bs|
  {
    NothingToRead();
    assert Emit([], decode) == [];
    hide Lines, Collect, Emit, Strip, Stripped;
    if bs != [] {
      var block, later := Strip(bs[0]), StrippedBlocks(lbs[1..]);
      assert Lines(bs[0]) == lbs[0];
      StripOnLines(bs[0]);
      BatchOnLines(bs[1..], lbs[1..], decode);
      assert ([Stripped(lbs[0])] + later)[1..] == later;
      assert [] + BatchBlocks(bs[1..], decode) == BatchBlocks(bs[1..], decode);
    }
  }

  function LivePayloads(raw: string): seq<string> {
    Payloads(LineBlocks(Lines(raw)))
  }

  function BatchPayloads(raw: string): seq<string> {
    Payloads(StrippedBlocks(LineBlocks(Lines(raw))))
  }

  /** Each parser decodes its payloads; the line-by-line one drops JSON `null`s. */
  lemma ParsersRead<J>(raw: string, decode: string -> Decoded<J>)
    ensures Batch(raw, decode) == Read(BatchPayloads(raw), decode)
    ensures Live(WireLines(raw), [], decode) == DropNull(Read(LivePayloads(raw), decode))
  {
    var ls := Lines(raw);
    var lbs := LineBlocks(ls);
    BlocksAreLineBlocks(raw);
    BatchOnLines(Blocks(raw), lbs, decode);
    BlocksRead(StrippedBlocks(lbs), decode);
    BlocksRead(lbs, decode);
    LiveOnLines(ls, [], decode);
    LastLineBreakIsOptional(raw, decode);
  }

  lemma {:induction false} NullsRead<J>(payloads: seq<string>, decode: string -> Decoded<J>)
    ensures NullEvent in Read(payloads, decode) <==> exists t :: t in payloads && decode(t) == Null
    decreases |payloads|
  {
    if payloads != [] {
      var t := payloads[0];
      NullsRead(payloads[1..], decode);
      assert Join([t]) == t;
      assert payloads == [t] + payloads[1..];
    }
  }

  // ---- when the two parsers agree ----

  /** Every block up to the one with the end marker is one that stripping does not change. */
  predicate BlocksAreHarmless(lbs: seq<seq<string>>) {
    lbs == [] || (EndsAreHarmless(lbs[0]) && (HasMarker(lbs[0]) || BlocksAreHarmless(lbs[1..])))
  }

  lemma {:induction false} HarmlessPayloads(lbs: seq<seq<string>>)
    requires BlocksAreHarmless(lbs)
    ensures Payloads(StrippedBlocks(lbs)) == Payloads(lbs)
    decreases |lbs|
  {
    hide EndsAreHarmless, Collect, HasMarker, Stripped;
    if lbs != [] {
      var later := StrippedBlocks(lbs[1..]);
      assert ([Stripped(lbs[0])] + later)[1..] == later;
      HarmlessExactly(lbs[0]);
      CollectMeans(lbs[0], []);
      if !HasMarker(lbs[0]) {
        HarmlessPayloads(lbs[1..]);
      }
    }
  }

  /** The line-by-line parser yields the whole-text parser's events without the JSON `null`s,
      and so the same events exactly when nothing before the end marker decodes to `null`. */
  lemma ParsersAgree<J>(raw: string, decode: string -> Decoded<J>)
    requires BlocksAreHarmless(LineBlocks(Lines(raw)))
    ensures Live(WireLines(raw), [], decode) == DropNull(Batch(raw, decode))
    ensures Live(WireLines(raw), [], decode) == Batch(raw, decode)
      <==> forall t :: t in LivePayloads(raw) ==> decode(t) != Null
  {
    HarmlessPayloads(LineBlocks(Lines(raw)));
    ParsersRead(raw, decode);
    NullsRead(LivePayloads(raw), decode);
    DropNullKeepsAll(Batch(raw, decode));
  }

  ghost predicate AgreeUnderEveryDecoder(raw: string) {
    forall decode: string -> Decoded<string> ::
      Live(WireLines(raw), [], decode) == DropNull(Batch(raw, decode))
  }

  /** The decoder that tells all texts apart. */
  function AsIs(text: string): Decoded<string> {
    Json(text)
  }

  lemma {:induction false} ReadIsOneToOne(a: seq<string>, b: seq<string>)
    requires DropNull(Read(a, AsIs)) == DropNull(Read(b, AsIs))
    ensures a == b
    decreases |a|
  {
    EachIsRead(a);
    EachIsRead(b);
    if a != [] && b != [] {
      ReadIsOneToOne(a[1..], b[1..]);
      assert a == [a[0]] + a[1..] && b == [b[0]] + b[1..];
    }
  }

  lemma EachIsRead(a: seq<string>)
    ensures var events := DropNull(Read(a, AsIs));
      (events == [] <==> a == [])
      && (a != [] ==> events[0] == Event(a[0]) && events[1..] == DropNull(Read(a[1..], AsIs)))
  {
    if a != [] {
      var later := Read(a[1..], AsIs);
      assert Join([a[0]]) == a[0];
      assert Read(a, AsIs) == [Event(a[0])] + later;
      assert ([Event(a[0])] + later)[1..] == later;
    }
  }

  /** Two parsers that agree whatever the decoder does decode the same payloads. */
  lemma AgreeExactly(raw: string)
    ensures AgreeUnderEveryDecoder(raw) <==> LivePayloads(raw) == BatchPayloads(raw)
  {
    forall decode: string -> Decoded<string>
      ensures LivePayloads(raw) == BatchPayloads(raw) ==>
                Live(WireLines(raw), [], decode) == DropNull(Batch(raw, decode))
    {
      ParsersRead(raw, decode);
    }
    if AgreeUnderEveryDecoder(raw) {
      ParsersRead(raw, AsIs);
      ReadIsOneToOne(LivePayloads(raw), BatchPayloads(raw));
    }
  }

  // ---- where the two parsers differ ----

  predicate IsPayload(payload: string) {
    payload != [] && '\n' !in payload && payload != "[DONE]" && Clean(payload)
  }

  lemma DataLine(payload: string)
    requires IsPayload(payload)
    ensures var line := "data:" + payload;
      Effect(line) == Data(payload) && Effect([' '] + line) == Ignored
    ensures var line := "data:" + payload;
      line != [] && '\n' !in line && line[0] == 'd' && line[|line| - 1] == payload[|payload| - 1]
  {
    var line := "data:" + payload;
    assert line[..5] == "data:" && line[5..] == payload;
  }

  /** What both parsers make of a text of one line. */
  lemma OneLineText<J>(raw: string, line: string, decode: string -> Decoded<J>)
    requires '\n' !in raw && raw != [] && '\n' !in line && line != []
    requires Strip(raw) == line
    ensures Effect(line).Data? ==> Batch(raw, decode) == Emit([Effect(line).text], decode)
    ensures Effect(raw).Ignored? ==> Live(WireLines(raw), [], decode) == []
    ensures Effect(raw).Data? ==> Live(WireLines(raw), [], decode) == EmitLive([Effect(raw).text], decode)
  {
    hide Strip, Effect, Emit, EmitLive, Lines, Blocks;
    OneLine(raw);
    LastLineBreakIsOptional(raw, decode);
    OneLine(line);
    OneBlock([raw], line, decode);
    OneLineLive(raw, decode);
  }

  lemma OneBlock<J>(blocks: seq<string>, line: string, decode: string -> Decoded<J>)
    requires |blocks| == 1 && line != [] && Strip(blocks[0]) == line && Lines(line) == [line]
    ensures Effect(line).Data? ==> BatchBlocks(blocks, decode) == Emit([Effect(line).text], decode)
  {
    hide Strip, Effect, Lines, Emit;
    assert BatchBlocks(blocks[1..], decode) == [];
    if Effect(line).Data? {
      var parts := [Effect(line).text];
      assert [line][1..] == [] && [] + parts == parts;
      assert Collect([], parts) == Parts(parts);
      assert Collect([line], []) == Parts(parts);
      assert Emit(parts, decode) + [] == Emit(parts, decode);
    }
  }

  lemma OneLineLive<J>(raw: string, decode: string -> Decoded<J>)
    requires raw != []
    ensures Effect(raw).Ignored? ==> Live([raw], [], decode) == []
    ensures Effect(raw).Data? ==> Live([raw], [], decode) == EmitLive([Effect(raw).text], decode)
  {
    assert EmitLive([], decode) == [];
    hide Effect, EmitLive;
    assert [raw][1..] == [];
  }

  lemma StripOfIndented(line: string)
    requires line != [] && Clean(line)
    ensures Strip(line) == line && Strip([' '] + line) == line
  {
    assert ([' '] + line)[1..] == line;
  }

  /** A JSON `null` on a line of its own: one event for the one parser, none for the other. */
  lemma NullIsLost<J>(payload: string, decode: string -> Decoded<J>)
    requires IsPayload(payload) && decode(payload) == Null
    ensures Batch("data:" + payload, decode) == [NullEvent]
    ensures Live(WireLines("data:" + payload), [], decode) == []
  {
    DataLine(payload);
    assert Join([payload]) == payload;
    StripOfIndented("data:" + payload);
    hide Effect, WireLines, Batch, Live, Strip;
    OneLineText("data:" + payload, "data:" + payload, decode);
  }

  /** Whitespace before a field name is stripped by the one parser only. */
  lemma IndentedDataIsLost<J>(payload: string, decode: string -> Decoded<J>, value: J)
    requires IsPayload(payload) && decode(payload) == Json(value)
    ensures Batch([' '] + "data:" + payload, decode) == [Event(value)]
    ensures Live(WireLines([' '] + "data:" + payload), [], decode) == []
  {
    DataLine(payload);
    assert Join([payload]) == payload;
    StripOfIndented("data:" + payload);
    hide Effect, WireLines, Batch, Live, Strip;
    var line := "data:" + payload;
    var raw := [' '] + line;
    assert [' '] + "data:" + payload == raw;
    assert raw[1..] == line;
    OneLineText(raw, line, decode);
  }
}
