/** The two Anthropic decoders agree on every stream that a blank line ends; a last block
    without one is dropped by the live decoder. */
module AnthropicAgreement {
  import opened Wrappers
  import opened SeqFacts
  import opened Text
  import opened Sse
  import opened SseLines
  import opened AnthropicBlockEnds
  import opened AnthropicStream
  import opened AnthropicIterator

  // ---- blocks and lines ----

  function FlatMessages(lbs: seq<seq<string>>, f: Fields, decode: Decoder): seq<Message> {
    if lbs == [] then []
    else MessageOf(Gather(lbs[0], f), decode) + FlatMessages(lbs[1..], NO_FIELDS, decode)
  }

  lemma {:induction false} BatchOnLines(bs: seq<string>, lbs: seq<seq<string>>, decode: Decoder)
    requires SameBlocks(bs, lbs)
    ensures BatchMessages(bs, decode) == FlatMessages(StrippedBlocks(lbs), NO_FIELDS, decode)
    decreases |bs|
  {
    hide Lines, MessageOf, Stripped, Strip, Gather;
    if bs != [] {
      assert Lines(bs[0]) == lbs[0];
      StripOnLines(bs[0]);
      NoText(decode);
      BatchOnLines(bs[1..], lbs[1..], decode);
      var later := StrippedBlocks(lbs[1..]);
      assert ([Stripped(lbs[0])] + later)[1..] == later;
    }
  }

  lemma NoText(decode: Decoder)
    ensures MessageOf(Gather(Lines([]), NO_FIELDS), decode) == []
  {
    assert Lines([])[1..] == [];
  }

  /** Every block keeps its message when it is stripped. */
  predicate BlocksKeepMessages(lbs: seq<seq<string>>) {
    forall i :: 0 <= i < |lbs| ==> EndsKeepMessage(lbs[i])
  }

  lemma {:induction false} KeptMessages(lbs: seq<seq<string>>, decode: Decoder)
    requires BlocksKeepMessages(lbs)
    ensures FlatMessages(StrippedBlocks(lbs), NO_FIELDS, decode) == FlatMessages(lbs, NO_FIELDS, decode)
    decreases |lbs|
  {
    hide MessageOf, Stripped, Gather, EndsKeepMessage;
    if lbs != [] {
      KeptExactly(lbs[0]);
      SameMessages(Gather(Stripped(lbs[0]), NO_FIELDS), Gather(lbs[0], NO_FIELDS), decode);
      KeptMessages(lbs[1..], decode);
      var later := StrippedBlocks(lbs[1..]);
      assert ([Stripped(lbs[0])] + later)[1..] == later;
    }
  }

  lemma SameMessages(f: Fields, g: Fields, decode: Decoder)
    requires SameMessage(f, g)
    ensures MessageOf(f, decode) == MessageOf(g, decode)
  {
  }

  lemma NothingGathered(decode: Decoder)
    ensures Gather([], NO_FIELDS) == NO_FIELDS && MessageOf(NO_FIELDS, decode) == []
  {
  }

  /** What the blocks hand to the JSON decoder, with their event names. */
  function FieldsRead(lbs: seq<seq<string>>): seq<Fields> {
    if lbs == [] then []
    else
      var f := Gather(lbs[0], NO_FIELDS);
      (if f.parts == [] then [] else [f]) + FieldsRead(lbs[1..])
  }

  /** Stripping changes nothing that is read exactly when every block keeps its message. */
  lemma {:induction false} KeptMeansSameRead(lbs: seq<seq<string>>)
    ensures FieldsRead(StrippedBlocks(lbs)) == FieldsRead(lbs) <==> BlocksKeepMessages(lbs)
    ensures |FieldsRead(lbs)| <= |FieldsRead(StrippedBlocks(lbs))|
    decreases |lbs|
  {
    hide Stripped, Gather, EndsKeepMessage;
    if lbs != [] {
      KeptMeansSameRead(lbs[1..]);
      KeptExactly(lbs[0]);
      NeverFewer(lbs[0]);
      var later := StrippedBlocks(lbs[1..]);
      assert ([Stripped(lbs[0])] + later)[1..] == later;
      SplitRead(Gather(lbs[0], NO_FIELDS), FieldsRead(lbs[1..]),
                Gather(Stripped(lbs[0]), NO_FIELDS), FieldsRead(later));
      assert BlocksKeepMessages(lbs) <==> EndsKeepMessage(lbs[0]) && BlocksKeepMessages(lbs[1..]);
    }
  }

  lemma SplitRead(f: Fields, fs: seq<Fields>, g: Fields, gs: seq<Fields>)
    requires (f.parts != [] ==> g.parts != []) && |fs| <= |gs|
    ensures var a, b := if f.parts == [] then [] else [f], if g.parts == [] then [] else [g];
      |a + fs| <= |b + gs| && (b + gs == a + fs <==> SameMessage(g, f) && gs == fs)
  {
    var a, b := if f.parts == [] then [] else [f], if g.parts == [] then [] else [g];
    if b + gs == a + fs {
      assert (a + fs)[..|a|] == a && (b + gs)[..|b|] == b;
      assert (a + fs)[|a|..] == fs && (b + gs)[|b|..] == gs;
    }
  }

  /** The fields read after the last blank line. */
  function Unterminated(lines: seq<string>, f: Fields): Fields {
    if lines == [] then f
    else if lines[0] == [] then Unterminated(lines[1..], NO_FIELDS)
    else Unterminated(lines[1..], AddLine(f, lines[0]))
  }

  lemma {:induction false} BlocksEndAtBlankLines(ls: seq<string>, f: Fields, decode: Decoder)
    requires ls != [] && (ls[0] == [] ==> f == NO_FIELDS || |ls| == 1)
    ensures FlatMessages(LineBlocks(ls), f, decode)
      == LiveMessages(ls, f, decode) + MessageOf(Unterminated(ls, f), decode)
    decreases |ls|
  {
    hide MessageOf;
    NothingGathered(decode);
    assert AddLine(f, []) == f;
    if |ls| == 1 {
      OneLineLeft(ls[0], f, decode);
      assert ls == [ls[0]];
    } else if |ls| >= 3 && ls[1] == [] {
      AtBlankLine(ls, f, decode);
    } else {
      var rest := LineBlocks(ls[1..]);
      var block, g := [ls[0]] + rest[0], AddLine(f, ls[0]);
      assert block[1..] == rest[0] && ([block] + rest[1..])[1..] == rest[1..];
      assert Gather(block, f) == Gather(rest[0], g);
      BlocksEndAtBlankLines(ls[1..], g, decode);
      if ls[0] == [] {
        assert [] + LiveMessages(ls[1..], NO_FIELDS, decode) == LiveMessages(ls[1..], NO_FIELDS, decode);
      }
    }
  }

  lemma OneLineLeft(line: string, f: Fields, decode: Decoder)
    ensures FlatMessages([[line]], f, decode)
      == LiveMessages([line], f, decode) + MessageOf(Unterminated([line], f), decode)
  {
    hide MessageOf;
    NothingGathered(decode);
    assert [line][1..] == [] && [[line]][1..] == [];
    assert AddLine(f, []) == f;
    assert Gather([line], f) == AddLine(f, line);
    assert LiveMessages([], NO_FIELDS, decode) == [];
  }

  lemma AtBlankLine(ls: seq<string>, f: Fields, decode: Decoder)
    requires |ls| >= 3 && ls[1] == [] && (ls[0] == [] ==> f == NO_FIELDS)
    ensures FlatMessages(LineBlocks(ls), f, decode)
      == LiveMessages(ls, f, decode) + MessageOf(Unterminated(ls, f), decode)
    decreases |ls|, 0
  {
    BlocksEndAtBlankLines(ls[2..], NO_FIELDS, decode);
    FlatAtBlank(ls, f, decode);
    LiveAtBlank(ls, f, decode);
    hide MessageOf, AddLine, LineBlocks, FlatMessages, LiveMessages, Unterminated;
    TakeSome(MessageOf(AddLine(f, ls[0]), decode), LiveMessages(ls[2..], NO_FIELDS, decode),
             MessageOf(Unterminated(ls[2..], NO_FIELDS), decode));
  }

  lemma FlatAtBlank(ls: seq<string>, f: Fields, decode: Decoder)
    requires |ls| >= 3 && ls[1] == []
    ensures FlatMessages(LineBlocks(ls), f, decode)
      == MessageOf(AddLine(f, ls[0]), decode) + FlatMessages(LineBlocks(ls[2..]), NO_FIELDS, decode)
  {
    hide MessageOf, AddLine;
    assert LineBlocks(ls)[1..] == LineBlocks(ls[2..]);
    var g := AddLine(f, ls[0]);
    assert [ls[0]][1..] == [] && Gather([ls[0]], f) == Gather([], g) == g;
  }

  lemma LiveAtBlank(ls: seq<string>, f: Fields, decode: Decoder)
    requires |ls| >= 3 && ls[1] == [] && (ls[0] == [] ==> f == NO_FIELDS)
    ensures LiveMessages(ls, f, decode)
      == MessageOf(AddLine(f, ls[0]), decode) + LiveMessages(ls[2..], NO_FIELDS, decode)
    ensures Unterminated(ls, f) == Unterminated(ls[2..], NO_FIELDS)
  {
    NothingGathered(decode);
    assert AddLine(f, []) == f;
    hide MessageOf, AddLine;
    assert ls[1..][1..] == ls[2..] && ls[1..][0] == [];
    var g, live := AddLine(f, ls[0]), LiveMessages(ls[2..], NO_FIELDS, decode);
    assert LiveMessages(ls[1..], g, decode) == MessageOf(g, decode) + live;
    assert [] + live == live;
    assert Unterminated(ls[1..], g) == Unterminated(ls[2..], NO_FIELDS);
  }

  lemma {:induction false} TrailingBlankLine(ls: seq<string>, f: Fields, decode: Decoder)
    ensures LiveMessages(ls + [[]], f, decode) == LiveMessages(ls, f, decode) + MessageOf(Unterminated(ls, f), decode)
    ensures Unterminated(ls + [[]], f) == NO_FIELDS
    decreases |ls|
  {
    hide MessageOf, AddLine;
    var all := ls + [[]];
    if ls == [] {
      assert all[1..] == [] && all[0] == [];
      assert LiveMessages([], NO_FIELDS, decode) == [];
    } else {
      assert all[1..] == ls[1..] + [[]] && all[0] == ls[0];
      TrailingBlankLine(ls[1..], if ls[0] == [] then NO_FIELDS else AddLine(f, ls[0]), decode);
    }
  }

  /** What the live decoder leaves unread: the message of a last block that no blank line ends. */
  function Dropped(raw: string, decode: Decoder): seq<Message> {
    MessageOf(Unterminated(WireLines(raw), NO_FIELDS), decode)
  }

  /** The batch decoder reads what the live one reads, and a last block that no blank line ends,
      if stripping keeps the message of every block. */
  lemma BatchReadsOneMoreBlock(raw: string, decode: Decoder)
    requires BlocksKeepMessages(LineBlocks(Lines(raw)))
    ensures BatchMessages(Blocks(raw), decode)
      == LiveMessages(WireLines(raw), NO_FIELDS, decode) + Dropped(raw, decode)
  {
    hide MessageOf, LiveMessages, Unterminated, FlatMessages, BatchMessages, Lines, Blocks, LineBlocks, SameBlocks,
         BlocksKeepMessages;
    var ls, wire := Lines(raw), WireLines(raw);
    BlocksAreLineBlocks(raw);
    BatchOnLines(Blocks(raw), LineBlocks(ls), decode);
    KeptMessages(LineBlocks(ls), decode);
    BlocksEndAtBlankLines(ls, NO_FIELDS, decode);
    if ls[|ls| - 1] == [] {
      TrailingBlankLine(wire, NO_FIELDS, decode);
      assert ls == wire + [[]];
      NothingGathered(decode);
    }
  }

  const USAGE_KEYS := ["input_tokens", "output_tokens", "cache_read_input_tokens", "cache_creation_input_tokens"]

  /** Usage that repeats the totals so far, as far as they are reported. */
  predicate RepeatsUsage(h: seq<Message>, usage: map<string, int>) {
    forall key :: key in USAGE_KEYS && key in usage ==> usage[key] == Get(FinalUsage(h), key)
  }

  /** A message that leaves nothing behind: any start but a tool call's, an empty delta or one
      that is not emitted, the stop of a block with nothing open or signed, and totals or a stop
      reason that are known already. */
  predicate IsSilent(h: seq<Message>, m: Message) {
    match m
    case Start(_, kind, _) => kind != ToolUse
    case BlockDelta(_, ThinkingDelta(text)) => text == ""
    case BlockDelta(_, TextDelta(text)) => text == ""
    case BlockDelta(_, InputJsonDelta(json)) => json == ""
    case BlockDelta(_, _) => true
    case BlockStop(i) =>
      && (KindAt(h, i) == ThinkingBlock ==> SignatureAt(h, i) == "")
      && (IsServer(KindAt(h, i)) ==> ServerAt(h, i) == None)
    case MessageDelta(reason, usage) =>
      RepeatsUsage(h, usage) && (reason.Some? ==> reason.value == StopReason(h))
    case MessageStart(usage) => RepeatsUsage(h, usage)
    case Other => true
  }

  lemma UsageAfter(h: seq<Message>, m: Message)
    requires m.MessageDelta? || m.MessageStart?
    ensures UsageOf(FinalUsage(h + [m])) == UsageOf(FinalUsage(h)) <==> RepeatsUsage(h, m.usage)
  {
    assert (h + [m])[..|h|] == h;
    hide FinalUsage;
    var before, after := FinalUsage(h), FinalUsage(h + [m]);
    forall key ensures Get(after, key) == if key in m.usage then m.usage[key] else Get(before, key) {
    }
    assert RepeatsUsage(h, m.usage) <==> forall key :: key in USAGE_KEYS ==> Get(after, key) == Get(before, key);
    assert "input_tokens" in USAGE_KEYS && "output_tokens" in USAGE_KEYS
        && "cache_read_input_tokens" in USAGE_KEYS && "cache_creation_input_tokens" in USAGE_KEYS;
  }

  lemma StopAfter(h: seq<Message>, m: Message)
    ensures FinalStop(h + [m]) == FinalStop(h) <==>
      && (m.MessageDelta? || m.MessageStart? ==> RepeatsUsage(h, m.usage))
      && (m.MessageDelta? && m.reason.Some? ==> m.reason.value == StopReason(h))
  {
    assert (h + [m])[..|h|] == h;
    if m.MessageDelta? || m.MessageStart? {
      UsageAfter(h, m);
    }
    hide RepeatsUsage, UsageOf;
  }

  lemma AtMostOne(f: Fields, decode: Decoder)
    ensures |MessageOf(f, decode)| <= 1
  {
  }

  /** The two decoders yield the same events exactly when the live one drops nothing, or
      drops a message that would have changed nothing. */
  lemma LiveAgreesWithBatch(raw: string, decode: Decoder)
    requires BlocksKeepMessages(LineBlocks(Lines(raw)))
    ensures LiveEvents(WireLines(raw), decode) == BatchEvents(raw, decode) <==>
      forall m :: m in Dropped(raw, decode) ==> IsSilent(LiveMessages(WireLines(raw), NO_FIELDS, decode), m)
  {
    var h, dropped := LiveMessages(WireLines(raw), NO_FIELDS, decode), Dropped(raw, decode);
    AtMostOne(Unterminated(WireLines(raw), NO_FIELDS), decode);
    hide WireLines, Lines, Blocks, LineBlocks, Unterminated, LiveMessages, BatchMessages, MessageOf, BlocksKeepMessages,
         IsSilent, Events;
    BatchReadsOneMoreBlock(raw, decode);
    if dropped == [] {
      assert h + dropped == h;
    } else {
      assert dropped == [dropped[0]];
      OneMoreMessage(h, dropped[0]);
    }
  }

  lemma SilentMeans(h: seq<Message>, m: Message)
    ensures EmitAfter(h, m) == [] && FinalStop(h + [m]) == FinalStop(h) <==> IsSilent(h, m)
  {
    StopAfter(h, m);
    hide FinalStop, RepeatsUsage;
  }

  lemma OneMoreMessage(h: seq<Message>, m: Message)
    ensures Events(h + [m]) == Events(h) <==> IsSilent(h, m)
  {
    hide EmitAfter, FinalStop, IsSilent;
    SilentMeans(h, m);
    RunAppend([], h, [m]);
    assert [] + h == h && [m][1..] == [];
    var a, b := Run([], h), EmitAfter(h, m);
    assert Events(h + [m]) == a + b + [FinalStop(h + [m])];
    assert |Events(h + [m])| == |Events(h)| + |b|;
    if b == [] {
      assert a + b == a;
      assert Events(h + [m])[|a|] == FinalStop(h + [m]) && Events(h)[|a|] == FinalStop(h);
    }
  }

  /** The last line the client reports is blank, if there is any. */
  predicate IsTerminated(wire: seq<string>) {
    wire == [] || wire[|wire| - 1] == []
  }

  lemma NothingLeft(wire: seq<string>, decode: Decoder)
    requires IsTerminated(wire)
    ensures MessageOf(Unterminated(wire, NO_FIELDS), decode) == []
  {
    NothingGathered(decode);
    hide MessageOf, AddLine;
    if wire != [] {
      var shorter := wire[..|wire| - 1];
      assert wire == shorter + [[]];
      TrailingBlankLine(shorter, NO_FIELDS, decode);
    }
  }

  /** A stream that a blank line ends loses nothing, if stripping keeps the message of every block. */
  lemma TerminatedStreamsAgree(raw: string, decode: Decoder)
    requires BlocksKeepMessages(LineBlocks(Lines(raw))) && IsTerminated(WireLines(raw))
    ensures LiveEvents(WireLines(raw), decode) == BatchEvents(raw, decode)
  {
    assert Dropped(raw, decode) == MessageOf(Unterminated(WireLines(raw), NO_FIELDS), decode);
    hide *;
    NothingLeft(WireLines(raw), decode);
    LiveAgreesWithBatch(raw, decode);
  }

  /** The batch decoder on a text whose only visible line is `line`. */
  lemma OneVisibleLine(raw: string, line: string, rest: seq<seq<string>>, decode: Decoder)
    requires LineBlocks(Lines(raw)) == [[line]] + rest && (rest == [] || rest == [[[]]])
    requires !IsBlank(line) && StripRight(line) == line
    ensures BatchMessages(Blocks(raw), decode) == MessageOf(AddLine(NO_FIELDS, StripLeft(line)), decode)
  {
    var lbs, block := [[line]] + rest, [line];
    assert lbs[0] == block && lbs[1..] == rest;
    BlocksAreLineBlocks(raw);
    BatchOnLines(Blocks(raw), lbs, decode);
    assert Stripped(block) == [StripLeft(line)] by { OnlyLine(line); }
    assert StrippedBlocks(lbs) == [[StripLeft(line)]] + StrippedBlocks(rest);
    assert FlatMessages(StrippedBlocks(rest), NO_FIELDS, decode) == [] by { NoLinesLeft(rest, decode); }
    hide MessageOf, AddLine, StripLeft, StripRight, Stripped, Lines, Blocks;
    assert ([[StripLeft(line)]] + StrippedBlocks(rest))[1..] == StrippedBlocks(rest);
    assert Gather([StripLeft(line)], NO_FIELDS) == AddLine(NO_FIELDS, StripLeft(line)) by {
      assert [StripLeft(line)][1..] == [];
    }
    var ms := MessageOf(AddLine(NO_FIELDS, StripLeft(line)), decode);
    assert ms + [] == ms;
  }

  lemma OnlyLine(line: string)
    requires !IsBlank(line) && StripRight(line) == line
    ensures Stripped([line]) == [StripLeft(line)]
  {
    assert Trim([line]) == [line] && Strip(line) == StripLeft(line) by { StripsAlone(line); }
    StrippedShape([line]);
  }

  lemma {:induction false} StripsAlone(line: string)
    requires !IsBlank(line) && StripRight(line) == line
    ensures Trim([line]) == [line] && Strip(line) == StripLeft(line)
  {
    var t := StripLeft(line);
    StripLeftStarts(line);
    assert t[|t| - 1] == line[|line| - 1];
    StripRightEnds(line);
  }

  lemma NoLinesLeft(rest: seq<seq<string>>, decode: Decoder)
    requires rest == [] || rest == [[[]]]
    ensures FlatMessages(StrippedBlocks(rest), NO_FIELDS, decode) == []
  {
    NothingGathered(decode);
    NoLines();
    StripOnLines([]);
    OneBlock(Lines([]), decode);
  }

  lemma OneBlock(ls: seq<string>, decode: Decoder)
    requires Stripped(ls) == [[]]
    ensures FlatMessages(StrippedBlocks([ls]), NO_FIELDS, decode) == []
  {
    assert [ls][1..] == [] && StrippedBlocks([ls]) == [Stripped(ls)] + [];
    var sbs: seq<seq<string>> := [[[]]];
    assert sbs[1..] == [] && sbs[0][1..] == [];
    NothingGathered(decode);
  }

  lemma TextArrives(text: string, i: int)
    requires text != ""
    ensures Text(text) in Events([BlockDelta(i, TextDelta(text))])
  {
    var m := BlockDelta(i, TextDelta(text));
    assert [m][1..] == [] && Run([], [m]) == [Text(text)] + [];
  }

  /** A text delta that only the batch decoder reads. */
  lemma OneText(raw: string, line: string, rest: seq<seq<string>>, data: string, decode: Decoder, p: Payload, i: int,
                text: string)
    requires LineBlocks(Lines(raw)) == [[line]] + rest && (rest == [] || rest == [[[]]])
    requires !IsBlank(line) && StripRight(line) == line && AddLine(NO_FIELDS, StripLeft(line)) == Fields("", [data])
    requires decode(data) == Some(p) && Classify(p, "") == BlockDelta(i, TextDelta(text)) && text != ""
    requires LiveMessages(WireLines(raw), NO_FIELDS, decode) == []
    ensures LiveEvents(WireLines(raw), decode) == [FinalStop([])] && Text(text) in BatchEvents(raw, decode)
  {
    assert MessageOf(Fields("", [data]), decode) == [BlockDelta(i, TextDelta(text))] by {
      assert Join([data]) == data;
    }
    assert Run([], []) == [] && Events([]) == [FinalStop([])];
    hide AddLine, Classify, Lines, LineBlocks, Blocks, FinalStop, WireLines, LiveMessages, BatchMessages, IsBlank,
         StripRight, StripLeft, MessageOf, Events, Run, Join;
    OneVisibleLine(raw, line, rest, decode);
    TextArrives(text, i);
  }

  /** A text delta whose block is the whole response, without a blank line. */
  lemma UnterminatedTextIsLost(raw: string, data: string, decode: Decoder, p: Payload, i: int, text: string)
    requires raw == "data:" + data && data != [] && '\n' !in data && data[0] != ' ' && Clean(data)
    requires decode(data) == Some(p) && Classify(p, "") == BlockDelta(i, TextDelta(text)) && text != ""
    ensures LiveEvents(WireLines(raw), decode) == [FinalStop([])] && Text(text) in BatchEvents(raw, decode)
  {
    OneDataLine(raw, data);
    OnlyLineOfText(raw, decode);
    hide *;
    OneText(raw, raw, [], data, decode, p, i, text);
  }

  lemma OnlyLineOfText(raw: string, decode: Decoder)
    requires raw != [] && '\n' !in raw && Clean(raw)
    ensures LineBlocks(Lines(raw)) == [[raw]] + [] && LiveMessages(WireLines(raw), NO_FIELDS, decode) == []
    ensures StripLeft(raw) == raw && StripRight(raw) == raw && !IsBlank(raw)
  {
    OneLine(raw);
    assert LineBlocks([raw]) == [[raw]] && WireLines(raw) == [raw];
    hide Lines, WireLines, AddLine, MessageOf;
    assert [raw][1..] == [];
  }

  lemma BlockThenBlank(raw: string, line: string)
    requires line != [] && '\n' !in line && line[|line| - 1] != '\r' && raw == line + "\n\n"
    ensures LineBlocks(Lines(raw)) == [[line]] + [[[]]] && WireLines(raw) == [line, []]
  {
    LineThenRest("", "");
    LineThenRest(line, "\n");
    assert "" + "\n" + "" == "\n" && line + "\n" + "\n" == raw;
    var ls := Lines(raw);
    assert ls == [line, [], []] && ls[2..] == [[]];
  }

  lemma IgnoredLine(line: string, decode: Decoder)
    requires line != [] && FieldOf(line) == NoField
    ensures LiveMessages([line, []], NO_FIELDS, decode) == []
  {
    var ls := [line, []];
    assert ls[1..] == [[]] && ls[1..][1..] == [];
    assert LiveMessages(ls[1..], NO_FIELDS, decode) == MessageOf(NO_FIELDS, decode) + LiveMessages([], NO_FIELDS, decode);
  }

  /** The same text delta, indented and ended by a blank line. */
  lemma IndentedTextIsLost(raw: string, data: string, decode: Decoder, p: Payload, i: int, text: string)
    requires raw == [' '] + ("data:" + data) + "\n\n" && data != [] && '\n' !in data && data[0] != ' ' && Clean(data)
    requires decode(data) == Some(p) && Classify(p, "") == BlockDelta(i, TextDelta(text)) && text != ""
    ensures LiveEvents(WireLines(raw), decode) == [FinalStop([])] && Text(text) in BatchEvents(raw, decode)
  {
    var line := "data:" + data;
    OneDataLine(line, data);
    IndentedLine(line);
    hide *;
    BlockThenBlank(raw, [' '] + line);
    IgnoredLine([' '] + line, decode);
    OneText(raw, [' '] + line, [[[]]], data, decode, p, i, text);
  }

  lemma IndentedLine(line: string)
    requires line != [] && Clean(line)
    ensures var s := [' '] + line;
      && FieldOf(s) == NoField && StripLeft(s) == line && StripRight(s) == s && !IsBlank(s)
      && s[|s| - 1] != '\r' && ('\n' !in line ==> '\n' !in s)
  {
    var s := [' '] + line;
    assert s[1..] == line && s[|s| - 1] == line[|line| - 1];
    IndentedIsNoField(s);
  }

  lemma OneDataLine(raw: string, data: string)
    requires raw == "data:" + data && data != [] && data[0] != ' ' && Clean(data)
    ensures AddLine(NO_FIELDS, raw) == Fields("", [data]) && Clean(raw) && raw[0] == 'd'
    ensures '\n' !in data ==> '\n' !in raw
  {
    assert raw[..5] == "data:" && raw[5..] == data && raw[..6] != "event:" by { assert raw[0] == 'd'; }
    assert raw[0] == 'd' && raw[|raw| - 1] == data[|data| - 1];
  }

  // ---- the stop, and interleaved block indices ----

  lemma {:induction false} OneStopAtTheEnd(h: seq<Message>, ms: seq<Message>)
    ensures forall e :: e in Run(h, ms) ==> !e.MessageStop?
    decreases |ms|
  {
    if ms != [] {
      OneStopAtTheEnd(h + [ms[0]], ms[1..]);
    }
  }

  predicate At(m: Message, i: int) {
    match m
    case Start(j, _, _) => j == i
    case BlockDelta(j, _) => j == i
    case BlockStop(j) => j == i
    case _ => false
  }

  /** The messages of one block index. */
  function OnlyAt(h: seq<Message>, i: int): seq<Message> {
    if h == [] then []
    else
      var m := h[|h| - 1];
      OnlyAt(h[..|h| - 1], i) + if At(m, i) then [m] else []
  }

  lemma OnlyAtStep(h: seq<Message>, i: int)
    requires h != []
    ensures var m, own := h[|h| - 1], OnlyAt(h[..|h| - 1], i);
      OnlyAt(h, i) == if At(m, i) then own + [m] else own
    ensures var m, own := h[|h| - 1], OnlyAt(h[..|h| - 1], i);
      At(m, i) ==> OnlyAt(h, i)[..|OnlyAt(h, i)| - 1] == own
  {
    var own := OnlyAt(h[..|h| - 1], i);
    assert own + [] == own && (own + [h[|h| - 1]])[..|own|] == own;
  }

  lemma {:induction false} OtherStartsDoNotMatter(h: seq<Message>, i: int)
    ensures KindAt(h, i) == KindAt(OnlyAt(h, i), i) && ToolIdAt(h, i) == ToolIdAt(OnlyAt(h, i), i)
    decreases |h|
  {
    if h != [] {
      OtherStartsDoNotMatter(h[..|h| - 1], i);
      OnlyAtStep(h, i);
      hide OnlyAt;
    }
  }

  lemma {:induction false} OtherSignaturesDoNotMatter(h: seq<Message>, i: int)
    ensures SignatureAt(h, i) == SignatureAt(OnlyAt(h, i), i)
    decreases |h|
  {
    if h != [] {
      OtherSignaturesDoNotMatter(h[..|h| - 1], i);
      OnlyAtStep(h, i);
      hide OnlyAt;
      var before := SignatureAt(h[..|h| - 1], i);
      assert before + "" == before;
    }
  }

  lemma {:induction false} OtherServersDoNotMatter(h: seq<Message>, i: int)
    ensures ServerAt(h, i) == ServerAt(OnlyAt(h, i), i)
    decreases |h|
  {
    if h != [] {
      OtherServersDoNotMatter(h[..|h| - 1], i);
      OtherStartsDoNotMatter(h[..|h| - 1], i);
      OnlyAtStep(h, i);
      hide OnlyAt, KindAt;
    }
  }

  /** The events of a block's message depend on that block's own messages only, however the
      blocks interleave. */
  lemma InterleavingIsIrrelevant(h: seq<Message>, m: Message, i: int)
    requires At(m, i)
    ensures EmitAfter(h, m) == EmitAfter(OnlyAt(h, i), m)
  {
    OtherStartsDoNotMatter(h, i);
    OtherSignaturesDoNotMatter(h, i);
    OtherServersDoNotMatter(h, i);
    hide KindAt, ToolIdAt, SignatureAt, ServerAt, OnlyAt;
  }

  /** The signature parts of a block index, joined in order of arrival. */
  function PartsOf(ms: seq<Message>, i: int): string {
    if ms == [] then "" else PartOf(ms[0], i) + PartsOf(ms[1..], i)
  }

  /** At a block's stop, its signature is what arrived for its index since its previous stop. */
  lemma {:induction false} SignatureSinceLastStop(before: seq<Message>, since: seq<Message>, i: int)
    requires before == [] || before[|before| - 1] == BlockStop(i)
    requires BlockStop(i) !in since
    ensures SignatureAt(before + since, i) == PartsOf(since, i)
    decreases |since|
  {
    if since == [] {
      assert before + since == before;
    } else {
      hide SignatureAt, PartsOf;
      var n := |since| - 1;
      var shorter, m := since[..n], since[n];
      assert since == shorter + [m];
      SignatureSinceLastStop(before, shorter, i);
      OnePartMore(before, shorter, m, i);
    }
  }

  lemma OnePartMore(before: seq<Message>, since: seq<Message>, m: Message, i: int)
    requires m != BlockStop(i) && SignatureAt(before + since, i) == PartsOf(since, i)
    ensures SignatureAt(before + (since + [m]), i) == PartsOf(since + [m], i)
  {
    hide SignatureAt, PartsOf, PartOf;
    PartsSnoc(since, m, i);
    SignatureSnoc(before + since, m, i);
    TakeSome(before, since, [m]);
  }

  lemma SignatureSnoc(h: seq<Message>, m: Message, i: int)
    requires m != BlockStop(i)
    ensures SignatureAt(h + [m], i) == SignatureAt(h, i) + PartOf(m, i)
  {
    assert (h + [m])[..|h|] == h;
  }

  lemma {:induction false} PartsSnoc(ms: seq<Message>, m: Message, i: int)
    ensures PartsOf(ms + [m], i) == PartsOf(ms, i) + PartOf(m, i)
    decreases |ms|
  {
    hide PartOf;
    if ms == [] {
      assert (ms + [m])[1..] == [];
    } else {
      assert (ms + [m])[1..] == ms[1..] + [m];
      PartsSnoc(ms[1..], m, i);
    }
  }
}
