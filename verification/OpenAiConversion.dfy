/** Converting a history to the OpenAI-compatible wire shape, and what becomes of its tool
    results. */
module OpenAiConversion {
  import opened Wrappers
  import opened SeqFacts
  import opened Conversion
  import opened OpenAiWire

  datatype Call = Call(id: string, name: string, arguments: string)

  datatype Part = TextPart(text: string) | ImagePart(mediaType: string, data: string)

  datatype Wire =
    | SystemEntry(text: string)
    | ToolEntry(callId: string, payload: Payload)
    | CallsEntry(content: Option<string>, calls: seq<Call>)
    | PartsEntry(role: string, parts: seq<Part>)
    | TextEntry(role: string, text: string)

  // ---- one message ----

  predicate HasToolUse(bs: seq<Block>) {
    exists i :: 0 <= i < |bs| && bs[i].ToolUse?
  }

  predicate HasImage(bs: seq<Block>) {
    exists i :: 0 <= i < |bs| && bs[i].Image?
  }

  function Texts(bs: seq<Block>): seq<string> {
    if bs == [] then []
    else Texts(bs[..|bs| - 1]) + if bs[|bs| - 1].Text? then [bs[|bs| - 1].text] else []
  }

  function Calls(bs: seq<Block>): seq<Call> {
    if bs == [] then []
    else
      var b := bs[|bs| - 1];
      Calls(bs[..|bs| - 1]) + if b.ToolUse? then [Call(b.id, b.name, b.input)] else []
  }

  function Parts(bs: seq<Block>): seq<Part> {
    if bs == [] then []
    else
      var b := bs[|bs| - 1];
      Parts(bs[..|bs| - 1])
      + if b.Text? then [TextPart(b.text)] else if b.Image? then [ImagePart(b.mediaType, b.data)] else []
  }

  /** Goes out as a single `role: tool` entry. */
  predicate IsToolShaped(m: Message) {
    m.role == "tool" || (|m.content| == 1 && m.content[0].ToolResult?)
  }

  /** `None` is the IndexError or AssertionError of a `tool` message without a leading result. */
  function Convert(m: Message): Option<Wire> {
    var bs := m.content;
    if IsToolShaped(m) then
      if bs != [] && bs[0].ToolResult? then Some(ToolEntry(bs[0].toolUseId, bs[0].payload)) else None
    else if m.role == "assistant" && HasToolUse(bs) then
      Some(CallsEntry(if Texts(bs) == [] then None else Some(Concat(Texts(bs))), Calls(bs)))
    else if HasImage(bs) || |bs| > 1 then Some(PartsEntry(m.role, Parts(bs)))
    else Some(TextEntry(m.role, Concat(Texts(bs))))
  }

  method OpenAiConvertMessage(m: Message) returns (r: Option<Wire>)
    ensures r == Convert(m)
  {
    hide Concat, HasImage, HasToolUse;
    var bs := m.content;
    if m.role == "tool" || (|bs| == 1 && bs[0].ToolResult?) {
      if bs == [] || !bs[0].ToolResult? {
        return None;
      }
      return Some(ToolEntry(bs[0].toolUseId, bs[0].payload));
    }
    if m.role == "assistant" && HasToolUse(bs) {
      var calls, texts := CallsAndTexts(bs);
      return Some(CallsEntry(if texts == [] then None else Some(Concat(texts)), calls));
    }
    if HasImage(bs) || |bs| > 1 {
      var parts := PartsOf(bs);
      return Some(PartsEntry(m.role, parts));
    }
    if |bs| == 1 && bs[0].Text? {
      SingleText(bs);
      return Some(TextEntry(m.role, bs[0].text));
    }
    r := Some(TextEntry(m.role, Concat(Texts(bs))));
  }

  lemma SingleText(bs: seq<Block>)
    requires |bs| == 1 && bs[0].Text?
    ensures Concat(Texts(bs)) == bs[0].text
  {
    assert bs[..0] == [] && Texts(bs) == [bs[0].text];
    assert [bs[0].text][..0] == [];
  }

  method CallsAndTexts(bs: seq<Block>) returns (calls: seq<Call>, texts: seq<string>)
    ensures calls == Calls(bs) && texts == Texts(bs)
  {
    calls, texts := [], [];
    for k := 0 to |bs|
      invariant calls == Calls(bs[..k]) && texts == Texts(bs[..k])
    {
      assert bs[..k + 1][..k] == bs[..k];
      var b := bs[k];
      if b.ToolUse? {
        calls := calls + [Call(b.id, b.name, b.input)];
      } else if b.Text? {
        texts := texts + [b.text];
      }
    }
    assert bs[..|bs|] == bs;
  }

  method PartsOf(bs: seq<Block>) returns (parts: seq<Part>)
    ensures parts == Parts(bs)
  {
    parts := [];
    for k := 0 to |bs|
      invariant parts == Parts(bs[..k])
    {
      assert bs[..k + 1][..k] == bs[..k];
      var b := bs[k];
      if b.Text? {
        parts := parts + [TextPart(b.text)];
      } else if b.Image? {
        parts := parts + [ImagePart(b.mediaType, b.data)];
      }
    }
    assert bs[..|bs|] == bs;
  }

  // ---- a whole history ----

  /** `None` when the conversion of some message raises. */
  function ConvertAll(ms: seq<Message>): Option<seq<Wire>> {
    if ms == [] then Some([])
    else
      var first, rest := Convert(ms[0]), ConvertAll(ms[1..]);
      if first.None? || rest.None? then None else Some([first.value] + rest.value)
  }

  function SystemPart(system: string): seq<Wire> {
    if system == "" then [] else [SystemEntry(system)]
  }

  /** `_serialize_openai` */
  function SerializeOpenAi(system: string, ms: seq<Message>): Option<seq<Wire>> {
    var converted := ConvertAll(Split(ms));
    if converted.None? then None else Some(SystemPart(system) + converted.value)
  }

  method SerializeOpenAiMessages(system: string, ms: seq<Message>) returns (r: Option<seq<Wire>>)
    ensures r == SerializeOpenAi(system, ms)
  {
    hide Convert, Split;
    var result: seq<Wire> := [];
    if system != "" {
      result := result + [SystemEntry(system)];
    }
    var messages := SplitBundledToolResults(ms);
    var k := 0;
    assert messages[k..] == messages && result == SystemPart(system);
    while k < |messages|
      invariant 0 <= k <= |messages|
      invariant var rest := ConvertAll(messages[k..]);
        SerializeOpenAi(system, ms) == if rest.None? then None else Some(result + rest.value)
    {
      assert messages[k..][1..] == messages[k + 1..];
      var converted := OpenAiConvertMessage(messages[k]);
      if converted.None? {
        return None;
      }
      ghost var rest := ConvertAll(messages[k + 1..]);
      if rest.Some? {
        TakeOne(result, converted.value, rest.value);
      }
      result := result + [converted.value];
      k := k + 1;
    }
    assert messages[k..] == [] && result + [] == result;
    r := Some(result);
  }

  // ---- tool results on the wire ----

  datatype Result = Result(id: string, payload: Payload)

  function ResultsIn(bs: seq<Block>): seq<Result> {
    if bs == [] then []
    else (if bs[0].ToolResult? then [Result(bs[0].toolUseId, bs[0].payload)] else []) + ResultsIn(bs[1..])
  }

  /** Every tool result of a history, in order. */
  function Results(ms: seq<Message>): seq<Result> {
    if ms == [] then [] else ResultsIn(ms[0].content) + Results(ms[1..])
  }

  /** The `role: tool` entries, in order. */
  function ToolEntries(ws: seq<Wire>): seq<Result> {
    if ws == [] then []
    else (if ws[0].ToolEntry? then [Result(ws[0].callId, ws[0].payload)] else []) + ToolEntries(ws[1..])
  }

  /** Nothing is lost of a message's tool results: they are all it holds, or it has none, or it
      is a `tool` message whose only result comes first. */
  predicate KeepsResults(m: Message) {
    || IsResultMessage(m)
    || ResultsIn(m.content) == []
    || (m.role == "tool" && m.content[0].ToolResult? && ResultsIn(m.content[1..]) == [])
  }

  lemma {:induction false} ToolEntriesAppend(a: seq<Wire>, b: seq<Wire>)
    ensures ToolEntries(a + b) == ToolEntries(a) + ToolEntries(b)
    decreases |a|
  {
    if a == [] {
      assert a + b == b;
    } else {
      assert (a + b)[1..] == a[1..] + b && (a + b)[0] == a[0];
      ToolEntriesAppend(a[1..], b);
      TakeSome(if a[0].ToolEntry? then [Result(a[0].callId, a[0].payload)] else [], ToolEntries(a[1..]), ToolEntries(b));
    }
  }

  lemma {:induction false} ConvertAppend(a: seq<Message>, b: seq<Message>)
    ensures var x, y := ConvertAll(a), ConvertAll(b);
      ConvertAll(a + b) == if x.None? || y.None? then None else Some(x.value + y.value)
    decreases |a|
  {
    hide Convert;
    if a == [] {
      assert a + b == b;
      if ConvertAll(b).Some? {
        assert [] + ConvertAll(b).value == ConvertAll(b).value;
      }
    } else {
      assert (a + b)[1..] == a[1..] + b && (a + b)[0] == a[0];
      ConvertAppend(a[1..], b);
      var first, x, y := Convert(a[0]), ConvertAll(a[1..]), ConvertAll(b);
      if first.Some? && x.Some? && y.Some? {
        assert [first.value] + (x.value + y.value) == [first.value] + x.value + y.value;
      }
    }
  }

  lemma {:induction false} SinglesConvert(role: string, bs: seq<Block>)
    requires forall i :: 0 <= i < |bs| ==> bs[i].ToolResult?
    ensures var r := ConvertAll(Singles(role, bs));
      r.Some? && ToolEntries(r.value) == ResultsIn(bs) && NoCalls(r.value)
    decreases |bs|
  {
    if bs != [] {
      SinglesConvert(role, bs[1..]);
      var m, rest := Message(role, [bs[0]]), ConvertAll(Singles(role, bs[1..]));
      assert Singles(role, bs)[1..] == Singles(role, bs[1..]);
      assert Convert(m) == Some(ToolEntry(bs[0].toolUseId, bs[0].payload));
      assert ([Convert(m).value] + rest.value)[1..] == rest.value;
    }
  }

  predicate NoCalls(ws: seq<Wire>) {
    forall i :: 0 <= i < |ws| ==> !ws[i].CallsEntry?
  }

  lemma {:induction false} OnlyResults(bs: seq<Block>)
    ensures |ResultsIn(bs)| <= |bs|
    ensures |ResultsIn(bs)| == |bs| <==> forall i :: 0 <= i < |bs| ==> bs[i].ToolResult?
    decreases |bs|
  {
    if bs != [] {
      OnlyResults(bs[1..]);
    }
  }

  /** What one message contributes; `None` when it raises. */
  function Contribution(m: Message): Option<seq<Result>> {
    var r := ConvertAll(SplitMessage(m));
    if r.None? then None else Some(ToolEntries(r.value))
  }

  lemma ContributionOf(m: Message)
    requires Contribution(m).Some?
    ensures |Contribution(m).value| <= |ResultsIn(m.content)|
    ensures Contribution(m).value == ResultsIn(m.content) <==> KeepsResults(m)
    ensures |Contribution(m).value| == |ResultsIn(m.content)| <==> KeepsResults(m)
  {
    OnlyResults(m.content);
    if |m.content| > 1 && IsResultMessage(m) {
      SinglesConvert(m.role, m.content);
    } else {
      OneEntry(m);
    }
  }

  lemma OneEntry(m: Message)
    requires !(|m.content| > 1 && IsResultMessage(m)) && Contribution(m).Some?
    ensures Contribution(m).value ==
      if IsToolShaped(m) then [Result(m.content[0].toolUseId, m.content[0].payload)] else []
    ensures IsToolShaped(m) ==> m.content[0].ToolResult?
    ensures IsToolShaped(m) ==>
      ResultsIn(m.content) == Contribution(m).value + ResultsIn(m.content[1..])
    ensures KeepsResults(m) <==>
      ResultsIn(m.content) == [] || (IsToolShaped(m) && ResultsIn(m.content[1..]) == [])
  {
    ConvertOne(m);
    var ws := [Convert(m).value];
    assert ws[1..] == [] && ToolEntries(ws[1..]) == [];
    assert ConvertAll(SplitMessage(m)) == Some(ws);
    assert Contribution(m).value == ToolEntries(ws);
    if |m.content| == 1 {
      assert m.content[1..] == [];
    }
  }

  lemma ConvertOne(m: Message)
    ensures ConvertAll([m]) == if Convert(m).None? then None else Some([Convert(m).value])
  {
    hide Convert;
    assert [m][1..] == [] && ConvertAll([]) == Some([]);
    if Convert(m).Some? {
      assert [Convert(m).value] + [] == [Convert(m).value];
    }
  }

  lemma {:induction false} EntriesOfAll(ms: seq<Message>)
    requires ConvertAll(Split(ms)).Some?
    ensures var entries := ToolEntries(ConvertAll(Split(ms)).value);
      |entries| <= |Results(ms)| && (entries == Results(ms) <==> forall m :: m in ms ==> KeepsResults(m))
      && (|entries| == |Results(ms)| <==> forall m :: m in ms ==> KeepsResults(m))
    decreases |ms|
  {
    hide Convert, KeepsResults, SplitMessage;
    if ms != [] {
      var m, rest := ms[0], ms[1..];
      ConvertAppend(SplitMessage(m), Split(rest));
      EntriesOfAll(rest);
      ContributionOf(m);
      var first, later := ConvertAll(SplitMessage(m)).value, ConvertAll(Split(rest)).value;
      ToolEntriesAppend(first, later);
      assert forall x :: x in ms <==> x == m || x in rest;
    }
  }

  /** The `role: tool` entries are exactly the history's tool results, in order, when and only
      when no message mixes a result with other blocks in a way that loses it. */
  lemma ToolEntriesAreResults(system: string, ms: seq<Message>)
    requires SerializeOpenAi(system, ms).Some?
    ensures ToolEntries(SerializeOpenAi(system, ms).value) == Results(ms) <==>
      forall m :: m in ms ==> KeepsResults(m)
  {
    EntriesOfAll(ms);
    var converted := ConvertAll(Split(ms)).value;
    ToolEntriesAppend(SystemPart(system), converted);
    assert ToolEntries(SystemPart(system)) == [] by { NoToolInSystem(system); }
    assert [] + ToolEntries(converted) == ToolEntries(converted);
  }

  lemma NoToolInSystem(system: string)
    ensures ToolEntries(SystemPart(system)) == []
  {
  }

  /** Conversion raises exactly for a `tool` message that does not begin with a result. */
  lemma {:induction false} RaisesExactlyWhen(ms: seq<Message>)
    ensures ConvertAll(Split(ms)).None? <==>
      exists m :: m in ms && m.role == "tool" && (m.content == [] || !m.content[0].ToolResult?)
    decreases |ms|
  {
    if ms != [] {
      var m, rest := ms[0], ms[1..];
      ConvertAppend(SplitMessage(m), Split(rest));
      RaisesExactlyWhen(rest);
      if |m.content| > 1 && IsResultMessage(m) {
        SinglesConvert(m.role, m.content);
      } else {
        ConvertOne(m);
      }
      hide SplitMessage, ConvertAll, IsResultMessage;
      assert forall x :: x in ms <==> x == m || x in rest;
    }
  }
}
