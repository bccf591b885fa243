/** The Anthropic stream: what its events mean, and the decoder that reads a whole response.
    JSON decoding is a parameter. */
module AnthropicStream {
  import opened Wrappers
  import opened SeqFacts
  import opened Text
  import opened Sse

  // ---- decoded payloads; a missing string field is "", a missing index is 0 ----

  datatype ContentBlock = ContentBlock(kind: string, id: string, name: string, input: string,
                                       toolUseId: string, content: string)

  /** `stopReason` is `None` when the key is missing and `Some(None)` when it holds null. */
  datatype DeltaDict = DeltaDict(kind: string, thinking: string, text: string, partialJson: string,
                                 signature: string, stopReason: Option<Option<string>>)

  datatype Payload = Payload(kind: Option<string>, index: int, block: ContentBlock, delta: DeltaDict,
                             usage: map<string, int>, messageUsage: map<string, int>)

  type Decoder = string -> Option<Payload>

  // ---- the messages that the decoders tell apart ----

  datatype BlockKind = ToolUse | ServerToolUse | ServerToolResult | ThinkingBlock | OtherBlock

  datatype Delta = ThinkingDelta(text: string) | TextDelta(text: string) | InputJsonDelta(json: string)
    | SignatureDelta(part: string) | OtherDelta

  datatype Message =
    | Start(index: int, kind: BlockKind, block: ContentBlock)
    | BlockDelta(index: int, delta: Delta)
    | BlockStop(index: int)
    | MessageDelta(reason: Option<Option<string>>, usage: map<string, int>)
    | MessageStart(usage: map<string, int>)
    | Other

  function KindOf(name: string): BlockKind {
    if name == "tool_use" then ToolUse
    else if name == "server_tool_use" then ServerToolUse
    else if name == "server_tool_result" then ServerToolResult
    else if name == "thinking" then ThinkingBlock
    else OtherBlock
  }

  function DeltaOf(d: DeltaDict): Delta {
    if d.kind == "thinking_delta" then ThinkingDelta(d.thinking)
    else if d.kind == "text_delta" then TextDelta(d.text)
    else if d.kind == "input_json_delta" then InputJsonDelta(d.partialJson)
    else if d.kind == "signature_delta" then SignatureDelta(d.signature)
    else OtherDelta
  }

  /** `data.get("type", event_type)` decides what a payload is. */
  function Classify(p: Payload, eventType: string): Message {
    var kind := if p.kind.Some? then p.kind.value else eventType;
    if kind == "content_block_start" then Start(p.index, KindOf(p.block.kind), p.block)
    else if kind == "content_block_delta" then BlockDelta(p.index, DeltaOf(p.delta))
    else if kind == "content_block_stop" then BlockStop(p.index)
    else if kind == "message_delta" then MessageDelta(p.delta.stopReason, p.usage)
    else if kind == "message_start" then MessageStart(p.messageUsage)
    else Other
  }

  // ---- what a decoder produces ----

  datatype Usage = Usage(input: int, output: int, cacheRead: int, cacheCreation: int)

  datatype StreamEvent =
    | ToolStart(id: string, name: string)
    | Thinking(text: string)
    | Text(text: string)
    | ToolInput(id: string, json: string)
    | ThinkingSignature(signature: string)
    | ServerUse(id: string, name: string, input: string, signature: string)
    | ServerResult(toolUseId: string, content: string, signature: string)
    | MessageStop(usage: Usage, reason: Option<string>)

  // ---- reference definition: a message's events, from the messages before it ----

  /** The kind announced by the last start of a block index. */
  function KindAt(h: seq<Message>, i: int): BlockKind {
    if h == [] then OtherBlock
    else
      var m := h[|h| - 1];
      if m.Start? && m.index == i then m.kind else KindAt(h[..|h| - 1], i)
  }

  /** The id of the last tool call started at a block index. */
  function ToolIdAt(h: seq<Message>, i: int): string {
    if h == [] then ""
    else
      var m := h[|h| - 1];
      if m.Start? && m.index == i && m.kind == ToolUse then m.block.id else ToolIdAt(h[..|h| - 1], i)
  }

  /** The part that a message adds to a block index's signature. */
  function PartOf(m: Message, i: int): string {
    if m.BlockDelta? && m.index == i && m.delta.SignatureDelta? then m.delta.part else ""
  }

  /** The signature parts of a block index since its last stop, joined in order. */
  function SignatureAt(h: seq<Message>, i: int): string {
    if h == [] then ""
    else
      var m := h[|h| - 1];
      if m.BlockStop? && m.index == i then ""
      else SignatureAt(h[..|h| - 1], i) + PartOf(m, i)
  }

  predicate IsServer(k: BlockKind) {
    k == ServerToolUse || k == ServerToolResult
  }

  /** The server tool block that is open at an index. */
  function ServerAt(h: seq<Message>, i: int): Option<ContentBlock> {
    if h == [] then None
    else
      var m, before := h[|h| - 1], h[..|h| - 1];
      if m.Start? && m.index == i && IsServer(m.kind) then Some(m.block)
      else if m.BlockStop? && m.index == i && IsServer(KindAt(before, i)) then None
      else ServerAt(before, i)
  }

  function FinalUsage(h: seq<Message>): map<string, int> {
    if h == [] then map[]
    else
      var m, before := h[|h| - 1], FinalUsage(h[..|h| - 1]);
      if m.MessageDelta? || m.MessageStart? then before + m.usage else before
  }

  function StopReason(h: seq<Message>): Option<string> {
    if h == [] then Some("end_turn")
    else
      var m := h[|h| - 1];
      if m.MessageDelta? && m.reason.Some? then m.reason.value else StopReason(h[..|h| - 1])
  }

  function EmitAfter(h: seq<Message>, m: Message): seq<StreamEvent> {
    match m
    case Start(_, ToolUse, block) => [ToolStart(block.id, block.name)]
    case BlockDelta(_, ThinkingDelta(t)) => if t != "" then [Thinking(t)] else []
    case BlockDelta(_, TextDelta(t)) => if t != "" then [Text(t)] else []
    case BlockDelta(i, InputJsonDelta(json)) => if json != "" then [ToolInput(ToolIdAt(h, i), json)] else []
    case BlockStop(i) => EmitAtStop(KindAt(h, i), ServerAt(h, i), SignatureAt(h, i))
    case _ => []
  }

  function EmitAtStop(kind: BlockKind, server: Option<ContentBlock>, signature: string): seq<StreamEvent> {
    match (kind, server)
    case (ThinkingBlock, _) => if signature != "" then [ThinkingSignature(signature)] else []
    case (ServerToolUse, Some(b)) => [ServerUse(b.id, b.name, b.input, signature)]
    case (ServerToolResult, Some(b)) => [ServerResult(b.toolUseId, b.content, signature)]
    case _ => []
  }

  function Run(h: seq<Message>, ms: seq<Message>): seq<StreamEvent>
    decreases |ms|
  {
    if ms == [] then [] else EmitAfter(h, ms[0]) + Run(h + [ms[0]], ms[1..])
  }

  function Get(usage: map<string, int>, key: string): int {
    if key in usage then usage[key] else 0
  }

  function UsageOf(usage: map<string, int>): Usage {
    Usage(Get(usage, "input_tokens"), Get(usage, "output_tokens"),
          Get(usage, "cache_read_input_tokens"), Get(usage, "cache_creation_input_tokens"))
  }

  function FinalStop(ms: seq<Message>): StreamEvent {
    MessageStop(UsageOf(FinalUsage(ms)), StopReason(ms))
  }

  /** All events of a message sequence, closed by one stop. */
  function Events(ms: seq<Message>): seq<StreamEvent> {
    Run([], ms) + [FinalStop(ms)]
  }

  // ---- the decoders' tables ----

  datatype State = State(types: map<int, BlockKind>, ids: map<int, string>, signatures: map<int, seq<string>>,
                         server: map<int, ContentBlock>, usage: map<string, int>, reason: Option<string>)

  function Initial(): State {
    State(map[], map[], map[], map[], map[], Some("end_turn"))
  }

  function SignatureIn(s: State, i: int): string {
    if i in s.signatures then Concat(s.signatures[i]) else ""
  }

  function KindIn(s: State, i: int): BlockKind {
    if i in s.types then s.types[i] else OtherBlock
  }

  function IdIn(s: State, i: int): string {
    if i in s.ids then s.ids[i] else ""
  }

  function ServerIn(s: State, i: int): Option<ContentBlock> {
    if i in s.server then Some(s.server[i]) else None
  }

  /** What one message does to the tables. */
  function Step(s: State, m: Message): State {
    match m
    case Start(i, kind, block) =>
      s.(types := s.types[i := kind],
         ids := if kind == ToolUse then s.ids[i := block.id] else s.ids,
         server := if IsServer(kind) then s.server[i := block] else s.server)
    case BlockDelta(i, SignatureDelta(part)) =>
      if part == "" then s
      else s.(signatures := s.signatures[i := (if i in s.signatures then s.signatures[i] else []) + [part]])
    case BlockStop(i) =>
      s.(signatures := s.signatures - {i},
         server := if IsServer(KindIn(s, i)) then s.server - {i} else s.server)
    case MessageDelta(reason, usage) =>
      s.(reason := if reason.Some? then reason.value else s.reason, usage := s.usage + usage)
    case MessageStart(usage) => s.(usage := s.usage + usage)
    case _ => s
  }

  ghost predicate Tracks(s: State, h: seq<Message>) {
    && (forall i :: KindIn(s, i) == KindAt(h, i))
    && (forall i :: IdIn(s, i) == ToolIdAt(h, i))
    && (forall i :: SignatureIn(s, i) == SignatureAt(h, i))
    && (forall i :: ServerIn(s, i) == ServerAt(h, i))
    && s.usage == FinalUsage(h) && s.reason == StopReason(h)
  }

  /** The events that a decoder builds from its tables. */
  function EventsFrom(s: State, m: Message): seq<StreamEvent> {
    match m
    case Start(_, ToolUse, block) => [ToolStart(block.id, block.name)]
    case BlockDelta(_, ThinkingDelta(t)) => if t != "" then [Thinking(t)] else []
    case BlockDelta(_, TextDelta(t)) => if t != "" then [Text(t)] else []
    case BlockDelta(i, InputJsonDelta(json)) => if json != "" then [ToolInput(IdIn(s, i), json)] else []
    case BlockStop(i) => EmitAtStop(KindIn(s, i), ServerIn(s, i), SignatureIn(s, i))
    case _ => []
  }

  /** The tables answer every question about the messages so far. */
  lemma StepTracks(s: State, h: seq<Message>, m: Message)
    requires Tracks(s, h)
    ensures Tracks(Step(s, m), h + [m])
    ensures EventsFrom(s, m) == EmitAfter(h, m)
  {
    hide Step, KindIn, KindAt, IdIn, ToolIdAt, SignatureIn, SignatureAt, ServerIn, ServerAt, FinalUsage, StopReason;
    forall i
      ensures KindIn(Step(s, m), i) == KindAt(h + [m], i) && IdIn(Step(s, m), i) == ToolIdAt(h + [m], i)
      ensures SignatureIn(Step(s, m), i) == SignatureAt(h + [m], i)
      ensures ServerIn(Step(s, m), i) == ServerAt(h + [m], i)
    {
      StartStep(s, h, m, i);
      SignatureStep(s, h, m, i);
      ServerStep(s, h, m, i);
    }
    TotalsStep(s, h, m);
  }

  lemma StartStep(s: State, h: seq<Message>, m: Message, i: int)
    requires KindIn(s, i) == KindAt(h, i) && IdIn(s, i) == ToolIdAt(h, i)
    ensures KindIn(Step(s, m), i) == KindAt(h + [m], i) && IdIn(Step(s, m), i) == ToolIdAt(h + [m], i)
  {
    assert (h + [m])[..|h|] == h;
  }

  lemma ServerStep(s: State, h: seq<Message>, m: Message, i: int)
    requires KindIn(s, i) == KindAt(h, i) && ServerIn(s, i) == ServerAt(h, i)
    ensures ServerIn(Step(s, m), i) == ServerAt(h + [m], i)
  {
    assert (h + [m])[..|h|] == h;
  }

  lemma TotalsStep(s: State, h: seq<Message>, m: Message)
    requires s.usage == FinalUsage(h) && s.reason == StopReason(h)
    ensures Step(s, m).usage == FinalUsage(h + [m]) && Step(s, m).reason == StopReason(h + [m])
  {
    assert (h + [m])[..|h|] == h;
  }

  lemma SignatureStep(s: State, h: seq<Message>, m: Message, i: int)
    requires SignatureIn(s, i) == SignatureAt(h, i)
    ensures SignatureIn(Step(s, m), i) == SignatureAt(h + [m], i)
  {
    assert (h + [m])[..|h|] == h;
    assert SignatureAt(h, i) + "" == SignatureAt(h, i);
    if m.BlockDelta? && m.delta.SignatureDelta? && m.index == i {
      PartStep(s, m);
    }
  }

  lemma PartStep(s: State, m: Message)
    requires m.BlockDelta? && m.delta.SignatureDelta?
    ensures SignatureIn(Step(s, m), m.index) == SignatureIn(s, m.index) + m.delta.part
  {
    var parts := if m.index in s.signatures then s.signatures[m.index] else [];
    var more := parts + [m.delta.part];
    assert more[..|more| - 1] == parts && Concat(more) == Concat(parts) + m.delta.part;
    assert Concat(parts) == SignatureIn(s, m.index);
    assert SignatureIn(s, m.index) + "" == SignatureIn(s, m.index);
    assert m.delta.part == "" ==> Step(s, m) == s;
  }

  // ---- server-sent events ----

  /** The fields of one block that matter. */
  datatype Fields = Fields(eventType: string, parts: seq<string>)

  const NO_FIELDS := Fields("", [])

  datatype Field = NoField | EventField(name: string) | DataField(text: string)

  function FieldOf(line: string): Field {
    if |line| >= 1 && line[0] == ':' then NoField
    else if |line| >= 6 && line[..6] == "event:" then EventField(Strip(line[6..]))
    else if |line| >= 5 && line[..5] == "data:" then
      DataField(if |line| >= 6 && line[5] == ' ' then line[6..] else line[5..])
    else NoField
  }

  function AddLine(f: Fields, line: string): Fields {
    match FieldOf(line)
    case NoField => f
    case EventField(name) => f.(eventType := name)
    case DataField(text) => f.(parts := f.parts + [text])
  }

  function Gather(lines: seq<string>, f: Fields): Fields {
    if lines == [] then f else Gather(lines[1..], AddLine(f, lines[0]))
  }

  /** The message of a block; none without data or with malformed JSON. */
  function MessageOf(f: Fields, decode: Decoder): seq<Message> {
    if f.parts == [] then []
    else match decode(Join(f.parts))
      case None => []
      case Some(p) => [Classify(p, f.eventType)]
  }

  function BlockMessage(block: string, decode: Decoder): seq<Message> {
    if block == [] then [] else MessageOf(Gather(Lines(block), NO_FIELDS), decode)
  }

  function BatchMessages(blocks: seq<string>, decode: Decoder): seq<Message> {
    if blocks == [] then []
    else BlockMessage(Strip(blocks[0]), decode) + BatchMessages(blocks[1..], decode)
  }

  function BatchEvents(raw: string, decode: Decoder): seq<StreamEvent> {
    Events(BatchMessages(Blocks(raw), decode))
  }

  // ---- the whole-response decoder ----

  /** The loop over one block's lines. */
  method ReadFields(lines: seq<string>) returns (f: Fields)
    ensures f == Gather(lines, NO_FIELDS)
  {
    f := NO_FIELDS;
    var k := 0;
    while k < |lines|
      invariant 0 <= k <= |lines|
      invariant Gather(lines[k..], f) == Gather(lines, NO_FIELDS)
    {
      hide AddLine;
      assert lines[k..][1..] == lines[k + 1..];
      f := AddLine(f, lines[k]);
      k := k + 1;
    }
  }

  /** The branches on a payload's type, on local tables. */
  method Handle(s: State, m: Message) returns (t: State, events: seq<StreamEvent>)
    ensures t == Step(s, m) && events == EventsFrom(s, m)
  {
    t, events := s, [];
    match m {
      case Start(i, kind, block) =>
        t := t.(types := t.types[i := kind]);
        if kind == ToolUse {
          t := t.(ids := t.ids[i := block.id]);
          events := [ToolStart(block.id, block.name)];
        } else if IsServer(kind) {
          t := t.(server := t.server[i := block]);
        }
      case BlockDelta(i, delta) =>
        match delta {
          case ThinkingDelta(text) => if text != "" { events := [Thinking(text)]; }
          case TextDelta(text) => if text != "" { events := [Text(text)]; }
          case InputJsonDelta(json) => if json != "" { events := [ToolInput(IdIn(s, i), json)]; }
          case SignatureDelta(part) =>
            if part != "" {
              var parts := if i in s.signatures then s.signatures[i] else [];
              t := t.(signatures := s.signatures[i := parts + [part]]);
            }
          case OtherDelta =>
        }
      case BlockStop(i) =>
        var kind, sig := KindIn(s, i), SignatureIn(s, i);
        t := t.(signatures := s.signatures - {i});
        if kind == ThinkingBlock && sig != "" {
          events := [ThinkingSignature(sig)];
        } else if kind == ServerToolUse && i in s.server {
          var b := s.server[i];
          events := [ServerUse(b.id, b.name, b.input, sig)];
          t := t.(server := s.server - {i});
        } else if kind == ServerToolResult && i in s.server {
          var b := s.server[i];
          events := [ServerResult(b.toolUseId, b.content, sig)];
          t := t.(server := s.server - {i});
        }
        assert i !in s.server ==> s.server - {i} == s.server;
      case MessageDelta(reason, usage) =>
        if reason.Some? {
          t := t.(reason := reason.value);
        }
        t := t.(usage := t.usage + usage);
      case MessageStart(usage) =>
        t := t.(usage := t.usage + usage);
      case Other =>
    }
  }

  method Parse(raw: string, decode: Decoder) returns (events: seq<StreamEvent>)
    ensures events == BatchEvents(raw, decode)
  {
    assert Run([], []) == [];
    hide Blocks, Strip, Gather, Tracks, EventsFrom, Step, EmitAfter, MessageOf, Run, FinalStop, Lines;
    events := [];
    var s := Initial();
    TracksNothing();
    ghost var h: seq<Message> := [];
    var blocks := Blocks(raw);
    var k := 0;
    while k < |blocks|
      invariant 0 <= k <= |blocks| && Tracks(s, h)
      invariant h + BatchMessages(blocks[k..], decode) == BatchMessages(blocks, decode)
      invariant events == Run([], h)
    {
      NextBlock(blocks, k, h, decode);
      var block := Strip(blocks[k]);
      k := k + 1;
      if block == [] { continue; }
      var f := ReadFields(Lines(block));
      var more;
      s, more := HandleBlock(s, f, decode, h);
      RunAppend([], h, MessageOf(f, decode));
      assert [] + h == h;
      events := events + more;
      h := h + MessageOf(f, decode);
    }
    assert blocks[k..] == [] && h + [] == h;
    events := events + [MessageStop(UsageOf(s.usage), s.reason)];
    StopFromTables(s, h);
  }

  lemma NextBlock(blocks: seq<string>, k: nat, h: seq<Message>, decode: Decoder)
    requires k < |blocks|
    ensures h + BatchMessages(blocks[k..], decode)
      == h + BlockMessage(Strip(blocks[k]), decode) + BatchMessages(blocks[k + 1..], decode)
    ensures Strip(blocks[k]) == [] ==>
      h + BatchMessages(blocks[k..], decode) == h + BatchMessages(blocks[k + 1..], decode)
  {
    hide Strip, BlockMessage;
    assert blocks[k..][1..] == blocks[k + 1..];
    assert BlockMessage([], decode) == [] by { NoMessage(decode); }
  }

  lemma NoMessage(decode: Decoder)
    ensures BlockMessage([], decode) == []
  {
  }

  /** Decoding a block's data and handling the message, if there is one. */
  method HandleBlock(s: State, f: Fields, decode: Decoder, ghost h: seq<Message>)
    returns (t: State, events: seq<StreamEvent>)
    requires Tracks(s, h)
    ensures Tracks(t, h + MessageOf(f, decode)) && events == Run(h, MessageOf(f, decode))
  {
    hide Tracks, Step, EmitAfter, EventsFrom, Join, Classify;
    t, events := s, [];
    assert h + [] == h;
    if f.parts == [] { return; }
    match decode(Join(f.parts)) {
      case None =>
      case Some(p) =>
        ghost var m := Classify(p, f.eventType);
        t, events := Handle(s, Classify(p, f.eventType));
        StepTracks(s, h, m);
        assert [m][1..] == [] && EmitAfter(h, m) + [] == EmitAfter(h, m);
    }
  }

  lemma TracksNothing()
    ensures Tracks(Initial(), [])
  {
  }

  lemma StopFromTables(s: State, h: seq<Message>)
    requires Tracks(s, h)
    ensures MessageStop(UsageOf(s.usage), s.reason) == FinalStop(h)
  {
  }

  lemma {:induction false} RunAppend(h: seq<Message>, a: seq<Message>, b: seq<Message>)
    ensures Run(h, a + b) == Run(h, a) + Run(h + a, b)
    decreases |a|
  {
    hide EmitAfter;
    if a == [] {
      assert a + b == b && h + a == h;
    } else {
      assert (a + b)[1..] == a[1..] + b && (a + b)[0] == a[0];
      assert h + [a[0]] + a[1..] == h + a;
      RunAppend(h + [a[0]], a[1..], b);
    }
  }
}
