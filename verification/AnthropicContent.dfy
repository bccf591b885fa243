/** What the Anthropic decoders hand on of what was received, payload by payload, in the words of
    the wire format alone. */
module AnthropicContent {
  import opened Wrappers
  import opened SeqFacts
  import opened Text
  import opened Sse
  import opened AnthropicStream
  import opened AnthropicIterator

  /** A decoded payload and the event name of its block. */
  datatype Received = Received(payload: Payload, eventType: string)

  function Messages(rs: seq<Received>): (ms: seq<Message>)
    ensures |ms| == |rs|
    ensures forall k :: 0 <= k < |rs| ==> ms[k] == Classify(rs[k].payload, rs[k].eventType)
  {
    seq(|rs|, k requires 0 <= k < |rs| => Classify(rs[k].payload, rs[k].eventType))
  }

  /** The payload's own type, and the block's event name without one. */
  function TypeOf(r: Received): string {
    if r.payload.kind.Some? then r.payload.kind.value else r.eventType
  }

  predicate IsStart(r: Received, i: int) {
    TypeOf(r) == "content_block_start" && r.payload.index == i
  }

  predicate IsToolStart(r: Received, i: int) {
    IsStart(r, i) && r.payload.block.kind == "tool_use"
  }

  predicate IsStop(r: Received, i: int) {
    TypeOf(r) == "content_block_stop" && r.payload.index == i
  }

  predicate IsDelta(r: Received, kind: string) {
    TypeOf(r) == "content_block_delta" && r.payload.delta.kind == kind
  }

  // ---- what came before ----

  ghost predicate NoStart(rs: seq<Received>, i: int) {
    forall k :: 0 <= k < |rs| ==> !IsStart(rs[k], i)
  }

  ghost predicate IsLastStart(rs: seq<Received>, i: int, k: int) {
    0 <= k < |rs| && IsStart(rs[k], i) && forall j :: k < j < |rs| ==> !IsStart(rs[j], i)
  }

  ghost predicate NotStoppedSince(rs: seq<Received>, i: int, k: int) {
    forall j :: 0 <= j && k < j < |rs| ==> !IsStop(rs[j], i)
  }

  /** The id of the last tool call that started at the index, or "". */
  ghost predicate IsToolId(rs: seq<Received>, i: int, id: string) {
    || (id == "" && forall k :: 0 <= k < |rs| ==> !IsToolStart(rs[k], i))
    || exists k :: IsLastToolStart(rs, i, k) && rs[k].payload.block.id == id
  }

  ghost predicate IsLastToolStart(rs: seq<Received>, i: int, k: int) {
    0 <= k < |rs| && IsToolStart(rs[k], i) && forall j :: k < j < |rs| ==> !IsToolStart(rs[j], i)
  }

  /** The signature parts of the index since its last stop, joined. */
  function SignatureOf(rs: seq<Received>, i: int): string {
    if rs == [] then ""
    else
      var n := |rs| - 1;
      var r := rs[n];
      if IsStop(r, i) then ""
      else
        SignatureOf(rs[..n], i)
        + if IsDelta(r, "signature_delta") && r.payload.index == i then r.payload.delta.signature else ""
  }

  // ---- what one payload hands on ----

  /** A stop closes the block that its index started last: a thinking block gives its signature,
      a server block what it was started with, the first time. */
  ghost predicate IsStopOutput(events: seq<StreamEvent>, earlier: seq<Received>, i: int) {
    if NoStart(earlier, i) then events == []
    else
      exists k :: IsLastStart(earlier, i, k)
        && events == Closing(earlier[k].payload.block, SignatureOf(earlier, i), NotStoppedSince(earlier, i, k))
  }

  /** What closing a block gives; `first` says that it was not closed before. */
  function Closing(b: ContentBlock, signature: string, first: bool): seq<StreamEvent> {
    if b.kind == "thinking" then (if signature == "" then [] else [ThinkingSignature(signature)])
    else if !first then []
    else if b.kind == "server_tool_use" then [ServerUse(b.id, b.name, b.input, signature)]
    else if b.kind == "server_tool_result" then [ServerResult(b.toolUseId, b.content, signature)]
    else []
  }

  ghost predicate IsDeltaOutput(events: seq<StreamEvent>, earlier: seq<Received>, i: int, d: DeltaDict) {
    if d.kind == "thinking_delta" && d.thinking != "" then events == [Thinking(d.thinking)]
    else if d.kind == "text_delta" && d.text != "" then events == [Text(d.text)]
    else if d.kind == "input_json_delta" && d.partialJson != "" then
      exists id :: IsToolId(earlier, i, id) && events == [ToolInput(id, d.partialJson)]
    else events == []
  }

  ghost predicate IsOutput(events: seq<StreamEvent>, earlier: seq<Received>, r: Received) {
    var p := r.payload;
    if TypeOf(r) == "content_block_start" && p.block.kind == "tool_use" then
      events == [ToolStart(p.block.id, p.block.name)]
    else if TypeOf(r) == "content_block_delta" then IsDeltaOutput(events, earlier, p.index, p.delta)
    else if TypeOf(r) == "content_block_stop" then IsStopOutput(events, earlier, p.index)
    else events == []
  }

  lemma MessagesSnoc(rs: seq<Received>)
    requires rs != []
    ensures var n := |rs| - 1;
      Messages(rs)[..n] == Messages(rs[..n]) && Messages(rs)[n] == Classify(rs[n].payload, rs[n].eventType)
  {
    hide Classify;
  }

  lemma ClassifiedAs(r: Received, i: int)
    ensures var m, b := Classify(r.payload, r.eventType), r.payload.block;
      && (IsStart(r, i) <==> m.Start? && m.index == i)
      && (m.Start? ==> m.kind == KindOf(b.kind) && m.block == b)
      && (IsStop(r, i) <==> m == BlockStop(i))
      && (IsToolStart(r, i) <==> m.Start? && m.index == i && m.kind == ToolUse)
      && PartOf(m, i) ==
           if IsDelta(r, "signature_delta") && r.payload.index == i then r.payload.delta.signature else ""
  {
    DifferentTypes();
    DifferentDeltas();
  }

  lemma DifferentTypes()
    ensures "content_block_start" != "content_block_delta" && "content_block_start" != "content_block_stop"
    ensures "content_block_delta" != "content_block_stop"
    ensures "message_delta" != "message_start"
  {
    assert "content_block_start"[14] != "content_block_delta"[14];
    assert |"content_block_start"| != |"content_block_stop"| && |"content_block_delta"| != |"content_block_stop"|;
    assert "message_delta"[8] != "message_start"[8];
  }

  lemma DifferentDeltas()
    ensures "signature_delta" != "thinking_delta" && "signature_delta" != "text_delta"
    ensures "signature_delta" != "input_json_delta"
  {
    assert "signature_delta"[0] != "thinking_delta"[0] && "signature_delta"[0] != "text_delta"[0];
    assert "signature_delta"[0] != "input_json_delta"[0];
  }

  lemma {:induction false} SignatureIs(rs: seq<Received>, i: int)
    ensures SignatureAt(Messages(rs), i) == SignatureOf(rs, i)
    decreases |rs|
  {
    if rs != [] {
      var n := |rs| - 1;
      SignatureIs(rs[..n], i);
      MessagesSnoc(rs);
      ClassifiedAs(rs[n], i);
      hide Classify, PartOf, IsDelta, IsStop;
    }
  }

  lemma {:induction false} ToolIdIs(rs: seq<Received>, i: int)
    ensures IsToolId(rs, i, ToolIdAt(Messages(rs), i))
    decreases |rs|
  {
    if rs != [] {
      var n := |rs| - 1;
      ToolIdIs(rs[..n], i);
      MessagesSnoc(rs);
      ClassifiedAs(rs[n], i);
      assert ToolIdAt(Messages(rs), i) ==
        if IsToolStart(rs[n], i) then rs[n].payload.block.id else ToolIdAt(Messages(rs[..n]), i);
      hide Classify, Messages, IsToolStart, ToolIdAt;
      ToolIdStays(rs, i, ToolIdAt(Messages(rs[..n]), i));
    }
  }

  lemma ToolIdStays(rs: seq<Received>, i: int, id: string)
    requires rs != [] && IsToolId(rs[..|rs| - 1], i, id)
    ensures IsToolId(rs, i, if IsToolStart(rs[|rs| - 1], i) then rs[|rs| - 1].payload.block.id else id)
  {
    hide IsToolStart;
    var n := |rs| - 1;
    var shorter := rs[..n];
    assert forall k :: 0 <= k < n ==> shorter[k] == rs[k];
    if IsToolStart(rs[n], i) {
      assert IsLastToolStart(rs, i, n);
    } else if k :| IsLastToolStart(shorter, i, k) && shorter[k].payload.block.id == id {
      assert IsLastToolStart(rs, i, k);
    }
  }

  /** The kind and the open server block of an index, by its last start `k`. */
  ghost predicate IsOpenedBy(rs: seq<Received>, i: int, k: int, kind: BlockKind, server: Option<ContentBlock>) {
    if NoStart(rs, i) then kind == OtherBlock
    else
      && IsLastStart(rs, i, k) && kind == KindOf(rs[k].payload.block.kind)
      && (IsServer(kind) ==> server == if NotStoppedSince(rs, i, k) then Some(rs[k].payload.block) else None)
  }

  lemma {:induction false} LastStartIs(rs: seq<Received>, i: int) returns (k: int)
    ensures IsOpenedBy(rs, i, k, KindAt(Messages(rs), i), ServerAt(Messages(rs), i))
    decreases |rs|
  {
    k := -1;
    if rs != [] {
      var n := |rs| - 1;
      k := LastStartIs(rs[..n], i);
      MessagesSnoc(rs);
      ClassifiedAs(rs[n], i);
      var h := Messages(rs[..n]);
      OneMoreStarts(Messages(rs), i);
      hide Classify, Messages, IsStart, IsStop, KindOf, IsServer, KindAt, ServerAt;
      if IsStart(rs[n], i) {
        k := n;
      } else {
        StillOpenedBy(rs, i, k, KindAt(h, i), ServerAt(h, i));
      }
    }
  }

  lemma OneMoreStarts(ms: seq<Message>, i: int)
    requires ms != []
    ensures var n := |ms| - 1;
      var h, m := ms[..n], ms[n];
      && KindAt(ms, i) == (if m.Start? && m.index == i then m.kind else KindAt(h, i))
      && ServerAt(ms, i) ==
           if m.Start? && m.index == i && IsServer(m.kind) then Some(m.block)
           else if m == BlockStop(i) && IsServer(KindAt(h, i)) then None
           else ServerAt(h, i)
  {
  }

  lemma StillOpenedBy(rs: seq<Received>, i: int, k: int, kind: BlockKind, server: Option<ContentBlock>)
    requires rs != [] && IsOpenedBy(rs[..|rs| - 1], i, k, kind, server) && !IsStart(rs[|rs| - 1], i)
    ensures IsOpenedBy(rs, i, k, kind, if IsStop(rs[|rs| - 1], i) && IsServer(kind) then None else server)
  {
    hide IsStart, IsStop, KindOf, IsServer;
    var n := |rs| - 1;
    assert forall j :: 0 <= j < n ==> rs[..n][j] == rs[j];
    assert NoStart(rs, i) <==> NoStart(rs[..n], i);
    if !NoStart(rs, i) {
      assert NotStoppedSince(rs, i, k) <==> NotStoppedSince(rs[..n], i, k) && !IsStop(rs[n], i);
    }
  }

  lemma Kinds(kind: string)
    ensures KindOf(kind) == ThinkingBlock <==> kind == "thinking"
    ensures KindOf(kind) == ServerToolUse <==> kind == "server_tool_use"
    ensures KindOf(kind) == ServerToolResult <==> kind == "server_tool_result"
    ensures KindOf(kind) == ToolUse <==> kind == "tool_use"
  {
    assert "thinking"[0] == 't' && "server_tool_use"[0] == 's' && "server_tool_result"[0] == 's' && "tool_use"[0] == 't';
    assert |"thinking"| == |"tool_use"| && "thinking"[1] != "tool_use"[1];
    assert |"server_tool_use"| != |"server_tool_result"|;
  }

  lemma StopOutputIs(earlier: seq<Received>, i: int)
    ensures IsStopOutput(EmitAfter(Messages(earlier), BlockStop(i)), earlier, i)
  {
    var k := LastStartIs(earlier, i);
    SignatureIs(earlier, i);
    var ms := Messages(earlier);
    var kind, server, signature := KindAt(ms, i), ServerAt(ms, i), SignatureOf(earlier, i);
    assert EmitAfter(ms, BlockStop(i)) == EmitAtStop(kind, server, signature);
    hide KindAt, ServerAt, SignatureAt, SignatureOf, EmitAfter;
    if NoStart(earlier, i) {
      assert EmitAtStop(OtherBlock, server, signature) == [];
    } else {
      ClosingIs(earlier[k].payload.block, signature, NotStoppedSince(earlier, i, k), server);
      hide EmitAtStop, Closing, KindOf, IsServer, IsLastStart, NotStoppedSince, NoStart;
    }
  }

  lemma ClosingIs(b: ContentBlock, signature: string, first: bool, server: Option<ContentBlock>)
    requires IsServer(KindOf(b.kind)) ==> server == if first then Some(b) else None
    ensures EmitAtStop(KindOf(b.kind), server, signature) == Closing(b, signature, first)
  {
    Kinds(b.kind);
    hide KindOf;
  }

  lemma DeltaOutputIs(earlier: seq<Received>, i: int, d: DeltaDict)
    ensures IsDeltaOutput(EmitAfter(Messages(earlier), BlockDelta(i, DeltaOf(d))), earlier, i, d)
  {
    ToolIdIs(earlier, i);
    hide IsToolId, ToolIdAt;
    assert "thinking_delta"[1] != "text_delta"[1] && "input_json_delta"[0] != 't';
  }

  /** What the decoders build for a payload is its output. */
  lemma OutputIs(earlier: seq<Received>, r: Received)
    ensures IsOutput(EmitAfter(Messages(earlier), Classify(r.payload, r.eventType)), earlier, r)
  {
    var p := r.payload;
    StopOutputIs(earlier, p.index);
    DeltaOutputIs(earlier, p.index, p.delta);
    Kinds(p.block.kind);
    DifferentTypes();
    hide IsStopOutput, IsDeltaOutput, DeltaOf, KindOf, EmitAtStop, KindAt, ServerAt, SignatureAt, ToolIdAt;
  }

  // ---- a whole stream ----

  /** One more payload hands on just its own output, whatever is interleaved with it. */
  lemma OneMorePayload(rs: seq<Received>, r: Received) returns (events: seq<StreamEvent>)
    ensures IsOutput(events, rs, r)
    ensures Run([], Messages(rs + [r])) == Run([], Messages(rs)) + events
  {
    var h, m := Messages(rs), Classify(r.payload, r.eventType);
    events := EmitAfter(h, m);
    OutputIs(rs, r);
    MessagesSnoc(rs + [r]);
    assert (rs + [r])[..|rs|] == rs;
    hide IsOutput, Classify, Messages, EmitAfter;
    assert Messages(rs + [r]) == h + [m];
    RunAppend([], h, [m]);
    assert [] + h == h && [m][1..] == [] && Run(h + [m], []) == [];
    assert events + [] == events;
  }

  /** The thinking and text deltas handed on, in order. */
  function Said(events: seq<StreamEvent>): seq<StreamEvent> {
    if events == [] then []
    else (if events[0].Thinking? || events[0].Text? then [events[0]] else []) + Said(events[1..])
  }

  /** The ids and names of the tool calls announced, in order. */
  function Starts(events: seq<StreamEvent>): seq<(string, string)> {
    if events == [] then []
    else (if events[0].ToolStart? then [(events[0].id, events[0].name)] else []) + Starts(events[1..])
  }

  lemma {:induction false} FilterAppend(a: seq<StreamEvent>, b: seq<StreamEvent>)
    ensures Said(a + b) == Said(a) + Said(b) && Starts(a + b) == Starts(a) + Starts(b)
    decreases |a|
  {
    if a == [] {
      assert a + b == b;
    } else {
      assert (a + b)[1..] == a[1..] + b && (a + b)[0] == a[0];
      FilterAppend(a[1..], b);
      TakeSome(if a[0].Thinking? || a[0].Text? then [a[0]] else [], Said(a[1..]), Said(b));
      TakeSome(if a[0].ToolStart? then [(a[0].id, a[0].name)] else [], Starts(a[1..]), Starts(b));
    }
  }

  /** What a payload says: a thinking delta as thinking, a text delta as text, an empty one
      nothing. */
  function SaidBy(r: Received): seq<StreamEvent> {
    var d := r.payload.delta;
    if IsDelta(r, "thinking_delta") && d.thinking != "" then [Thinking(d.thinking)]
    else if IsDelta(r, "text_delta") && d.text != "" then [Text(d.text)]
    else []
  }

  function OpenedBy(r: Received): seq<(string, string)> {
    if IsToolStart(r, r.payload.index) then [(r.payload.block.id, r.payload.block.name)] else []
  }

  function Heard(rs: seq<Received>): seq<StreamEvent> {
    if rs == [] then [] else Heard(rs[..|rs| - 1]) + SaidBy(rs[|rs| - 1])
  }

  /** The ids and names of the tool-use blocks that start. */
  function Openings(rs: seq<Received>): seq<(string, string)> {
    if rs == [] then [] else Openings(rs[..|rs| - 1]) + OpenedBy(rs[|rs| - 1])
  }

  lemma FilterOutput(events: seq<StreamEvent>, earlier: seq<Received>, r: Received)
    requires IsOutput(events, earlier, r)
    ensures Said(events) == SaidBy(r) && Starts(events) == OpenedBy(r)
  {
    DifferentTypes();
    OneAtMost(events, earlier, r);
    assert "thinking_delta"[1] != "text_delta"[1] && "input_json_delta"[0] != 't';
    if events != [] {
      assert events[1..] == [];
    }
  }

  lemma OneAtMost(events: seq<StreamEvent>, earlier: seq<Received>, r: Received)
    requires IsOutput(events, earlier, r)
    ensures |events| <= 1
    ensures TypeOf(r) == "content_block_stop" ==>
      forall e :: e in events ==> !e.Thinking? && !e.Text? && !e.ToolStart?
  {
    DifferentTypes();
    hide IsToolId, SignatureOf, NotStoppedSince, IsLastStart, NoStart;
  }

  ghost predicate SaysWhatIsHeard(events: seq<StreamEvent>, rs: seq<Received>) {
    Said(events) == Heard(rs) && Starts(events) == Openings(rs)
  }

  lemma OneMoreHeard(run: seq<StreamEvent>, rs: seq<Received>, events: seq<StreamEvent>, r: Received)
    requires SaysWhatIsHeard(run, rs) && IsOutput(events, rs, r)
    ensures SaysWhatIsHeard(run + events, rs + [r])
  {
    assert (rs + [r])[..|rs|] == rs;
    hide IsOutput, Said, Starts, SaidBy, OpenedBy;
    FilterOutput(events, rs, r);
    FilterAppend(run, events);
  }

  lemma NothingHeard()
    ensures Messages([]) == [] && SaysWhatIsHeard(Run([], []), [])
  {
  }

  /** All thinking and all text arrives, in order and each as what it is, and every tool call is
      announced by its id and name. */
  lemma {:induction false} SaidIsHeard(rs: seq<Received>)
    ensures SaysWhatIsHeard(Run([], Messages(rs)), rs)
    decreases |rs|
  {
    hide *;
    if rs == [] {
      NothingHeard();
    } else {
      var n := |rs| - 1;
      SaidIsHeard(rs[..n]);
      assert rs == rs[..n] + [rs[n]];
      var events := OneMorePayload(rs[..n], rs[n]);
      OneMoreHeard(Run([], Messages(rs[..n])), rs[..n], events, rs[n]);
    }
  }

  // ---- the closing report ----

  function UsageIn(r: Received): map<string, int> {
    if TypeOf(r) == "message_delta" then r.payload.usage
    else if TypeOf(r) == "message_start" then r.payload.messageUsage
    else map[]
  }

  /** The value last reported under the key, or 0. */
  ghost predicate IsLatestCount(rs: seq<Received>, key: string, n: int) {
    || (n == 0 && forall k :: 0 <= k < |rs| ==> key !in UsageIn(rs[k]))
    || exists k :: IsLastReport(rs, key, k) && UsageIn(rs[k])[key] == n
  }

  ghost predicate IsLastReport(rs: seq<Received>, key: string, k: int) {
    0 <= k < |rs| && key in UsageIn(rs[k]) && forall j :: k < j < |rs| ==> key !in UsageIn(rs[j])
  }

  /** The stop reason last given, "end_turn" if none was. */
  ghost predicate IsLatestReason(rs: seq<Received>, reason: Option<string>) {
    || (reason == Some("end_turn") && forall k :: 0 <= k < |rs| ==> !GivesReason(rs[k]))
    || exists k :: IsLastReason(rs, k) && rs[k].payload.delta.stopReason == Some(reason)
  }

  predicate GivesReason(r: Received) {
    TypeOf(r) == "message_delta" && r.payload.delta.stopReason.Some?
  }

  ghost predicate IsLastReason(rs: seq<Received>, k: int) {
    0 <= k < |rs| && GivesReason(rs[k]) && forall j :: k < j < |rs| ==> !GivesReason(rs[j])
  }

  lemma ClassifiedTotals(r: Received)
    ensures var m := Classify(r.payload, r.eventType);
      && UsageIn(r) == (if m.MessageDelta? || m.MessageStart? then m.usage else map[])
      && (GivesReason(r) <==> m.MessageDelta? && m.reason.Some?)
      && (m.MessageDelta? ==> m.reason == r.payload.delta.stopReason)
  {
    assert |"message_delta"| != |"content_block_delta"| && |"message_delta"| != |"content_block_start"|;
    assert |"message_delta"| != |"content_block_stop"| && |"message_start"| != |"content_block_delta"|;
    assert |"message_start"| != |"content_block_start"| && |"message_start"| != |"content_block_stop"|;
    DifferentTypes();
  }

  lemma {:induction false} CountIs(rs: seq<Received>, key: string)
    ensures IsLatestCount(rs, key, Get(FinalUsage(Messages(rs)), key))
    decreases |rs|
  {
    if rs != [] {
      var n := |rs| - 1;
      CountIs(rs[..n], key);
      MessagesSnoc(rs);
      ClassifiedTotals(rs[n]);
      var before := FinalUsage(Messages(rs[..n]));
      assert FinalUsage(Messages(rs)) == before + UsageIn(rs[n]);
      hide Classify, Messages, UsageIn, FinalUsage;
      CountStays(rs, key, Get(before, key));
    }
  }

  lemma CountStays(rs: seq<Received>, key: string, count: int)
    requires rs != [] && IsLatestCount(rs[..|rs| - 1], key, count)
    ensures var usage := UsageIn(rs[|rs| - 1]);
      IsLatestCount(rs, key, if key in usage then usage[key] else count)
  {
    hide UsageIn;
    var n := |rs| - 1;
    assert forall k :: 0 <= k < n ==> rs[..n][k] == rs[k];
    if key in UsageIn(rs[n]) {
      assert IsLastReport(rs, key, n);
    } else if k :| IsLastReport(rs[..n], key, k) && UsageIn(rs[..n][k])[key] == count {
      assert IsLastReport(rs, key, k);
    }
  }

  lemma {:induction false} ReasonIs(rs: seq<Received>)
    ensures IsLatestReason(rs, StopReason(Messages(rs)))
    decreases |rs|
  {
    if rs != [] {
      var n := |rs| - 1;
      ReasonIs(rs[..n]);
      MessagesSnoc(rs);
      ClassifiedTotals(rs[n]);
      var before := StopReason(Messages(rs[..n]));
      assert StopReason(Messages(rs)) == if GivesReason(rs[n]) then rs[n].payload.delta.stopReason.value else before;
      hide Classify, Messages, StopReason, GivesReason, IsLatestReason;
      ReasonStays(rs, before);
    }
  }

  lemma ReasonStays(rs: seq<Received>, reason: Option<string>)
    requires rs != [] && IsLatestReason(rs[..|rs| - 1], reason)
    ensures var r := rs[|rs| - 1];
      (GivesReason(r) ==> r.payload.delta.stopReason.Some?)
      && IsLatestReason(rs, if GivesReason(r) then r.payload.delta.stopReason.value else reason)
  {
    var n := |rs| - 1;
    assert GivesReason(rs[n]) ==> rs[n].payload.delta.stopReason.Some?;
    hide GivesReason;
    assert forall k :: 0 <= k < n ==> rs[..n][k] == rs[k];
    if GivesReason(rs[n]) {
      assert IsLastReason(rs, n);
    } else if k :| IsLastReason(rs[..n], k) && rs[..n][k].payload.delta.stopReason == Some(reason) {
      assert IsLastReason(rs, k);
    }
  }

  /** The closing event reports each count as it was last given under its own key, and the last
      stop reason. */
  lemma StopReports(rs: seq<Received>)
    ensures var stop := FinalStop(Messages(rs));
      && stop.MessageStop?
      && IsLatestCount(rs, "input_tokens", stop.usage.input)
      && IsLatestCount(rs, "output_tokens", stop.usage.output)
      && IsLatestCount(rs, "cache_read_input_tokens", stop.usage.cacheRead)
      && IsLatestCount(rs, "cache_creation_input_tokens", stop.usage.cacheCreation)
      && IsLatestReason(rs, stop.reason)
  {
    CountIs(rs, "input_tokens");
    CountIs(rs, "output_tokens");
    CountIs(rs, "cache_read_input_tokens");
    CountIs(rs, "cache_creation_input_tokens");
    ReasonIs(rs);
    hide IsLatestCount, IsLatestReason, Get, FinalUsage, StopReason;
  }

  // ---- from the text of a response ----

  function ReceivedAs(f: Fields, decode: Decoder): seq<Received> {
    if f.parts == [] then []
    else match decode(Join(f.parts))
      case None => []
      case Some(p) => [Received(p, f.eventType)]
  }

  /** What the batch decoder decodes of its blocks. */
  function BatchReceived(blocks: seq<string>, decode: Decoder): seq<Received> {
    if blocks == [] then []
    else
      var block := Strip(blocks[0]);
      (if block == [] then [] else ReceivedAs(Gather(Lines(block), NO_FIELDS), decode))
      + BatchReceived(blocks[1..], decode)
  }

  /** What the live decoder decodes of the lines. */
  function LiveReceived(lines: seq<string>, f: Fields, decode: Decoder): seq<Received> {
    if lines == [] then []
    else if lines[0] == [] then ReceivedAs(f, decode) + LiveReceived(lines[1..], NO_FIELDS, decode)
    else LiveReceived(lines[1..], AddLine(f, lines[0]), decode)
  }

  lemma MessagesAppend(a: seq<Received>, b: seq<Received>)
    ensures Messages(a + b) == Messages(a) + Messages(b)
  {
    hide Classify;
  }

  lemma {:induction false} BatchIsReceived(blocks: seq<string>, decode: Decoder)
    ensures BatchMessages(blocks, decode) == Messages(BatchReceived(blocks, decode))
    decreases |blocks|
  {
    hide Strip, Gather, Lines, Classify;
    if blocks != [] {
      BatchIsReceived(blocks[1..], decode);
      var block := Strip(blocks[0]);
      var own := if block == [] then [] else ReceivedAs(Gather(Lines(block), NO_FIELDS), decode);
      assert BlockMessage(block, decode) == Messages(own);
      hide BlockMessage, ReceivedAs, Messages;
      MessagesAppend(own, BatchReceived(blocks[1..], decode));
    }
  }

  lemma {:induction false} LiveIsReceived(lines: seq<string>, f: Fields, decode: Decoder)
    ensures LiveMessages(lines, f, decode) == Messages(LiveReceived(lines, f, decode))
    decreases |lines|
  {
    hide AddLine, Classify;
    if lines != [] {
      assert MessageOf(f, decode) == Messages(ReceivedAs(f, decode));
      hide MessageOf, ReceivedAs, Messages;
      if lines[0] == [] {
        LiveIsReceived(lines[1..], NO_FIELDS, decode);
        MessagesAppend(ReceivedAs(f, decode), LiveReceived(lines[1..], NO_FIELDS, decode));
      } else {
        LiveIsReceived(lines[1..], AddLine(f, lines[0]), decode);
      }
    }
  }

  /** What the events of a decoder are, of the payloads it received. */
  ghost predicate HandsOn(events: seq<StreamEvent>, rs: seq<Received>) {
    && events != [] && events[|events| - 1] == FinalStop(Messages(rs))
    && SaysWhatIsHeard(events, rs)
  }

  lemma EventsHandOn(rs: seq<Received>)
    ensures HandsOn(Events(Messages(rs)), rs)
  {
    var stop := FinalStop(Messages(rs));
    SaidIsHeard(rs);
    FilterAppend(Run([], Messages(rs)), [stop]);
    assert [stop][1..] == [] && Said([stop]) == [] && Starts([stop]) == [];
    hide Heard, Openings, Run, FinalStop, Messages;
    assert Heard(rs) + [] == Heard(rs) && Openings(rs) + [] == Openings(rs);
  }

  /** Both decoders hand on what they received: the batch decoder from a text, the live one from
      lines. */
  lemma BothHandOn(raw: string, lines: seq<string>, decode: Decoder)
    ensures HandsOn(BatchEvents(raw, decode), BatchReceived(Blocks(raw), decode))
    ensures HandsOn(LiveEvents(lines, decode), LiveReceived(lines, NO_FIELDS, decode))
  {
    BatchIsReceived(Blocks(raw), decode);
    LiveIsReceived(lines, NO_FIELDS, decode);
    EventsHandOn(BatchReceived(Blocks(raw), decode));
    EventsHandOn(LiveReceived(lines, NO_FIELDS, decode));
  }

  /** How a field line is read: one space before data is optional, whitespace around an event name
      is not part of it, and comments and other fields carry nothing. */
  lemma FieldLine(value: string)
    ensures FieldOf("data: " + value) == DataField(value)
    ensures value == [] || value[0] != ' ' ==> FieldOf("data:" + value) == DataField(value)
    ensures FieldOf("event:" + value) == EventField(Strip(value))
    ensures FieldOf(":" + value) == NoField && FieldOf("id:" + value) == NoField && FieldOf("retry:" + value) == NoField
  {
    var spaced, tight, event := "data: " + value, "data:" + value, "event:" + value;
    assert spaced[..5] == "data:" && spaced[5] == ' ' && spaced[6..] == value && spaced[0] == 'd';
    assert tight[..5] == "data:" && tight[5..] == value && tight[0] == 'd';
    assert event[..6] == "event:" && event[6..] == value;
    assert "event:"[0] == 'e' && "data:"[0] == 'd' && ("id:" + value)[0] == 'i' && ("retry:" + value)[0] == 'r';
    assert |spaced| >= 6 ==> spaced[..6][0] == 'd';
    assert |tight| >= 6 ==> tight[..6][0] == 'd';
  }
}
