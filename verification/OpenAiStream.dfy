/** The OpenAI-compatible stream decoders: the buffered one that builds the whole event list,
    and the lazy one that hands events on as chunks arrive. */
module OpenAiStream {
  import opened Wrappers
  import opened SeqFacts

  // ---- decoded chunks; a missing or falsy string field is "" ----

  datatype ToolDelta = ToolDelta(index: int, id: string, name: string, args: string)

  datatype Choice = Choice(reasoning: seq<string>, text: string, tools: seq<ToolDelta>, finish: string)

  /** A usage dict; the source's `a or b or 0` skips both a missing entry and a zero one. */
  datatype UsageData = UsageData(promptTokens: int, inputTokens: int, completionTokens: int, outputTokens: int,
                                 cachedTokens: int, cacheRead: int, cacheCreation: int)

  /** `usage` is `None` when the entry is missing or an empty dict. */
  datatype Chunk = Chunk(usage: Option<UsageData>, choices: seq<Choice>)

  // ---- what the decoders produce ----

  datatype Usage = Usage(input: int, output: int, cacheRead: int, cacheCreation: int)

  datatype StreamEvent =
    | Thinking(text: string)
    | Text(text: string)
    | ToolStart(id: string, name: string)
    | ToolInput(id: string, json: string)
    | Stop(usage: Usage, reason: string)

  datatype PendingTool = PendingTool(id: string, name: string, args: string)

  function Or(a: int, b: int): int {
    if a != 0 then a else b
  }

  /** `_token_usage_from_dict` */
  function TokenUsage(data: Option<UsageData>): Usage {
    match data
    case None => Usage(0, 0, 0, 0)
    case Some(u) => Usage(Or(u.promptTokens, u.inputTokens), Or(u.completionTokens, u.outputTokens),
                          Or(u.cacheRead, u.cachedTokens), u.cacheCreation)
  }

  /** `_extract_reasoning_text`: the first non-empty candidate field. */
  function ReasoningText(fields: seq<string>): string {
    if fields == [] then "" else if fields[0] != "" then fields[0] else ReasoningText(fields[1..])
  }

  // ---- reference definition, without any decoder state ----

  /** The first delta of a tool index, which gives the call its id and name. */
  function Opener(deltas: seq<ToolDelta>, index: int): Option<ToolDelta> {
    if deltas == [] then None
    else if deltas[0].index == index then Some(deltas[0])
    else Opener(deltas[1..], index)
  }

  function ArgsOf(td: ToolDelta, index: int): string {
    if td.index == index then td.args else ""
  }

  function Args(deltas: seq<ToolDelta>, index: int): string {
    if deltas == [] then "" else ArgsOf(deltas[0], index) + Args(deltas[1..], index)
  }

  /** Events of one tool delta that follows `before`. */
  function ToolEvents(before: seq<ToolDelta>, td: ToolDelta): seq<StreamEvent> {
    var opener := Opener(before, td.index);
    var id := if opener.Some? then opener.value.id else td.id;
    (if opener.None? && td.name != "" then [ToolStart(td.id, td.name)] else [])
    + (if td.args != "" then [ToolInput(id, td.args)] else [])
  }

  function ToolBody(before: seq<ToolDelta>, tools: seq<ToolDelta>): seq<StreamEvent>
    decreases |tools|
  {
    if tools == [] then [] else ToolEvents(before, tools[0]) + ToolBody(before + [tools[0]], tools[1..])
  }

  function TextBody(c: Choice): seq<StreamEvent> {
    (if ReasoningText(c.reasoning) != "" then [Thinking(ReasoningText(c.reasoning))] else [])
    + (if c.text != "" then [Text(c.text)] else [])
  }

  function ChoiceBody(before: seq<ToolDelta>, c: Choice): seq<StreamEvent> {
    TextBody(c) + ToolBody(before, c.tools)
  }

  /** All events but the stop. */
  function Body(before: seq<ToolDelta>, choices: seq<Choice>): seq<StreamEvent>
    decreases |choices|
  {
    if choices == [] then []
    else ChoiceBody(before, choices[0]) + Body(before + choices[0].tools, choices[1..])
  }

  function Tools(choices: seq<Choice>): seq<ToolDelta> {
    if choices == [] then [] else choices[0].tools + Tools(choices[1..])
  }

  function Choices(chunks: seq<Chunk>): seq<Choice> {
    if chunks == [] then [] else chunks[0].choices + Choices(chunks[1..])
  }

  /** The first non-empty finish reason, or "". */
  function Reason(choices: seq<Choice>): string {
    if choices == [] then "" else if choices[0].finish != "" then choices[0].finish else Reason(choices[1..])
  }

  predicate Finishes(choices: seq<Choice>) {
    Reason(choices) != ""
  }

  function LastUsage(chunks: seq<Chunk>): Option<UsageData> {
    if chunks == [] then None
    else if LastUsage(chunks[1..]).Some? then LastUsage(chunks[1..])
    else chunks[0].usage
  }

  /** Chunks up to and including the first with a finish reason. */
  function ThroughFinish(chunks: seq<Chunk>): seq<Chunk> {
    if chunks == [] then []
    else if Finishes(chunks[0].choices) then [chunks[0]]
    else [chunks[0]] + ThroughFinish(chunks[1..])
  }

  /** The stop as it is first built, with the usage known at that point. */
  function HeldStop(chunks: seq<Chunk>): StreamEvent {
    Stop(TokenUsage(LastUsage(ThroughFinish(chunks))), Reason(Choices(chunks)))
  }

  /** A stop without token counts takes them from a later usage chunk. */
  function Patched(stop: StreamEvent, usage: Option<UsageData>): StreamEvent
    requires stop.Stop?
  {
    if usage.Some? && stop.usage.input == 0 && stop.usage.output == 0 then Stop(TokenUsage(usage), stop.reason) else stop
  }

  function StopOf(chunks: seq<Chunk>): seq<StreamEvent> {
    if Finishes(Choices(chunks)) then [Patched(HeldStop(chunks), LastUsage(chunks))] else []
  }

  /** The stop comes right after the choice that carries the first finish reason. */
  function InPlace(before: seq<ToolDelta>, choices: seq<Choice>, stop: StreamEvent): seq<StreamEvent>
    decreases |choices|
  {
    if choices == [] then []
    else if choices[0].finish != "" then
      ChoiceBody(before, choices[0]) + [stop] + Body(before + choices[0].tools, choices[1..])
    else ChoiceBody(before, choices[0]) + InPlace(before + choices[0].tools, choices[1..], stop)
  }

  function Buffered(chunks: seq<Chunk>): seq<StreamEvent> {
    InPlace([], Choices(chunks), Patched(HeldStop(chunks), LastUsage(chunks)))
  }

  function Lazy(chunks: seq<Chunk>): seq<StreamEvent> {
    Body([], Choices(chunks)) + StopOf(chunks)
  }

  // ---- the decoder's table of pending tool calls ----

  ghost predicate Tracks(pending: map<int, PendingTool>, deltas: seq<ToolDelta>) {
    && (forall i :: i in pending <==> Opener(deltas, i).Some?)
    && (forall i :: i in pending ==>
          pending[i] == PendingTool(Opener(deltas, i).value.id, Opener(deltas, i).value.name, Args(deltas, i)))
  }

  lemma {:induction false} OpenerSnoc(deltas: seq<ToolDelta>, td: ToolDelta, index: int)
    ensures Opener(deltas + [td], index) ==
      if Opener(deltas, index).None? && td.index == index then Some(td) else Opener(deltas, index)
    ensures Opener(deltas, index).None? ==> Args(deltas, index) == ""
    decreases |deltas|
  {
    var all := deltas + [td];
    if deltas == [] {
      assert all[1..] == [] && all[0] == td;
    } else {
      assert all[1..] == deltas[1..] + [td] && all[0] == deltas[0];
      OpenerSnoc(deltas[1..], td, index);
    }
  }

  lemma {:induction false} ArgsSnoc(deltas: seq<ToolDelta>, td: ToolDelta, index: int)
    ensures Args(deltas + [td], index) == Args(deltas, index) + ArgsOf(td, index)
    decreases |deltas|
  {
    hide ArgsOf;
    var all := deltas + [td];
    if deltas == [] {
      assert all[1..] == [] && all[0] == td;
    } else {
      assert all[1..] == deltas[1..] + [td] && all[0] == deltas[0];
      ArgsSnoc(deltas[1..], td, index);
    }
  }

  lemma {:induction false} ToolBodySnoc(before: seq<ToolDelta>, tools: seq<ToolDelta>, td: ToolDelta)
    ensures ToolBody(before, tools + [td]) == ToolBody(before, tools) + ToolEvents(before + tools, td)
    decreases |tools|
  {
    hide ToolEvents;
    var all := tools + [td];
    if tools == [] {
      assert all[1..] == [] && before + tools == before;
    } else {
      assert all[1..] == tools[1..] + [td] && all[0] == tools[0];
      assert before + [tools[0]] + tools[1..] == before + tools;
      ToolBodySnoc(before + [tools[0]], tools[1..], td);
    }
  }

  lemma NextTool(before: seq<ToolDelta>, tools: seq<ToolDelta>, j: nat, start: seq<StreamEvent>)
    requires j < |tools|
    ensures before + tools[..j] + [tools[j]] == before + tools[..j + 1]
    ensures start + ToolBody(before, tools[..j]) + ToolEvents(before + tools[..j], tools[j])
      == start + ToolBody(before, tools[..j + 1])
  {
    hide ToolEvents, ToolBody;
    assert tools[..j] + [tools[j]] == tools[..j + 1];
    ToolBodySnoc(before, tools[..j], tools[j]);
  }

  lemma {:induction false} BodyAppend(before: seq<ToolDelta>, a: seq<Choice>, b: seq<Choice>)
    ensures Body(before, a + b) == Body(before, a) + Body(before + Tools(a), b)
    decreases |a|
  {
    hide ChoiceBody;
    if a == [] {
      assert a + b == b && before + Tools(a) == before;
    } else {
      assert (a + b)[1..] == a[1..] + b && (a + b)[0] == a[0];
      BodyAppend(before + a[0].tools, a[1..], b);
      assert before + a[0].tools + Tools(a[1..]) == before + Tools(a);
    }
  }

  lemma {:induction false} ToolsAppend(a: seq<Choice>, b: seq<Choice>)
    ensures Tools(a + b) == Tools(a) + Tools(b)
    ensures Reason(a + b) == if Finishes(a) then Reason(a) else Reason(b)
    decreases |a|
  {
    if a == [] {
      assert a + b == b;
    } else {
      assert (a + b)[1..] == a[1..] + b && (a + b)[0] == a[0];
      ToolsAppend(a[1..], b);
    }
  }

  lemma {:induction false} OneMoreChunk(chunks: seq<Chunk>, c: Chunk)
    ensures Choices(chunks + [c]) == Choices(chunks) + c.choices
    ensures LastUsage(chunks + [c]) == if c.usage.Some? then c.usage else LastUsage(chunks)
    decreases |chunks|
  {
    assert !Finishes([]);
    hide Reason;
    var all := chunks + [c];
    if chunks == [] {
      assert all[1..] == [] && all[0] == c;
    } else {
      assert all[1..] == chunks[1..] + [c] && all[0] == chunks[0];
      OneMoreChunk(chunks[1..], c);
    }
  }

  /** The held stop does not change once a finish reason has been seen, and until then every
      chunk so far counts. */
  lemma {:induction false} HeldStopSnoc(chunks: seq<Chunk>, c: Chunk)
    ensures Finishes(Choices(chunks)) ==> HeldStop(chunks + [c]) == HeldStop(chunks)
    ensures !Finishes(Choices(chunks)) ==> ThroughFinish(chunks + [c]) == chunks + [c]
  {
    ThroughFinishSnoc(chunks, c);
    OneMoreChunk(chunks, c);
    ToolsAppend(Choices(chunks), c.choices);
  }

  lemma {:induction false} ThroughFinishSnoc(chunks: seq<Chunk>, c: Chunk)
    ensures ThroughFinish(chunks + [c]) ==
      if Finishes(Choices(chunks)) then ThroughFinish(chunks) else chunks + [c]
    decreases |chunks|
  {
    assert !Finishes([]);
    hide Reason;
    var all := chunks + [c];
    if chunks == [] {
      assert all[1..] == [] && all[0] == c;
    } else {
      assert all[1..] == chunks[1..] + [c] && all[0] == chunks[0];
      ToolsAppend(chunks[0].choices, Choices(chunks[1..]));
      ThroughFinishSnoc(chunks[1..], c);
    }
  }

  lemma BodySnoc(before: seq<ToolDelta>, cs: seq<Choice>, c: Choice)
    ensures Body(before, cs + [c]) == Body(before, cs) + ChoiceBody(before + Tools(cs), c)
  {
    BodyAppend(before, cs, [c]);
    hide ChoiceBody;
    assert Body(before + Tools(cs), [c]) == ChoiceBody(before + Tools(cs), c);
  }

  lemma {:induction false} InPlaceSnoc(before: seq<ToolDelta>, cs: seq<Choice>, c: Choice, stop: StreamEvent)
    ensures InPlace(before, cs + [c], stop) == InPlace(before, cs, stop) + ChoiceBody(before + Tools(cs), c)
      + if Finishes(cs) || c.finish == "" then [] else [stop]
    decreases |cs|
  {
    hide ChoiceBody;
    var all := cs + [c];
    if cs == [] {
      InPlaceOne(before, c, stop);
      assert all == [c] && before + Tools(cs) == before;
    } else {
      assert all[1..] == cs[1..] + [c] && all[0] == cs[0];
      var next := before + cs[0].tools;
      assert next + Tools(cs[1..]) == before + Tools(cs);
      var head, added := ChoiceBody(before, cs[0]), ChoiceBody(before + Tools(cs), c);
      if cs[0].finish != "" {
        BodySnoc(next, cs[1..], c);
        hide Body, Tools;
        Regroup(head, [stop], Body(next, cs[1..]), added);
      } else {
        InPlaceSnoc(next, cs[1..], c, stop);
        Regroup(head, InPlace(next, cs[1..], stop), added, if Finishes(cs) || c.finish == "" then [] else [stop]);
      }
    }
  }

  lemma InPlaceOne(before: seq<ToolDelta>, c: Choice, stop: StreamEvent)
    ensures InPlace(before, [c], stop) == ChoiceBody(before, c) + if c.finish == "" then [] else [stop]
  {
    hide ChoiceBody;
    assert [c][1..] == [];
    assert Body(before + c.tools, []) == [] && InPlace(before + c.tools, [], stop) == [];
  }

  lemma {:induction false} HeldStopIsFinal(chunks: seq<Chunk>, k: nat)
    requires k <= |chunks| && Finishes(Choices(chunks[..k]))
    ensures HeldStop(chunks) == HeldStop(chunks[..k])
    decreases |chunks| - k
  {
    hide HeldStop;
    if k == |chunks| {
      assert chunks[..k] == chunks;
    } else {
      var next := chunks[..k + 1];
      assert next == chunks[..k] + [chunks[k]];
      HeldStopSnoc(chunks[..k], chunks[k]);
      OneMoreChunk(chunks[..k], chunks[k]);
      ToolsAppend(Choices(chunks[..k]), chunks[k].choices);
      HeldStopIsFinal(chunks, k + 1);
    }
  }

  /** The stop that a chunk with the first finish reason builds. */
  lemma StopOfChunk(before: seq<Chunk>, c: Chunk)
    requires !Finishes(Choices(before)) && Finishes(c.choices)
    ensures Finishes(Choices(before + [c]))
    ensures HeldStop(before + [c]) == Stop(TokenUsage(LastUsage(before + [c])), Reason(c.choices))
  {
    HeldStopSnoc(before, c);
    OneMoreChunk(before, c);
    ToolsAppend(Choices(before), c.choices);
  }

  // ---- the buffered decoder ----

  /** The loop body for one tool delta. */
  method AddTool(pending0: map<int, PendingTool>, td: ToolDelta, ghost before: seq<ToolDelta>)
    returns (pending: map<int, PendingTool>, events: seq<StreamEvent>)
    requires Tracks(pending0, before)
    ensures Tracks(pending, before + [td])
    ensures events == ToolEvents(before, td)
  {
    pending, events := pending0, [];
    if td.index !in pending {
      pending := pending[td.index := PendingTool(td.id, td.name, "")];
      if td.name != "" {
        events := events + [ToolStart(td.id, td.name)];
      }
    }
    if td.args != "" {
      var tool := pending[td.index];
      pending := pending[td.index := tool.(args := tool.args + td.args)];
      events := events + [ToolInput(tool.id, td.args)];
    }
    forall i ensures i in pending <==> Opener(before + [td], i).Some?
      ensures var o := Opener(before + [td], i);
        i in pending ==> pending[i] == PendingTool(o.value.id, o.value.name, Args(before + [td], i))
    {
      OpenerSnoc(before, td, i);
      ArgsSnoc(before, td, i);
    }
  }

  method AddChoice(pending0: map<int, PendingTool>, c: Choice, ghost before: seq<ToolDelta>)
    returns (pending: map<int, PendingTool>, events: seq<StreamEvent>)
    requires Tracks(pending0, before)
    ensures Tracks(pending, before + c.tools)
    ensures events == ChoiceBody(before, c)
  {
    hide Tracks, ToolEvents, ReasoningText;
    pending, events := pending0, [];
    var reasoning := ReasoningText(c.reasoning);
    if reasoning != "" {
      events := events + [Thinking(reasoning)];
    }
    if c.text != "" {
      events := events + [Text(c.text)];
    }
    assert events == TextBody(c);
    assert before + c.tools[..0] == before;
    var j := 0;
    while j < |c.tools|
      invariant 0 <= j <= |c.tools|
      invariant Tracks(pending, before + c.tools[..j])
      invariant events == TextBody(c) + ToolBody(before, c.tools[..j])
    {
      var more;
      pending, more := AddTool(pending, c.tools[j], before + c.tools[..j]);
      NextTool(before, c.tools, j, TextBody(c));
      events := events + more;
      j := j + 1;
    }
    assert c.tools[..j] == c.tools;
  }

  /** The loop over one chunk's choices, which follow `cs`. */
  method AddChunk(pending0: map<int, PendingTool>, stopEmitted0: bool, lastUsage: Option<UsageData>,
                  choices: seq<Choice>, ghost cs: seq<Choice>, ghost stop: StreamEvent)
    returns (pending: map<int, PendingTool>, stopEmitted: bool, events: seq<StreamEvent>)
    requires Tracks(pending0, Tools(cs)) && stopEmitted0 == Finishes(cs)
    requires !Finishes(cs) && Finishes(choices) ==> stop == Stop(TokenUsage(lastUsage), Reason(choices))
    ensures Tracks(pending, Tools(cs + choices)) && stopEmitted == Finishes(cs + choices)
    ensures InPlace([], cs + choices, stop) == InPlace([], cs, stop) + events
  {
    hide Tracks, InPlace, Tools, ChoiceBody, Finishes;
    pending, stopEmitted, events := pending0, stopEmitted0, [];
    ghost var start, sofar := InPlace([], cs, stop), cs;
    var j := 0;
    while j < |choices|
      invariant 0 <= j <= |choices| && sofar == cs + choices[..j]
      invariant Tracks(pending, Tools(sofar)) && stopEmitted == Finishes(sofar)
      invariant InPlace([], sofar, stop) == start + events
    {
      var c := choices[j];
      var more;
      pending, more := AddChoice(pending, c, Tools(sofar));
      InPlaceStep(sofar, c, stop);
      ghost var body, last := more, [];
      if c.finish != "" && !stopEmitted {
        stopEmitted := true;
        FirstReason(cs, choices, j);
        last := [stop];
        more := more + [Stop(TokenUsage(lastUsage), c.finish)];
      }
      Grow(start, events, body, last, InPlace([], sofar + [c], stop));
      assert more == body + last;
      events := events + more;
      sofar := sofar + [c];
      assert choices[..j + 1] == choices[..j] + [c];
      j := j + 1;
    }
    assert choices[..j] == choices;
  }

  lemma Grow<T>(start: seq<T>, events: seq<T>, body: seq<T>, last: seq<T>, all: seq<T>)
    requires all == start + events + body + last
    ensures all == start + (events + (body + last))
  {
  }

  lemma FirstReason(cs: seq<Choice>, choices: seq<Choice>, j: nat)
    requires j < |choices| && choices[j].finish != "" && !Finishes(cs + choices[..j])
    ensures !Finishes(cs) && Finishes(choices) && Reason(choices) == choices[j].finish
  {
    ToolsAppend(cs, choices[..j]);
    assert choices == choices[..j] + choices[j..];
    ToolsAppend(choices[..j], choices[j..]);
  }

  method BuildEvents(chunks: seq<Chunk>) returns (events: seq<StreamEvent>)
    ensures events == Buffered(chunks)
  {
    events := [];
    var pending: map<int, PendingTool> := map[];
    var stopEmitted := false;
    var lastUsage: Option<UsageData> := None;
    ghost var stop := HeldStop(chunks);
    var k := 0;
    while k < |chunks|
      invariant 0 <= k <= |chunks|
      invariant Tracks(pending, Tools(Choices(chunks[..k])))
      invariant stopEmitted == Finishes(Choices(chunks[..k])) && lastUsage == LastUsage(chunks[..k])
      invariant events == InPlace([], Choices(chunks[..k]), stop)
    {
      hide Tracks, InPlace, LastUsage, Finishes, HeldStop, Choices, Tools;
      var chunk := chunks[k];
      assert chunks[..k + 1] == chunks[..k] + [chunk];
      OneMoreChunk(chunks[..k], chunk);
      if chunk.usage.Some? {
        lastUsage := chunk.usage;
      }
      if !stopEmitted && Finishes(chunk.choices) {
        StopOfChunk(chunks[..k], chunk);
        HeldStopIsFinal(chunks, k + 1);
      }
      var more;
      pending, stopEmitted, more :=
        AddChunk(pending, stopEmitted, lastUsage, chunk.choices, Choices(chunks[..k]), stop);
      events := events + more;
      k := k + 1;
    }
    hide InPlace, HeldStop;
    assert chunks[..k] == chunks;
    if stopEmitted && lastUsage.Some? {
      InPlacePatched([], Choices(chunks), stop, lastUsage);
      events := PatchLastStop(events, lastUsage);
    } else if !stopEmitted {
      InPlaceUnfinished([], Choices(chunks), stop, Patched(stop, lastUsage));
    }
  }

  /** One more choice, as the loops see it. */
  lemma InPlaceStep(cs: seq<Choice>, c: Choice, stop: StreamEvent)
    ensures Tools(cs + [c]) == Tools(cs) + c.tools
    ensures Finishes(cs + [c]) <==> Finishes(cs) || c.finish != ""
    ensures InPlace([], cs + [c], stop) == InPlace([], cs, stop) + ChoiceBody(Tools(cs), c)
      + if Finishes(cs) || c.finish == "" then [] else [stop]
  {
    hide ChoiceBody, InPlace;
    InPlaceSnoc([], cs, c, stop);
    ToolsAppend(cs, [c]);
    assert [] + Tools(cs) == Tools(cs);
    assert [c][1..] == [] && Tools([]) == [];
  }

  lemma {:induction false} InPlaceUnfinished(before: seq<ToolDelta>, cs: seq<Choice>, a: StreamEvent, b: StreamEvent)
    requires !Finishes(cs)
    ensures InPlace(before, cs, a) == InPlace(before, cs, b)
    decreases |cs|
  {
    if cs != [] {
      InPlaceUnfinished(before + cs[0].tools, cs[1..], a, b);
    }
  }

  // ---- the patch loop, which runs from the back to the last stop ----

  predicate HasStop(events: seq<StreamEvent>) {
    events != [] && (events[|events| - 1].Stop? || HasStop(events[..|events| - 1]))
  }

  function WithLastStopPatched(events: seq<StreamEvent>, usage: Option<UsageData>): seq<StreamEvent> {
    if events == [] then []
    else
      var n := |events| - 1;
      if events[n].Stop? then events[..n] + [Patched(events[n], usage)]
      else WithLastStopPatched(events[..n], usage) + [events[n]]
  }

  method PatchLastStop(events: seq<StreamEvent>, usage: Option<UsageData>) returns (r: seq<StreamEvent>)
    requires usage.Some?
    ensures r == WithLastStopPatched(events, usage)
  {
    r := events;
    var i := |events|;
    assert events[..i] == events;
    while i > 0
      invariant 0 <= i <= |events| && r == events
      invariant WithLastStopPatched(events, usage) == WithLastStopPatched(events[..i], usage) + events[i..]
    {
      i := i - 1;
      assert events[..i + 1][..i] == events[..i];
      if events[i].Stop? {
        var existing := events[i];
        if existing.usage.input == 0 && existing.usage.output == 0 {
          r := events[i := Stop(TokenUsage(usage), existing.reason)];
        }
        break;
      }
    }
  }

  lemma {:induction false} PatchSkips(a: seq<StreamEvent>, b: seq<StreamEvent>, usage: Option<UsageData>)
    ensures HasStop(b) ==> WithLastStopPatched(a + b, usage) == a + WithLastStopPatched(b, usage)
    ensures !HasStop(b) ==> WithLastStopPatched(a + b, usage) == WithLastStopPatched(a, usage) + b
    decreases |b|
  {
    hide Patched, WithLastStopPatched;
    if b == [] {
      assert a + b == a;
      NothingToPatch(usage);
      assert WithLastStopPatched(a, usage) + b == WithLastStopPatched(a, usage);
    } else {
      var n := |b| - 1;
      var shorter, e := b[..n], b[n];
      assert b == shorter + [e] && a + b == (a + shorter) + [e];
      PatchSkips(a, shorter, usage);
      PatchSnoc(shorter, e, usage);
      PatchSnoc(a + shorter, e, usage);
      HasStopAppend(shorter, [e]);
      assert [e][..0] == [] && (HasStop([e]) <==> e.Stop?);
      TakeSome(a, WithLastStopPatched(shorter, usage), [e]);
      TakeSome(WithLastStopPatched(a, usage), shorter, [e]);
      if e.Stop? {
        TakeSome(a, shorter, [Patched(e, usage)]);
      }
    }
  }

  lemma PatchSnoc(events: seq<StreamEvent>, e: StreamEvent, usage: Option<UsageData>)
    ensures WithLastStopPatched(events + [e], usage) ==
      if e.Stop? then events + [Patched(e, usage)] else WithLastStopPatched(events, usage) + [e]
  {
    hide Patched;
    assert (events + [e])[..|events|] == events;
  }

  lemma NothingToPatch(usage: Option<UsageData>)
    ensures WithLastStopPatched([], usage) == []
  {
  }

  lemma {:induction false} HasStopAppend(a: seq<StreamEvent>, b: seq<StreamEvent>)
    ensures HasStop(a + b) <==> HasStop(a) || HasStop(b)
    decreases |b|
  {
    if b == [] {
      assert a + b == a;
    } else {
      var n := |b| - 1;
      assert (a + b)[..|a| + n] == a + b[..n] && (a + b)[|a| + n] == b[n];
      HasStopAppend(a, b[..n]);
    }
  }

  lemma {:induction false} BodyHasNoStop(before: seq<ToolDelta>, cs: seq<Choice>)
    ensures !HasStop(Body(before, cs))
    decreases |cs|
  {
    hide HasStop;
    NoStopInText();
    if cs != [] {
      ChoiceBodyHasNoStop(before, cs[0]);
      BodyHasNoStop(before + cs[0].tools, cs[1..]);
      HasStopAppend(ChoiceBody(before, cs[0]), Body(before + cs[0].tools, cs[1..]));
    }
  }

  lemma NoStopInText()
    ensures !HasStop([])
    ensures forall t :: !HasStop([Thinking(t)]) && !HasStop([Text(t)])
    ensures forall i, t :: !HasStop([ToolStart(i, t)]) && !HasStop([ToolInput(i, t)])
  {
  }

  lemma ChoiceBodyHasNoStop(before: seq<ToolDelta>, c: Choice)
    ensures !HasStop(ChoiceBody(before, c))
  {
    hide HasStop, ReasoningText;
    NoStopInText();
    var t := ReasoningText(c.reasoning);
    HasStopAppend(if t != "" then [Thinking(t)] else [], if c.text != "" then [Text(c.text)] else []);
    ToolBodyHasNoStop(before, c.tools);
    HasStopAppend(TextBody(c), ToolBody(before, c.tools));
  }

  lemma {:induction false} ToolBodyHasNoStop(before: seq<ToolDelta>, tools: seq<ToolDelta>)
    ensures !HasStop(ToolBody(before, tools))
    decreases |tools|
  {
    hide HasStop, Opener;
    NoStopInText();
    if tools != [] {
      ToolBodyHasNoStop(before + [tools[0]], tools[1..]);
      var td := tools[0];
      var opener := Opener(before, td.index);
      var id := if opener.Some? then opener.value.id else td.id;
      HasStopAppend(if opener.None? && td.name != "" then [ToolStart(td.id, td.name)] else [],
                    if td.args != "" then [ToolInput(id, td.args)] else []);
      HasStopAppend(ToolEvents(before, td), ToolBody(before + [td], tools[1..]));
    }
  }

  lemma {:induction false} InPlacePatched(before: seq<ToolDelta>, cs: seq<Choice>, stop: StreamEvent,
                                          usage: Option<UsageData>)
    requires Finishes(cs) && stop.Stop?
    ensures HasStop(InPlace(before, cs, stop))
    ensures WithLastStopPatched(InPlace(before, cs, stop), usage) == InPlace(before, cs, Patched(stop, usage))
    decreases |cs|
  {
    var head, next := ChoiceBody(before, cs[0]), before + cs[0].tools;
    hide ChoiceBody, WithLastStopPatched, Patched, HasStop;
    if cs[0].finish != "" {
      var rest := Body(next, cs[1..]);
      BodyHasNoStop(next, cs[1..]);
      PatchSkips(head + [stop], rest, usage);
      PatchedStop(head, stop, usage);
      HasStopAppend(head + [stop], rest);
    } else {
      var rest := InPlace(next, cs[1..], stop);
      InPlacePatched(next, cs[1..], stop, usage);
      PatchSkips(head, rest, usage);
      HasStopAppend(head, rest);
    }
  }

  lemma PatchedStop(head: seq<StreamEvent>, stop: StreamEvent, usage: Option<UsageData>)
    requires stop.Stop?
    ensures WithLastStopPatched(head + [stop], usage) == head + [Patched(stop, usage)]
    ensures HasStop(head + [stop])
  {
    assert (head + [stop])[..|head|] == head;
  }
}
