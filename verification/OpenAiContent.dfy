/** What the OpenAI-compatible decoders hand on of what was received: tool starts, texts and the
    closing report, each against the received deltas alone. */
module OpenAiContent {
  import opened Wrappers
  import opened SeqFacts
  import opened OpenAiStream
  import opened OpenAiAgreement

  // ---- tool starts ----

  /** The ids and names announced, in order. */
  function Starts(events: seq<StreamEvent>): seq<(string, string)> {
    if events == [] then []
    else (if events[0].ToolStart? then [(events[0].id, events[0].name)] else []) + Starts(events[1..])
  }

  predicate IsFirstOfIndex(deltas: seq<ToolDelta>, k: nat)
    requires k < |deltas|
  {
    forall j :: 0 <= j < k ==> deltas[j].index != deltas[k].index
  }

  /** The ids and names of the first delta of each index, of those that name a tool. */
  function Openings(deltas: seq<ToolDelta>): seq<(string, string)> {
    if deltas == [] then []
    else
      var n := |deltas| - 1;
      Openings(deltas[..n])
      + if IsFirstOfIndex(deltas, n) && deltas[n].name != "" then [(deltas[n].id, deltas[n].name)] else []
  }

  lemma {:induction false} StartsAppend(a: seq<StreamEvent>, b: seq<StreamEvent>)
    ensures Starts(a + b) == Starts(a) + Starts(b)
    decreases |a|
  {
    if a == [] {
      assert a + b == b;
    } else {
      assert (a + b)[1..] == a[1..] + b && (a + b)[0] == a[0];
      StartsAppend(a[1..], b);
      TakeSome(if a[0].ToolStart? then [(a[0].id, a[0].name)] else [], Starts(a[1..]), Starts(b));
    }
  }

  lemma {:induction false} NoOpener(deltas: seq<ToolDelta>, index: int)
    ensures Opener(deltas, index).None? <==> forall j :: 0 <= j < |deltas| ==> deltas[j].index != index
    decreases |deltas|
  {
    if deltas != [] && deltas[0].index != index {
      NoOpener(deltas[1..], index);
      forall j | 0 < j < |deltas| ensures deltas[j] == deltas[1..][j - 1] {
      }
    }
  }

  lemma StartsOfTool(before: seq<ToolDelta>, td: ToolDelta)
    ensures Openings(before + [td]) == Openings(before) + Starts(ToolEvents(before, td))
  {
    var all := before + [td];
    NoOpener(before, td.index);
    assert all[..|before|] == before;
    assert IsFirstOfIndex(all, |before|) <==> Opener(before, td.index).None?;
    hide Opener;
    var start := if Opener(before, td.index).None? && td.name != "" then [ToolStart(td.id, td.name)] else [];
    var id := if Opener(before, td.index).Some? then Opener(before, td.index).value.id else td.id;
    var input := if td.args != "" then [ToolInput(id, td.args)] else [];
    StartsAppend(start, input);
    assert start[|start|..] == [] && input[|input|..] == [];
  }

  lemma {:induction false} StartsOfTools(before: seq<ToolDelta>, tools: seq<ToolDelta>)
    ensures Openings(before + tools) == Openings(before) + Starts(ToolBody(before, tools))
    decreases |tools|
  {
    hide ToolEvents, Openings;
    if tools == [] {
      assert before + tools == before && Openings(before) + [] == Openings(before);
    } else {
      var next := before + [tools[0]];
      StartsOfTool(before, tools[0]);
      StartsOfTools(next, tools[1..]);
      assert before + tools == next + tools[1..];
      StartsAppend(ToolEvents(before, tools[0]), ToolBody(next, tools[1..]));
      TakeSome(Openings(before), Starts(ToolEvents(before, tools[0])), Starts(ToolBody(next, tools[1..])));
    }
  }

  lemma NoStartsInText(c: Choice)
    ensures Starts(TextBody(c)) == []
  {
    hide ReasoningText;
    var t := ReasoningText(c.reasoning);
    StartsAppend(if t != "" then [Thinking(t)] else [], if c.text != "" then [Text(c.text)] else []);
  }

  lemma {:induction false} StartsOfBody(before: seq<ToolDelta>, cs: seq<Choice>)
    ensures Openings(before + Tools(cs)) == Openings(before) + Starts(Body(before, cs))
    decreases |cs|
  {
    hide Openings, Starts, TextBody, ToolBody;
    if cs == [] {
      assert Starts([]) == [] by { NothingStarts(); }
      assert before + Tools(cs) == before && Openings(before) + [] == Openings(before);
    } else {
      var c, next := cs[0], before + cs[0].tools;
      StartsOfTools(before, c.tools);
      StartsOfBody(next, cs[1..]);
      assert before + Tools(cs) == next + Tools(cs[1..]);
      NoStartsInText(c);
      StartsAppend(TextBody(c), ToolBody(before, c.tools));
      StartsAppend(ChoiceBody(before, c), Body(next, cs[1..]));
      assert [] + Starts(ToolBody(before, c.tools)) == Starts(ToolBody(before, c.tools));
      TakeSome(Openings(before), Starts(ToolBody(before, c.tools)), Starts(Body(next, cs[1..])));
    }
  }

  lemma NothingStarts()
    ensures Starts([]) == [] && Openings([]) == []
  {
  }

  // ---- texts ----

  /** The thinking and text deltas handed on, in order. */
  function Said(events: seq<StreamEvent>): seq<StreamEvent> {
    if events == [] then []
    else (if events[0].Thinking? || events[0].Text? then [events[0]] else []) + Said(events[1..])
  }

  /** The reasoning of a choice: its first field that is not empty. */
  ghost predicate IsReasoning(t: string, fields: seq<string>) {
    if t == "" then forall i :: 0 <= i < |fields| ==> fields[i] == ""
    else exists i :: 0 <= i < |fields| && fields[i] == t && forall j :: 0 <= j < i ==> fields[j] == ""
  }

  lemma {:induction false} ReasoningIsFirst(fields: seq<string>)
    ensures IsReasoning(ReasoningText(fields), fields)
    decreases |fields|
  {
    if fields != [] && fields[0] == "" {
      ReasoningIsFirst(fields[1..]);
      var t := ReasoningText(fields);
      assert forall i :: 0 < i < |fields| ==> fields[i] == fields[1..][i - 1];
      if t != "" {
        var i :| 0 <= i < |fields[1..]| && fields[1..][i] == t && forall j :: 0 <= j < i ==> fields[1..][j] == "";
        assert fields[i + 1] == t;
      }
    } else if fields != [] {
      assert fields[0] == ReasoningText(fields);
    }
  }

  /** What the choices say: each its reasoning and then its text, as far as there is any. */
  function Heard(cs: seq<Choice>): seq<StreamEvent> {
    if cs == [] then []
    else
      var t, c := ReasoningText(cs[0].reasoning), cs[0];
      (if t == "" then [] else [Thinking(t)]) + (if c.text == "" then [] else [Text(c.text)]) + Heard(cs[1..])
  }

  lemma {:induction false} SaidAppend(a: seq<StreamEvent>, b: seq<StreamEvent>)
    ensures Said(a + b) == Said(a) + Said(b)
    decreases |a|
  {
    if a == [] {
      assert a + b == b;
    } else {
      assert (a + b)[1..] == a[1..] + b && (a + b)[0] == a[0];
      SaidAppend(a[1..], b);
      TakeSome(if a[0].Thinking? || a[0].Text? then [a[0]] else [], Said(a[1..]), Said(b));
    }
  }

  lemma {:induction false} NothingSaidInTools(before: seq<ToolDelta>, tools: seq<ToolDelta>)
    ensures Said(ToolBody(before, tools)) == []
    decreases |tools|
  {
    hide Opener;
    if tools != [] {
      var td := tools[0];
      var events := ToolEvents(before, td);
      assert |events| <= 2 && forall e :: e in events ==> e.ToolStart? || e.ToolInput?;
      SilentEvents(events);
      NothingSaidInTools(before + [td], tools[1..]);
      SaidAppend(events, ToolBody(before + [td], tools[1..]));
    }
  }

  lemma {:induction false} SilentEvents(events: seq<StreamEvent>)
    requires forall e :: e in events ==> !e.Thinking? && !e.Text?
    ensures Said(events) == []
    decreases |events|
  {
    if events != [] {
      assert events[0] in events;
      SilentEvents(events[1..]);
    }
  }

  lemma SaidOfText(c: Choice)
    ensures var t := ReasoningText(c.reasoning);
      Said(TextBody(c)) == (if t == "" then [] else [Thinking(t)]) + (if c.text == "" then [] else [Text(c.text)])
  {
    hide ReasoningText;
    var t := ReasoningText(c.reasoning);
    var a, b := if t != "" then [Thinking(t)] else [], if c.text != "" then [Text(c.text)] else [];
    SaidAppend(a, b);
    assert a[|a|..] == [] && b[|b|..] == [];
  }

  lemma {:induction false} SaidOfBody(before: seq<ToolDelta>, cs: seq<Choice>)
    ensures Said(Body(before, cs)) == Heard(cs)
    decreases |cs|
  {
    hide Said, TextBody, ToolBody, ReasoningText;
    if cs == [] {
      SilentEvents([]);
    } else {
      var c, next := cs[0], before + cs[0].tools;
      SaidOfBody(next, cs[1..]);
      SaidOfText(c);
      NothingSaidInTools(before, c.tools);
      SaidAppend(TextBody(c), ToolBody(before, c.tools));
      SaidAppend(ChoiceBody(before, c), Body(next, cs[1..]));
      assert Said(TextBody(c)) + [] == Said(TextBody(c));
    }
  }

  // ---- both decoders ----

  lemma {:induction false} StopsDoNotMatter(events: seq<StreamEvent>)
    ensures Starts(events) == Starts(WithoutStops(events)) && Said(events) == Said(WithoutStops(events))
    decreases |events|
  {
    if events != [] {
      var rest := WithoutStops(events[1..]);
      StopsDoNotMatter(events[1..]);
      assert ([events[0]] + rest)[1..] == rest && [] + rest == rest;
    }
  }

  /** Both decoders hand on the body, and stops. */
  lemma BothGiveBody(chunks: seq<Chunk>)
    ensures WithoutStops(Buffered(chunks)) == WithoutStops(Lazy(chunks)) == Body([], Choices(chunks))
  {
    var cs := Choices(chunks);
    FilterInPlace([], cs, Patched(HeldStop(chunks), LastUsage(chunks)));
    BodyHasNoStop([], cs);
    NoStopsToFilter(Body([], cs));
    hide Body, Choices, HeldStop, Patched;
    WithoutAppend(Body([], cs), StopOf(chunks));
    FilterStop(StopOf(chunks));
    assert Body([], cs) + [] == Body([], cs);
  }

  /** Both decoders announce each tool call once, by the id and name of its first delta, in the
      order in which the calls begin; a call without a name is not announced. */
  lemma StartsAreOpenings(chunks: seq<Chunk>)
    ensures Starts(Buffered(chunks)) == Starts(Lazy(chunks)) == Openings(Tools(Choices(chunks)))
  {
    var cs := Choices(chunks);
    BothGiveBody(chunks);
    StopsDoNotMatter(Buffered(chunks));
    StopsDoNotMatter(Lazy(chunks));
    StartsOfBody([], cs);
    NothingStarts();
    hide Starts, Openings, Body, Buffered, Lazy;
    assert [] + Tools(cs) == Tools(cs) && [] + Starts(Body([], cs)) == Starts(Body([], cs));
  }

  /** Both decoders hand on all reasoning and all text, in order and each as what it is, the
      reasoning of a choice before its text. */
  lemma SaidIsHeard(chunks: seq<Chunk>)
    ensures Said(Buffered(chunks)) == Said(Lazy(chunks)) == Heard(Choices(chunks))
  {
    BothGiveBody(chunks);
    StopsDoNotMatter(Buffered(chunks));
    StopsDoNotMatter(Lazy(chunks));
    SaidOfBody([], Choices(chunks));
  }

  // ---- the order of what is handed on ----

  /** The id under which a delta of this index goes out: that of the first one. */
  ghost predicate GoesOutUnder(deltas: seq<ToolDelta>, index: int, id: string) {
    exists k :: 0 <= k < |deltas| && IsFirstOfIndex(deltas, k) && deltas[k].index == index && deltas[k].id == id
  }

  lemma {:induction false} OpenerIsFirst(deltas: seq<ToolDelta>, index: int)
    requires Opener(deltas, index).Some?
    ensures GoesOutUnder(deltas, index, Opener(deltas, index).value.id)
    decreases |deltas|
  {
    if deltas[0].index == index {
      assert IsFirstOfIndex(deltas, 0);
    } else {
      var rest := deltas[1..];
      OpenerIsFirst(rest, index);
      var id := Opener(rest, index).value.id;
      var k :| 0 <= k < |rest| && IsFirstOfIndex(rest, k) && rest[k].index == index && rest[k].id == id;
      assert forall j :: 0 < j < k + 1 ==> deltas[j] == rest[j - 1];
      assert IsFirstOfIndex(deltas, k + 1);
    }
  }

  /** A start, if the delta is the first of its index and has a name, and then its fragment, if it
      has one. */
  ghost predicate IsDeltaOutput(events: seq<StreamEvent>, before: seq<ToolDelta>, td: ToolDelta) {
    var deltas := before + [td];
    var start := if IsFirstOfIndex(deltas, |before|) && td.name != "" then [ToolStart(td.id, td.name)] else [];
    if td.args == "" then events == start
    else exists id :: GoesOutUnder(deltas, td.index, id) && events == start + [ToolInput(id, td.args)]
  }

  lemma ToolEventsAre(before: seq<ToolDelta>, td: ToolDelta)
    ensures IsDeltaOutput(ToolEvents(before, td), before, td)
  {
    NoOpener(before, td.index);
    OpenerAppend(before, [td], td.index);
    OpenerIsFirst(before + [td], td.index);
    hide GoesOutUnder;
    assert forall j :: 0 <= j < |before| ==> (before + [td])[j] == before[j];
    assert IsFirstOfIndex(before + [td], |before|) <==> Opener(before, td.index).None?;
    var start := if Opener(before, td.index).None? && td.name != "" then [ToolStart(td.id, td.name)] else [];
    assert start + [] == start;
  }

  /** One more tool delta hands on just its own events. */
  lemma OneMoreDelta(cs: seq<Choice>, td: ToolDelta, finish: string) returns (events: seq<StreamEvent>)
    ensures IsDeltaOutput(events, Tools(cs), td)
    ensures Body([], cs + [Choice([], "", [td], finish)]) == Body([], cs) + events
  {
    events := ToolEvents(Tools(cs), td);
    ToolEventsAre(Tools(cs), td);
    hide IsDeltaOutput, ToolEvents, Body, Tools;
    BodySnoc([], cs, Choice([], "", [td], finish));
    assert [] + Tools(cs) == Tools(cs);
    OneDelta(Tools(cs), td, finish);
  }

  lemma OneDelta(before: seq<ToolDelta>, td: ToolDelta, finish: string)
    ensures ChoiceBody(before, Choice([], "", [td], finish)) == ToolEvents(before, td)
  {
    hide ToolEvents;
    assert [td][1..] == [] && ToolBody(before + [td], []) == [];
    assert ToolEvents(before, td) + [] == ToolEvents(before, td);
    assert [] + ToolEvents(before, td) == ToolEvents(before, td);
  }

  /** A choice says what it says first, and then come its tool deltas, as they would alone. */
  lemma SaidComesFirst(cs: seq<Choice>, c: Choice)
    ensures exists called ::
      && Body([], cs + [c]) == Body([], cs) + Heard([c]) + called
      && Body([], cs + [c.(reasoning := [], text := "")]) == Body([], cs) + called
  {
    var before, bare := [] + Tools(cs), c.(reasoning := [], text := "");
    var called := ToolBody(before, c.tools);
    BodySnoc([], cs, c);
    BodySnoc([], cs, bare);
    assert TextBody(bare) == [] && [] + called == called;
    assert [c][1..] == [] && Heard([c]) == TextBody(c) + [];
    hide Body, Heard, ToolBody, TextBody;
    assert TextBody(c) + [] == TextBody(c);
    TakeSome(Body([], cs), TextBody(c), called);
  }

  /** The tool deltas of a choice go out one after the other. */
  lemma DeltasInOrder(cs: seq<Choice>, a: seq<ToolDelta>, b: seq<ToolDelta>, finish: string)
    ensures Body([], cs + [Choice([], "", a + b, finish)])
      == Body([], cs + [Choice([], "", a, finish)] + [Choice([], "", b, finish)])
  {
    hide Body, ToolBody, ChoiceBody, Tools;
    var before := [] + Tools(cs);
    var first := Choice([], "", a, finish);
    BodySnoc([], cs, Choice([], "", a + b, finish));
    BodySnoc([], cs, first);
    BodySnoc([], cs + [first], Choice([], "", b, finish));
    ToolsAppend(cs, [first]);
    ToolsOfOne(first);
    assert [] + Tools(cs + [first]) == before + a;
    OnlyTools(before, a + b, finish);
    OnlyTools(before, a, finish);
    OnlyTools(before + a, b, finish);
    ToolBodyAppend(before, a, b);
    TakeSome(Body([], cs), ToolBody(before, a), ToolBody(before + a, b));
  }

  lemma ToolsOfOne(c: Choice)
    ensures Tools([c]) == c.tools
  {
    assert [c][1..] == [] && c.tools + [] == c.tools;
  }

  lemma OnlyTools(before: seq<ToolDelta>, tools: seq<ToolDelta>, finish: string)
    ensures ChoiceBody(before, Choice([], "", tools, finish)) == ToolBody(before, tools)
  {
    hide ToolBody;
    assert [] + ToolBody(before, tools) == ToolBody(before, tools);
  }

  lemma {:induction false} ToolBodyAppend(before: seq<ToolDelta>, a: seq<ToolDelta>, b: seq<ToolDelta>)
    ensures ToolBody(before, a + b) == ToolBody(before, a) + ToolBody(before + a, b)
    decreases |a|
  {
    hide ToolEvents;
    if a == [] {
      assert a + b == b && before + a == before;
    } else {
      var next := before + [a[0]];
      assert (a + b)[1..] == a[1..] + b && (a + b)[0] == a[0] && before + a == next + a[1..];
      ToolBodyAppend(next, a[1..], b);
      TakeSome(ToolEvents(before, a[0]), ToolBody(next, a[1..]), ToolBody(before + a, b));
    }
  }

  // ---- the closing report ----

  /** The first entry that is not zero, or 0. */
  ghost predicate IsFirstNonZero(n: int, entries: seq<int>) {
    if n == 0 then forall i :: 0 <= i < |entries| ==> entries[i] == 0
    else exists i :: 0 <= i < |entries| && entries[i] == n && forall j :: 0 <= j < i ==> entries[j] == 0
  }

  /** Each count under its own entries; without a usage dict all are 0. */
  ghost predicate Counts(u: Usage, data: Option<UsageData>) {
    match data
    case None => u == Usage(0, 0, 0, 0)
    case Some(d) =>
      && IsFirstNonZero(u.input, [d.promptTokens, d.inputTokens])
      && IsFirstNonZero(u.output, [d.completionTokens, d.outputTokens])
      && IsFirstNonZero(u.cacheRead, [d.cacheRead, d.cachedTokens])
      && u.cacheCreation == d.cacheCreation
  }

  lemma FirstOfTwo(n: int, a: int, b: int)
    ensures n == Or(a, b) ==> IsFirstNonZero(n, [a, b])
  {
    var entries := [a, b];
    assert entries[0] == a && entries[1] == b;
  }

  lemma UsageCounts(data: Option<UsageData>)
    ensures Counts(TokenUsage(data), data)
  {
    if data.Some? {
      var d := data.value;
      FirstOfTwo(TokenUsage(data).input, d.promptTokens, d.inputTokens);
      FirstOfTwo(TokenUsage(data).output, d.completionTokens, d.outputTokens);
      FirstOfTwo(TokenUsage(data).cacheRead, d.cacheRead, d.cachedTokens);
    }
  }

  /** The usage dict of the last of the first `n` chunks that has one. */
  ghost predicate IsLatestUsage(chunks: seq<Chunk>, n: nat, usage: Option<UsageData>)
    requires n <= |chunks|
  {
    match usage
    case None => forall k :: 0 <= k < n ==> chunks[k].usage == None
    case Some(_) =>
      exists k :: 0 <= k < n && chunks[k].usage == usage && forall j :: k < j < n ==> chunks[j].usage == None
  }

  lemma {:induction false} LastUsageIsLatest(chunks: seq<Chunk>)
    ensures IsLatestUsage(chunks, |chunks|, LastUsage(chunks))
    decreases |chunks|
  {
    if chunks != [] {
      var rest := chunks[1..];
      LastUsageIsLatest(rest);
      assert forall k :: 0 < k < |chunks| ==> chunks[k] == rest[k - 1];
      var usage := LastUsage(rest);
      if usage.Some? {
        var k :| 0 <= k < |rest| && rest[k].usage == usage && forall j :: k < j < |rest| ==> rest[j].usage == None;
        assert chunks[k + 1].usage == usage;
      }
    }
  }

  /** Choice `i` is the chunk's first that carries a finish reason. */
  ghost predicate IsFinishAt(c: Chunk, i: int, reason: string) {
    && 0 <= i < |c.choices| && c.choices[i].finish == reason != ""
    && forall j :: 0 <= j < i ==> c.choices[j].finish == ""
  }

  ghost predicate IsUnfinished(c: Chunk) {
    forall i :: 0 <= i < |c.choices| ==> c.choices[i].finish == ""
  }

  lemma {:induction false} ReasonIsFirst(choices: seq<Choice>) returns (i: nat)
    requires Finishes(choices)
    ensures i < |choices| && choices[i].finish == Reason(choices)
    ensures forall j :: 0 <= j < i ==> choices[j].finish == ""
    decreases |choices|
  {
    i := 0;
    if choices[0].finish == "" {
      i := ReasonIsFirst(choices[1..]);
      i := i + 1;
      assert forall j :: 0 < j < |choices| ==> choices[j] == choices[1..][j - 1];
    }
  }

  /** The chunk that finishes first. */
  lemma {:induction false} FinishingChunk(chunks: seq<Chunk>) returns (k: nat)
    requires Finishes(Choices(chunks))
    ensures k < |chunks| && ThroughFinish(chunks) == chunks[..k + 1]
    ensures Finishes(chunks[k].choices) && Reason(Choices(chunks)) == Reason(chunks[k].choices)
    ensures forall j :: 0 <= j < k ==> !Finishes(chunks[j].choices)
    decreases |chunks|
  {
    ToolsAppend(chunks[0].choices, Choices(chunks[1..]));
    k := 0;
    if Finishes(chunks[0].choices) {
      assert chunks[..1] == [chunks[0]];
    } else {
      k := FinishingChunk(chunks[1..]);
      k := k + 1;
      hide Reason, Choices;
      assert chunks[..k + 1] == [chunks[0]] + chunks[1..][..k];
      assert forall j :: 0 < j < |chunks| ==> chunks[j] == chunks[1..][j - 1];
    }
  }

  predicate HasNoTokens(data: Option<UsageData>) {
    data.None? || (data.value.promptTokens == 0 && data.value.inputTokens == 0
                   && data.value.completionTokens == 0 && data.value.outputTokens == 0)
  }

  /** The stop of a stream whose chunk `k` is the first to finish: its reason, and the counts known
      then, or the latest ones if those had no input and no output tokens. */
  ghost predicate Reports(stop: StreamEvent, chunks: seq<Chunk>, k: nat, held: Option<UsageData>,
                          last: Option<UsageData>)
    requires k < |chunks|
  {
    && stop.Stop?
    && (forall j :: 0 <= j < k ==> IsUnfinished(chunks[j]))
    && (exists i :: IsFinishAt(chunks[k], i, stop.reason))
    && IsLatestUsage(chunks, k + 1, held) && IsLatestUsage(chunks, |chunks|, last)
    && Counts(stop.usage, if HasNoTokens(held) && last.Some? then last else held)
  }

  /** The one stop of both decoders reports the first finish reason and the right counts. */
  lemma StopReports(chunks: seq<Chunk>) returns (k: nat, held: Option<UsageData>, last: Option<UsageData>)
    requires HasFinish(chunks)
    ensures |OnlyStops(Buffered(chunks))| == 1 && OnlyStops(Lazy(chunks)) == OnlyStops(Buffered(chunks))
    ensures k < |chunks| && Reports(OnlyStops(Buffered(chunks))[0], chunks, k, held, last)
  {
    FinishMeans(chunks);
    LazyMovesStopLast(chunks);
    k := FinishingChunk(chunks);
    held, last := LastUsage(chunks[..k + 1]), LastUsage(chunks);
    LatestOfPrefix(chunks, k + 1);
    LastUsageIsLatest(chunks);
    UsageCounts(held);
    UsageCounts(last);
    forall j | 0 <= j < k ensures IsUnfinished(chunks[j]) {
      FinishInChunk(chunks[j].choices);
    }
    var i := ReasonIsFirst(chunks[k].choices);
    hide Buffered, Lazy, OnlyStops, Choices, Reason, IsLatestUsage, ThroughFinish, LastUsage, IsFirstNonZero;
    var stop := Patched(HeldStop(chunks), last);
    assert StopOf(chunks) == [stop];
    assert IsFinishAt(chunks[k], i, stop.reason);
    HeldHasNoTokens(TokenUsage(held), held);
  }

  lemma HeldHasNoTokens(u: Usage, data: Option<UsageData>)
    requires Counts(u, data)
    ensures u.input == 0 && u.output == 0 <==> HasNoTokens(data)
  {
    if data.Some? {
      var d := data.value;
      assert [d.promptTokens, d.inputTokens][0] == d.promptTokens && [d.promptTokens, d.inputTokens][1] == d.inputTokens;
      assert [d.completionTokens, d.outputTokens][0] == d.completionTokens
          && [d.completionTokens, d.outputTokens][1] == d.outputTokens;
    }
  }

  lemma LatestOfPrefix(chunks: seq<Chunk>, n: nat)
    requires n <= |chunks|
    ensures IsLatestUsage(chunks, n, LastUsage(chunks[..n]))
  {
    LastUsageIsLatest(chunks[..n]);
    var usage := LastUsage(chunks[..n]);
    assert forall k :: 0 <= k < n ==> chunks[..n][k] == chunks[k];
    if usage.Some? {
      var k :| 0 <= k < n && chunks[..n][k].usage == usage && forall j :: k < j < n ==> chunks[..n][j].usage == None;
      assert chunks[k].usage == usage;
    }
  }

  /** In the buffered list the stop comes right after the events of the choice that finishes first,
      whatever the later choices give. */
  lemma StopFollowsItsChoice(chunks: seq<Chunk>) returns (n: nat, later: seq<StreamEvent>)
    requires HasFinish(chunks)
    ensures var cs := Choices(chunks);
      && n < |cs| && cs[n].finish != "" && (forall j :: 0 <= j < n ==> cs[j].finish == "")
      && Body([], cs) == Body([], cs[..n + 1]) + later
      && Buffered(chunks) == Body([], cs[..n + 1]) + OnlyStops(Buffered(chunks)) + later
  {
    FinishMeans(chunks);
    LazyMovesStopLast(chunks);
    var stop := Patched(HeldStop(chunks), LastUsage(chunks));
    assert StopOf(chunks) == [stop];
    hide Body, InPlace, Choices, OnlyStops, HeldStop, Patched, LastUsage;
    n, later := StopInPlace([], Choices(chunks), stop);
  }

  lemma {:induction false} StopInPlace(before: seq<ToolDelta>, cs: seq<Choice>, stop: StreamEvent)
    returns (n: nat, later: seq<StreamEvent>)
    requires Finishes(cs)
    ensures n < |cs| && cs[n].finish != "" && forall j :: 0 <= j < n ==> cs[j].finish == ""
    ensures Body(before, cs) == Body(before, cs[..n + 1]) + later
    ensures InPlace(before, cs, stop) == Body(before, cs[..n + 1]) + [stop] + later
    decreases |cs|
  {
    hide ChoiceBody;
    var head, next := ChoiceBody(before, cs[0]), before + cs[0].tools;
    if cs[0].finish != "" {
      n, later := 0, Body(next, cs[1..]);
      assert cs[..1] == [cs[0]] && [cs[0]][1..] == [] && head + [] == head;
    } else {
      n, later := StopInPlace(next, cs[1..], stop);
      var own := Body(next, cs[1..][..n + 1]);
      n := n + 1;
      hide Body, InPlace;
      assert cs[..n + 1] == [cs[0]] + cs[1..][..n];
      BodyStep(before, cs);
      BodyStep(before, cs[..n + 1]);
      assert cs[..n + 1][1..] == cs[1..][..n];
      InPlaceGoesOn(before, cs, stop);
      Regroup(head, own, [stop], later);
      TakeSome(head, own, later);
      assert forall j :: 0 < j < |cs| ==> cs[j] == cs[1..][j - 1];
    }
  }

  lemma BodyStep(before: seq<ToolDelta>, cs: seq<Choice>)
    requires cs != []
    ensures Body(before, cs) == ChoiceBody(before, cs[0]) + Body(before + cs[0].tools, cs[1..])
  {
  }

  lemma InPlaceGoesOn(before: seq<ToolDelta>, cs: seq<Choice>, stop: StreamEvent)
    requires cs != [] && cs[0].finish == ""
    ensures InPlace(before, cs, stop) == ChoiceBody(before, cs[0]) + InPlace(before + cs[0].tools, cs[1..], stop)
  {
  }
}
