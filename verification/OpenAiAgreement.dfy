/** How the two OpenAI-compatible decoders relate, and what both promise about a stream. */
module OpenAiAgreement {
  import opened SeqFacts
  import opened OpenAiStream

  function WithoutStops(events: seq<StreamEvent>): seq<StreamEvent> {
    if events == [] then []
    else (if events[0].Stop? then [] else [events[0]]) + WithoutStops(events[1..])
  }

  function OnlyStops(events: seq<StreamEvent>): seq<StreamEvent> {
    if events == [] then []
    else (if events[0].Stop? then [events[0]] else []) + OnlyStops(events[1..])
  }

  /** The argument fragments emitted under a call id, joined. */
  function Fragments(events: seq<StreamEvent>, id: string): string {
    if events == [] then ""
    else (if events[0].ToolInput? && events[0].id == id then events[0].json else "") + Fragments(events[1..], id)
  }

  lemma {:induction false} WithoutAppend(a: seq<StreamEvent>, b: seq<StreamEvent>)
    ensures WithoutStops(a + b) == WithoutStops(a) + WithoutStops(b)
    decreases |a|
  {
    if a == [] {
      assert a + b == b;
    } else {
      assert (a + b)[1..] == a[1..] + b && (a + b)[0] == a[0];
      WithoutAppend(a[1..], b);
      Regroup(if a[0].Stop? then [] else [a[0]], WithoutStops(a[1..]), WithoutStops(b), []);
    }
  }

  lemma {:induction false} OnlyAppend(a: seq<StreamEvent>, b: seq<StreamEvent>)
    ensures OnlyStops(a + b) == OnlyStops(a) + OnlyStops(b)
    decreases |a|
  {
    if a == [] {
      assert a + b == b;
    } else {
      assert (a + b)[1..] == a[1..] + b && (a + b)[0] == a[0];
      OnlyAppend(a[1..], b);
      Regroup(if a[0].Stop? then [a[0]] else [], OnlyStops(a[1..]), OnlyStops(b), []);
    }
  }

  lemma FilterAppend(a: seq<StreamEvent>, b: seq<StreamEvent>)
    ensures WithoutStops(a + b) == WithoutStops(a) + WithoutStops(b)
    ensures OnlyStops(a + b) == OnlyStops(a) + OnlyStops(b)
  {
    WithoutAppend(a, b);
    OnlyAppend(a, b);
  }

  lemma {:induction false} FragmentsAppend(a: seq<StreamEvent>, b: seq<StreamEvent>, id: string)
    ensures Fragments(a + b, id) == Fragments(a, id) + Fragments(b, id)
    decreases |a|
  {
    if a == [] {
      assert a + b == b;
    } else {
      assert (a + b)[1..] == a[1..] + b && (a + b)[0] == a[0];
      FragmentsAppend(a[1..], b, id);
      var head := if a[0].ToolInput? && a[0].id == id then a[0].json else "";
      assert head + (Fragments(a[1..], id) + Fragments(b, id)) == head + Fragments(a[1..], id) + Fragments(b, id);
    }
  }

  lemma {:induction false} NoStopsToFilter(events: seq<StreamEvent>)
    requires !HasStop(events)
    ensures WithoutStops(events) == events && OnlyStops(events) == []
    decreases |events|
  {
    if events != [] {
      HasStopAppend([events[0]], events[1..]);
      assert events == [events[0]] + events[1..];
      assert [events[0]][..0] == [];
      NoStopsToFilter(events[1..]);
    }
  }

  lemma {:induction false} FilterInPlace(before: seq<ToolDelta>, cs: seq<Choice>, stop: StreamEvent)
    requires stop.Stop?
    ensures WithoutStops(InPlace(before, cs, stop)) == Body(before, cs)
    ensures OnlyStops(InPlace(before, cs, stop)) == if Finishes(cs) then [stop] else []
    decreases |cs|
  {
    hide ChoiceBody;
    if cs != [] {
      var head, next := ChoiceBody(before, cs[0]), before + cs[0].tools;
      ChoiceBodyHasNoStop(before, cs[0]);
      NoStopsToFilter(head);
      if cs[0].finish != "" {
        var rest := Body(next, cs[1..]);
        BodyHasNoStop(next, cs[1..]);
        NoStopsToFilter(rest);
        FilterAppend(head, [stop]);
        FilterAppend(head + [stop], rest);
        assert [stop][1..] == [];
      } else {
        FilterInPlace(next, cs[1..], stop);
        FilterAppend(head, InPlace(next, cs[1..], stop));
      }
    }
  }

  /** The lazy decoder yields the buffered decoder's events with the stop moved to the end;
      there is one stop if some choice carried a finish reason, and none otherwise. */
  lemma LazyMovesStopLast(chunks: seq<Chunk>)
    ensures Lazy(chunks) == WithoutStops(Buffered(chunks)) + OnlyStops(Buffered(chunks))
    ensures OnlyStops(Lazy(chunks)) == OnlyStops(Buffered(chunks)) == StopOf(chunks)
    ensures |OnlyStops(Buffered(chunks))| == if HasFinish(chunks) then 1 else 0
  {
    var cs, stop := Choices(chunks), Patched(HeldStop(chunks), LastUsage(chunks));
    FilterInPlace([], cs, stop);
    BodyHasNoStop([], cs);
    NoStopsToFilter(Body([], cs));
    FilterAppend(Body([], cs), StopOf(chunks));
    FilterStop(StopOf(chunks));
    FinishMeans(chunks);
  }

  lemma FilterStop(events: seq<StreamEvent>)
    requires events == [] || (|events| == 1 && events[0].Stop?)
    ensures WithoutStops(events) == [] && OnlyStops(events) == events
  {
  }

  /** Some choice of some chunk carries a finish reason. */
  ghost predicate HasFinish(chunks: seq<Chunk>) {
    exists k, j :: 0 <= k < |chunks| && 0 <= j < |chunks[k].choices| && chunks[k].choices[j].finish != ""
  }

  lemma {:induction false} FinishMeans(chunks: seq<Chunk>)
    ensures Finishes(Choices(chunks)) <==> HasFinish(chunks)
    decreases |chunks|
  {
    if chunks != [] {
      var rest := chunks[1..];
      FinishMeans(rest);
      FinishInChunk(chunks[0].choices);
      ToolsAppend(chunks[0].choices, Choices(rest));
      if HasFinish(rest) {
        var k, j :| 0 <= k < |rest| && 0 <= j < |rest[k].choices| && rest[k].choices[j].finish != "";
        assert chunks[k + 1].choices[j].finish != "";
      }
      if HasFinish(chunks) {
        var k, j :| 0 <= k < |chunks| && 0 <= j < |chunks[k].choices| && chunks[k].choices[j].finish != "";
        if k > 0 {
          assert rest[k - 1].choices[j].finish != "";
        }
      }
    }
  }

  lemma {:induction false} FinishInChunk(choices: seq<Choice>)
    ensures Finishes(choices) <==> exists j :: 0 <= j < |choices| && choices[j].finish != ""
    decreases |choices|
  {
    if choices != [] {
      FinishInChunk(choices[1..]);
      assert forall j :: 0 < j < |choices| ==> choices[j] == choices[1..][j - 1];
      assert forall j :: 0 <= j < |choices| - 1 ==> choices[1..][j] == choices[j + 1];
    }
  }

  // ---- argument fragments ----

  /** The fragments received for a tool call whose opener has this id. */
  function ReceivedUnder(all: seq<ToolDelta>, tools: seq<ToolDelta>, id: string): string {
    if tools == [] then ""
    else
      var opener := Opener(all, tools[0].index);
      (if opener.Some? && opener.value.id == id then tools[0].args else "") + ReceivedUnder(all, tools[1..], id)
  }

  /** A later delta does not change who opened a tool index. */
  lemma {:induction false} OpenerAppend(a: seq<ToolDelta>, b: seq<ToolDelta>, index: int)
    ensures Opener(a + b, index) == if Opener(a, index).Some? then Opener(a, index) else Opener(b, index)
    decreases |a|
  {
    if a == [] {
      assert a + b == b;
    } else {
      assert (a + b)[1..] == a[1..] + b && (a + b)[0] == a[0];
      OpenerAppend(a[1..], b, index);
    }
  }

  lemma FragmentsOfTool(before: seq<ToolDelta>, td: ToolDelta, later: seq<ToolDelta>, id: string)
    ensures var opener := Opener(before + [td] + later, td.index);
      opener.Some? && Fragments(ToolEvents(before, td), id) == if opener.value.id == id then td.args else ""
  {
    OpenerAppend(before, [td], td.index);
    OpenerAppend(before + [td], later, td.index);
    var opener := Opener(before, td.index);
    var caller := if opener.Some? then opener.value.id else td.id;
    var start := if opener.None? && td.name != "" then [ToolStart(td.id, td.name)] else [];
    var input := if td.args != "" then [ToolInput(caller, td.args)] else [];
    FragmentsAppend(start, input, id);
    assert input[|input|..] == [] && start[|start|..] == [];
  }

  lemma {:induction false} FragmentsOfTools(before: seq<ToolDelta>, tools: seq<ToolDelta>, later: seq<ToolDelta>,
                                            id: string)
    ensures Fragments(ToolBody(before, tools), id) == ReceivedUnder(before + tools + later, tools, id)
    decreases |tools|
  {
    hide ToolEvents, Opener, Fragments;
    if tools == [] {
      NoFragmentsInStops([], id);
    } else {
      var td, rest := tools[0], tools[1..];
      FragmentsOfTool(before, td, rest + later, id);
      FragmentsOfTools(before + [td], rest, later, id);
      FragmentsAppend(ToolEvents(before, td), ToolBody(before + [td], rest), id);
      assert before + [td] + (rest + later) == before + tools + later;
      assert before + [td] + rest + later == before + tools + later;
    }
  }

  lemma {:induction false} ReceivedAppend(all: seq<ToolDelta>, a: seq<ToolDelta>, b: seq<ToolDelta>, id: string)
    ensures ReceivedUnder(all, a + b, id) == ReceivedUnder(all, a, id) + ReceivedUnder(all, b, id)
    decreases |a|
  {
    hide Opener;
    if a == [] {
      assert a + b == b;
    } else {
      assert (a + b)[1..] == a[1..] + b && (a + b)[0] == a[0];
      ReceivedAppend(all, a[1..], b, id);
    }
  }

  lemma NoFragmentsInText(c: Choice, id: string)
    ensures Fragments(TextBody(c), id) == ""
  {
    hide ReasoningText;
    var t := ReasoningText(c.reasoning);
    FragmentsAppend(if t != "" then [Thinking(t)] else [], if c.text != "" then [Text(c.text)] else [], id);
  }

  lemma {:induction false} FragmentsOfBody(before: seq<ToolDelta>, cs: seq<Choice>, id: string)
    ensures Fragments(Body(before, cs), id) == ReceivedUnder(before + Tools(cs), Tools(cs), id)
    decreases |cs|
  {
    hide Fragments, ReceivedUnder, TextBody, ToolBody;
    if cs == [] {
      FragmentsOfTools(before, [], [], id);
      assert ToolBody(before, []) == [] by { NoTools(before); }
      assert before + [] + [] == before + Tools(cs);
    } else {
      var c, rest := cs[0], cs[1..];
      var all := before + c.tools + Tools(rest);
      FragmentsOfBody(before + c.tools, rest, id);
      NoFragmentsInText(c, id);
      FragmentsOfTools(before, c.tools, Tools(rest), id);
      FragmentsAppend(TextBody(c), ToolBody(before, c.tools), id);
      FragmentsAppend(ChoiceBody(before, c), Body(before + c.tools, rest), id);
      ReceivedAppend(all, c.tools, Tools(rest), id);
      assert before + Tools(cs) == all;
    }
  }

  lemma NoTools(before: seq<ToolDelta>)
    ensures ToolBody(before, []) == []
  {
  }

  /** No other tool index was opened with the same id. */
  ghost predicate OwnId(deltas: seq<ToolDelta>, index: int) {
    && Opener(deltas, index).Some?
    && forall i :: Opener(deltas, i).Some? && Opener(deltas, i).value.id == Opener(deltas, index).value.id ==> i == index
  }

  lemma {:induction false} ReceivedIsArgs(all: seq<ToolDelta>, a: seq<ToolDelta>, tools: seq<ToolDelta>, index: int)
    requires OwnId(all, index) && all == a + tools
    ensures ReceivedUnder(all, tools, Opener(all, index).value.id) == Args(tools, index)
    decreases |tools|
  {
    if tools != [] {
      OpenerAppend(a, tools, tools[0].index);
      assert a + [tools[0]] + tools[1..] == all;
      ReceivedIsArgs(all, a + [tools[0]], tools[1..], index);
    }
  }

  /** Both decoders emit under an id exactly the fragments received for the indices that were
      opened with it, in order of arrival, whether or not other calls share the id. */
  lemma FragmentsArrive(chunks: seq<Chunk>, id: string)
    ensures var all := Tools(Choices(chunks));
      Fragments(Lazy(chunks), id) == Fragments(Buffered(chunks), id) == ReceivedUnder(all, all, id)
  {
    hide Fragments, ReceivedUnder, Body, InPlace, Choices, Tools, Opener;
    var cs := Choices(chunks);
    var all := Tools(cs);
    assert [] + all == all;
    FragmentsOfBody([], cs, id);
    FragmentsAppend(Body([], cs), StopOf(chunks), id);
    NoFragmentsInStops(StopOf(chunks), id);
    FilterInPlace([], cs, Patched(HeldStop(chunks), LastUsage(chunks)));
    FragmentsIgnoreStops(Buffered(chunks), id);
  }

  /** With an id of its own, a tool call gets the fragments received for its index. */
  lemma OwnFragmentsArrive(chunks: seq<Chunk>, index: int)
    requires OwnId(Tools(Choices(chunks)), index)
    ensures var all := Tools(Choices(chunks));
      var id := Opener(all, index).value.id;
      Fragments(Lazy(chunks), id) == Fragments(Buffered(chunks), id) == Args(all, index)
  {
    var all := Tools(Choices(chunks));
    var id := Opener(all, index).value.id;
    hide Fragments, ReceivedUnder, Args, Choices, Tools, Opener, OwnId;
    assert [] + all == all;
    FragmentsArrive(chunks, id);
    ReceivedIsArgs(all, [], all, index);
  }

  lemma NoFragmentsInStops(events: seq<StreamEvent>, id: string)
    requires events == [] || (|events| == 1 && events[0].Stop?)
    ensures Fragments(events, id) == ""
  {
  }

  lemma {:induction false} FragmentsIgnoreStops(events: seq<StreamEvent>, id: string)
    ensures Fragments(events, id) == Fragments(WithoutStops(events), id)
    decreases |events|
  {
    if events != [] {
      var rest := WithoutStops(events[1..]);
      FragmentsIgnoreStops(events[1..], id);
      assert ([events[0]] + rest)[1..] == rest && [] + rest == rest;
    }
  }
}
