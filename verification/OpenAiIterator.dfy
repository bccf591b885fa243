/** The lazy decoder: `_AsyncStreamIterator`, one event per call. */
module OpenAiIterator {
  import opened Wrappers
  import opened SeqFacts
  import opened OpenAiStream

  class AsyncStreamIterator {
    /** Chunks that the SSE source has not handed over yet. */
    var upstream: seq<Chunk>
    var pendingTools: map<int, PendingTool>
    var stopEmitted: bool
    var lastUsage: Option<UsageData>
    var buffer: seq<StreamEvent>
    var pendingStop: Option<StreamEvent>
    var upstreamDone: bool
    ghost var seen: seq<Chunk>

    ghost predicate Valid()
      reads this
    {
      && Tracks(pendingTools, Tools(Choices(seen)))
      && lastUsage == LastUsage(seen)
      && stopEmitted == Finishes(Choices(seen))
      && (pendingStop.Some? ==> stopEmitted && pendingStop.value == HeldStop(seen))
      && (upstreamDone ==> upstream == [])
      && (Delivered() ==> upstream == [] && buffer == [])
    }

    /** The held stop has been handed on. */
    ghost predicate Delivered()
      reads this
    {
      stopEmitted && pendingStop.None?
    }

    /** The events still to come. */
    ghost function Remaining(): seq<StreamEvent>
      reads this
    {
      buffer + Later()
    }

    /** The events that are not in the buffer yet. */
    ghost function Later(): seq<StreamEvent>
      reads this
    {
      Body(Tools(Choices(seen)), Choices(upstream)) + if Delivered() then [] else StopOf(seen + upstream)
    }

    /** In the middle of a chunk: the choices `cs` are done, `held` is the stop they give if any. */
    ghost predicate Holding(cs: seq<Choice>, held: StreamEvent)
      reads this
    {
      && Tracks(pendingTools, Tools(cs))
      && stopEmitted == Finishes(cs)
      && pendingStop == if stopEmitted then Some(held) else None
    }

    constructor (chunks: seq<Chunk>)
      ensures Valid() && Remaining() == Lazy(chunks)
    {
      upstream, pendingTools, stopEmitted, lastUsage := chunks, map[], false, None;
      buffer, pendingStop, upstreamDone, seen := [], None, false, [];
      new;
      assert [] + chunks == chunks;
    }

    method ProcessTool(td: ToolDelta, ghost before: seq<ToolDelta>)
      requires Tracks(pendingTools, before)
      modifies `pendingTools, `buffer
      ensures Tracks(pendingTools, before + [td])
      ensures buffer == old(buffer) + ToolEvents(before, td)
    {
      if td.index !in pendingTools {
        pendingTools := pendingTools[td.index := PendingTool(td.id, td.name, "")];
        if td.name != "" {
          buffer := buffer + [ToolStart(td.id, td.name)];
        }
      }
      if td.args != "" {
        var tool := pendingTools[td.index];
        pendingTools := pendingTools[td.index := tool.(args := tool.args + td.args)];
        buffer := buffer + [ToolInput(tool.id, td.args)];
      }
      hide Opener, Args;
      TracksSnoc(old(pendingTools), pendingTools, before, td);
    }

    method ProcessChoice(c: Choice, ghost before: seq<ToolDelta>)
      requires Tracks(pendingTools, before)
      modifies `pendingTools, `buffer
      ensures Tracks(pendingTools, before + c.tools)
      ensures buffer == old(buffer) + ChoiceBody(before, c)
    {
      hide Tracks, ToolEvents, ReasoningText;
      var reasoning := ReasoningText(c.reasoning);
      if reasoning != "" {
        buffer := buffer + [Thinking(reasoning)];
      }
      if c.text != "" {
        buffer := buffer + [Text(c.text)];
      }
      ghost var start := buffer;
      assert start == old(buffer) + TextBody(c);
      assert before + c.tools[..0] == before;
      var j := 0;
      while j < |c.tools|
        invariant 0 <= j <= |c.tools|
        invariant Tracks(pendingTools, before + c.tools[..j])
        invariant buffer == start + ToolBody(before, c.tools[..j])
      {
        ProcessTool(c.tools[j], before + c.tools[..j]);
        NextTool(before, c.tools, j, start);
        j := j + 1;
      }
      assert c.tools[..j] == c.tools;
    }

    /** The loop body for one choice. */
    method ProcessChoiceAndStop(c: Choice, ghost cs: seq<Choice>, ghost held: StreamEvent)
      requires Holding(cs, held)
      requires !Finishes(cs) && c.finish != "" ==> held == Stop(TokenUsage(lastUsage), c.finish)
      modifies `pendingTools, `buffer, `stopEmitted, `pendingStop
      ensures Holding(cs + [c], held)
      ensures buffer == old(buffer) + ChoiceBody(Tools(cs), c)
    {
      hide Tracks, ChoiceBody, Tools, Finishes;
      ProcessChoice(c, Tools(cs));
      FinishSnoc(cs, c);
      if c.finish != "" && !stopEmitted {
        stopEmitted := true;
        pendingStop := Some(Stop(TokenUsage(lastUsage), c.finish));
      }
    }

    method ProcessChunk(chunk: Chunk)
      requires Valid() && !Delivered()
      modifies `pendingTools, `buffer, `stopEmitted, `pendingStop, `lastUsage, `seen
      ensures Valid() && !Delivered() && seen == old(seen) + [chunk]
      ensures buffer == old(buffer) + Body(Tools(Choices(old(seen))), chunk.choices)
    {
      hide Tracks, Tools, Body, Choices, Finishes, HeldStop, LastUsage;
      if chunk.usage.Some? {
        lastUsage := chunk.usage;
      }
      ghost var cs, held := Choices(seen), HeldStop(seen + [chunk]);
      AroundChunk(seen, chunk);
      ChunkLoop(chunk.choices, cs, held);
      seen := seen + [chunk];
    }

    method ChunkLoop(choices: seq<Choice>, ghost cs: seq<Choice>, ghost held: StreamEvent)
      requires Holding(cs, held)
      requires !Finishes(cs) && Finishes(choices) ==> held == Stop(TokenUsage(lastUsage), Reason(choices))
      modifies `pendingTools, `buffer, `stopEmitted, `pendingStop
      ensures Holding(cs + choices, held)
      ensures buffer == old(buffer) + Body(Tools(cs), choices)
    {
      hide Holding, Tools, Body, Finishes, ChoiceBody, Reason, TokenUsage;
      assert cs + choices[..0] == cs && choices[..0] == [];
      NoChoices(Tools(cs));
      ghost var start := buffer;
      var j := 0;
      while j < |choices|
        invariant 0 <= j <= |choices| && Holding(cs + choices[..j], held)
        invariant buffer == start + Body(Tools(cs), choices[..j])
      {
        NextChoiceOfChunk(choices, cs, held, j, start);
        j := j + 1;
      }
      assert choices[..j] == choices;
    }

    /** One round of that loop. */
    method NextChoiceOfChunk(choices: seq<Choice>, ghost cs: seq<Choice>, ghost held: StreamEvent, j: nat,
                             ghost start: seq<StreamEvent>)
      requires j < |choices| && Holding(cs + choices[..j], held)
      requires !Finishes(cs) && Finishes(choices) ==> held == Stop(TokenUsage(lastUsage), Reason(choices))
      requires buffer == start + Body(Tools(cs), choices[..j])
      modifies `pendingTools, `buffer, `stopEmitted, `pendingStop
      ensures Holding(cs + choices[..j + 1], held)
      ensures buffer == start + Body(Tools(cs), choices[..j + 1])
    {
      hide Holding, Tools, Body, Finishes, ChoiceBody;
      if !Finishes(cs + choices[..j]) && choices[j].finish != "" {
        FirstReason(cs, choices, j);
      }
      ProcessChoiceAndStop(choices[j], cs + choices[..j], held);
      NextChoice(cs, choices, j, start);
    }

    /** `self._buffer.pop(0)` */
    method Pop() returns (e: StreamEvent)
      requires Valid() && buffer != []
      modifies `buffer
      ensures Valid() && old(Remaining()) == [e] + Remaining()
    {
      hide Tracks, Tools, Body, Finishes, HeldStop, LastUsage, Choices, StopOf;
      e := buffer[0];
      PopFront(buffer, Later());
      buffer := buffer[1..];
    }

    /** One more chunk from upstream. */
    method Pull()
      requires Valid() && upstream != []
      modifies this
      ensures Valid() && !Delivered() && Remaining() == old(Remaining())
      ensures upstream == old(upstream)[1..] && upstreamDone == old(upstreamDone)
    {
      hide Tracks, Tools, Body, Finishes, HeldStop, LastUsage, Choices, StopOf;
      var chunk := upstream[0];
      MoveChunk(seen, upstream, buffer, StopOf(seen + upstream));
      upstream := upstream[1..];
      ProcessChunk(chunk);
    }

    /** The held stop, once everything else is out. */
    method TakeStop() returns (r: Option<StreamEvent>)
      requires Valid() && buffer == [] && upstream == []
      modifies `pendingStop
      ensures Valid()
      ensures r.Some? ==> old(Remaining()) == [r.value] + Remaining()
      ensures r.None? ==> old(Remaining()) == [] && Remaining() == []
    {
      assert seen + upstream == seen;
      r := None;
      if pendingStop.Some? {
        var stop := pendingStop.value;
        pendingStop := None;
        if lastUsage.Some? && stop.usage.input == 0 && stop.usage.output == 0 {
          stop := Stop(TokenUsage(lastUsage), stop.reason);
        }
        r := Some(stop);
      }
    }

    /** `__anext__`; `None` is `StopAsyncIteration`. */
    method Next() returns (r: Option<StreamEvent>)
      requires Valid()
      modifies this
      ensures Valid()
      ensures r.Some? ==> old(Remaining()) == [r.value] + Remaining()
      ensures r.None? ==> old(Remaining()) == [] && Remaining() == []
    {
      hide Tracks, Tools, Body, Finishes, HeldStop, LastUsage, Choices, StopOf;
      if buffer != [] {
        var e := Pop();
        r := Some(e);
        return;
      }
      while buffer == [] && !upstreamDone
        invariant Valid() && Remaining() == old(Remaining())
        decreases |upstream|, !upstreamDone
      {
        if upstream == [] {
          upstreamDone := true;
          break;
        }
        Pull();
      }
      if buffer != [] {
        var e := Pop();
        r := Some(e);
      } else {
        r := TakeStop();
      }
    }
  }

  /** Draining the stream. */
  method Drain(chunks: seq<Chunk>) returns (events: seq<StreamEvent>)
    ensures events == Lazy(chunks)
  {
    hide AsyncStreamIterator.Valid, AsyncStreamIterator.Remaining, Lazy;
    var stream := new AsyncStreamIterator(chunks);
    events := [];
    var more := true;
    while more
      invariant stream.Valid() && events + stream.Remaining() == Lazy(chunks)
      invariant !more ==> stream.Remaining() == []
      decreases |stream.Remaining()|, more
    {
      var r := stream.Next();
      if r.Some? {
        TakeOne(events, r.value, stream.Remaining());
        events := events + [r.value];
      } else {
        more := false;
      }
    }
  }

  lemma NextChoice(cs: seq<Choice>, choices: seq<Choice>, j: nat, start: seq<StreamEvent>)
    requires j < |choices|
    ensures cs + choices[..j] + [choices[j]] == cs + choices[..j + 1]
    ensures start + Body(Tools(cs), choices[..j]) + ChoiceBody(Tools(cs + choices[..j]), choices[j])
      == start + Body(Tools(cs), choices[..j + 1])
  {
    hide Body, Tools, ChoiceBody;
    assert choices[..j] + [choices[j]] == choices[..j + 1];
    BodySnoc(Tools(cs), choices[..j], choices[j]);
    ToolsAppend(cs, choices[..j]);
  }

  /** A chunk goes from upstream to the buffer without changing what is still to come. */
  lemma MoveChunk(seen: seq<Chunk>, upstream: seq<Chunk>, buffer: seq<StreamEvent>, stop: seq<StreamEvent>)
    requires upstream != []
    ensures var before, now := Tools(Choices(seen)), seen + [upstream[0]];
      buffer + (Body(before, Choices(upstream)) + stop)
        == buffer + Body(before, upstream[0].choices) + (Body(Tools(Choices(now)), Choices(upstream[1..])) + stop)
    ensures seen + upstream == seen + [upstream[0]] + upstream[1..]
  {
    hide Body, Choices, Tools;
    var before, now := Tools(Choices(seen)), seen + [upstream[0]];
    SplitBody(seen, upstream);
    Regroup(buffer, Body(before, upstream[0].choices), Body(Tools(Choices(now)), Choices(upstream[1..])), stop);
  }

  lemma SplitBody(seen: seq<Chunk>, upstream: seq<Chunk>)
    requires upstream != []
    ensures var before, now := Tools(Choices(seen)), seen + [upstream[0]];
      Body(before, Choices(upstream))
        == Body(before, upstream[0].choices) + Body(Tools(Choices(now)), Choices(upstream[1..]))
  {
    hide Body, Tools;
    OneMoreChunk(seen, upstream[0]);
    ToolsAppend(Choices(seen), upstream[0].choices);
    BodyAppend(Tools(Choices(seen)), upstream[0].choices, Choices(upstream[1..]));
  }

  lemma FinishSnoc(cs: seq<Choice>, c: Choice)
    ensures Finishes(cs + [c]) <==> Finishes(cs) || c.finish != ""
    ensures Tools(cs + [c]) == Tools(cs) + c.tools
  {
    ToolsAppend(cs, [c]);
    assert [c][1..] == [] && Tools([]) == [] && Reason([c]) == c.finish;
  }

  /** What one more chunk does to the choices, the usage and the held stop. */
  /** What one tool delta does to the table. */
  lemma TracksSnoc(pending: map<int, PendingTool>, after: map<int, PendingTool>, before: seq<ToolDelta>, td: ToolDelta)
    requires Tracks(pending, before)
    requires after.Keys == pending.Keys + {td.index}
    requires forall i :: i in pending && i != td.index ==> after[i] == pending[i]
    requires after[td.index] ==
      var tool := if td.index in pending then pending[td.index] else PendingTool(td.id, td.name, "");
      tool.(args := tool.args + td.args)
    ensures Tracks(after, before + [td])
  {
    hide Opener, Args;
    forall i
      ensures i in after <==> Opener(before + [td], i).Some?
      ensures var o := Opener(before + [td], i);
        i in after ==> after[i] == PendingTool(o.value.id, o.value.name, Args(before + [td], i))
    {
      OpenerSnoc(before, td, i);
      ArgsSnoc(before, td, i);
    }
  }

  lemma NoChoices(before: seq<ToolDelta>)
    ensures Body(before, []) == []
  {
  }

  lemma AroundChunk(seen: seq<Chunk>, chunk: Chunk)
    ensures Choices(seen + [chunk]) == Choices(seen) + chunk.choices
    ensures LastUsage(seen + [chunk]) == if chunk.usage.Some? then chunk.usage else LastUsage(seen)
    ensures Finishes(Choices(seen)) ==> HeldStop(seen + [chunk]) == HeldStop(seen)
    ensures !Finishes(Choices(seen)) && Finishes(chunk.choices) ==>
      HeldStop(seen + [chunk]) == Stop(TokenUsage(LastUsage(seen + [chunk])), Reason(chunk.choices))
  {
    OneMoreChunk(seen, chunk);
    HeldStopSnoc(seen, chunk);
    if !Finishes(Choices(seen)) && Finishes(chunk.choices) {
      StopOfChunk(seen, chunk);
    }
  }
}
