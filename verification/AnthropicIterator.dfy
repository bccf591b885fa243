/** The live Anthropic decoder: one event per call, read from the response's lines. */
module AnthropicIterator {
  import opened Wrappers
  import opened SeqFacts
  import opened AnthropicStream

  /** The messages of the blocks that a blank line ends; `f` holds what was read of the
      current block. */
  function LiveMessages(lines: seq<string>, f: Fields, decode: Decoder): seq<Message> {
    if lines == [] then []
    else if lines[0] == [] then MessageOf(f, decode) + LiveMessages(lines[1..], NO_FIELDS, decode)
    else LiveMessages(lines[1..], AddLine(f, lines[0]), decode)
  }

  function LiveEvents(lines: seq<string>, decode: Decoder): seq<StreamEvent> {
    Events(LiveMessages(lines, NO_FIELDS, decode))
  }

  class AnthropicLiveStreamIterator {
    var lines: seq<string>
    var blockTypes: map<int, BlockKind>
    var blockIds: map<int, string>
    var blockSignatures: map<int, seq<string>>
    var serverBlocks: map<int, ContentBlock>
    var finalUsage: map<string, int>
    var stopReason: Option<string>
    var pending: seq<StreamEvent>
    var done: bool
    const decode: Decoder
    ghost var handled: seq<Message>

    ghost function Tables(): State
      reads this
    {
      State(blockTypes, blockIds, blockSignatures, serverBlocks, finalUsage, stopReason)
    }

    ghost predicate Valid()
      reads this
    {
      Tracks(Tables(), handled)
    }

    /** The events still to come. */
    ghost function Remaining(): seq<StreamEvent>
      reads this
    {
      pending + if done then [] else Later()
    }

    /** The events that the remaining lines give. */
    ghost function Later(): seq<StreamEvent>
      reads this
    {
      Rest(handled, LiveMessages(lines, NO_FIELDS, decode))
    }

    constructor (lines: seq<string>, decode: Decoder)
      ensures Valid() && Remaining() == LiveEvents(lines, decode)
    {
      this.lines, this.decode := lines, decode;
      blockTypes, blockIds, blockSignatures, serverBlocks := map[], map[], map[], map[];
      finalUsage, stopReason, pending, done, handled := map[], Some("end_turn"), [], false, [];
      new;
      TracksNothing();
      assert [] + LiveMessages(lines, NO_FIELDS, decode) == LiveMessages(lines, NO_FIELDS, decode);
    }

    /** `_process_sse_event` */
    method ProcessSseEvent(m: Message) returns (events: seq<StreamEvent>)
      requires Valid()
      modifies `blockTypes, `blockIds, `blockSignatures, `serverBlocks, `finalUsage, `stopReason, `handled
      ensures Valid() && handled == old(handled) + [m]
      ensures events == EmitAfter(old(handled), m)
    {
      hide Tracks, EmitAfter;
      events := Dispatch(m);
      StepTracks(old(Tables()), handled, m);
      handled := handled + [m];
    }

    /** The branches on a payload's type, on the iterator's tables. */
    method Dispatch(m: Message) returns (events: seq<StreamEvent>)
      modifies `blockTypes, `blockIds, `blockSignatures, `serverBlocks, `finalUsage, `stopReason
      ensures Tables() == Step(old(Tables()), m)
      ensures events == EventsFrom(old(Tables()), m)
    {
      events := [];
      match m {
        case Start(i, kind, block) =>
          blockTypes := blockTypes[i := kind];
          if kind == ToolUse {
            blockIds := blockIds[i := block.id];
            events := [ToolStart(block.id, block.name)];
          } else if IsServer(kind) {
            serverBlocks := serverBlocks[i := block];
          }
        case BlockDelta(i, delta) =>
          match delta {
            case ThinkingDelta(text) => if text != "" { events := [Thinking(text)]; }
            case TextDelta(text) => if text != "" { events := [Text(text)]; }
            case InputJsonDelta(json) =>
              if json != "" {
                events := [ToolInput(if i in blockIds then blockIds[i] else "", json)];
              }
            case SignatureDelta(part) =>
              if part != "" {
                var parts := if i in blockSignatures then blockSignatures[i] else [];
                blockSignatures := blockSignatures[i := parts + [part]];
              }
            case OtherDelta =>
          }
        case BlockStop(i) =>
          var kind := if i in blockTypes then blockTypes[i] else OtherBlock;
          var sig := if i in blockSignatures then Concat(blockSignatures[i]) else "";
          blockSignatures := blockSignatures - {i};
          if kind == ThinkingBlock && sig != "" {
            events := [ThinkingSignature(sig)];
          } else if kind == ServerToolUse && i in serverBlocks {
            var b := serverBlocks[i];
            events := [ServerUse(b.id, b.name, b.input, sig)];
            serverBlocks := serverBlocks - {i};
          } else if kind == ServerToolResult && i in serverBlocks {
            var b := serverBlocks[i];
            events := [ServerResult(b.toolUseId, b.content, sig)];
            serverBlocks := serverBlocks - {i};
          }
          assert i !in old(serverBlocks) ==> old(serverBlocks) - {i} == old(serverBlocks);
        case MessageDelta(reason, usage) =>
          if reason.Some? {
            stopReason := reason.value;
          }
          finalUsage := finalUsage + usage;
        case MessageStart(usage) =>
          finalUsage := finalUsage + usage;
        case Other =>
      }
    }

    /** Reads one block; `None` when the lines run out first. */
    method ReadBlock() returns (block: Option<Fields>)
      modifies `lines
      ensures block.Some? ==> |lines| < |old(lines)|
      ensures block.Some? ==> LiveMessages(old(lines), NO_FIELDS, decode)
                              == MessageOf(block.value, decode) + LiveMessages(lines, NO_FIELDS, decode)
      ensures block.None? ==> lines == [] && LiveMessages(old(lines), NO_FIELDS, decode) == []
    {
      hide AddLine, MessageOf;
      var f := NO_FIELDS;
      while lines != []
        invariant |lines| <= |old(lines)|
        invariant LiveMessages(lines, f, decode) == LiveMessages(old(lines), NO_FIELDS, decode)
        decreases |lines|
      {
        var line := lines[0];
        lines := lines[1..];
        if line == [] {
          return Some(f);
        }
        f := AddLine(f, line);
      }
      block := None;
    }

    /** Reads and handles one block; `None` when the lines run out. */
    method HandleBlock() returns (events: Option<seq<StreamEvent>>)
      requires Valid() && !done
      modifies this
      ensures Valid() && done == old(done) && pending == old(pending)
      ensures events.Some? ==> |lines| < |old(lines)| && old(Later()) == events.value + Later()
      ensures events.None? ==> old(Later()) == [MessageStop(UsageOf(finalUsage), stopReason)]
    {
      hide Tracks, LiveMessages, MessageOf, EmitAfter, Rest, FinalStop, Classify;
      var block := ReadBlock();
      if block.None? {
        StopFromTables(Tables(), handled);
        RestOfNothing(handled);
        return None;
      }
      var f := block.value;
      ghost var next := LiveMessages(lines, NO_FIELDS, decode);
      var payload := Data(f);
      if payload.None? {
        assert [] + next == next && [] + Rest(handled, next) == Rest(handled, next);
        return Some([]);
      }
      var message := Classify(payload.value, f.eventType);
      RestAfter(handled, message, next);
      var built := ProcessSseEvent(message);
      return Some(built);
    }

    /** `__anext__`; `None` is `StopAsyncIteration`. */
    method Next() returns (r: Option<StreamEvent>)
      requires Valid()
      modifies this
      ensures Valid()
      ensures r.Some? ==> old(Remaining()) == [r.value] + Remaining()
      ensures r.None? ==> old(Remaining()) == [] && Remaining() == []
    {
      hide Tracks, LiveMessages, Rest;
      if pending != [] {
        PopFront(pending, if done then [] else Later());
        r := Some(pending[0]);
        pending := pending[1..];
        return;
      }
      if done {
        return None;
      }
      while true
        invariant Valid() && pending == [] && !done
        invariant Later() == old(Later())
        decreases |lines|
      {
        var block := HandleBlock();
        if block.None? {
          done := true;
          return Some(MessageStop(UsageOf(finalUsage), stopReason));
        }
        var events := block.value;
        if events != [] {
          PopFront(events, Later());
          pending := pending + events[1..];
          return Some(events[0]);
        }
      }
    }

    /** The decoded data of a block, if it has any and it is well formed. */
    method Data(f: Fields) returns (p: Option<Payload>)
      ensures MessageOf(f, decode) == if p.Some? then [Classify(p.value, f.eventType)] else []
    {
      p := None;
      if f.parts != [] {
        p := decode(Join(f.parts));
      }
    }
  }

  /** The events of messages that follow `h`, and the stop at the end. */
  function Rest(h: seq<Message>, ms: seq<Message>): seq<StreamEvent> {
    Run(h, ms) + [FinalStop(h + ms)]
  }

  lemma RestAfter(h: seq<Message>, m: Message, ms: seq<Message>)
    ensures Rest(h, [m] + ms) == EmitAfter(h, m) + Rest(h + [m], ms)
  {
    assert ([m] + ms)[1..] == ms;
    assert h + ([m] + ms) == h + [m] + ms;
  }

  lemma RestOfNothing(h: seq<Message>)
    ensures Rest(h, []) == [FinalStop(h)]
  {
    assert h + [] == h;
  }

  /** Draining the iterator. */
  method Drain(lines: seq<string>, decode: Decoder) returns (events: seq<StreamEvent>)
    ensures events == LiveEvents(lines, decode)
  {
    hide AnthropicLiveStreamIterator.Valid, AnthropicLiveStreamIterator.Remaining, LiveEvents;
    var stream := new AnthropicLiveStreamIterator(lines, decode);
    events := [];
    var more := true;
    while more
      invariant stream.Valid() && events + stream.Remaining() == LiveEvents(lines, decode)
      invariant !more ==> stream.Remaining() == []
      decreases |stream.Remaining()|, more
    {
      var r := stream.Next();
      if r.Some? {
        TakeOne(events, r.value, stream.Remaining());
        events := events + [r.value];
      } else {
        more := false;
      }
    }
  }
}
