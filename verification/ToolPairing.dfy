/** Pairing of tool calls and tool results survives compression, splitting and conversion. */
module ToolPairing {
  import opened SeqFacts
  import opened Conversion
  import opened OpenAiWire
  import opened OpenAiConversion

  function UseIds(bs: seq<Block>): set<string> {
    if bs == [] then {}
    else UseIds(bs[..|bs| - 1]) + if bs[|bs| - 1].ToolUse? then {bs[|bs| - 1].id} else {}
  }

  /** The tool calls that an assistant message announces. */
  function Announced(m: Message): set<string> {
    if m.role == "assistant" then UseIds(m.content) else {}
  }

  predicate ResultsKnown(bs: seq<Block>, known: set<string>) {
    forall i :: 0 <= i < |bs| && bs[i].ToolResult? ==> bs[i].toolUseId in known
  }

  /** Every tool result follows an assistant message with a tool call of its id; `known` are the
      ids announced before. */
  predicate Paired(ms: seq<Message>, known: set<string>) {
    ms == [] || (ResultsKnown(ms[0].content, known) && Paired(ms[1..], known + Announced(ms[0])))
  }

  function IdsOf(calls: seq<Call>): set<string> {
    if calls == [] then {} else IdsOf(calls[..|calls| - 1]) + {calls[|calls| - 1].id}
  }

  function CallIds(w: Wire): set<string> {
    if w.CallsEntry? then IdsOf(w.calls) else {}
  }

  /** Every `role: tool` entry follows an assistant entry whose `tool_calls` has its id. */
  predicate WirePaired(ws: seq<Wire>, known: set<string>) {
    ws == [] || ((ws[0].ToolEntry? ==> ws[0].callId in known) && WirePaired(ws[1..], known + CallIds(ws[0])))
  }

  /** `WirePaired` spelled out with positions. */
  lemma {:induction false} WirePairedMeans(ws: seq<Wire>, known: set<string>, i: nat)
    requires WirePaired(ws, known) && i < |ws| && ws[i].ToolEntry? && ws[i].callId !in known
    ensures exists j :: 0 <= j < i && ws[j].CallsEntry? && ws[i].callId in CallIds(ws[j])
    decreases |ws|
  {
    if i > 0 && ws[i].callId !in CallIds(ws[0]) {
      WirePairedMeans(ws[1..], known + CallIds(ws[0]), i - 1);
      var j :| 0 <= j < i - 1 && ws[1..][j].CallsEntry? && ws[i].callId in CallIds(ws[1..][j]);
      assert ws[j + 1] == ws[1..][j];
    } else if i > 0 {
      assert ws[0].CallsEntry?;
    }
  }

  // ---- compression ----

  lemma {:induction false} SameShapePaired(a: seq<Message>, b: seq<Message>, known: set<string>)
    requires |a| == |b| && forall i :: 0 <= i < |b| ==> KeepsShape(a[i], b[i])
    requires Paired(b, known)
    ensures Paired(a, known)
    decreases |a|
  {
    if a != [] {
      var x, y := a[0], b[0];
      assert KeepsShape(x, y);
      SameIds(x, y, known);
      forall i | 0 <= i < |b| - 1 ensures KeepsShape(a[1..][i], b[1..][i]) {
        assert KeepsShape(a[i + 1], b[i + 1]);
      }
      SameShapePaired(a[1..], b[1..], known + Announced(y));
    }
  }

  lemma SameIds(x: Message, y: Message, known: set<string>)
    requires KeepsShape(x, y)
    ensures Announced(x) == Announced(y)
    ensures ResultsKnown(y.content, known) ==> ResultsKnown(x.content, known)
  {
    SameUses(x.content, y.content);
    if ResultsKnown(y.content, known) {
      forall i | 0 <= i < |x.content| && x.content[i].ToolResult? ensures x.content[i].toolUseId in known {
        assert SameFrame(x.content[i], y.content[i]);
      }
    }
  }

  lemma {:induction false} SameUses(a: seq<Block>, b: seq<Block>)
    requires |a| == |b| && forall i :: 0 <= i < |b| ==> SameFrame(a[i], b[i])
    ensures UseIds(a) == UseIds(b)
    decreases |a|
  {
    if a != [] {
      SameUses(a[..|a| - 1], b[..|b| - 1]);
      assert SameFrame(a[|a| - 1], b[|b| - 1]);
    }
  }

  // ---- splitting ----

  lemma {:induction false} SinglesPaired(role: string, bs: seq<Block>, rest: seq<Message>, known: set<string>)
    requires forall i :: 0 <= i < |bs| ==> bs[i].ToolResult?
    requires ResultsKnown(bs, known) && Paired(rest, known)
    ensures Paired(Singles(role, bs) + rest, known)
    decreases |bs|
  {
    hide Paired;
    if bs == [] {
      assert Singles(role, bs) + rest == rest;
    } else {
      var m := Message(role, [bs[0]]);
      SinglesPaired(role, bs[1..], rest, known);
      assert Singles(role, bs) + rest == [m] + (Singles(role, bs[1..]) + rest);
      OneResultPaired(role, bs[0], Singles(role, bs[1..]) + rest, known);
    }
  }

  lemma OneResultPaired(role: string, b: Block, rest: seq<Message>, known: set<string>)
    requires b.ToolResult? && b.toolUseId in known && Paired(rest, known)
    ensures Paired([Message(role, [b])] + rest, known)
  {
    var m := Message(role, [b]);
    NoUses([b]);
    assert known + Announced(m) == known;
    assert ([m] + rest)[1..] == rest;
  }

  lemma {:induction false} SplitPaired(ms: seq<Message>, known: set<string>)
    requires Paired(ms, known)
    ensures Paired(Split(ms), known)
    decreases |ms|
  {
    if ms != [] {
      var m, rest := ms[0], ms[1..];
      SplitPaired(rest, known + Announced(m));
      if |m.content| > 1 && IsResultMessage(m) {
        NoCallsAnnounced(m);
        assert known + Announced(m) == known;
        SinglesPaired(m.role, m.content, Split(rest), known);
      } else {
        assert ([m] + Split(rest))[1..] == Split(rest);
      }
    }
  }

  lemma NoCallsAnnounced(m: Message)
    requires IsResultMessage(m)
    ensures Announced(m) == {}
  {
    NoUses(m.content);
  }

  lemma {:induction false} NoUses(bs: seq<Block>)
    requires forall i :: 0 <= i < |bs| ==> bs[i].ToolResult?
    ensures UseIds(bs) == {}
    decreases |bs|
  {
    if bs != [] {
      NoUses(bs[..|bs| - 1]);
    }
  }

  // ---- conversion ----

  lemma {:induction false} CallsAreUses(bs: seq<Block>)
    ensures IdsOf(Calls(bs)) == UseIds(bs)
    ensures !HasToolUse(bs) ==> UseIds(bs) == {}
    decreases |bs|
  {
    if bs != [] {
      var b, before := bs[|bs| - 1], bs[..|bs| - 1];
      CallsAreUses(before);
      assert HasToolUse(before) || b.ToolUse? ==> HasToolUse(bs);
      if b.ToolUse? {
        var calls := Calls(before) + [Call(b.id, b.name, b.input)];
        assert calls[..|calls| - 1] == Calls(before);
      } else {
        assert Calls(before) + [] == Calls(before);
      }
    }
  }

  /** A converted message announces the same calls, and is a tool entry only for a result. */
  lemma ConvertedIds(m: Message, known: set<string>)
    requires Convert(m).Some? && ResultsKnown(m.content, known)
    ensures var w := Convert(m).value;
      (w.ToolEntry? ==> w.callId in known) && CallIds(w) >= (if w.CallsEntry? then Announced(m) else {})
    ensures !IsToolShaped(m) ==> CallIds(Convert(m).value) == Announced(m)
    ensures IsToolShaped(m) && m.role == "assistant" ==> Announced(m) == {}
    ensures m.role != "assistant" ==> Announced(m) == {}
  {
    CallsAreUses(m.content);
    if IsToolShaped(m) && m.role == "assistant" {
      ShapedUses(m);
    }
    hide Calls, UseIds, Texts, Parts, HasToolUse, HasImage, Concat, IdsOf;
  }

  lemma ShapedUses(m: Message)
    requires IsToolShaped(m) && m.role == "assistant"
    ensures UseIds(m.content) == {}
  {
    assert m.content[..0] == [];
  }

  lemma {:induction false} ConvertPaired(ms: seq<Message>, known: set<string>)
    requires Paired(ms, known) && ConvertAll(ms).Some?
    ensures WirePaired(ConvertAll(ms).value, known)
    decreases |ms|
  {
    hide Convert, Announced, ResultsKnown, CallIds, IsToolShaped;
    if ms != [] {
      var m, rest := ms[0], ms[1..];
      var w, later := Convert(m).value, ConvertAll(rest).value;
      ConvertedIds(m, known);
      ConvertPaired(rest, known + Announced(m));
      AnnouncedOnWire(m, known);
      WireKnowsMore(later, known + Announced(m), known + CallIds(w));
      assert ([w] + later)[1..] == later;
    }
  }

  lemma AnnouncedOnWire(m: Message, known: set<string>)
    requires Convert(m).Some? && ResultsKnown(m.content, known)
    ensures Announced(m) <= CallIds(Convert(m).value)
  {
    ConvertedIds(m, known);
  }

  lemma {:induction false} WireKnowsMore(ws: seq<Wire>, known: set<string>, more: set<string>)
    requires WirePaired(ws, known) && known <= more
    ensures WirePaired(ws, more)
    decreases |ws|
  {
    if ws != [] {
      WireKnowsMore(ws[1..], known + CallIds(ws[0]), more + CallIds(ws[0]));
    }
  }

  /** If every result of a history was called for, every `role: tool` entry sent after
      compressing, splitting and converting follows the `tool_calls` entry it answers. */
  lemma PairingSurvives(system: string, ms: seq<Message>, strip: string -> string)
    requires Paired(ms, {}) && SerializeOpenAi(system, Compress(ms, strip)).Some?
    ensures WirePaired(SerializeOpenAi(system, Compress(ms, strip)).value, {})
    ensures SameResultIds(Results(Compress(ms, strip)), Results(ms))
  {
    hide Paired, WirePaired, Compress, Split, ConvertAll;
    var compressed := Compress(ms, strip);
    CompressKeepsShape(ms, strip);
    SameShapePaired(compressed, ms, {});
    SplitPaired(compressed, {});
    ConvertPaired(Split(compressed), {});
    SystemComesFirst(system, ConvertAll(Split(compressed)).value);
    SameShapeResults(compressed, ms);
  }

  predicate SameResultIds(a: seq<Result>, b: seq<Result>) {
    |a| == |b| && forall k :: 0 <= k < |b| ==> a[k].id == b[k].id
  }

  lemma SystemComesFirst(system: string, ws: seq<Wire>)
    requires WirePaired(ws, {})
    ensures WirePaired(SystemPart(system) + ws, {})
  {
    if system == "" {
      assert SystemPart(system) + ws == ws;
    } else {
      var all := SystemPart(system) + ws;
      assert all[0] == SystemEntry(system) && all[1..] == ws && {} + CallIds(all[0]) == {};
    }
  }

  lemma {:induction false} SameShapeResults(a: seq<Message>, b: seq<Message>)
    requires |a| == |b| && forall i :: 0 <= i < |b| ==> KeepsShape(a[i], b[i])
    ensures SameResultIds(Results(a), Results(b))
    decreases |a|
  {
    if a != [] {
      assert KeepsShape(a[0], b[0]);
      SameFrameResults(a[0].content, b[0].content);
      forall i | 0 <= i < |b| - 1 ensures KeepsShape(a[1..][i], b[1..][i]) {
        assert KeepsShape(a[i + 1], b[i + 1]);
      }
      SameShapeResults(a[1..], b[1..]);
    }
  }

  lemma {:induction false} SameFrameResults(a: seq<Block>, b: seq<Block>)
    requires |a| == |b| && forall i :: 0 <= i < |b| ==> SameFrame(a[i], b[i])
    ensures SameResultIds(ResultsIn(a), ResultsIn(b))
    decreases |a|
  {
    if a != [] {
      assert SameFrame(a[0], b[0]);
      forall i | 0 <= i < |b| - 1 ensures SameFrame(a[1..][i], b[1..][i]) {
        assert SameFrame(a[i + 1], b[i + 1]);
      }
      SameFrameResults(a[1..], b[1..]);
    }
  }
}
