/** What a server sends as events is what the parsers hand on. */
module SseRoundTrip {
  import opened Text
  import opened Sse
  import opened SseLines
  import opened SseBlockEnds
  import opened SseAgreement

  /** The lines of one event: a `data` field for every line of its payload, then a blank line. */
  function EventLines(payload: seq<string>): (ls: seq<string>)
    ensures ls != []
  {
    if payload == [] then [""] else ["data: " + payload[0]] + EventLines(payload[1..])
  }

  function StreamLines(payloads: seq<seq<string>>): seq<string> {
    if payloads == [] then [] else EventLines(payloads[0]) + StreamLines(payloads[1..])
  }

  /** One event per payload, its lines joined by line feeds; payloads that are not JSON, or
      null, give none. */
  function Expected<J>(payloads: seq<seq<string>>, decode: string -> Decoded<J>): seq<Event<J>> {
    if payloads == [] then [] else EmitLive(payloads[0], decode) + Expected(payloads[1..], decode)
  }

  predicate NoMarker(payload: seq<string>) {
    forall i :: 0 <= i < |payload| ==> payload[i] != "[DONE]"
  }

  /** How a field line is read: one space after the colon is optional. */
  lemma FieldLine(value: string)
    ensures value != "[DONE]" ==> Effect("data: " + value) == Data(value)
    ensures value != "[DONE]" && (value == [] || value[0] != ' ') ==> Effect("data:" + value) == Data(value)
    ensures Effect(":" + value) == Ignored && Effect("event:" + value) == Ignored
    ensures Effect("id:" + value) == Ignored && Effect("retry:" + value) == Ignored
  {
    var spaced, tight := "data: " + value, "data:" + value;
    assert spaced[..5] == "data:" && spaced[5] == ' ' && spaced[6..] == value;
    assert tight[..5] == "data:" && tight[5..] == value;
    assert ("event:" + value)[0] == 'e' && ("id:" + value)[0] == 'i' && ("retry:" + value)[0] == 'r';
    assert "data:"[0] == 'd';
  }

  lemma MarkerLine()
    ensures Effect("data: [DONE]") == Done && Effect("data:[DONE]") == Done
  {
    assert "data: [DONE]"[..5] == "data:" && "data: [DONE]"[6..] == "[DONE]";
    assert "data:[DONE]"[..5] == "data:" && "data:[DONE]"[5..] == "[DONE]";
  }

  lemma {:induction false} OneEvent<J>(payload: seq<string>, before: seq<string>, later: seq<string>,
                                       decode: string -> Decoded<J>)
    requires NoMarker(payload)
    ensures Live(EventLines(payload) + later, before, decode)
      == EmitLive(before + payload, decode) + Live(later, [], decode)
    decreases |payload|
  {
    hide Effect, EmitLive;
    var all := EventLines(payload) + later;
    if payload == [] {
      assert all[0] == [] && all[1..] == later && before + payload == before;
    } else {
      var line := "data: " + payload[0];
      assert all[0] == line && all[1..] == EventLines(payload[1..]) + later;
      FieldLine(payload[0]);
      OneEvent(payload[1..], before + [payload[0]], later, decode);
      assert before + [payload[0]] + payload[1..] == before + payload;
    }
  }

  /** Sent events arrive, in order and once each; nothing after the end marker does. */
  lemma {:induction false} SentEventsArrive<J>(payloads: seq<seq<string>>, after: seq<string>,
                                               decode: string -> Decoded<J>)
    requires forall i :: 0 <= i < |payloads| ==> NoMarker(payloads[i])
    ensures Live(StreamLines(payloads), [], decode) == Expected(payloads, decode)
    ensures Live(StreamLines(payloads) + (["data: [DONE]"] + after), [], decode) == Expected(payloads, decode)
    decreases |payloads|
  {
    hide Effect, EmitLive, NoMarker;
    var ending := ["data: [DONE]"] + after;
    if payloads == [] {
      MarkerLine();
      EmptyEnd(decode);
      assert StreamLines(payloads) + ending == ending && ending[0] == "data: [DONE]";
    } else {
      var first, rest := payloads[0], StreamLines(payloads[1..]);
      SentEventsArrive(payloads[1..], after, decode);
      assert NoMarker(first);
      OneEvent(first, [], rest, decode);
      OneEvent(first, [], rest + ending, decode);
      assert [] + first == first;
      assert EventLines(first) + rest + ending == EventLines(first) + (rest + ending);
    }
  }

  lemma EmptyEnd<J>(decode: string -> Decoded<J>)
    ensures Live([], [], decode) == []
  {
  }

  // ---- the whole-text parser ----

  /** A line that the parsers read as it stands: empty, or with no whitespace in front of it, and
      none behind it when it is the last of its block. */
  predicate IsSafe(ls: seq<string>, i: nat)
    requires i < |ls|
  {
    ls[i] == [] || (!IsSpace(ls[i][0])
      && (i + 1 == |ls| || ls[i + 1] == [] ==> Effect(StripRight(ls[i])) == Effect(ls[i])))
  }

  predicate AllSafe(ls: seq<string>) {
    forall i :: 0 <= i < |ls| ==> IsSafe(ls, i)
  }

  lemma {:induction false} TrimStartIsSuffix(ls: seq<string>)
    ensures var t := TrimStart(ls);
      |t| <= |ls| && t == ls[|ls| - |t|..]
    decreases |ls|
  {
    if ls != [] && IsBlank(ls[0]) {
      TrimStartIsSuffix(ls[1..]);
    }
  }

  lemma {:induction false} TrimEndIsPrefix(ls: seq<string>)
    ensures var t := TrimEnd(ls);
      |t| <= |ls| && t == ls[..|t|] && (|t| < |ls| ==> IsBlank(ls[|t|]))
    decreases |ls|
  {
    if ls != [] && IsBlank(ls[|ls| - 1]) {
      TrimEndIsPrefix(ls[..|ls| - 1]);
    }
  }

  lemma SafeIsHarmless(ls: seq<string>)
    requires AllSafe(ls)
    ensures EndsAreHarmless(ls)
  {
    var t, v := TrimStart(ls), Trim(ls);
    TrimStartIsSuffix(ls);
    TrimEndIsPrefix(t);
    assert v == TrimEnd(t);
    hide Trim, TrimStart, TrimEnd, Effect, StripRight;
    if v != [] {
      var first := |ls| - |t|;
      var last := first + |v| - 1;
      assert v[0] == ls[first] && v[|v| - 1] == ls[last];
      assert last + 1 < |ls| ==> ls[last + 1] == t[|v|];
      assert IsSafe(ls, first) && IsSafe(ls, last);
      assert last + 1 < |ls| ==> IsSafe(ls, last + 1);
    }
  }

  lemma {:induction false} SafeBlocks(ls: seq<string>)
    requires ls != [] && AllSafe(ls)
    ensures forall b :: b in LineBlocks(ls) ==> AllSafe(b)
    ensures LineBlocks(ls)[0][0] == ls[0]
    decreases |ls|
  {
    hide Effect, StripRight;
    if |ls| == 1 {
    } else if |ls| >= 3 && ls[1] == [] {
      assert IsSafe(ls, 0);
      SafeTail(ls, 2);
      SafeBlocks(ls[2..]);
      assert LineBlocks(ls) == [[ls[0]]] + LineBlocks(ls[2..]);
    } else {
      SafeTail(ls, 1);
      SafeBlocks(ls[1..]);
      var rest := LineBlocks(ls[1..]);
      assert rest[0] in rest && IsSafe(ls, 0);
      SafeCons(ls[0], rest[0]);
      forall b | b in LineBlocks(ls) ensures AllSafe(b) {
        assert b == [ls[0]] + rest[0] || b in rest;
      }
    }
  }

  lemma SafeTail(ls: seq<string>, n: nat)
    requires n <= |ls| && AllSafe(ls)
    ensures AllSafe(ls[n..])
  {
    hide Effect, StripRight;
    forall i | 0 <= i < |ls| - n ensures IsSafe(ls[n..], i) {
      assert IsSafe(ls, n + i);
    }
  }

  lemma SafeCons(line: string, ls: seq<string>)
    requires ls != [] && AllSafe(ls) && IsSafe([line] + ls, 0)
    ensures AllSafe([line] + ls)
  {
    hide Effect, StripRight;
    forall i | 0 < i <= |ls| ensures IsSafe([line] + ls, i) {
      assert IsSafe(ls, i - 1);
    }
  }

  lemma {:induction false} SafeBlocksAreHarmless(lbs: seq<seq<string>>)
    requires forall b :: b in lbs ==> AllSafe(b)
    ensures BlocksAreHarmless(lbs)
    decreases |lbs|
  {
    hide AllSafe, EndsAreHarmless, HasMarker;
    if lbs != [] {
      assert lbs[0] in lbs;
      SafeIsHarmless(lbs[0]);
      SafeBlocksAreHarmless(lbs[1..]);
    }
  }

  /** No whitespace at the end of the last line. */
  predicate EndsSolid(payload: seq<string>) {
    payload == [] ||
    var z := payload[|payload| - 1];
    z == [] || !IsSpace(z[|z| - 1])
  }

  lemma DataLineEnds(value: string)
    requires value == [] || !IsSpace(value[|value| - 1])
    ensures var line := "data: " + value;
      !IsSpace(line[0]) && Effect(StripRight(line)) == Effect(line)
  {
    var line := "data: " + value;
    assert line[0] == 'd';
    if value == [] {
      assert line == "data: ";
      EmptyData(line);
    } else {
      assert line[|line| - 1] == value[|value| - 1];
      hide Effect;
    }
  }

  lemma DataLineStarts(value: string)
    ensures !IsSpace(("data: " + value)[0])
  {
    assert ("data: " + value)[0] == 'd';
  }

  lemma EmptyData(line: string)
    requires line == "data: "
    ensures Effect(StripRight(line)) == Effect(line)
  {
    var tight := "data:";
    assert line[..5] == tight && StripRight(tight) == tight;
    assert tight[..5] == tight && tight[5..] == line[6..] == [];
  }

  lemma {:induction false} EventIsSafe(payload: seq<string>, later: seq<string>)
    requires EndsSolid(payload) && AllSafe(later)
    ensures AllSafe(EventLines(payload) + later)
    decreases |payload|
  {
    hide Effect, StripRight;
    var all := EventLines(payload) + later;
    if payload == [] {
      if later == [] {
        assert all == [""];
      } else {
        assert all == [""] + later;
        SafeCons("", later);
      }
    } else {
      var rest := EventLines(payload[1..]) + later;
      EventIsSafe(payload[1..], later);
      DataLineStarts(payload[0]);
      if |payload| == 1 {
        DataLineEnds(payload[0]);
      }
      assert all == ["data: " + payload[0]] + rest;
      EventStarts(payload[1..]);
      SafeCons("data: " + payload[0], rest);
    }
  }

  lemma EventStarts(payload: seq<string>)
    ensures EventLines(payload)[0] == [] <==> payload == []
  {
  }

  lemma {:induction false} SentLinesAreSafe(payloads: seq<seq<string>>)
    requires forall p :: p in payloads ==> EndsSolid(p)
    ensures AllSafe(StreamLines(payloads) + [""])
    decreases |payloads|
  {
    if payloads != [] {
      var rest := StreamLines(payloads[1..]);
      SentLinesAreSafe(payloads[1..]);
      EventIsSafe(payloads[0], rest + [""]);
      assert EventLines(payloads[0]) + rest + [""] == EventLines(payloads[0]) + (rest + [""]);
    }
  }

  lemma {:induction false} EventLinesEnd(payload: seq<string>)
    ensures var ls := EventLines(payload); ls[|ls| - 1] == []
    decreases |payload|
  {
    if payload != [] {
      EventLinesEnd(payload[1..]);
      EventStarts(payload[1..]);
    }
  }

  lemma {:induction false} SentLinesEnd(payloads: seq<seq<string>>)
    ensures var ls := StreamLines(payloads); ls == [] || ls[|ls| - 1] == []
    decreases |payloads|
  {
    if payloads != [] {
      EventLinesEnd(payloads[0]);
      SentLinesEnd(payloads[1..]);
    }
  }

  /** The same for the whole-text parser, which strips whatever whitespace an event ends with. */
  lemma SentTextArrives<J>(raw: string, payloads: seq<seq<string>>, decode: string -> Decoded<J>)
    requires forall p :: p in payloads ==> NoMarker(p) && EndsSolid(p)
    requires WireLines(raw) == StreamLines(payloads)
    ensures DropNull(Batch(raw, decode)) == Expected(payloads, decode)
  {
    hide AllSafe, EndsSolid, Effect, BlocksAreHarmless, Batch, Live, Lines;
    SentLinesAreSafe(payloads);
    SentEventsArrive(payloads, [], decode);
    SentLinesEnd(payloads);
    var ls := Lines(raw);
    assert ls == StreamLines(payloads) + [""];
    SafeBlocks(ls);
    SafeBlocksAreHarmless(LineBlocks(ls));
    ParsersAgree(raw, decode);
  }
}
