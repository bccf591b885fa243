/** Whitespace at the end of a block that changes what stripping leaves does make the two SSE
    parsers differ. */
module SseHarm {
  import opened SeqFacts
  import opened Text
  import opened Sse
  import opened SseLines
  import opened SseBlockEnds
  import opened SseAgreement

  // ---- payloads tell blocks apart ----

  predicate NoFeeds(ls: seq<string>) {
    forall i :: 0 <= i < |ls| ==> '\n' !in ls[i]
  }

  lemma {:induction false} LinesHaveNoFeed(s: string)
    ensures NoFeeds(Lines(s))
    decreases |s|
  {
    if s != [] {
      LinesHaveNoFeed(if Break(s) > 0 then s[Break(s)..] else s[1..]);
    }
  }

  lemma {:induction false} DataHasNoFeed(ls: seq<string>)
    requires NoFeeds(ls)
    ensures NoFeeds(DataOf(ls))
    decreases |ls|
  {
    if ls != [] {
      assert '\n' !in ls[0];
      DataHasNoFeed(ls[1..]);
    }
  }

  lemma {:induction false} JoinIsOneToOne(a: seq<string>, b: seq<string>)
    requires a != [] && b != [] && NoFeeds(a) && NoFeeds(b) && Join(a) == Join(b)
    ensures a == b
    decreases |a|
  {
    JoinStarts(a);
    JoinStarts(b);
    var s := Join(a);
    assert s[..|a[0]|] == a[0] && s[..|b[0]|] == b[0];
    assert forall i :: 0 <= i < |a[0]| ==> s[i] == a[0][i] != '\n';
    assert forall i :: 0 <= i < |b[0]| ==> s[i] == b[0][i] != '\n';
    assert |a[0]| == |b[0]|;
    if |a| > 1 && |b| > 1 {
      assert s[|a[0]| + 1..] == Join(a[1..]) && s[|b[0]| + 1..] == Join(b[1..]);
      JoinIsOneToOne(a[1..], b[1..]);
      assert a == [a[0]] + a[1..] && b == [b[0]] + b[1..];
    }
  }

  lemma JoinStarts(a: seq<string>)
    requires a != []
    ensures var s := Join(a);
      |a[0]| <= |s| && s[..|a[0]|] == a[0] && (|s| == |a[0]| <==> |a| == 1)
      && (|a| > 1 ==> s[|a[0]|] == '\n' && s[|a[0]| + 1..] == Join(a[1..]))
  {
  }

  // ---- the first harmful block shows ----

  /** A block in which stripping uncovers an end marker, before any other marker. */
  predicate MarkerAppears(lbs: seq<seq<string>>) {
    lbs != [] && !HasMarker(lbs[0]) && (HasMarker(Stripped(lbs[0])) || MarkerAppears(lbs[1..]))
  }

  predicate AllFlush(lbs: seq<seq<string>>) {
    forall i :: 0 <= i < |lbs| ==> IsFlush(lbs[i])
  }

  ghost predicate FeedFree(lbs: seq<seq<string>>) {
    forall i :: 0 <= i < |lbs| ==> NoFeeds(lbs[i]) && NoFeeds(Stripped(lbs[i]))
  }

  /** The payloads of a first block without a marker, and of the others. */
  lemma FirstPayload(lbs: seq<seq<string>>)
    requires lbs != []
    ensures Payloads(lbs) == if HasMarker(lbs[0]) then [] else Payload(DataOf(lbs[0])) + Payloads(lbs[1..])
    ensures StrippedBlocks(lbs) != [] && StrippedBlocks(lbs)[0] == Stripped(lbs[0])
    ensures StrippedBlocks(lbs)[1..] == StrippedBlocks(lbs[1..])
  {
    CollectMeans(lbs[0], []);
    assert [] + DataOf(lbs[0]) == DataOf(lbs[0]);
  }

  lemma PayloadIsOneToOne(ls: seq<string>)
    requires NoFeeds(ls) && NoFeeds(Stripped(ls)) && !HasMarker(ls) && !HasMarker(Stripped(ls))
    ensures Payload(DataOf(ls)) == Payload(DataOf(Stripped(ls))) <==> EndsAreHarmless(ls)
  {
    var s := Stripped(ls);
    hide DataOf, HasMarker, Stripped, EndsAreHarmless, NoFeeds, Join;
    HarmlessExactly(ls);
    CollectMeans(ls, []);
    CollectMeans(s, []);
    assert [] + DataOf(ls) == DataOf(ls) && [] + DataOf(s) == DataOf(s);
    DataHasNoFeed(ls);
    DataHasNoFeed(s);
    if DataOf(ls) != [] && DataOf(s) != [] && Join(DataOf(ls)) == Join(DataOf(s)) {
      JoinIsOneToOne(DataOf(ls), DataOf(s));
    }
  }

  lemma {:induction false} HarmShowsWithoutMarker(lbs: seq<seq<string>>)
    requires FeedFree(lbs) && !MarkerAppears(lbs)
    ensures |Payloads(lbs)| <= |Payloads(StrippedBlocks(lbs))|
    ensures Payloads(StrippedBlocks(lbs)) == Payloads(lbs) ==> BlocksAreHarmless(lbs)
    decreases |lbs|
  {
    if lbs != [] {
      var ls, sbs := lbs[0], StrippedBlocks(lbs);
      assert NoFeeds(ls) && NoFeeds(Stripped(ls));
      FirstPayload(lbs);
      FirstPayload(sbs);
      NeverFewer(ls);
      MarkerIsHarmless(ls);
      if !HasMarker(ls) {
        hide Stripped, DataOf, HasMarker, NoFeeds, Trim, Join, Collect;
        HarmShowsWithoutMarker(lbs[1..]);
        PayloadIsOneToOne(ls);
        SplitPayloads(DataOf(ls), Payloads(lbs[1..]), DataOf(Stripped(ls)), Payloads(sbs[1..]));
      }
    }
  }

  lemma SplitPayloads(p: seq<string>, ps: seq<string>, q: seq<string>, qs: seq<string>)
    requires |p| <= |q| && |ps| <= |qs|
    ensures |Payload(p) + ps| <= |Payload(q) + qs|
    ensures Payload(p) + ps == Payload(q) + qs ==> Payload(p) == Payload(q) && ps == qs
  {
    var a, b := Payload(p), Payload(q);
    if a + ps == b + qs {
      assert (a + ps)[..|a|] == a && (b + qs)[..|b|] == b;
      assert (a + ps)[|a|..] == ps && (b + qs)[|b|..] == qs;
    }
  }

  lemma {:induction false} HarmShowsWhenFlush(lbs: seq<seq<string>>)
    requires FeedFree(lbs) && AllFlush(lbs)
    ensures Payloads(StrippedBlocks(lbs)) == Payloads(lbs) ==> BlocksAreHarmless(lbs)
    decreases |lbs|
  {
    if lbs != [] {
      var ls, sbs := lbs[0], StrippedBlocks(lbs);
      assert NoFeeds(ls) && NoFeeds(Stripped(ls)) && IsFlush(ls);
      hide Stripped, DataOf, HasMarker, NoFeeds, Trim, Join, Collect, IsFlush, Payload, EndsAreHarmless, StrippedBlocks;
      HarmShowsWhenFlush(lbs[1..]);
      FirstPayload(lbs);
      FirstPayload(sbs);
      if Payloads(sbs) == Payloads(lbs) {
        FirstHarmShows(ls, Payloads(lbs[1..]), Payloads(sbs[1..]));
      }
    }
  }

  /** A block that is not indented and not harmless leads to different payloads. */
  lemma FirstHarmShows(ls: seq<string>, ps: seq<string>, qs: seq<string>)
    requires IsFlush(ls) && NoFeeds(ls) && NoFeeds(Stripped(ls))
    requires (if HasMarker(Stripped(ls)) then [] else Payload(DataOf(Stripped(ls))) + qs)
          == (if HasMarker(ls) then [] else Payload(DataOf(ls)) + ps)
    ensures EndsAreHarmless(ls)
    ensures !HasMarker(ls) ==> ps == qs
  {
    hide Stripped, DataOf, HasMarker, NoFeeds, Join, IsFlush, EndsAreHarmless, Payload;
    FlushBlock(ls);
    NeverFewer(ls);
    MarkerIsHarmless(ls);
    if HasMarker(Stripped(ls)) {
      SomePayload(DataOf(ls), ps);
    } else {
      PayloadIsOneToOne(ls);
      SamePayloads(DataOf(ls), ps, DataOf(Stripped(ls)), qs);
    }
  }

  lemma SomePayload(p: seq<string>, ps: seq<string>)
    ensures p != [] ==> Payload(p) + ps != []
  {
  }

  lemma MarkerIsHarmless(ls: seq<string>)
    ensures HasMarker(ls) ==> EndsAreHarmless(ls)
    ensures EndsAreHarmless(ls) ==> (HasMarker(Stripped(ls)) <==> HasMarker(ls))
  {
    TrimKeeps(ls);
    hide Stripped, DataOf, HasMarker, Trim, Collect;
    HarmlessExactly(ls);
    CollectMeans(ls, []);
    CollectMeans(Stripped(ls), []);
  }

  lemma SamePayloads(p: seq<string>, ps: seq<string>, q: seq<string>, qs: seq<string>)
    requires |p| == |q| && Payload(p) + ps == Payload(q) + qs
    ensures Payload(p) == Payload(q) && ps == qs
  {
    var a, b := Payload(p), Payload(q);
    assert (a + ps)[..|a|] == a && (b + qs)[..|b|] == b;
    assert (a + ps)[|a|..] == ps && (b + qs)[|b|..] == qs;
  }

  lemma BlocksAreFeedFree(raw: string)
    ensures FeedFree(LineBlocks(Lines(raw)))
  {
    var bs, lbs := Blocks(raw), LineBlocks(Lines(raw));
    BlocksAreLineBlocks(raw);
    forall i | 0 <= i < |lbs| ensures NoFeeds(lbs[i]) && NoFeeds(Stripped(lbs[i])) {
      LinesHaveNoFeed(bs[i]);
      LinesHaveNoFeed(Strip(bs[i]));
      StripOnLines(bs[i]);
    }
  }

  /** If stripping uncovers no end marker, or no block is indented, the parsers agree under every
      decoder exactly when every block up to the end marker is harmless. */
  lemma HarmlessIsNeeded(raw: string)
    requires !MarkerAppears(LineBlocks(Lines(raw))) || AllFlush(LineBlocks(Lines(raw)))
    ensures AgreeUnderEveryDecoder(raw) <==> BlocksAreHarmless(LineBlocks(Lines(raw)))
  {
    var lbs := LineBlocks(Lines(raw));
    AgreeExactly(raw);
    BlocksAreFeedFree(raw);
    if BlocksAreHarmless(lbs) {
      HarmlessPayloads(lbs);
    } else if MarkerAppears(lbs) {
      HarmShowsWhenFlush(lbs);
    } else {
      HarmShowsWithoutMarker(lbs);
    }
  }

  // ---- an indented block before an uncovered marker ----

  predicate IsPlain(s: string) {
    s != [] && '\n' !in s && s[|s| - 1] != '\r'
  }

  lemma TwoBlocks(a: string, b: string, c: string)
    requires a != [] && b != [] && c != []
    ensures LineBlocks([a, b, [], c]) == [[a, b], [c]]
  {
    var ls := [a, b, [], c];
    var later := ls[1..];
    assert later == [b, [], c] && later[2..] == [c];
    var rest := LineBlocks(later);
    assert rest == [[b]] + LineBlocks([c]) == [[b], [c]];
    assert [a] + rest[0] == [a, b] && rest[1..] == [[c]];
  }

  lemma NoBlankEnds(ls: seq<string>)
    requires ls != [] && !IsBlank(ls[0]) && !IsBlank(ls[|ls| - 1])
    ensures Trim(ls) == ls
  {
  }

  /** What the parsers make of `data: [DONE] ` with whitespace around it. */
  lemma SpacedMarker(line: string)
    requires line == "data: [DONE] "
    ensures Effect(line) == Data("[DONE] ") && Effect([' '] + line) == Ignored
    ensures StripLeft(line) == line && StripLeft([' '] + line) == line && Effect(Strip(line)) == Done
    ensures IsPlain(line) && IsPlain([' '] + line)
  {
    assert line[0] == 'd' && line[|line| - 1] == ' ' && '\n' !in line;
    SpacesAround(line);
    MarkerStripped(line);
    MarkerRead(line);
    hide *;
  }

  lemma MarkerRead(line: string)
    requires line == "data: [DONE] "
    ensures Effect(line) == Data("[DONE] ")
    ensures IsPlain(line) && IsPlain([' '] + line)
  {
    assert line[..5] == "data:" && line[6..] == "[DONE] ";
    PlainBehindSpace(line);
  }

  lemma PlainBehindSpace(line: string)
    requires IsPlain(line)
    ensures IsPlain([' '] + line)
  {
    var s := [' '] + line;
    assert s[|s| - 1] == line[|line| - 1];
  }

  lemma SpacesAround(line: string)
    requires line != [] && line[0] == 'd'
    ensures StripLeft(line) == line && StripLeft([' '] + line) == line && Effect([' '] + line) == Ignored
  {
    assert ([' '] + line)[1..] == line;
    IndentedIsIgnored([' '] + line);
  }

  lemma MarkerStripped(line: string)
    requires line == "data: [DONE] "
    ensures StripRight(line) == "data: [DONE]" && Effect("data: [DONE]") == Done
  {
    var marker := "data: [DONE]";
    assert line[..|line| - 1] == marker && StripRight(marker) == marker;
    assert marker[..5] == "data:" && marker[6..] == "[DONE]";
  }

  /** Two lines, a blank line, and one more. */
  function TwoThenOne(a: string, b: string, c: string): string {
    a + "\n" + (b + "\n" + ("" + "\n" + c))
  }

  lemma BlocksOfThree(a: string, b: string, c: string)
    requires IsPlain(a) && IsPlain(b) && IsPlain(c)
    ensures LineBlocks(Lines(TwoThenOne(a, b, c))) == [[a, b], [c]]
  {
    hide LineBlocks, Lines;
    LineThenRest("", c);
    LineThenRest(b, "" + "\n" + c);
    LineThenRest(a, b + "\n" + ("" + "\n" + c));
    OneLine(c);
    assert Lines(TwoThenOne(a, b, c)) == [a, b, "", c];
    TwoBlocks(a, b, c);
  }

  /** Both at once can cancel out: the first block's indented line is data to the whole-text
      parser only, the second block's line is the marker to it and the same data to the other. */
  lemma HarmCanCancel(raw: string)
    requires raw == TwoThenOne([' '] + "data: [DONE] ", ":", "data: [DONE] ")
    ensures AgreeUnderEveryDecoder(raw) && !BlocksAreHarmless(LineBlocks(Lines(raw)))
  {
    SpacedMarker("data: [DONE] ");
    hide *;
    CancelAround([' '] + "data: [DONE] ", "data: [DONE] ");
  }

  lemma CancelAround(a: string, b: string)
    requires IsPlain(a) && IsPlain(b)
    requires Effect(a) == Ignored && StripLeft(a) == b && Effect(b) == Data("[DONE] ")
    requires StripLeft(b) == b && Effect(Strip(b)) == Done
    ensures var raw := TwoThenOne(a, ":", b);
      AgreeUnderEveryDecoder(raw) && !BlocksAreHarmless(LineBlocks(Lines(raw)))
  {
    var raw := TwoThenOne(a, ":", b);
    BlocksOfThree(a, ":", b);
    hide Lines, LineBlocks, Effect, StripLeft, Strip;
    FirstCancels(a, b);
    SecondCancels(b);
    Cancel([a, ":"], [b]);
    AgreeExactly(raw);
  }

  lemma FirstCancels(a: string, b: string)
    requires a != [] && Effect(a) == Ignored && StripLeft(a) == b != []
    requires Effect(b) == Data("[DONE] ") && StripLeft(b) == b
    ensures !HasMarker([a, ":"]) && DataOf([a, ":"]) == []
    ensures var s := Stripped([a, ":"]); !HasMarker(s) && DataOf(s) == ["[DONE] "]
  {
    var ls := [a, ":"];
    assert Effect(":") == Ignored && StripRight(":") == ":" && StripLeft(":") == ":";
    NoBlankEnds(ls);
    StrippedShape(ls);
    hide StripLeft, StripRight, Effect, Trim, Stripped, DataOf, HasMarker;
    EndsAndMiddle(a, [], ":");
    EndsAndMiddle(b, [], ":");
    assert ls == [a] + [] + [":"] && Stripped(ls) == [b] + [] + [":"];
    assert DataOf([]) == [] && !HasMarker([]);
  }

  lemma SecondCancels(b: string)
    requires Effect(b) == Data("[DONE] ") && StripLeft(b) == b != [] && Effect(Strip(b)) == Done
    ensures !HasMarker([b]) && DataOf([b]) == ["[DONE] "] && HasMarker(Stripped([b]))
  {
    NoBlankEnds([b]);
    StrippedShape([b]);
    OneLineData(b);
    OneLineData(Strip(b));
  }

  lemma Cancel(x: seq<string>, y: seq<string>)
    requires !HasMarker(x) && DataOf(x) == [] && !HasMarker(Stripped(x)) && DataOf(Stripped(x)) == ["[DONE] "]
    requires !HasMarker(y) && DataOf(y) == ["[DONE] "] && HasMarker(Stripped(y))
    ensures Payloads([x, y]) == Payloads(StrippedBlocks([x, y])) && !BlocksAreHarmless([x, y])
  {
    var lbs := [x, y];
    var sbs := StrippedBlocks(lbs);
    assert lbs[1..] == [y] && [y][1..] == [];
    HarmlessExactly(x);
    CollectMeans(x, []);
    CollectMeans(Stripped(x), []);
    hide Stripped, DataOf, HasMarker, EndsAreHarmless, Collect;
    FirstPayload(lbs);
    FirstPayload([y]);
    FirstPayload(sbs);
    FirstPayload(sbs[1..]);
    assert Join(["[DONE] "]) == "[DONE] ";
  }
}
