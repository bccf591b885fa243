/** What `str.strip` on a whole block does to the message it carries. */
module AnthropicBlockEnds {
  import opened SeqFacts
  import opened Text
  import opened SseLines
  import opened AnthropicStream

  // ---- one line ----

  /** Taking the indentation away changes a line's reading only when the line was ignored. */
  lemma FieldLeft(line: string)
    ensures IsBlank(line) ==> FieldOf(line) == NoField
    ensures FieldOf(line) != NoField ==> StripLeft(line) == line
  {
    if line == [] || IsSpace(line[0]) {
      IndentedIsNoField(line);
    }
  }

  lemma IndentedIsNoField(line: string)
    requires line == [] || IsSpace(line[0])
    ensures FieldOf(line) == NoField
  {
    assert "data:"[0] == 'd' && "event:"[0] == 'e';
  }

  /** Taking whitespace off the end of a line can only shorten its data. */
  lemma FieldRight(line: string)
    ensures var f, g := FieldOf(line), FieldOf(StripRight(line));
      if f.DataField? then g.DataField? else g == f
  {
    var r := StripRight(line);
    StripRightEnds(line);
    if line != [] && line[0] == ':' {
      assert r[0] == ':';
    } else if |line| >= 6 && line[..6] == "event:" {
      EventRight(line);
    } else if |line| >= 5 && line[..5] == "data:" {
      assert line[4] == "data:"[4] == ':' && line[0] == "data:"[0] == 'd';
      assert r[..5] == line[..5] && r[0] == 'd';
      assert |r| >= 6 ==> r[..6] == line[..6];
    } else {
      assert |r| >= 6 ==> r[..6] == line[..6];
      assert |r| >= 5 ==> r[..5] == line[..5];
      assert |r| >= 1 ==> r[0] == line[0];
    }
  }

  lemma EventRight(line: string)
    requires |line| >= 6 && line[..6] == "event:"
    ensures FieldOf(StripRight(line)) == FieldOf(line)
  {
    var r := StripRight(line);
    StripRightEnds(line);
    assert line[5] == "event:"[5] == ':' && line[0] == "event:"[0] == 'e';
    assert r[..6] == line[..6];
    assert line == "event:" + line[6..];
    StripRightOfSuffix("event:", line[6..]);
    assert r[6..] == StripRight(line[6..]);
    StripAfterRight(line[6..]);
  }

  lemma {:induction false} StripRightOfSuffix(a: string, b: string)
    requires a != [] && !IsSpace(a[|a| - 1])
    ensures StripRight(a + b) == a + StripRight(b)
    decreases |b|
  {
    if b == [] {
      assert a + b == a;
    } else {
      var s := a + b;
      assert s[|s| - 1] == b[|b| - 1] && s[..|s| - 1] == a + b[..|b| - 1];
      StripRightOfSuffix(a, b[..|b| - 1]);
    }
  }

  lemma {:induction false} StripAfterRight(s: string)
    ensures Strip(StripRight(s)) == Strip(s)
    decreases |s|
  {
    if s != [] {
      var n := |s| - 1;
      if IsSpace(s[n]) {
        StripAfterRight(s[..n]);
        StripOfSnoc(s[..n], s[n]);
        assert s == s[..n] + [s[n]];
      }
    }
  }

  lemma {:induction false} StripOfSnoc(s: string, c: char)
    requires IsSpace(c)
    ensures Strip(s + [c]) == Strip(s)
    decreases |s|
  {
    if s == [] {
      assert s + [c] == [c] && [c][1..] == [];
    } else if IsSpace(s[0]) {
      assert (s + [c])[1..] == s[1..] + [c];
      StripOfSnoc(s[1..], c);
    } else {
      assert (s + [c])[..|s|] == s;
    }
  }

  // ---- reading a block in pieces ----

  function Texts(f: Field): seq<string> {
    if f.DataField? then [f.text] else []
  }

  function PartsIn(ls: seq<string>): seq<string> {
    if ls == [] then [] else Texts(FieldOf(ls[0])) + PartsIn(ls[1..])
  }

  function Renamed(f: Field, name: string): string {
    if f.EventField? then f.name else name
  }

  /** The last event name, or `name` when no line gives one. */
  function NameIn(ls: seq<string>, name: string): string {
    if ls == [] then name else NameIn(ls[1..], Renamed(FieldOf(ls[0]), name))
  }

  lemma {:induction false} GatherMeans(ls: seq<string>, f: Fields)
    ensures Gather(ls, f) == Fields(NameIn(ls, f.eventType), f.parts + PartsIn(ls))
    decreases |ls|
  {
    hide FieldOf;
    if ls == [] {
      assert f.parts + [] == f.parts;
    } else {
      var g := FieldOf(ls[0]);
      GatherMeans(ls[1..], AddLine(f, ls[0]));
      assert AddLine(f, ls[0]) == Fields(Renamed(g, f.eventType), f.parts + Texts(g)) by {
        assert f.parts + [] == f.parts;
      }
      TakeSome(f.parts, Texts(g), PartsIn(ls[1..]));
    }
  }

  lemma {:induction false} PiecesAppend(a: seq<string>, b: seq<string>, name: string)
    ensures PartsIn(a + b) == PartsIn(a) + PartsIn(b)
    ensures NameIn(a + b, name) == NameIn(b, NameIn(a, name))
    decreases |a|
  {
    hide FieldOf;
    if a == [] {
      assert a + b == b && [] + PartsIn(b) == PartsIn(b);
    } else {
      assert (a + b)[1..] == a[1..] + b && (a + b)[0] == a[0];
      PiecesAppend(a[1..], b, Renamed(FieldOf(a[0]), name));
      TakeSome(Texts(FieldOf(a[0])), PartsIn(a[1..]), PartsIn(b));
    }
  }

  lemma OnePiece(line: string, name: string)
    ensures PartsIn([line]) == Texts(FieldOf(line)) && NameIn([line], name) == Renamed(FieldOf(line), name)
  {
    hide FieldOf;
    assert [line][1..] == [] && Texts(FieldOf(line)) + [] == Texts(FieldOf(line));
  }

  predicate HasEvent(ls: seq<string>) {
    exists i :: 0 <= i < |ls| && FieldOf(ls[i]).EventField?
  }

  lemma {:induction false} NameMatters(ls: seq<string>, a: string, b: string)
    ensures NameIn(ls, a) == NameIn(ls, b) <==> HasEvent(ls) || a == b
    decreases |ls|
  {
    hide FieldOf;
    if ls != [] {
      var f := FieldOf(ls[0]);
      NameMatters(ls[1..], Renamed(f, a), Renamed(f, b));
      assert HasEvent(ls) <==> f.EventField? || HasEvent(ls[1..]) by { EventStep(ls); }
    }
  }

  lemma EventStep(ls: seq<string>)
    requires ls != []
    ensures HasEvent(ls) <==> FieldOf(ls[0]).EventField? || HasEvent(ls[1..])
  {
    hide FieldOf;
    forall i | 0 < i < |ls| ensures ls[i] == ls[1..][i - 1] {
    }
    if HasEvent(ls[1..]) {
      var j :| 0 <= j < |ls[1..]| && FieldOf(ls[1..][j]).EventField?;
      assert FieldOf(ls[j + 1]).EventField?;
    }
  }

  lemma {:induction false} TrimStartKeeps(ls: seq<string>, name: string)
    ensures PartsIn(TrimStart(ls)) == PartsIn(ls) && NameIn(TrimStart(ls), name) == NameIn(ls, name)
    decreases |ls|
  {
    if ls != [] && IsBlank(ls[0]) {
      FieldLeft(ls[0]);
      hide FieldOf, IsBlank;
      TrimStartKeeps(ls[1..], name);
      assert [] + PartsIn(ls[1..]) == PartsIn(ls[1..]);
    }
  }

  lemma {:induction false} TrimEndKeeps(ls: seq<string>, name: string)
    ensures PartsIn(TrimEnd(ls)) == PartsIn(ls) && NameIn(TrimEnd(ls), name) == NameIn(ls, name)
    decreases |ls|
  {
    var n := |ls| - 1;
    if ls != [] && IsBlank(ls[n]) {
      hide IsBlank, PartsIn, NameIn;
      TrimEndKeeps(ls[..n], name);
      BlankAtEnd(ls, name);
    }
  }

  lemma BlankAtEnd(ls: seq<string>, name: string)
    requires ls != [] && IsBlank(ls[|ls| - 1])
    ensures var shorter := ls[..|ls| - 1];
      PartsIn(ls) == PartsIn(shorter) && NameIn(ls, name) == NameIn(shorter, name)
  {
    var n := |ls| - 1;
    FieldLeft(ls[n]);
    hide FieldOf, IsBlank, PartsIn, NameIn;
    PiecesAppend(ls[..n], [ls[n]], name);
    OnePiece(ls[n], NameIn(ls[..n], name));
    assert ls == ls[..n] + [ls[n]];
    assert PartsIn(ls[..n]) + [] == PartsIn(ls[..n]);
  }

  lemma TrimKeeps(ls: seq<string>, name: string)
    ensures PartsIn(Trim(ls)) == PartsIn(ls) && NameIn(Trim(ls), name) == NameIn(ls, name)
  {
    TrimStartKeeps(ls, name);
    TrimEndKeeps(TrimStart(ls), name);
  }

  // ---- when stripping changes nothing ----

  /** The same data, and the same event name if there are any. */
  predicate SameMessage(f: Fields, g: Fields) {
    f.parts == g.parts && (f.parts == [] || f.eventType == g.eventType)
  }

  /** An event name at the start of a block that makes no difference: it is empty, a later line
      gives another one, or the block has no data. */
  predicate NameIsIdle(name: string, later: seq<string>) {
    name == "" || HasEvent(later) || PartsIn(later) == []
  }

  /** A block whose message stripping does not change: the last visible line reads the same
      without the whitespace at its end, and so does the first without its indentation, unless
      it turns out to be an event name that makes no difference. */
  predicate EndsKeepMessage(ls: seq<string>) {
    var v := Trim(ls);
    v == [] ||
    if |v| == 1 then FieldOf(Strip(v[0])) == FieldOf(v[0]) || FieldOf(Strip(v[0])).EventField?
    else
      var first, last := FieldOf(StripLeft(v[0])), v[|v| - 1];
      && FieldOf(StripRight(last)) == FieldOf(last)
      && (first == FieldOf(v[0]) || (first.EventField? && NameIsIdle(first.name, v[1..])))
  }

  lemma EndsAndMiddle(a: string, mid: seq<string>, z: string)
    ensures var v := [a] + mid + [z];
      && PartsIn(v) == Texts(FieldOf(a)) + PartsIn(mid + [z])
      && PartsIn(mid + [z]) == PartsIn(mid) + Texts(FieldOf(z))
      && NameIn(v, "") == NameIn(mid + [z], Renamed(FieldOf(a), ""))
  {
    hide FieldOf, PartsIn, NameIn;
    assert [a] + mid + [z] == [a] + (mid + [z]);
    PiecesAppend([a], mid + [z], "");
    PiecesAppend(mid, [z], "");
    OnePiece(a, "");
    OnePiece(z, "");
  }

  /** A last line that shortens changes the data; an event name there is kept. */
  lemma SameRest(mid: seq<string>, z: string, name: string)
    ensures NameIn(mid + [StripRight(z)], name) == NameIn(mid + [z], name)
    ensures |PartsIn(mid + [StripRight(z)])| == |PartsIn(mid + [z])|
    ensures PartsIn(mid + [StripRight(z)]) == PartsIn(mid + [z]) <==> FieldOf(StripRight(z)) == FieldOf(z)
  {
    FieldRight(z);
    hide FieldOf, PartsIn, NameIn, StripRight;
    var r := StripRight(z);
    PiecesAppend(mid, [z], name);
    PiecesAppend(mid, [r], name);
    OnePiece(z, NameIn(mid, name));
    OnePiece(r, NameIn(mid, name));
    var a, b := PartsIn(mid + [z]), PartsIn(mid + [r]);
    assert FieldOf(z).DataField? ==> a[|a| - 1] == FieldOf(z).text && b[|b| - 1] == FieldOf(r).text;
  }

  /** `a` and `b` are the first line's readings with its indentation and without. */
  lemma FirstAndRest(a: Field, b: Field, mid: seq<string>, z: string)
    requires a != NoField ==> b == a
    ensures var before, after := mid + [z], mid + [StripRight(z)];
      SameMessage(Fields(NameIn(after, Renamed(b, "")), Texts(b) + PartsIn(after)),
                  Fields(NameIn(before, Renamed(a, "")), Texts(a) + PartsIn(before)))
      <==> FieldOf(StripRight(z)) == FieldOf(z) && (b == a || (b.EventField? && NameIsIdle(b.name, before)))
  {
    var before, after := mid + [z], mid + [StripRight(z)];
    SameRest(mid, z, Renamed(b, ""));
    hide FieldOf, PartsIn, NameIn, HasEvent, StripRight;
    var p, q := PartsIn(before), PartsIn(after);
    assert Texts(a) + p == Texts(b) + q ==> |Texts(a)| == |Texts(b)|;
    assert |Texts(a)| == |Texts(b)| ==> Texts(a) == Texts(b);
    assert Texts(a) == Texts(b) ==> (Texts(a) + p == Texts(b) + q <==> p == q) by {
      assert (Texts(a) + p)[|Texts(a)|..] == p && (Texts(b) + q)[|Texts(b)|..] == q;
    }
    NameMatters(before, Renamed(b, ""), Renamed(a, ""));
  }

  lemma GatherAll(ls: seq<string>)
    ensures Gather(ls, NO_FIELDS) == Fields(NameIn(ls, ""), PartsIn(ls))
  {
    GatherMeans(ls, NO_FIELDS);
    assert [] + PartsIn(ls) == PartsIn(ls);
  }

  lemma WideEnds(ls: seq<string>)
    requires IsWide(ls)
    ensures var e := EndsOf(ls);
      var first, last := FieldOf(StripLeft(e.first)), FieldOf(StripRight(e.last));
      EndsKeepMessage(ls) <==>
      last == FieldOf(e.last)
      && (first == FieldOf(e.first) || (first.EventField? && NameIsIdle(first.name, e.middle + [e.last])))
  {
    hide Trim, FieldOf, StripLeft, StripRight, NameIsIdle;
    var v, e := Trim(ls), EndsOf(ls);
    assert v[1..] == e.middle + [e.last];
  }

  lemma WideKept(ls: seq<string>)
    requires IsWide(ls)
    ensures SameMessage(Gather(Stripped(ls), NO_FIELDS), Gather(ls, NO_FIELDS)) <==> EndsKeepMessage(ls)
  {
    var e := EndsOf(ls);
    hide EndsOf, IsWide, FieldOf, Trim, Stripped, PartsIn, NameIn, HasEvent, StripLeft, StripRight, Gather,
         EndsKeepMessage, NameIsIdle;
    GatherAll(ls);
    GatherAll(Stripped(ls));
    TrimKeeps(ls, "");
    WideShape(ls);
    WideEnds(ls);
    FieldLeft(e.first);
    EndsAndMiddle(e.first, e.middle, e.last);
    EndsAndMiddle(StripLeft(e.first), e.middle, StripRight(e.last));
    FirstAndRest(FieldOf(e.first), FieldOf(StripLeft(e.first)), e.middle, e.last);
  }

  lemma NarrowKept(ls: seq<string>)
    requires !IsWide(ls)
    ensures SameMessage(Gather(Stripped(ls), NO_FIELDS), Gather(ls, NO_FIELDS)) <==> EndsKeepMessage(ls)
  {
    var v := Trim(ls);
    GatherAll(ls);
    GatherAll(Stripped(ls));
    TrimKeeps(ls, "");
    StrippedShape(ls);
    hide Trim, Stripped, PartsIn, NameIn, FieldOf, Gather, StripLeft, StripRight, Strip;
    if v == [] {
      NoPieces();
    } else {
      assert v == [v[0]];
      OneKept(v[0]);
      OnePiece(v[0], "");
      OnePiece(Strip(v[0]), "");
    }
  }

  lemma NoPieces()
    ensures PartsIn([]) == PartsIn([[]]) == []
  {
    OnePiece([], "");
  }

  lemma OneKept(a: string)
    ensures var f, g := FieldOf(a), FieldOf(Strip(a));
      && (f.DataField? ==> g.DataField?) && (f.EventField? ==> g == f)
  {
    FieldLeft(a);
    FieldRight(StripLeft(a));
  }

  /** Stripping leaves a block's message unchanged exactly when its ends keep it. */
  lemma KeptExactly(ls: seq<string>)
    ensures SameMessage(Gather(Stripped(ls), NO_FIELDS), Gather(ls, NO_FIELDS)) <==> EndsKeepMessage(ls)
  {
    if IsWide(ls) {
      WideKept(ls);
    } else {
      NarrowKept(ls);
    }
  }

  /** Data that is read before stripping is read afterwards too. */
  lemma NeverFewer(ls: seq<string>)
    ensures Gather(ls, NO_FIELDS).parts != [] ==> Gather(Stripped(ls), NO_FIELDS).parts != []
  {
    GatherAll(ls);
    GatherAll(Stripped(ls));
    TrimKeeps(ls, "");
    StrippedShape(ls);
    var v := Trim(ls);
    if IsWide(ls) {
      var e := EndsOf(ls);
      WideShape(ls);
      FieldLeft(e.first);
      hide EndsOf, IsWide, FieldOf, Trim, Stripped, PartsIn, NameIn, HasEvent, StripLeft, StripRight, Gather;
      EndsAndMiddle(e.first, e.middle, e.last);
      EndsAndMiddle(StripLeft(e.first), e.middle, StripRight(e.last));
      SameRest(e.middle, e.last, "");
    } else if v != [] {
      assert v == [v[0]];
      hide FieldOf, Trim, Stripped, PartsIn, Strip, Gather;
      OneKept(v[0]);
      OnePiece(v[0], "");
      OnePiece(Strip(v[0]), "");
    }
  }
}
