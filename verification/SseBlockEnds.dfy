/** What `str.strip` on a whole block does to the event it carries: only its first and its last
    visible line can read differently afterwards. */
module SseBlockEnds {
  import opened Text
  import opened SeqFacts
  import opened Sse
  import opened SseLines

  // ---- one line ----

  /** Only a line that starts at its first character is read at all. */
  lemma IndentedIsIgnored(line: string)
    requires line == [] || IsSpace(line[0])
    ensures Effect(line) == Ignored
  {
    assert "data:"[0] == 'd';
  }

  /** Taking the indentation away changes a line's reading only when the line was ignored. */
  lemma LeftEffect(line: string)
    ensures IsBlank(line) ==> Effect(line) == Ignored
    ensures Effect(line) != Ignored ==> StripLeft(line) == line
  {
    if line == [] || IsSpace(line[0]) {
      IndentedIsIgnored(line);
    }
  }

  /** Taking whitespace off the end of a line never changes what kind of line it is, except that
      it can turn data into the end marker. */
  lemma RightEffect(line: string)
    ensures var e, f := Effect(line), Effect(StripRight(line));
      match e
      case Ignored => f == Ignored
      case Done => f == Done
      case Data(_) => f != Ignored
  {
    var r := StripRight(line);
    StripRightEnds(line);
    if |line| >= 5 && line[..5] == "data:" {
      assert line[4] == "data:"[4] == ':' && line[0] == "data:"[0] == 'd';
      assert |r| >= 5 && r[..5] == line[..5];
      if Effect(line) == Done {
        assert line[|line| - 1] == "[DONE]"[5];
        assert r == line;
      }
    } else if line != [] && line[0] == ':' {
      assert r[0] == ':';
    } else if |r| >= 5 {
      assert r[..5] == line[..5] && r[0] == line[0];
    }
  }

  // ---- reading a block in pieces ----

  function Texts(e: LineEffect): seq<string> {
    if e.Data? then [e.text] else []
  }

  predicate HasMarker(ls: seq<string>) {
    exists i :: 0 <= i < |ls| && Effect(ls[i]) == Done
  }

  /** The data of a block's lines, the end marker aside. */
  function DataOf(ls: seq<string>): seq<string> {
    if ls == [] then [] else Texts(Effect(ls[0])) + DataOf(ls[1..])
  }

  lemma {:induction false} CollectMeans(ls: seq<string>, before: seq<string>)
    ensures Collect(ls, before) == if HasMarker(ls) then Stop else Parts(before + DataOf(ls))
    decreases |ls|
  {
    if ls == [] {
      assert before + [] == before;
    } else {
      var e := Effect(ls[0]);
      CollectMeans(ls[1..], before + Texts(e));
      assert before + [] == before && [] + DataOf(ls[1..]) == DataOf(ls[1..]);
      assert HasMarker(ls) <==> e == Done || HasMarker(ls[1..]) by { MarkerStep(ls); }
      TakeSome(before, Texts(e), DataOf(ls[1..]));
    }
  }

  lemma MarkerStep(ls: seq<string>)
    requires ls != []
    ensures HasMarker(ls) <==> Effect(ls[0]) == Done || HasMarker(ls[1..])
  {
    forall i | 0 < i < |ls| ensures ls[i] == ls[1..][i - 1] {
    }
    if HasMarker(ls[1..]) {
      var j :| 0 <= j < |ls[1..]| && Effect(ls[1..][j]) == Done;
      assert Effect(ls[j + 1]) == Done;
    }
  }

  lemma {:induction false} DataAppend(a: seq<string>, b: seq<string>)
    ensures DataOf(a + b) == DataOf(a) + DataOf(b)
    ensures HasMarker(a + b) <==> HasMarker(a) || HasMarker(b)
    decreases |a|
  {
    hide Effect;
    if a == [] {
      assert a + b == b && [] + DataOf(b) == DataOf(b);
    } else {
      assert (a + b)[1..] == a[1..] + b && (a + b)[0] == a[0];
      DataAppend(a[1..], b);
      MarkerStep(a + b);
      MarkerStep(a);
      TakeSome(Texts(Effect(a[0])), DataOf(a[1..]), DataOf(b));
    }
  }

  lemma OneLineData(line: string)
    ensures DataOf([line]) == Texts(Effect(line)) && (HasMarker([line]) <==> Effect(line) == Done)
  {
    hide Effect;
    var ls := [line];
    assert ls[1..] == [] && Texts(Effect(line)) + [] == Texts(Effect(line));
    MarkerStep(ls);
  }

  /** Blank lines carry nothing. */
  lemma {:induction false} TrimStartKeeps(ls: seq<string>)
    ensures DataOf(TrimStart(ls)) == DataOf(ls) && (HasMarker(TrimStart(ls)) <==> HasMarker(ls))
    decreases |ls|
  {
    if ls != [] && IsBlank(ls[0]) {
      LeftEffect(ls[0]);
      hide Effect, IsBlank;
      MarkerStep(ls);
      TrimStartKeeps(ls[1..]);
      assert [] + DataOf(ls[1..]) == DataOf(ls[1..]);
    }
  }

  lemma {:induction false} TrimEndKeeps(ls: seq<string>)
    ensures DataOf(TrimEnd(ls)) == DataOf(ls) && (HasMarker(TrimEnd(ls)) <==> HasMarker(ls))
    decreases |ls|
  {
    hide IsBlank, DataOf, HasMarker;
    var n := |ls| - 1;
    if ls != [] && IsBlank(ls[n]) {
      TrimEndKeeps(ls[..n]);
      BlankAtEnd(ls);
    }
  }

  lemma BlankAtEnd(ls: seq<string>)
    requires ls != [] && IsBlank(ls[|ls| - 1])
    ensures var shorter := ls[..|ls| - 1];
      DataOf(ls) == DataOf(shorter) && (HasMarker(ls) <==> HasMarker(shorter))
  {
    var n := |ls| - 1;
    LeftEffect(ls[n]);
    hide Effect, IsBlank, DataOf, HasMarker;
    DataAppend(ls[..n], [ls[n]]);
    OneLineData(ls[n]);
    assert ls == ls[..n] + [ls[n]];
    assert DataOf(ls[..n]) + [] == DataOf(ls[..n]);
  }

  // ---- when stripping changes nothing ----

  /** The first visible line reads the same without its indentation, the last one without the
      whitespace at its end. */
  predicate EndsReadSame(v: seq<string>)
    requires v != []
  {
    if |v| == 1 then Effect(Strip(v[0])) == Effect(v[0])
    else Effect(StripLeft(v[0])) == Effect(v[0]) && Effect(StripRight(v[|v| - 1])) == Effect(v[|v| - 1])
  }

  /** A block that stripping does not change: it has no visible line, or it holds the end marker,
      or both its ends read the same. */
  predicate EndsAreHarmless(ls: seq<string>) {
    var v := Trim(ls);
    v == [] || HasMarker(v) || EndsReadSame(v)
  }

  lemma TrimKeeps(ls: seq<string>)
    ensures DataOf(Trim(ls)) == DataOf(ls) && (HasMarker(Trim(ls)) <==> HasMarker(ls))
  {
    TrimStartKeeps(ls);
    TrimEndKeeps(TrimStart(ls));
  }

  /** Data and end marker of a block of two lines or more, from its two ends. */
  lemma EndsAndMiddle(a: string, mid: seq<string>, z: string)
    ensures var v := [a] + mid + [z];
      && DataOf(v) == Texts(Effect(a)) + DataOf(mid) + Texts(Effect(z))
      && (HasMarker(v) <==> Effect(a) == Done || HasMarker(mid) || Effect(z) == Done)
  {
    hide Effect, DataOf, HasMarker;
    DataAppend([a] + mid, [z]);
    DataAppend([a], mid);
    OneLineData(a);
    OneLineData(z);
  }

  /** Without its indentation, a line that was ignored may be read; others are unchanged. */
  predicate OnlyGains(before: LineEffect, after: LineEffect) {
    before != Ignored ==> after == before
  }

  /** Without the whitespace at its end, a data line may be another one or the end marker; others
      are unchanged. */
  predicate OnlyShortens(before: LineEffect, after: LineEffect) {
    if before.Data? then after != Ignored else after == before
  }

  lemma WideBlock(ls: seq<string>)
    requires IsWide(ls)
    ensures var e := EndsOf(ls);
      && DataOf(ls) == Texts(Effect(e.first)) + DataOf(e.middle) + Texts(Effect(e.last))
      && (HasMarker(ls) <==> Effect(e.first) == Done || HasMarker(e.middle) || Effect(e.last) == Done)
    ensures var e, s := EndsOf(ls), Stripped(ls);
      var first, last := Effect(StripLeft(e.first)), Effect(StripRight(e.last));
      && DataOf(s) == Texts(first) + DataOf(e.middle) + Texts(last)
      && (HasMarker(s) <==> first == Done || HasMarker(e.middle) || last == Done)
    ensures var e := EndsOf(ls);
      && OnlyGains(Effect(e.first), Effect(StripLeft(e.first)))
      && OnlyShortens(Effect(e.last), Effect(StripRight(e.last)))
  {
    var e := EndsOf(ls);
    TrimKeeps(ls);
    WideShape(ls);
    LeftEffect(e.first);
    RightEffect(e.last);
    hide EndsOf, IsWide, Effect, Trim, Stripped, DataOf, HasMarker, StripLeft, StripRight;
    EndsAndMiddle(e.first, e.middle, e.last);
    EndsAndMiddle(StripLeft(e.first), e.middle, StripRight(e.last));
  }

  lemma NarrowBlock(ls: seq<string>)
    requires !IsWide(ls)
    ensures Trim(ls) == [] ==> DataOf(ls) == DataOf(Stripped(ls)) == [] && !HasMarker(ls) && !HasMarker(Stripped(ls))
    ensures Trim(ls) != [] ==>
      var e, f := Effect(Trim(ls)[0]), Effect(Strip(Trim(ls)[0]));
      && DataOf(ls) == Texts(e) && (HasMarker(ls) <==> e == Done)
      && DataOf(Stripped(ls)) == Texts(f) && (HasMarker(Stripped(ls)) <==> f == Done)
      && (e == Done ==> f == Done) && (e.Data? ==> f != Ignored)
    ensures Trim(ls) != [] && Effect(StripLeft(Trim(ls)[0])) == Effect(Trim(ls)[0]) ==>
      (Effect(Trim(ls)[0]) == Ignored ==> Effect(Strip(Trim(ls)[0])) == Ignored)
  {
    var v := Trim(ls);
    TrimKeeps(ls);
    StrippedShape(ls);
    OneLineData([]);
    if v != [] {
      var a := v[0];
      assert v == [a];
      LeftEffect(a);
      RightEffect(StripLeft(a));
      OneLineData(a);
      OneLineData(Strip(a));
    }
  }

  /** Stripping leaves a block's event unchanged exactly when its ends are harmless. */
  lemma HarmlessExactly(ls: seq<string>)
    ensures Collect(Stripped(ls), []) == Collect(ls, []) <==> EndsAreHarmless(ls)
  {
    var s, v := Stripped(ls), Trim(ls);
    CollectMeans(ls, []);
    CollectMeans(s, []);
    TrimKeeps(ls);
    assert [] + DataOf(ls) == DataOf(ls) && [] + DataOf(s) == DataOf(s);
    hide Collect, Stripped, Trim, DataOf, Effect;
    if IsWide(ls) {
      WideBlock(ls);
      var e := EndsOf(ls);
      hide HasMarker, EndsOf;
      SameEnds(Effect(e.first), Effect(StripLeft(e.first)), DataOf(e.middle),
               Effect(e.last), Effect(StripRight(e.last)));
    } else {
      NarrowBlock(ls);
      hide HasMarker;
    }
  }

  lemma SameEnds(a: LineEffect, b: LineEffect, mid: seq<string>, y: LineEffect, z: LineEffect)
    requires OnlyGains(a, b) && OnlyShortens(y, z)
    ensures a != Done && b != Done && y != Done && z != Done ==>
              (Texts(a) + mid + Texts(y) == Texts(b) + mid + Texts(z) <==> a == b && y == z)
  {
    var old0, new0 := Texts(a) + mid + Texts(y), Texts(b) + mid + Texts(z);
    if y.Data? && z.Data? {
      assert old0[|old0| - 1] == y.text && new0[|new0| - 1] == z.text;
    }
  }

  /** Data that no marker hides is never lost by stripping. */
  lemma NeverFewer(ls: seq<string>)
    ensures HasMarker(ls) ==> HasMarker(Stripped(ls))
    ensures !HasMarker(Stripped(ls)) ==> |DataOf(ls)| <= |DataOf(Stripped(ls))|
  {
    if IsWide(ls) {
      WideBlock(ls);
    } else {
      NarrowBlock(ls);
    }
  }

  /** The first visible line reads the same without its indentation. */
  predicate IsFlush(ls: seq<string>) {
    var v := Trim(ls);
    v == [] || Effect(StripLeft(v[0])) == Effect(v[0])
  }

  lemma FlushBlock(ls: seq<string>)
    requires IsFlush(ls)
    ensures !EndsAreHarmless(ls) ==> DataOf(ls) != []
    ensures !HasMarker(Stripped(ls)) ==> |DataOf(ls)| == |DataOf(Stripped(ls))|
  {
    TrimKeeps(ls);
    if IsWide(ls) {
      FlushWide(ls);
    } else {
      NarrowBlock(ls);
      hide DataOf, HasMarker, Effect, Stripped, Trim, Strip, StripLeft;
    }
  }

  lemma FlushWide(ls: seq<string>)
    requires IsWide(ls) && IsFlush(ls) && DataOf(Trim(ls)) == DataOf(ls) && (HasMarker(Trim(ls)) <==> HasMarker(ls))
    ensures !EndsAreHarmless(ls) ==> DataOf(ls) != []
    ensures !HasMarker(Stripped(ls)) ==> |DataOf(ls)| == |DataOf(Stripped(ls))|
  {
    var e := EndsOf(ls);
    assert Effect(StripLeft(e.first)) == Effect(e.first);
    assert EndsAreHarmless(ls) <== HasMarker(ls) || Effect(StripRight(e.last)) == Effect(e.last);
    hide EndsAreHarmless, IsWide, EndsOf, DataOf, HasMarker, Effect, Stripped, Trim, StripLeft, StripRight;
    WideBlock(ls);
  }
}
