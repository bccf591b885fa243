/** Splitting an event-stream text: cutting it at blank lines and stripping the pieces gives
    the same lines, block by block, as cutting the list of lines at its blank lines. */
module SseLines {
  import opened Text
  import opened Sse

  // ---- splitting into blocks, on lines ----

  /** Block splitting as it looks to the lines: a blank line that is followed by another
      line ends a block and is dropped. */
  function LineBlocks(ls: seq<string>): (r: seq<seq<string>>)
    requires ls != []
    ensures r != [] && r[0] != []
    decreases |ls|
  {
    if |ls| == 1 then [ls]
    else if |ls| >= 3 && ls[1] == [] then [[ls[0]]] + LineBlocks(ls[2..])
    else
      var rest := LineBlocks(ls[1..]);
      [[ls[0]] + rest[0]] + rest[1..]
  }

  ghost predicate SameBlocks(bs: seq<string>, lbs: seq<seq<string>>) {
    |bs| == |lbs| && forall i :: 0 <= i < |bs| ==> Lines(bs[i]) == lbs[i]
  }

  /** The first line is empty exactly at a line break or at the end of the text. */
  lemma FirstLine(s: string)
    ensures Lines(s)[0] == [] <==> s == [] || Break(s) > 0
    ensures |Lines(s)| == 1 && Lines(s)[0] == [] ==> s == []
  {
  }

  lemma {:induction false} FirstBlockIsPrefix(s: string)
    ensures |Blocks(s)[0]| <= |s| && Blocks(s)[0] == s[..|Blocks(s)[0]|]
    decreases |s|
  {
    if s != [] && Separator(s) == 0 {
      FirstBlockIsPrefix(s[1..]);
    }
  }

  lemma LinesStep(s: string)
    requires s != []
    ensures Break(s) > 0 ==> Lines(s) == [[]] + Lines(s[Break(s)..])
    ensures Break(s) == 0 ==> Lines(s) == Prepend(s[0], Lines(s[1..]))
    ensures Lines([]) == [[]]
  {
  }

  /** A character in front of the first line. */
  function Prepend(c: char, ls: seq<string>): seq<string>
    requires ls != []
  {
    [[c] + ls[0]] + ls[1..]
  }

  lemma LinesOfBreak(s: string, b: string)
    requires Break(s) > 0
    ensures Lines(s[..Break(s)] + b) == [[]] + Lines(b)
  {
    var t := s[..Break(s)] + b;
    assert t[Break(s)..] == b;
    assert Break(t) == Break(s);
  }

  lemma LinesOfChar(c: char, b: string)
    requires Break([c] + b) == 0
    ensures Lines([c] + b) == Prepend(c, Lines(b))
  {
    assert ([c] + b)[1..] == b;
  }

  /** Changing the first line changes only the first line of the first block. */
  lemma {:induction false} LineBlocksHead(a: string, b: string, ls: seq<string>)
    ensures var x, y := LineBlocks([a] + ls), LineBlocks([b] + ls);
      |x| == |y| && x[1..] == y[1..] && x[0][1..] == y[0][1..] && x[0][0] == a && y[0][0] == b
  {
    assert ([a] + ls)[1..] == ls && ([b] + ls)[1..] == ls;
    if |ls| >= 2 {
      assert ([a] + ls)[2..] == ls[1..] && ([b] + ls)[2..] == ls[1..];
    }
  }

  /** Splitting the text at blank lines is splitting the line list at blank lines. */
  lemma {:induction false} BlocksAreLineBlocks(s: string)
    ensures SameBlocks(Blocks(s), LineBlocks(Lines(s)))
    decreases |s|
  {
    if s == [] {
      assert Lines([]) == [[]];
    } else if Separator(s) > 0 {
      var n := Separator(s);
      BlocksAreLineBlocks(s[n..]);
      SeparatorLines(s);
    } else if Break(s) > 0 {
      BlocksAtBreak(s);
    } else {
      BlocksAtChar(s);
    }
  }

  lemma SeparatorLines(s: string)
    requires Separator(s) > 0
    ensures Lines(s) == [[], []] + Lines(s[Separator(s)..])
    ensures LineBlocks(Lines(s)) == [[[]]] + LineBlocks(Lines(s[Separator(s)..]))
    ensures Lines([]) == [[]]
  {
    var a := Break(s);
    var t := s[a..];
    assert t[Break(t)..] == s[Separator(s)..];
    LinesStep(s);
    LinesStep(t);
    hide Lines;
    assert Lines(s)[2..] == Lines(s[Separator(s)..]);
  }

  lemma BlocksAtBreak(s: string)
    requires s != [] && Separator(s) == 0 && Break(s) > 0
    ensures SameBlocks(Blocks(s), LineBlocks(Lines(s)))
    decreases |s|, 0
  {
    var a := Break(s);
    var r := s[a..];
    BlocksAreLineBlocks(r);
    FirstLine(r);
    var bs := Blocks(r);
    BlocksThroughBreak(s);
    LinesOfBreak(s, bs[0]);
    var ls := Lines(s);
    assert ls[1..] == Lines(r);
    var lbs := LineBlocks(ls[1..]);
    assert LineBlocks(ls) == [[ls[0]] + lbs[0]] + lbs[1..];
  }

  lemma BlocksStep(s: string)
    requires s != [] && Separator(s) == 0
    ensures Blocks(s) == [[s[0]] + Blocks(s[1..])[0]] + Blocks(s[1..])[1..]
  {
  }

  lemma BlocksThroughBreak(s: string)
    requires s != [] && Separator(s) == 0 && Break(s) > 0
    ensures var r := s[Break(s)..];
      Blocks(s) == [s[..Break(s)] + Blocks(r)[0]] + Blocks(r)[1..]
  {
    hide Blocks;
    BlocksStep(s);
    if Break(s) == 2 {
      var t := s[1..];
      assert t[1..] == s[2..];
      BlocksStep(t);
      assert s[..2] + Blocks(s[2..])[0] == [s[0]] + ([t[0]] + Blocks(s[2..])[0]);
    } else {
      assert s[..1] == [s[0]];
    }
  }

  lemma BlocksAtChar(s: string)
    requires s != [] && Break(s) == 0
    ensures SameBlocks(Blocks(s), LineBlocks(Lines(s)))
    decreases |s|, 0
  {
    var c, r := s[0], s[1..];
    BlocksAreLineBlocks(r);
    FirstBlockIsPrefix(r);
    var bs, ls := Blocks(r), Lines(r);
    assert Break([c] + bs[0]) == 0;
    LinesOfChar(c, bs[0]);
    BlocksStep(s);
    LinesStep(s);
    assert [ls[0]] + ls[1..] == ls;
    hide Lines, Blocks, LineBlocks, SameBlocks;
    LineBlocksHead(ls[0], [c] + ls[0], ls[1..]);
    FirstBlockChanges(bs, LineBlocks(ls), [c] + bs[0], LineBlocks(Lines(s)), c);
  }

  lemma FirstBlockChanges(bs: seq<string>, lbs: seq<seq<string>>, first: string, lbs': seq<seq<string>>, c: char)
    requires SameBlocks(bs, lbs) && bs != [] && |lbs'| == |lbs| && lbs'[1..] == lbs[1..]
    requires Lines(first) == Prepend(c, lbs[0])
    requires lbs[0] != [] && lbs'[0] != [] && lbs'[0][0] == [c] + lbs[0][0] && lbs'[0][1..] == lbs[0][1..]
    ensures SameBlocks([first] + bs[1..], lbs')
  {
    hide Lines;
    assert lbs'[0] == [lbs'[0][0]] + lbs'[0][1..];
    forall i | 0 < i < |bs| ensures Lines(bs[1..][i - 1]) == lbs'[i] {
      assert lbs'[i] == lbs'[1..][i - 1] && lbs[i] == lbs[1..][i - 1];
    }
  }

  lemma {:induction false} OneLine(s: string)
    requires '\n' !in s
    ensures Lines(s) == [s] && Blocks(s) == [s]
    decreases |s|
  {
    if s != [] {
      OneLine(s[1..]);
      assert s == [s[0]] + s[1..];
    }
  }

  /** A line, a line feed, and what follows. */
  lemma {:induction false} LineThenRest(line: string, rest: string)
    requires '\n' !in line && (line == [] || line[|line| - 1] != '\r')
    ensures Lines(line + "\n" + rest) == [line] + Lines(rest)
    decreases |line|
  {
    var s := line + "\n" + rest;
    if line == [] {
      assert s[1..] == rest;
    } else {
      assert s[0] == line[0] && s[1..] == line[1..] + "\n" + rest;
      LineThenRest(line[1..], rest);
      assert line == [line[0]] + line[1..];
    }
  }

  // ---- stripping a block, on its lines ----

  predicate IsBlank(line: string) {
    StripLeft(line) == []
  }

  function TrimStart(ls: seq<string>): seq<string> {
    if ls != [] && IsBlank(ls[0]) then TrimStart(ls[1..]) else ls
  }

  function TrimEnd(ls: seq<string>): seq<string> {
    if ls != [] && IsBlank(ls[|ls| - 1]) then TrimEnd(ls[..|ls| - 1]) else ls
  }

  /** A block's lines from the first to the last that is not blank. */
  function Trim(ls: seq<string>): seq<string> {
    TrimEnd(TrimStart(ls))
  }

  function StripHead(ls: seq<string>): seq<string> {
    if ls == [] then [[]] else [StripLeft(ls[0])] + ls[1..]
  }

  function StripLast(ls: seq<string>): seq<string> {
    if ls == [] then [[]] else ls[..|ls| - 1] + [StripRight(ls[|ls| - 1])]
  }

  /** The lines of a block after `str.strip`. */
  function Stripped(ls: seq<string>): seq<string> {
    StripLast(TrimEnd(StripHead(TrimStart(ls))))
  }

  function StrippedBlocks(lbs: seq<seq<string>>): seq<seq<string>> {
    if lbs == [] then [] else [Stripped(lbs[0])] + StrippedBlocks(lbs[1..])
  }

  lemma PrependThenAppend(c: char, ls: seq<string>, more: seq<string>)
    requires ls != []
    ensures Prepend(c, ls + more) == Prepend(c, ls) + more
  {
    assert (ls + more)[0] == ls[0] && (ls + more)[1..] == ls[1..] + more;
  }

  /** A line break at the end of a text adds one blank line. */
  lemma {:induction false} LinesOfTail(a: string, e: string)
    requires e == "\r\n" || (e == "\n" && (a == [] || a[|a| - 1] != '\r'))
    ensures Lines(a + e) == Lines(a) + [[]]
    decreases |a|
  {
    hide Lines, Prepend;
    var s := a + e;
    LinesStep(s);
    if a == [] {
      assert s == e && e[Break(e)..] == [];
    } else if Break(a) > 0 {
      var n := Break(a);
      LinesStep(a);
      assert Break(s) == n && s[n..] == a[n..] + e;
      LinesOfTail(a[n..], e);
    } else {
      LinesStep(a);
      assert Break(s) == 0 && s[1..] == a[1..] + e;
      LinesOfTail(a[1..], e);
      PrependThenAppend(a[0], Lines(a[1..]), [[]]);
    }
  }

  lemma {:induction false} LastLine(s: string)
    requires s != [] && s[|s| - 1] != '\n'
    ensures var ls := Lines(s);
      var last := ls[|ls| - 1]; last != [] && last[|last| - 1] == s[|s| - 1]
    decreases |s|
  {
    hide Lines;
    LinesStep(s);
    var n := if Break(s) > 0 then Break(s) else 1;
    if n < |s| {
      LastLine(s[n..]);
    }
  }

  /** A character behind the last line. */
  function Snoc(ls: seq<string>, c: char): seq<string>
    requires ls != []
  {
    ls[..|ls| - 1] + [ls[|ls| - 1] + [c]]
  }

  lemma PrependThenSnoc(first: char, ls: seq<string>, c: char)
    requires ls != []
    ensures Prepend(first, Snoc(ls, c)) == Snoc(Prepend(first, ls), c)
  {
    if |ls| == 1 {
      assert [first] + (ls[0] + [c]) == [first] + ls[0] + [c];
    }
  }

  /** A character other than a line feed at the end of a text lengthens its last line. */
  lemma {:induction false} LinesOfSnoc(a: string, c: char)
    requires c != '\n'
    ensures Lines(a + [c]) == Snoc(Lines(a), c)
    decreases |a|
  {
    hide Lines, Prepend;
    var s := a + [c];
    if a == [] {
      LinesStep([c]);
      OneLine([c]);
      assert s == [c] && Snoc([[]], c) == [[c]];
    } else if Break(a) > 0 {
      var n := Break(a);
      LinesStep(s);
      LinesStep(a);
      assert Break(s) == n && s[n..] == a[n..] + [c];
      LinesOfSnoc(a[n..], c);
      assert [[]] + Snoc(Lines(a[n..]), c) == Snoc([[]] + Lines(a[n..]), c);
    } else {
      LinesStep(s);
      LinesStep(a);
      assert Break(s) == 0 && s[1..] == a[1..] + [c];
      LinesOfSnoc(a[1..], c);
      PrependThenSnoc(a[0], Lines(a[1..]), c);
    }
  }

  lemma {:induction false} StripLeftOnLines(b: string)
    ensures Lines(StripLeft(b)) == StripHead(TrimStart(Lines(b)))
    decreases |b|
  {
    if b == [] {
      assert Lines(b) == [[]] && TrimStart([[]]) == TrimStart([]);
    } else if !IsSpace(b[0]) {
      var ls := Lines(b);
      assert ls[0] != [] && ls[0][0] == b[0];
      assert [ls[0]] + ls[1..] == ls;
    } else if Break(b) > 0 {
      var n := Break(b);
      StripLeftOnLines(b[n..]);
      assert Lines(b)[1..] == Lines(b[n..]);
      if n == 2 {
        assert b[1..][1..] == b[2..];
      }
    } else {
      StripLeftOnLines(b[1..]);
      SpaceBeforeLines(b[0], Lines(b[1..]));
    }
  }

  lemma SpaceBeforeLines(c: char, ls: seq<string>)
    requires IsSpace(c) && ls != []
    ensures StripHead(TrimStart([[c] + ls[0]] + ls[1..])) == StripHead(TrimStart(ls))
  {
    var spaced := [[c] + ls[0]] + ls[1..];
    assert ([c] + ls[0])[1..] == ls[0] && spaced[1..] == ls[1..];
  }

  lemma {:induction false} StripRightOnLines(b: string)
    ensures Lines(StripRight(b)) == StripLast(TrimEnd(Lines(b)))
    decreases |b|
  {
    hide Lines, TrimEnd, StripLast;
    if b == [] {
      NoLines();
    } else {
      var n := |b| - 1;
      var a := b[..n];
      assert b == a + [b[n]];
      if !IsSpace(b[n]) {
        LastLine(b);
        SolidEnd(Lines(b));
      } else if b[n] != '\n' {
        LinesOfSnoc(a, b[n]);
        SpaceAfterLines(Lines(a), b[n]);
        StripRightOnLines(a);
      } else if a != [] && a[n - 1] == '\r' {
        assert b == a[..n - 1] + "\r\n";
        LinesOfTail(a[..n - 1], "\r\n");
        BlankAfterLines(Lines(a[..n - 1]));
        StripRightOnLines(a[..n - 1]);
      } else {
        assert b == a + "\n";
        LinesOfTail(a, "\n");
        BlankAfterLines(Lines(a));
        StripRightOnLines(a);
      }
    }
  }

  lemma NoLines()
    ensures Lines([]) == [[]] == StripLast(TrimEnd(Lines([])))
  {
    assert TrimEnd([[]]) == TrimEnd([[]][..0]);
  }

  lemma SolidEnd(ls: seq<string>)
    requires ls != [] && ls[|ls| - 1] != [] && !IsSpace(ls[|ls| - 1][|ls[|ls| - 1]| - 1])
    ensures StripLast(TrimEnd(ls)) == ls
  {
    BlankEitherWay(ls[|ls| - 1]);
  }

  lemma SpaceAfterLines(ls: seq<string>, c: char)
    requires IsSpace(c) && ls != []
    ensures StripLast(TrimEnd(Snoc(ls, c))) == StripLast(TrimEnd(ls))
  {
    var n := |ls| - 1;
    var line := ls[n] + [c];
    var spaced := ls[..n] + [line];
    StripLeftOfSnoc(ls[n], c);
    assert line[..|line| - 1] == ls[n] && spaced[..n] == ls[..n];
  }

  lemma BlankAfterLines(ls: seq<string>)
    ensures TrimEnd(ls + [[]]) == TrimEnd(ls)
  {
    assert (ls + [[]])[..|ls|] == ls;
  }

  /** Stripping a block drops its blank lines at both ends and strips what is then the first and
      the last line. */
  lemma StripOnLines(b: string)
    ensures Lines(Strip(b)) == Stripped(Lines(b))
  {
    StripLeftOnLines(b);
    StripRightOnLines(StripLeft(b));
  }

  lemma {:induction false} TrimEndKeepsHead(ls: seq<string>)
    requires ls != [] && !IsBlank(ls[0])
    ensures TrimEnd(ls) != [] && TrimEnd(ls)[0] == ls[0]
    ensures TrimEnd(StripHead(ls)) == StripHead(TrimEnd(ls))
    decreases |ls|
  {
    var n := |ls| - 1;
    if n == 0 {
      StripLeftStarts(ls[0]);
    } else {
      HeadAndLast(ls);
      hide StripHead, IsBlank;
      if IsBlank(ls[n]) {
        TrimEndKeepsHead(ls[..n]);
      }
    }
  }

  lemma HeadAndLast(ls: seq<string>)
    requires |ls| > 1
    ensures var n, s := |ls| - 1, StripHead(ls);
      |s| == |ls| && s[n] == ls[n] && s[..n] == StripHead(ls[..n])
  {
    hide StripLeft;
  }

  lemma {:induction false} TrimStartsSolid(ls: seq<string>)
    ensures TrimStart(ls) != [] ==> !IsBlank(TrimStart(ls)[0])
    decreases |ls|
  {
    if ls != [] && IsBlank(ls[0]) {
      TrimStartsSolid(ls[1..]);
    }
  }

  lemma StrippedShape(ls: seq<string>)
    ensures var v := Trim(ls);
      var n := |v| - 1;
      Stripped(ls) ==
        if v == [] then [[]]
        else if n == 0 then [Strip(v[0])]
        else [StripLeft(v[0])] + v[1..n] + [StripRight(v[n])]
  {
    var t, v := TrimStart(ls), Trim(ls);
    TrimStartsSolid(ls);
    if t == [] {
      assert TrimEnd([[]]) == TrimEnd([[]][..0]);
    } else {
      TrimEndKeepsHead(t);
      hide TrimEnd, TrimStart;
      var w := StripHead(v);
      assert w[..|w| - 1] == if |v| == 1 then [] else [StripLeft(v[0])] + v[1..|v| - 1];
    }
  }

  /** A block of two visible lines or more. */
  datatype Ends = Ends(first: string, middle: seq<string>, last: string)

  predicate IsWide(ls: seq<string>) {
    |Trim(ls)| >= 2
  }

  function EndsOf(ls: seq<string>): Ends
    requires IsWide(ls)
  {
    var v := Trim(ls);
    Ends(v[0], v[1..|v| - 1], v[|v| - 1])
  }

  lemma WideShape(ls: seq<string>)
    requires IsWide(ls)
    ensures var e := EndsOf(ls);
      && Trim(ls) == [e.first] + e.middle + [e.last]
      && Stripped(ls) == [StripLeft(e.first)] + e.middle + [StripRight(e.last)]
  {
    StrippedShape(ls);
    hide Trim, Stripped, StripLeft, StripRight;
  }

  /** The lines an HTTP client reports: nothing follows the last line break. */
  function WireLines(raw: string): (ls: seq<string>) {
    var ls := Lines(raw);
    if ls[|ls| - 1] == [] then ls[..|ls| - 1] else ls
  }
}
