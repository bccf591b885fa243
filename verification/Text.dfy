/** Python's ASCII whitespace and `str.strip`. */
module Text {
  predicate IsSpace(c: char) {
    9 <= c as int <= 13 || 28 <= c as int <= 32
  }

  function StripLeft(s: string): string {
    if s != [] && IsSpace(s[0]) then StripLeft(s[1..]) else s
  }

  function StripRight(s: string): string {
    if s != [] && IsSpace(s[|s| - 1]) then StripRight(s[..|s| - 1]) else s
  }

  function Strip(s: string): string {
    StripRight(StripLeft(s))
  }

  /** No whitespace at either end. */
  predicate Clean(line: string) {
    line == [] || (!IsSpace(line[0]) && !IsSpace(line[|line| - 1]))
  }

  lemma {:induction false} StripLeftStarts(s: string)
    ensures var t := StripLeft(s);
      StripLeft(t) == t && |t| <= |s| && t == s[|s| - |t|..] && (t != [] ==> !IsSpace(t[0]))
    decreases |s|
  {
    if s != [] && IsSpace(s[0]) {
      StripLeftStarts(s[1..]);
    }
  }

  lemma {:induction false} StripRightEnds(s: string)
    ensures var t := StripRight(s);
      |t| <= |s| && t == s[..|t|] && (t != [] ==> !IsSpace(t[|t| - 1]))
      && forall i :: |t| <= i < |s| ==> IsSpace(s[i])
    decreases |s|
  {
    if s != [] && IsSpace(s[|s| - 1]) {
      StripRightEnds(s[..|s| - 1]);
    }
  }

  lemma {:induction false} StripLeftOfSnoc(s: string, c: char)
    ensures StripLeft(s + [c]) == [] <==> StripLeft(s) == [] && IsSpace(c)
    decreases |s|
  {
    if s == [] {
      assert s + [c] == [c] && [c][1..] == [];
    } else {
      assert (s + [c])[1..] == s[1..] + [c];
      StripLeftOfSnoc(s[1..], c);
    }
  }

  /** A text of whitespace only is stripped away from either side. */
  lemma {:induction false} BlankEitherWay(s: string)
    ensures StripLeft(s) == [] <==> StripRight(s) == []
    decreases |s|
  {
    if s != [] {
      var n := |s| - 1;
      assert s == s[..n] + [s[n]];
      StripLeftOfSnoc(s[..n], s[n]);
      BlankEitherWay(s[..n]);
    }
  }
}
