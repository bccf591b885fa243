/** The debug REPL's filter that hides `<tool_call>` and `<think>` sections from streamed text. */
module TagFilter {
  import opened SeqFacts

  const TOOL_OPEN := "<tool_call>"
  const TOOL_CLOSE := "</tool_call>"
  const THINK_OPEN := "<think>"
  const THINK_CLOSE := "</think>"

  // ---- reference definition, on the whole text ----

  predicate StartsTag(s: string) {
    s <= TOOL_OPEN || s <= THINK_OPEN
  }

  /** Length of the shortest start of `s`, longer than `n`, that no tag starts with. */
  function BreakLength(s: string, n: nat): (r: nat)
    requires n <= |s|
    ensures n <= r <= |s| && (n < |s| ==> n < r)
    decreases |s| - n
  {
    if n == |s| then n
    else if StartsTag(s[..n + 1]) then BreakLength(s, n + 1)
    else n + 1
  }

  /** What the user sees of a whole text: a complete tag hides everything up to its closing
      tag, and a `<` that does not start one is text, together with what was read to find out. */
  function Visible(s: string): string
    decreases |s|, 1
  {
    if s == [] then []
    else if s[0] != '<' then [s[0]] + Visible(s[1..])
    else if TOOL_OPEN <= s then Hidden(TOOL_CLOSE, s[|TOOL_OPEN|..])
    else if THINK_OPEN <= s then Hidden(THINK_CLOSE, s[|THINK_OPEN|..])
    else if StartsTag(s) then s
    else var n := BreakLength(s, 0); s[..n] + Visible(s[n..])
  }

  /** What the user sees after the first closing tag. */
  function Hidden(close: string, s: string): string
    decreases |s|, 2
  {
    if s == [] then []
    else if close <= s && close != [] then Visible(s[|close|..])
    else Hidden(close, s[1..])
  }

  // ---- the filter, one character at a time ----

  datatype State = State(inToolCall: bool, inThink: bool, tagBuffer: string)

  const START := State(false, false, "")

  predicate EndsWith(s: string, suffix: string) {
    |suffix| <= |s| && s[|s| - |suffix|..] == suffix
  }

  /** The state after a character, and the text it adds. */
  function Step(st: State, c: char): (State, string) {
    var buffer := st.tagBuffer + [c];
    if st.inToolCall then
      (if EndsWith(buffer, TOOL_CLOSE) then st.(inToolCall := false, tagBuffer := "") else st.(tagBuffer := buffer), "")
    else if st.inThink then
      (if EndsWith(buffer, THINK_CLOSE) then st.(inThink := false, tagBuffer := "") else st.(tagBuffer := buffer), "")
    else if st.tagBuffer != "" then
      if buffer == TOOL_OPEN then (State(true, false, buffer), "")
      else if buffer == THINK_OPEN then (State(false, true, buffer), "")
      else if StartsTag(buffer) then (st.(tagBuffer := buffer), "")
      else (st.(tagBuffer := ""), buffer)
    else if c == '<' then (st.(tagBuffer := "<"), "")
    else (st, [c])
  }

  /** The text that the rest of the input adds, with the final flush. */
  function Output(st: State, s: string): string
    decreases |s|
  {
    if s == [] then if st.inToolCall || st.inThink then "" else st.tagBuffer
    else Step(st, s[0]).1 + Output(Step(st, s[0]).0, s[1..])
  }

  predicate Occurs(w: string, s: string) {
    exists i :: 0 <= i <= |s| - |w| && At(w, s, i)
  }

  predicate At(w: string, s: string, i: int) {
    0 <= i <= |s| - |w| && s[i..i + |w|] == w
  }

  predicate Reachable(st: State) {
    if st.inToolCall then !st.inThink && !Occurs(TOOL_CLOSE, st.tagBuffer)
    else if st.inThink then !Occurs(THINK_CLOSE, st.tagBuffer)
    else
      st.tagBuffer == "" || (st.tagBuffer[0] == '<' && StartsTag(st.tagBuffer)
                             && st.tagBuffer != TOOL_OPEN && st.tagBuffer != THINK_OPEN)
  }

  /** The whole text that a reachable state still stands for. */
  function Meaning(st: State, s: string): string {
    if st.inToolCall then Hidden(TOOL_CLOSE, st.tagBuffer + s)
    else if st.inThink then Hidden(THINK_CLOSE, st.tagBuffer + s)
    else Visible(st.tagBuffer + s)
  }

  // ---- closing tags ----

  predicate StartsAt(w: string, t: string, i: int) {
    0 <= i <= |t| && w <= t[i..]
  }

  lemma {:induction false} HiddenSkips(close: string, a: string, s: string)
    requires close != [] && forall i :: 0 <= i < |a| ==> !StartsAt(close, a + s, i)
    ensures Hidden(close, a + s) == Hidden(close, s)
    decreases |a|
  {
    if a == [] {
      assert a + s == s;
    } else {
      var t := a + s;
      assert !StartsAt(close, t, 0) && t[0..] == t && t[1..] == a[1..] + s;
      forall i | 0 <= i < |a| - 1 ensures !StartsAt(close, a[1..] + s, i) {
        assert !StartsAt(close, t, i + 1) && t[i + 1..] == (a[1..] + s)[i..];
      }
      HiddenSkips(close, a[1..], s);
    }
  }

  lemma HiddenEnds(close: string, s: string)
    requires close != []
    ensures Hidden(close, close + s) == Visible(s)
  {
    assert (close + s)[|close|..] == s && close <= close + s;
  }

  /** The first closing tag ends where the buffer first ends with it. */
  lemma ClosesHere(close: string, buffer: string, c: char, s: string)
    requires close != [] && !Occurs(close, buffer) && EndsWith(buffer + [c], close)
    ensures Hidden(close, buffer + [c] + s) == Visible(s)
  {
    hide Hidden, Visible;
    var all := buffer + [c];
    var u := all[..|all| - |close|];
    assert all == u + close;
    var t := u + (close + s);
    assert t == all + s;
    forall i | 0 <= i < |u| ensures !StartsAt(close, t, i) {
      assert !At(close, buffer, i);
      assert t[i..][..|close|] == buffer[i..i + |close|];
    }
    HiddenSkips(close, u, close + s);
    HiddenEnds(close, s);
  }

  lemma StaysOpen(close: string, buffer: string, c: char)
    requires close != [] && !Occurs(close, buffer) && !EndsWith(buffer + [c], close)
    ensures !Occurs(close, buffer + [c])
  {
    var all := buffer + [c];
    forall i ensures !At(close, all, i) {
      if 0 <= i <= |all| - |close| {
        if i == |all| - |close| {
          assert all[i..] == all[i..i + |close|];
        } else {
          assert !At(close, buffer, i) && all[i..i + |close|] == buffer[i..i + |close|];
        }
      }
    }
  }

  predicate IsTagPair(open: string, close: string) {
    (open == TOOL_OPEN && close == TOOL_CLOSE) || (open == THINK_OPEN && close == THINK_CLOSE)
  }

  lemma TagShapes(open: string, close: string)
    requires IsTagPair(open, close)
    ensures |open| + 1 == |close| && open[0] == close[0] == '<' && open[1] != '/' && close[1] == '/'
    ensures '<' !in open[1..] && '<' !in close[1..]
  {
  }

  /** The opening tag holds no part of the closing one. */
  lemma OpeningTagHides(open: string, close: string, s: string)
    requires IsTagPair(open, close)
    ensures Hidden(close, open + s) == Hidden(close, s) && !Occurs(close, open)
  {
    hide Hidden;
    TagShapes(open, close);
    hide IsTagPair;
    var t := open + s;
    forall i | 0 <= i < |open| ensures !StartsAt(close, t, i) {
      assert t[i] == open[i] && (i > 0 ==> open[i] == open[1..][i - 1]);
      if |t| - i >= |close| {
        assert t[i..][0] == t[i] && t[i..][1] == t[i + 1];
      }
    }
    HiddenSkips(close, open, s);
  }

  lemma VisibleOfTag(open: string, close: string, s: string)
    requires IsTagPair(open, close)
    ensures Visible(open + s) == Hidden(close, s)
  {
    hide Hidden;
    assert (open + s)[|open|..] == s && open <= open + s;
    if open == THINK_OPEN {
      assert (open + s)[2] == 'h';
    }
  }

  // ---- an unfinished opening tag ----

  lemma StartsTagPrefix(s: string, n: nat)
    requires StartsTag(s) && n <= |s|
    ensures StartsTag(s[..n])
  {
  }

  lemma {:induction false} BreaksHere(buffer: string, c: char, s: string, n: nat)
    requires StartsTag(buffer) && !StartsTag(buffer + [c]) && n <= |buffer|
    ensures BreakLength(buffer + [c] + s, n) == |buffer| + 1
    decreases |buffer| - n
  {
    hide StartsTag;
    var t := buffer + [c] + s;
    if n < |buffer| {
      StartsTagPrefix(buffer, n + 1);
      assert t[..n + 1] == buffer[..n + 1];
      BreaksHere(buffer, c, s, n + 1);
    } else {
      assert t[..n + 1] == buffer + [c];
    }
  }

  /** A buffer that stops looking like a tag is shown. */
  lemma VisibleOfBreak(buffer: string, c: char, s: string)
    requires buffer != "" && buffer[0] == '<' && StartsTag(buffer) && !StartsTag(buffer + [c])
    requires buffer != TOOL_OPEN && buffer != THINK_OPEN
    ensures Visible(buffer + [c] + s) == buffer + [c] + Visible(s)
  {
    var t := buffer + [c] + s;
    BreaksHere(buffer, c, s, 0);
    assert t[..|buffer| + 1] == buffer + [c] && t[|buffer| + 1..] == s;
    NotATag(buffer, c, s);
    hide BreakLength, StartsTag;
  }

  lemma NotATag(buffer: string, c: char, s: string)
    requires StartsTag(buffer) && !StartsTag(buffer + [c]) && buffer != TOOL_OPEN && buffer != THINK_OPEN
    ensures var t := buffer + [c] + s;
      !(TOOL_OPEN <= t) && !(THINK_OPEN <= t) && !StartsTag(t)
  {
    var t := buffer + [c] + s;
    var n := |buffer| + 1;
    assert t[..n] == buffer + [c];
    if StartsTag(t) {
      StartsTagPrefix(t, n);
    }
    ThirdCharacter(buffer);
    if n <= |TOOL_OPEN| {
      TagBegins(TOOL_OPEN, t, n);
    }
    if n <= |THINK_OPEN| {
      TagBegins(THINK_OPEN, t, n);
    } else {
      assert t[2] == buffer[2];
    }
  }

  lemma TagBegins(tag: string, t: string, n: nat)
    requires n <= |tag| && n <= |t|
    ensures tag <= t ==> t[..n] <= tag
  {
  }

  /** Two letters tell the tags apart. */
  lemma ThirdCharacter(buffer: string)
    requires StartsTag(buffer) && buffer != TOOL_OPEN && buffer != THINK_OPEN
    ensures |buffer| < |TOOL_OPEN|
    ensures |buffer| >= |THINK_OPEN| ==> buffer[2] == 'o'
  {
    assert TOOL_OPEN[2] == 'o';
  }

  lemma UnfinishedTag(buffer: string)
    requires buffer != "" && buffer[0] == '<' && StartsTag(buffer) && buffer != TOOL_OPEN && buffer != THINK_OPEN
    ensures Visible(buffer) == buffer
  {
    ThirdCharacter(buffer);
    assert THINK_OPEN[2] == 'h';
  }

  // ---- the filter shows what is visible ----

  lemma StepKeepsMeaning(st: State, c: char, s: string)
    requires Reachable(st)
    ensures var (next, out) := Step(st, c);
      Reachable(next) && out + Meaning(next, s) == Meaning(st, [c] + s)
  {
    hide Visible, Hidden, StartsTag, Occurs, EndsWith;
    var buffer := st.tagBuffer + [c];
    assert st.tagBuffer + ([c] + s) == buffer + s;
    if st.inToolCall || st.inThink {
      var close := if st.inToolCall then TOOL_CLOSE else THINK_CLOSE;
      if EndsWith(buffer, close) {
        ClosesHere(close, st.tagBuffer, c, s);
        assert "" + s == s;
      } else {
        StaysOpen(close, st.tagBuffer, c);
      }
    } else {
      PlainStep(st, c, s);
    }
  }

  lemma PlainStep(st: State, c: char, s: string)
    requires Reachable(st) && !st.inToolCall && !st.inThink
    ensures var (next, out) := Step(st, c);
      Reachable(next) && out + Meaning(next, s) == Meaning(st, [c] + s)
  {
    var buffer := st.tagBuffer + [c];
    assert st.tagBuffer + ([c] + s) == buffer + s && "" + s == s;
    if st.tagBuffer == "" {
      FirstCharacter(c, s);
      hide Visible, Hidden, Occurs, EndsWith, StartsTag;
      assert buffer == [c];
    } else {
      hide Visible, Hidden, Occurs, EndsWith, StartsTag;
      if buffer == TOOL_OPEN {
        VisibleOfTag(TOOL_OPEN, TOOL_CLOSE, s);
        OpeningTagHides(TOOL_OPEN, TOOL_CLOSE, s);
      } else if buffer == THINK_OPEN {
        VisibleOfTag(THINK_OPEN, THINK_CLOSE, s);
        OpeningTagHides(THINK_OPEN, THINK_CLOSE, s);
      } else if !StartsTag(buffer) {
        VisibleOfBreak(st.tagBuffer, c, s);
      }
    }
  }

  lemma FirstCharacter(c: char, s: string)
    ensures c != '<' ==> Visible([c] + s) == [c] + Visible(s)
    ensures StartsTag("<")
  {
    assert ([c] + s)[1..] == s;
  }

  /** Whatever state the filter is in, the rest of the input adds exactly what that state still
      stands for; from the start this is the visible part of the whole input. */
  lemma {:induction false} OutputIsMeaning(st: State, s: string)
    requires Reachable(st)
    ensures Output(st, s) == Meaning(st, s)
    decreases |s|
  {
    hide Step;
    if s == [] {
      AtTheEnd(st);
    } else {
      StepKeepsMeaning(st, s[0], s[1..]);
      assert [s[0]] + s[1..] == s;
      OutputIsMeaning(Step(st, s[0]).0, s[1..]);
    }
  }

  lemma AtTheEnd(st: State)
    requires Reachable(st)
    ensures Output(st, "") == Meaning(st, "")
  {
    var buffer := st.tagBuffer;
    assert buffer + "" == buffer;
    if st.inToolCall || st.inThink {
      NeverCloses(if st.inToolCall then TOOL_CLOSE else THINK_CLOSE, buffer);
    } else if buffer != "" {
      UnfinishedTag(buffer);
    }
  }

  lemma NeverCloses(close: string, buffer: string)
    requires close != [] && !Occurs(close, buffer)
    ensures Hidden(close, buffer) == ""
  {
    assert buffer + "" == buffer;
    forall i | 0 <= i < |buffer| ensures !StartsAt(close, buffer + "", i) {
      assert !At(close, buffer, i);
      if i + |close| <= |buffer| {
        assert buffer[i..][..|close|] == buffer[i..i + |close|];
      }
    }
    HiddenSkips(close, buffer, "");
  }

  // ---- laws of the visible text ----

  lemma {:induction false} PlainTextIsVisible(u: string, s: string)
    requires '<' !in u
    ensures Visible(u + s) == u + Visible(s)
    decreases |u|
  {
    if u == [] {
      assert u + s == s;
    } else {
      assert (u + s)[1..] == u[1..] + s && u[0] != '<';
      PlainTextIsVisible(u[1..], s);
      hide Visible;
      assert [u[0]] + (u[1..] + Visible(s)) == u + Visible(s);
    }
  }

  /** A tagged section is hidden, whatever it holds, up to its first closing tag. */
  lemma SectionIsHidden(open: string, close: string, v: string, w: string)
    requires IsTagPair(open, close) && !Occurs(close, v)
    ensures Visible(open + (v + (close + w))) == Visible(w)
  {
    hide Visible, Hidden;
    VisibleOfTag(open, close, v + (close + w));
    TagShapes(open, close);
    hide IsTagPair;
    var t := v + (close + w);
    forall i | 0 <= i < |v| ensures !StartsAt(close, t, i) {
      assert !At(close, v, i);
      if i + |close| <= |v| {
        assert t[i..][..|close|] == v[i..i + |close|];
      } else {
        var k := |v| - i;
        assert close[1..][k - 1] == close[k];
        assert t[i..][k] == t[|v|] == close[0];
      }
    }
    HiddenSkips(close, v, close + w);
    HiddenEnds(close, w);
  }

  /** `a` is `b` with some characters left out. */
  predicate IsSubsequence(a: string, b: string)
    decreases |b|
  {
    if a == [] then true
    else if b == [] then false
    else (a[0] == b[0] && IsSubsequence(a[1..], b[1..])) || IsSubsequence(a, b[1..])
  }

  lemma {:induction false} SubsequenceSkips(a: string, x: string, b: string)
    requires IsSubsequence(a, b)
    ensures IsSubsequence(a, x + b)
    decreases |x|
  {
    if x == [] {
      assert x + b == b;
    } else {
      assert (x + b)[1..] == x[1..] + b;
      SubsequenceSkips(a, x[1..], b);
    }
  }

  lemma {:induction false} SubsequenceKeeps(x: string, a: string, b: string)
    requires IsSubsequence(a, b)
    ensures IsSubsequence(x + a, x + b)
    decreases |x|
  {
    if x == [] {
      assert x + a == a && x + b == b;
    } else {
      assert (x + a)[1..] == x[1..] + a && (x + b)[1..] == x[1..] + b;
      SubsequenceKeeps(x[1..], a, b);
    }
  }

  /** The filter only leaves things out. */
  lemma {:induction false} VisibleIsSubsequence(s: string)
    ensures IsSubsequence(Visible(s), s)
    decreases |s|, 1
  {
    hide IsSubsequence, StartsTag;
    if s == [] {
      Empty(s);
    } else if s[0] != '<' {
      VisibleIsSubsequence(s[1..]);
      SubsequenceKeeps([s[0]], Visible(s[1..]), s[1..]);
      assert [s[0]] + s[1..] == s;
    } else if TOOL_OPEN <= s {
      HiddenIsSubsequence(TOOL_CLOSE, s[|TOOL_OPEN|..]);
      SubsequenceSkips(Visible(s), TOOL_OPEN, s[|TOOL_OPEN|..]);
      assert TOOL_OPEN + s[|TOOL_OPEN|..] == s;
    } else if THINK_OPEN <= s {
      HiddenIsSubsequence(THINK_CLOSE, s[|THINK_OPEN|..]);
      SubsequenceSkips(Visible(s), THINK_OPEN, s[|THINK_OPEN|..]);
      assert THINK_OPEN + s[|THINK_OPEN|..] == s;
    } else if StartsTag(s) {
      Empty([]);
      SubsequenceKeeps(s, [], []);
      assert s + [] == s;
    } else {
      var n := BreakLength(s, 0);
      VisibleIsSubsequence(s[n..]);
      SubsequenceKeeps(s[..n], Visible(s[n..]), s[n..]);
      assert s[..n] + s[n..] == s;
    }
  }

  lemma {:induction false} HiddenIsSubsequence(close: string, s: string)
    ensures IsSubsequence(Hidden(close, s), s)
    decreases |s|, 2
  {
    hide IsSubsequence;
    if s == [] {
      Empty(s);
    } else if close <= s && close != [] {
      VisibleIsSubsequence(s[|close|..]);
      SubsequenceSkips(Hidden(close, s), close, s[|close|..]);
      assert close + s[|close|..] == s;
    } else {
      HiddenIsSubsequence(close, s[1..]);
      SubsequenceSkips(Hidden(close, s), [s[0]], s[1..]);
      assert [s[0]] + s[1..] == s;
    }
  }

  lemma Empty(s: string)
    ensures IsSubsequence([], s)
  {
  }

  // ---- a whole turn ----

  datatype TurnEvent = TextDelta(text: string) | ToolStart | OtherEvent

  /** All streamed text of a turn. */
  function Streamed(events: seq<TurnEvent>): string {
    if events == [] then ""
    else (if events[0].TextDelta? then events[0].text else "") + Streamed(events[1..])
  }

  /** `s.count("```")` */
  function Fences(s: string): nat {
    if |s| < 3 then 0 else if s[..3] == "```" then 1 + Fences(s[3..]) else Fences(s[1..])
  }

  /** The state after some text, and the text it adds. */
  function Feed(st: State, text: string): (State, string)
    decreases |text|
  {
    if text == [] then (st, "")
    else
      var (before, shown) := Feed(st, text[..|text| - 1]);
      var (next, out) := Step(before, text[|text| - 1]);
      (next, shown + out)
  }

  lemma {:induction false} OutputAfterFeed(st: State, text: string, later: string)
    ensures Output(st, text + later) == Feed(st, text).1 + Output(Feed(st, text).0, later)
    decreases |text|
  {
    hide Step;
    if text == [] {
      assert text + later == later;
    } else {
      var n := |text| - 1;
      var rest := [text[n]] + later;
      assert text + later == text[..n] + rest && rest[1..] == later;
      OutputAfterFeed(st, text[..n], rest);
    }
  }

  /** The character loop over one delta. */
  method FilterText(st0: State, text: string) returns (st: State, shown: string)
    ensures (st, shown) == Feed(st0, text)
  {
    var inToolCall, inThink, tagBuffer := st0.inToolCall, st0.inThink, st0.tagBuffer;
    shown := "";
    var k := 0;
    while k < |text|
      invariant 0 <= k <= |text|
      invariant (State(inToolCall, inThink, tagBuffer), shown) == Feed(st0, text[..k])
    {
      hide EndsWith, StartsTag;
      FeedOne(st0, text, k);
      var c := text[k];
      if inToolCall {
        tagBuffer := tagBuffer + [c];
        if EndsWith(tagBuffer, TOOL_CLOSE) {
          inToolCall := false;
          tagBuffer := "";
        }
      } else if inThink {
        tagBuffer := tagBuffer + [c];
        if EndsWith(tagBuffer, THINK_CLOSE) {
          inThink := false;
          tagBuffer := "";
        }
      } else if tagBuffer != "" {
        tagBuffer := tagBuffer + [c];
        if tagBuffer == TOOL_OPEN {
          inToolCall := true;
        } else if tagBuffer == THINK_OPEN {
          inThink := true;
        } else if !StartsTag(tagBuffer) {
          shown := shown + tagBuffer;
          tagBuffer := "";
        }
      } else if c == '<' {
        tagBuffer := "<";
      } else {
        shown := shown + [c];
      }
      k := k + 1;
    }
    assert text[..k] == text;
    st := State(inToolCall, inThink, tagBuffer);
  }

  lemma FeedOne(st: State, text: string, k: nat)
    requires k < |text|
    ensures var (before, shown) := Feed(st, text[..k]);
      Feed(st, text[..k + 1]) == (Step(before, text[k]).0, shown + Step(before, text[k]).1)
    ensures forall s: string :: s + "" == s
  {
    hide Step;
    assert text[..k + 1][..k] == text[..k];
  }

  // ---- when a tag is recognised ----

  lemma {:induction false} FeedReaches(st: State, text: string)
    requires Reachable(st)
    ensures Reachable(Feed(st, text).0)
    decreases |text|
  {
    hide Step, Reachable;
    if text != [] {
      var n := |text| - 1;
      FeedReaches(st, text[..n]);
      StepKeepsMeaning(Feed(st, text[..n]).0, text[n], []);
    }
  }

  /** The filter is not inside a section after this text. */
  predicate Outside(u: string) {
    var st := Feed(START, u).0; !st.inToolCall && !st.inThink
  }

  /** What may still be the start of a tag after this text. */
  function Pending(u: string): string {
    Feed(START, u).0.tagBuffer
  }

  /** What the user sees of a text that ends outside a section, whatever follows. */
  lemma VisibleAfter(u: string, s: string)
    requires Outside(u)
    ensures Visible(u + s) == Feed(START, u).1 + Visible(Pending(u) + s)
    ensures Visible(u) == Feed(START, u).1 + Pending(u)
  {
    hide Visible, Output, Feed, Step;
    var st := Feed(START, u).0;
    FeedReaches(START, u);
    TurnIsVisible(u + s);
    OutputAfterFeed(START, u, s);
    OutputIsMeaning(st, s);
    TurnIsVisible(u);
    OutputAfterFeed(START, u, "");
    FinalFlush(st);
    assert u + "" == u;
  }

  /** A tag that follows an unfinished one is text. */
  lemma PendingShowsTag(u: string, open: string, close: string, s: string)
    requires IsTagPair(open, close) && Outside(u) && Pending(u) != ""
    ensures Visible(u + (open + s)) == Visible(u) + (open + Visible(s))
  {
    FeedReaches(START, u);
    VisibleAfter(u, open + s);
    var b, shown := Pending(u), Feed(START, u).1;
    hide Feed, Visible, StartsTag, IsTagPair;
    BrokenTag(b, open, close, s);
    TakeSome(shown, b, open + Visible(s));
  }

  lemma BrokenTag(b: string, open: string, close: string, s: string)
    requires IsTagPair(open, close)
    requires b != "" && b[0] == '<' && StartsTag(b) && b != TOOL_OPEN && b != THINK_OPEN
    ensures Visible(b + (open + s)) == b + (open + Visible(s))
  {
    var name := open[1..];
    TagShapes(open, close);
    BracketBreaks(b);
    VisibleOfBreak(b, '<', name + s);
    PlainTextIsVisible(name, s);
    hide Visible, StartsTag, IsTagPair;
    OpenSplits(b, open, s);
    OpenSplits(b, open, Visible(s));
  }

  lemma OpenSplits(b: string, open: string, s: string)
    requires open != "" && open[0] == '<'
    ensures b + ['<'] + (open[1..] + s) == b + (open + s)
  {
    assert open == ['<'] + open[1..];
  }

  /** No tag has a second `<`. */
  lemma BracketBreaks(b: string)
    requires b != ""
    ensures !StartsTag(b + ['<'])
  {
    TagShapes(TOOL_OPEN, TOOL_CLOSE);
    TagShapes(THINK_OPEN, THINK_CLOSE);
    assert (b + ['<'])[|b|] == '<';
    if |b| < |TOOL_OPEN| {
      assert TOOL_OPEN[1..][|b| - 1] == TOOL_OPEN[|b|];
    }
    if |b| < |THINK_OPEN| {
      assert THINK_OPEN[1..][|b| - 1] == THINK_OPEN[|b|];
    }
  }

  /** After a text that ends outside a section, complete sections are hidden exactly when the
      text does not end with a possible start of a tag. */
  lemma SectionsAreHiddenWhen(u: string, open: string, close: string)
    requires IsTagPair(open, close) && Outside(u)
    ensures Pending(u) == "" <==>
      forall v, w :: !Occurs(close, v) ==> Visible(u + (open + (v + (close + w)))) == Visible(u) + Visible(w)
  {
    hide Visible, Feed;
    if Pending(u) == "" {
      forall v, w | !Occurs(close, v) ensures Visible(u + (open + (v + (close + w)))) == Visible(u) + Visible(w) {
        VisibleAfter(u, open + (v + (close + w)));
        SectionIsHidden(open, close, v, w);
        assert "" + (open + (v + (close + w))) == open + (v + (close + w));
      }
    } else {
      PendingShowsTag(u, open, close, "" + (close + ""));
      TagShapes(open, close);
      NothingIsVisible();
      assert !Occurs(close, "");
      assert |Visible(u + (open + ("" + (close + ""))))| > |Visible(u) + Visible("")|;
    }
  }

  lemma NothingIsVisible()
    ensures Visible("") == ""
  {
  }

  /** A stray `<` right before a tag, as in `<<think>`, keeps it from being recognised. */
  lemma DoubledBracketShowsTag(open: string, close: string, s: string)
    requires IsTagPair(open, close)
    ensures Visible("<" + (open + s)) == "<" + (open + Visible(s))
  {
    FeedOne(START, "<", 0);
    assert "<"[..0] == "" && "<"[..1] == "<";
    PendingShowsTag("<", open, close, s);
    UnfinishedBracket();
  }

  lemma UnfinishedBracket()
    ensures Visible("<") == "<"
  {
    FirstCharacter('<', "");
    UnfinishedTag("<");
  }

  /** Sends the buffered text. */
  method Flush(sent0: seq<string>, textBuffer0: string) returns (sent: seq<string>, textBuffer: string)
    ensures sent == sent0 + [textBuffer0] && textBuffer == ""
    ensures Concat(sent) + textBuffer == Concat(sent0) + textBuffer0
  {
    sent, textBuffer := sent0 + [textBuffer0], "";
    assert sent[..|sent0|] == sent0;
  }

  /** The loop body for one event of the turn. */
  method HandleEvent(sent0: seq<string>, textBuffer0: string, st0: State, event: TurnEvent, ghost rest: string)
    returns (sent: seq<string>, textBuffer: string, st: State)
    ensures var text := if event.TextDelta? then event.text else "";
      Concat(sent) + textBuffer + Output(st, rest) == Concat(sent0) + textBuffer0 + Output(st0, text + rest)
  {
    hide Output, Feed, Concat;
    sent, textBuffer, st := sent0, textBuffer0, st0;
    match event {
      case TextDelta(text) =>
        var shown;
        OutputAfterFeed(st, text, rest);
        st, shown := FilterText(st, text);
        textBuffer := textBuffer + shown;
        Regroup(Concat(sent), textBuffer0, shown, Output(st, rest));
        assert Concat(sent) + (textBuffer0 + shown) == Concat(sent) + textBuffer0 + shown;
        if Fences(textBuffer) % 2 == 0 && |textBuffer| > 100 {
          sent, textBuffer := Flush(sent, textBuffer);
        }
      case ToolStart =>
        assert "" + rest == rest;
        if textBuffer != "" {
          sent, textBuffer := Flush(sent, textBuffer);
        }
      case OtherEvent =>
        assert "" + rest == rest;
    }
  }

  /** `_run_turn`, as the text deltas it sends, the last one being the `text_done`: together
      they are the visible part of all the text streamed, however it was cut into deltas and
      wherever tool calls interrupted it. */
  method RunTurn(events: seq<TurnEvent>) returns (sent: seq<string>)
    ensures sent != [] && Concat(sent) == Visible(Streamed(events))
  {
    hide Output, Visible;
    sent := [];
    var st, textBuffer := START, "";
    var k := 0;
    assert events[k..] == events;
    while k < |events|
      invariant 0 <= k <= |events|
      invariant Concat(sent) + textBuffer + Output(st, Streamed(events[k..])) == Output(START, Streamed(events))
    {
      hide Concat;
      assert events[k..][1..] == events[k + 1..];
      sent, textBuffer, st := HandleEvent(sent, textBuffer, st, events[k], Streamed(events[k + 1..]));
      k := k + 1;
    }
    FinalFlush(st);
    ghost var before := Concat(sent) + textBuffer;
    if st.tagBuffer != "" && !st.inToolCall && !st.inThink {
      textBuffer := textBuffer + st.tagBuffer;
    }
    assert Concat(sent) + textBuffer == before + Output(st, "");
    sent, textBuffer := Flush(sent, textBuffer);
    TurnIsVisible(Streamed(events));
  }

  lemma FinalFlush(st: State)
    ensures Output(st, "") == if st.inToolCall || st.inThink then "" else st.tagBuffer
  {
  }

  lemma TurnIsVisible(text: string)
    ensures Output(START, text) == Visible(text)
  {
    OutputIsMeaning(START, text);
    assert "" + text == text;
  }
}
