/** Splitting bundled tool results and converting a history to the OpenAI-compatible shape. */
module OpenAiWire {
  import opened SeqFacts
  import opened Conversion

  // ---- splitting ----

  function Singles(role: string, bs: seq<Block>): seq<Message> {
    if bs == [] then [] else [Message(role, [bs[0]])] + Singles(role, bs[1..])
  }

  function SplitMessage(m: Message): seq<Message> {
    if |m.content| > 1 && IsResultMessage(m) then Singles(m.role, m.content) else [m]
  }

  /** One message per bundled tool result. */
  function Split(ms: seq<Message>): seq<Message> {
    if ms == [] then [] else SplitMessage(ms[0]) + Split(ms[1..])
  }

  method SplitBundledToolResults(ms: seq<Message>) returns (expanded: seq<Message>)
    ensures expanded == Split(ms)
  {
    hide SplitMessage;
    expanded := [];
    var k := 0;
    while k < |ms|
      invariant 0 <= k <= |ms| && expanded + Split(ms[k..]) == Split(ms)
    {
      assert ms[k..][1..] == ms[k + 1..];
      var pieces := Pieces(ms[k]);
      assert expanded + Split(ms[k..]) == expanded + pieces + Split(ms[k + 1..]);
      expanded := expanded + pieces;
      k := k + 1;
    }
    assert ms[k..] == [] && expanded + [] == expanded;
  }

  /** The loop body for one message. */
  method Pieces(m: Message) returns (pieces: seq<Message>)
    ensures pieces == SplitMessage(m)
  {
    if |m.content| > 1 && IsResultMessage(m) {
      hide IsResultMessage;
      pieces := [];
      var j := 0;
      while j < |m.content|
        invariant 0 <= j <= |m.content|
        invariant pieces + Singles(m.role, m.content[j..]) == Singles(m.role, m.content)
      {
        assert m.content[j..][1..] == m.content[j + 1..];
        TakeOne(pieces, Message(m.role, [m.content[j]]), Singles(m.role, m.content[j + 1..]));
        pieces := pieces + [Message(m.role, [m.content[j]])];
        j := j + 1;
      }
      assert m.content[j..] == [] && pieces + [] == pieces;
    } else {
      pieces := [m];
    }
  }

  lemma {:induction false} SplitAppend(a: seq<Message>, b: seq<Message>)
    ensures Split(a + b) == Split(a) + Split(b)
    decreases |a|
  {
    hide SplitMessage;
    if a == [] {
      assert a + b == b;
    } else {
      assert (a + b)[1..] == a[1..] + b;
      SplitAppend(a[1..], b);
    }
  }

  // ---- splitting and compressing commute ----

  lemma {:induction false} SinglesCompress(role: string, bs: seq<Block>, strip: string -> string)
    requires forall i :: 0 <= i < |bs| ==> bs[i].ToolResult?
    ensures Singles(role, CompressBlocks(bs, strip)) == CompressAll(Singles(role, bs), strip)
    decreases |bs|
  {
    hide CompressBlock;
    if bs != [] {
      var m := Message(role, [bs[0]]);
      assert IsResultMessage(m);
      assert CompressBlocks([bs[0]], strip) == [CompressBlock(bs[0], strip)];
      assert CompressBlocks(bs, strip)[1..] == CompressBlocks(bs[1..], strip);
      assert Singles(role, bs)[1..] == Singles(role, bs[1..]);
      SinglesCompress(role, bs[1..], strip);
    }
  }

  lemma SplitCompressedMessage(m: Message, strip: string -> string)
    ensures SplitMessage(CompressMessage(m, strip)) == CompressAll(SplitMessage(m), strip)
  {
    CompressMessageKeeps(m, strip);
    if IsResultMessage(m) {
      SinglesCompress(m.role, m.content, strip);
    }
    hide CompressBlock;
    assert [m][1..] == [];
  }

  lemma {:induction false} CompressAllAppend(a: seq<Message>, b: seq<Message>, strip: string -> string)
    ensures CompressAll(a + b, strip) == CompressAll(a, strip) + CompressAll(b, strip)
  {
    hide CompressMessage;
  }

  lemma {:induction false} SplitCompressed(ms: seq<Message>, strip: string -> string)
    ensures Split(CompressAll(ms, strip)) == CompressAll(Split(ms), strip)
    decreases |ms|
  {
    hide SplitMessage, CompressMessage;
    if ms != [] {
      SplitCompressedMessage(ms[0], strip);
      SplitCompressed(ms[1..], strip);
      assert CompressAll(ms, strip)[1..] == CompressAll(ms[1..], strip);
      CompressAllAppend(SplitMessage(ms[0]), Split(ms[1..]), strip);
    }
  }

  lemma {:induction false} SplitOfResults(ms: seq<Message>)
    requires forall i :: 0 <= i < |ms| ==> IsResultMessage(ms[i])
    ensures forall i :: 0 <= i < |Split(ms)| ==> IsResultMessage(Split(ms)[i])
    decreases |ms|
  {
    if ms != [] {
      SinglesAreResults(ms[0].role, ms[0].content);
      SplitOfResults(ms[1..]);
    }
  }

  lemma {:induction false} SinglesAreResults(role: string, bs: seq<Block>)
    requires forall i :: 0 <= i < |bs| ==> bs[i].ToolResult?
    ensures forall i :: 0 <= i < |Singles(role, bs)| ==> IsResultMessage(Singles(role, bs)[i])
    decreases |bs|
  {
    if bs != [] {
      SinglesAreResults(role, bs[1..]);
    }
  }

  lemma {:induction false} AllResultsHaveNoHead(ms: seq<Message>)
    requires forall i :: 0 <= i < |ms| ==> IsResultMessage(ms[i])
    ensures TrailStart(ms) == 0
    decreases |ms|
  {
    if ms != [] {
      AllResultsHaveNoHead(ms[..|ms| - 1]);
    }
  }

  lemma SplitTrailStart(ms: seq<Message>)
    ensures var n := TrailStart(ms);
      TrailStart(Split(ms)) == |Split(ms[..n])| && Split(ms) == Split(ms[..n]) + Split(ms[n..])
  {
    var n := TrailStart(ms);
    assert ms == ms[..n] + ms[n..];
    SplitAppend(ms[..n], ms[n..]);
    SplitHead(ms, n);
    hide IsResultMessage, Split, TrailStart;
    SplitOfResults(ms[n..]);
    AllResultsHaveNoHead(Split(ms[n..]));
    TrailOfAppend(Split(ms[..n]), Split(ms[n..]));
  }

  lemma SplitHead(ms: seq<Message>, n: nat)
    requires n <= |ms| && (n > 0 ==> !IsResultMessage(ms[n - 1]))
    ensures TrailStart(Split(ms[..n])) == |Split(ms[..n])|
  {
    hide IsResultMessage, Split;
    if n > 0 {
      assert ms[..n] == ms[..n - 1] + [ms[n - 1]];
      SplitEndsWith(ms[..n - 1], ms[n - 1]);
    } else {
      assert ms[..n] == [];
      SplitNothing();
    }
  }

  lemma SplitNothing()
    ensures Split([]) == []
  {
  }

  lemma SplitEndsWith(ms: seq<Message>, last: Message)
    requires !IsResultMessage(last)
    ensures Split(ms + [last]) == Split(ms) + [last]
    ensures TrailStart(Split(ms + [last])) == |Split(ms + [last])|
  {
    SplitAppend(ms, [last]);
    assert [last][1..] == [] && Split([last]) == [last];
  }

  /** It does not matter whether results are split or compressed first. */
  lemma SplitAndCompressCommute(ms: seq<Message>, strip: string -> string)
    ensures Split(Compress(ms, strip)) == Compress(Split(ms), strip)
  {
    hide Split, CompressAll, IsResultMessage, TrailStart;
    var n := TrailStart(ms);
    var head, trail := ms[..n], ms[n..];
    SplitAppend(CompressAll(head, strip), trail);
    SplitCompressed(head, strip);
    SplitTrailStart(ms);
    var all := Split(ms);
    assert all[..|Split(head)|] == Split(head) && all[|Split(head)|..] == Split(trail);
  }
}
