/** What a history's blocks become on the OpenAI-compatible wire: every entry against the message
    it comes from. */
module WireContent {
  import opened Wrappers
  import opened SeqFacts
  import opened Conversion
  import opened OpenAiWire
  import opened OpenAiConversion
  import L = LspFraming

  // ---- the blocks of a message, read from the front ----

  function JoinedText(bs: seq<Block>): string {
    if bs == [] then "" else (if bs[0].Text? then bs[0].text else "") + JoinedText(bs[1..])
  }

  function UsesIn(bs: seq<Block>): seq<Call> {
    if bs == [] then []
    else (if bs[0].ToolUse? then [Call(bs[0].id, bs[0].name, bs[0].input)] else []) + UsesIn(bs[1..])
  }

  /** Texts and images, in order. */
  function ShownIn(bs: seq<Block>): seq<Part> {
    if bs == [] then []
    else
      (match bs[0]
       case Text(text) => [TextPart(text)]
       case Image(mediaType, data) => [ImagePart(mediaType, data)]
       case _ => [])
      + ShownIn(bs[1..])
  }

  lemma {:induction false} ReadSnoc(bs: seq<Block>, b: Block)
    ensures JoinedText(bs + [b]) == JoinedText(bs) + JoinedText([b])
    ensures UsesIn(bs + [b]) == UsesIn(bs) + UsesIn([b])
    ensures ShownIn(bs + [b]) == ShownIn(bs) + ShownIn([b])
    decreases |bs|
  {
    if bs == [] {
      assert [] + [b] == [b];
    } else {
      var rest := bs[1..];
      assert (bs + [b])[1..] == rest + [b] && (bs + [b])[0] == bs[0];
      ReadSnoc(rest, b);
      TakeSome(if bs[0].Text? then bs[0].text else "", JoinedText(rest), JoinedText([b]));
      TakeSome(if bs[0].ToolUse? then [Call(bs[0].id, bs[0].name, bs[0].input)] else [], UsesIn(rest), UsesIn([b]));
      ShownSnoc(bs, b);
    }
  }

  lemma ShownSnoc(bs: seq<Block>, b: Block)
    requires bs != [] && ShownIn(bs[1..] + [b]) == ShownIn(bs[1..]) + ShownIn([b])
    ensures ShownIn(bs + [b]) == ShownIn(bs) + ShownIn([b])
  {
    var rest := bs[1..];
    assert (bs + [b])[1..] == rest + [b] && (bs + [b])[0] == bs[0];
    var first := match bs[0]
      case Text(text) => [TextPart(text)]
      case Image(mediaType, data) => [ImagePart(mediaType, data)]
      case _ => [];
    TakeSome(first, ShownIn(rest), ShownIn([b]));
  }

  lemma OneRead(b: Block)
    ensures JoinedText([b]) == (if b.Text? then b.text else "")
    ensures UsesIn([b]) == (if b.ToolUse? then [Call(b.id, b.name, b.input)] else [])
    ensures ShownIn([b]) ==
      if b.Text? then [TextPart(b.text)] else if b.Image? then [ImagePart(b.mediaType, b.data)] else []
  {
    assert [b][1..] == [];
  }

  /** One more turn of the block loops. */
  lemma LoopsSnoc(shorter: seq<Block>, b: Block)
    ensures var bs := shorter + [b];
      && Concat(Texts(bs)) == Concat(Texts(shorter)) + (if b.Text? then b.text else "")
      && (Texts(bs) == [] <==> Texts(shorter) == [] && !b.Text?)
      && Calls(bs) == Calls(shorter) + (if b.ToolUse? then [Call(b.id, b.name, b.input)] else [])
      && Parts(bs) == Parts(shorter)
           + if b.Text? then [TextPart(b.text)] else if b.Image? then [ImagePart(b.mediaType, b.data)] else []
  {
    assert (shorter + [b])[..|shorter|] == shorter;
    var texts := Texts(shorter);
    if b.Text? {
      assert (texts + [b.text])[..|texts|] == texts;
    } else {
      assert texts + [] == texts && Concat(texts) + "" == Concat(texts);
    }
  }

  /** The block loops collect exactly these. */
  lemma {:induction false} LoopsRead(bs: seq<Block>)
    ensures Concat(Texts(bs)) == JoinedText(bs) && Calls(bs) == UsesIn(bs) && Parts(bs) == ShownIn(bs)
    ensures Texts(bs) == [] <==> forall i :: 0 <= i < |bs| ==> !bs[i].Text?
    decreases |bs|
  {
    hide Concat, Texts, Calls, Parts, JoinedText, UsesIn, ShownIn;
    if bs == [] {
      NothingRead();
    } else {
      var n := |bs| - 1;
      var shorter, b := bs[..n], bs[n];
      LoopsRead(shorter);
      assert bs == shorter + [b];
      ReadSnoc(shorter, b);
      OneRead(b);
      LoopsSnoc(shorter, b);
    }
  }

  lemma NothingRead()
    ensures Texts([]) == [] && Concat([]) == JoinedText([]) && Calls([]) == UsesIn([]) && Parts([]) == ShownIn([])
  {
  }

  // ---- one message, one entry ----

  ghost predicate HasBlock(bs: seq<Block>, wanted: Block -> bool) {
    exists i :: 0 <= i < |bs| && wanted(bs[i])
  }

  /** What an entry carries of its message. A tool entry carries the first result; a message of the
      assistant with tool uses carries them and its joined text; any other message with an image or
      with more than one block its texts and images in order; and the rest its joined text. */
  ghost predicate Carries(w: Wire, m: Message) {
    var bs := m.content;
    if m.role == "tool" || (|bs| == 1 && bs[0].ToolResult?) then
      bs != [] && bs[0].ToolResult? && w == ToolEntry(bs[0].toolUseId, bs[0].payload)
    else if m.role == "assistant" && HasBlock(bs, (b: Block) => b.ToolUse?) then
      w == CallsEntry(if HasBlock(bs, (b: Block) => b.Text?) then Some(JoinedText(bs)) else None, UsesIn(bs))
    else if |bs| > 1 || HasBlock(bs, (b: Block) => b.Image?) then w == PartsEntry(m.role, ShownIn(bs))
    else w == TextEntry(m.role, JoinedText(bs))
  }

  lemma EntryCarries(m: Message)
    ensures Convert(m).Some? ==> Carries(Convert(m).value, m)
  {
    LoopsRead(m.content);
    hide Concat, Texts, Calls, Parts, JoinedText, UsesIn, ShownIn;
    var bs := m.content;
    assert HasToolUse(bs) <==> HasBlock(bs, (b: Block) => b.ToolUse?);
    assert HasImage(bs) <==> HasBlock(bs, (b: Block) => b.Image?);
    assert Texts(bs) != [] <==> HasBlock(bs, (b: Block) => b.Text?);
  }

  // ---- the history ----

  /** All blocks of a history under the roles of their messages, in order. */
  function Spoken(ms: seq<Message>): seq<(string, Block)> {
    if ms == [] then [] else SpokenBy(ms[0].role, ms[0].content) + Spoken(ms[1..])
  }

  function SpokenBy(role: string, bs: seq<Block>): seq<(string, Block)> {
    seq(|bs|, i requires 0 <= i < |bs| => (role, bs[i]))
  }

  lemma {:induction false} SpokenAppend(a: seq<Message>, b: seq<Message>)
    ensures Spoken(a + b) == Spoken(a) + Spoken(b)
    decreases |a|
  {
    hide SpokenBy;
    if a == [] {
      assert a + b == b;
    } else {
      assert (a + b)[1..] == a[1..] + b && (a + b)[0] == a[0];
      SpokenAppend(a[1..], b);
      TakeSome(SpokenBy(a[0].role, a[0].content), Spoken(a[1..]), Spoken(b));
    }
  }

  lemma {:induction false} SinglesSpeak(role: string, bs: seq<Block>)
    ensures Spoken(Singles(role, bs)) == SpokenBy(role, bs)
    ensures forall m :: m in Singles(role, bs) ==> |m.content| == 1 && m.role == role
    decreases |bs|
  {
    if bs != [] {
      SinglesSpeak(role, bs[1..]);
      assert Singles(role, bs)[1..] == Singles(role, bs[1..]);
      assert SpokenBy(role, bs) == SpokenBy(role, [bs[0]]) + SpokenBy(role, bs[1..]);
    }
  }

  /** Splitting loses, adds and reorders nothing: only bundles of results come apart, into messages
      of one block. */
  lemma {:induction false} SplitKeepsBlocks(ms: seq<Message>)
    ensures Spoken(Split(ms)) == Spoken(ms)
    ensures forall m :: m in Split(ms) ==> |m.content| == 1 || (m in ms && !IsResultMessage(m))
    ensures forall m :: m in ms && !IsResultMessage(m) ==> m in Split(ms)
    decreases |ms|
  {
    hide IsResultMessage, SpokenBy;
    if ms != [] {
      var m := ms[0];
      SplitKeepsBlocks(ms[1..]);
      SpokenAppend(SplitMessage(m), Split(ms[1..]));
      OneSplit(m);
      hide SplitMessage;
    }
  }

  lemma OneSplit(m: Message)
    ensures Spoken(SplitMessage(m)) == SpokenBy(m.role, m.content)
    ensures forall x :: x in SplitMessage(m) ==> |x.content| == 1 || (x == m && !IsResultMessage(m))
    ensures !IsResultMessage(m) ==> m in SplitMessage(m)
  {
    hide SpokenBy;
    SinglesSpeak(m.role, m.content);
    assert [m][1..] == [] && Spoken([m]) == SpokenBy(m.role, m.content) + [];
  }

  lemma {:induction false} ConvertedInOrder(ms: seq<Message>)
    requires ConvertAll(ms).Some?
    ensures var ws := ConvertAll(ms).value;
      |ws| == |ms| && forall k :: 0 <= k < |ws| ==> Carries(ws[k], ms[k])
    decreases |ms|
  {
    hide Convert, Carries;
    if ms != [] {
      EntryCarries(ms[0]);
      ConvertedInOrder(ms[1..]);
    }
  }

  /** The wire is the system text, if there is any, and then one entry for every message of the
      split history, in order, each carrying what its message holds. */
  lemma SerializedInOrder(system: string, ms: seq<Message>)
    requires SerializeOpenAi(system, ms).Some?
    ensures var ws, first := SerializeOpenAi(system, ms).value, if system == "" then 0 else 1;
      && |ws| == first + |Split(ms)| && (first == 1 ==> ws[0] == SystemEntry(system))
      && forall k :: 0 <= k < |Split(ms)| ==> Carries(ws[first + k], Split(ms)[k])
  {
    hide Carries, Split, ConvertAll;
    ConvertedInOrder(Split(ms));
  }

  // ---- the text of a result ----

  lemma {:induction false} ItemTextsAppend(a: seq<Item>, b: seq<Item>)
    ensures ItemTexts(a + b) == ItemTexts(a) + ItemTexts(b)
    ensures |ItemTexts(a)| == |a|
    decreases |a|
  {
    hide ItemText;
    if a == [] {
      assert a + b == b && ItemTexts(a) + ItemTexts(b) == ItemTexts(b);
    } else {
      assert (a + b)[1..] == a[1..] + b && (a + b)[0] == a[0];
      ItemTextsAppend(a[1..], b);
      TakeSome([ItemText(a[0])], ItemTexts(a[1..]), ItemTexts(b));
    }
  }

  lemma {:induction false} JoinAppend(a: seq<string>, b: seq<string>)
    requires a != [] && b != []
    ensures Join(a + b) == Join(a) + "\n" + Join(b)
    decreases |a|
  {
    assert (a + b)[1..] == a[1..] + b && (a + b)[0] == a[0];
    if |a| > 1 {
      JoinAppend(a[1..], b);
      assert a[0] + "\n" + (Join(a[1..]) + "\n" + Join(b)) == (a[0] + "\n" + Join(a[1..])) + "\n" + Join(b);
    } else {
      assert a[1..] + b == b;
    }
  }

  /** The text of a list of items is theirs, with a line break between each and the next. */
  lemma ItemsInOrder(a: seq<Item>, b: seq<Item>)
    requires a != [] && b != []
    ensures Serialize(Items(a + b)) == Serialize(Items(a)) + "\n" + Serialize(Items(b))
  {
    ItemTextsAppend(a, b);
    ItemTextsAppend(b, []);
    JoinAppend(ItemTexts(a), ItemTexts(b));
    hide Join, ItemTexts;
  }

  /** The text of anything else: a text stands for itself, and nothing is the empty text. */
  lemma OneItem(text: string)
    ensures forall item :: item in [TextItem(text), DictItem(text), OtherItem(text)] ==> Serialize(Items([item])) == text
    ensures Serialize(Str(text)) == Serialize(Dict(text)) == Serialize(OtherPayload(text)) == text
    ensures Serialize(Items([])) == Serialize(Absent) == ""
  {
    forall item | item in [TextItem(text), DictItem(text), OtherItem(text)] ensures ItemTexts([item]) == [text] {
      assert ItemTexts([item]) == [ItemText(item)] + ItemTexts([]);
    }
  }

  // ---- compressed results ----

  /** A body that is cut keeps its first 250 characters, stripped, behind a heading that gives its
      length; any other body goes out as it is. */
  lemma CutShowsPreview(content: Payload, strip: string -> string) returns (tail: string)
    ensures var body, r := Serialize(content), Truncate(content, strip);
      if |body| > 250 && !("[v2.13 compressed]" <= body) && !("[v2.9 compressed]" <= body) then
        r == "[v2.13 compressed]" + (" preview (250 chars of " + L.Decimal(|body|) + "):\n" + strip(body[..250]) + tail)
      else r == body
  {
    var body := Serialize(content);
    hide L.Decimal, Serialize;
    tail := "";
    if |body| > PREVIEW_CHARS && !IsMarked(body) {
      tail := MarkedShows(body, strip);
    }
  }

  /** The result is old: its message holds results only and one that does not comes later. */
  ghost predicate IsOld(ms: seq<Message>, i: nat)
    requires i < |ms|
  {
    IsResultMessage(ms[i]) && exists j :: i < j < |ms| && !IsResultMessage(ms[j])
  }

  /** Old results, and nothing else, go out truncated. */
  lemma OldResultsAreCut(ms: seq<Message>, strip: string -> string, i: nat, k: nat)
    requires i < |ms| && k < |ms[i].content|
    ensures var b, r := ms[i].content[k], Compress(ms, strip)[i];
      |r.content| == |ms[i].content| &&
      r.content[k] == if IsOld(ms, i) then ToolResult(b.toolUseId, Str(Truncate(b.payload, strip)), b.isError) else b
  {
    CompressAt(ms, strip, i);
    hide Truncate, Compress;
    assert i < TrailStart(ms) ==> !IsResultMessage(ms[TrailStart(ms) - 1]);
  }

  lemma MarkedShows(body: string, strip: string -> string) returns (tail: string)
    requires |body| > PREVIEW_CHARS
    ensures Marked(body, strip)
      == "[v2.13 compressed]" + (" preview (250 chars of " + L.Decimal(|body|) + "):\n" + strip(body[..250]) + tail)
  {
    hide L.Decimal;
    var hidden, rest := L.Decimal(|body| - PREVIEW_CHARS), "[full content omitted to reduce prefill cost — ";
    var kept := " chars hidden. The most recent tool result for this turn was kept ";
    var refer := "intact; refer to it for the complete payload.]";
    tail := "\n" + rest + hidden + kept + refer;
    var shown := " preview (250 chars of " + L.Decimal(|body|) + "):\n" + strip(body[..250]);
    JoinTail(shown, "\n", rest, hidden, kept, refer);
  }

  lemma JoinTail(x: string, a: string, b: string, c: string, d: string, e: string)
    ensures x + a + b + c + d + e == x + (a + b + c + d + e)
  {
  }
}
