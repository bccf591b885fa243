/** Conversation history: compressing old tool results and splitting bundled ones. */
module Conversion {
  import opened SeqFacts
  import L = LspFraming

  // ---- messages; `dump` and `shown` are the texts that `json.dumps` and `str` give ----

  datatype Item = TextItem(text: string) | DictItem(dump: string) | OtherItem(shown: string)

  datatype Payload =
    Absent | Str(text: string) | Dict(dump: string) | Items(items: seq<Item>) | OtherPayload(shown: string)

  datatype Block =
    | Text(text: string)
    | Thinking(content: string, signature: string)
    | ToolUse(id: string, name: string, input: string)
    | ToolResult(toolUseId: string, payload: Payload, isError: bool)
    | Image(mediaType: string, data: string)
    | ServerToolUse(id: string, name: string, input: string, signature: string)
    | ServerToolResult(toolUseId: string, serverContent: string, signature: string)

  datatype Message = Message(role: string, content: seq<Block>)

  function ItemText(item: Item): string {
    match item
    case TextItem(text) => text
    case DictItem(dump) => dump
    case OtherItem(shown) => shown
  }

  function ItemTexts(items: seq<Item>): seq<string> {
    if items == [] then [] else [ItemText(items[0])] + ItemTexts(items[1..])
  }

  /** `serialize_tool_result` */
  function Serialize(content: Payload): string {
    match content
    case Absent => ""
    case Str(text) => text
    case Dict(dump) => dump
    case Items(items) => Join(ItemTexts(items))
    case OtherPayload(shown) => shown
  }

  // ---- truncation; `strip` is `_strip_url_list_trailer` ----

  const PREVIEW_CHARS := 250
  const MARKER := "[v2.13 compressed]"
  const LEGACY_MARKER := "[v2.9 compressed]"

  predicate IsMarked(body: string) {
    MARKER <= body || LEGACY_MARKER <= body
  }

  function Marked(body: string, strip: string -> string): string
    requires |body| > PREVIEW_CHARS
  {
    MARKER + (" preview (250 chars of " + L.Decimal(|body|) + "):\n" + strip(body[..PREVIEW_CHARS]) + "\n"
    + "[full content omitted to reduce prefill cost — " + L.Decimal(|body| - PREVIEW_CHARS)
    + " chars hidden. The most recent tool result for this turn was kept "
    + "intact; refer to it for the complete payload.]")
  }

  /** `_truncate_tool_result_payload` */
  function Truncate(content: Payload, strip: string -> string): string {
    var body := Serialize(content);
    if IsMarked(body) || |body| <= PREVIEW_CHARS then body else Marked(body, strip)
  }

  function CompressBlock(b: Block, strip: string -> string): Block {
    if b.ToolResult? then b.(payload := Str(Truncate(b.payload, strip))) else b
  }

  lemma TruncateIsIdempotent(content: Payload, strip: string -> string)
    ensures Truncate(Str(Truncate(content, strip)), strip) == Truncate(content, strip)
  {
    var body := Serialize(content);
    if |body| > PREVIEW_CHARS {
      MarkedIsMarked(body, strip);
    }
    hide Serialize, IsMarked, Marked;
    SerializeString(Truncate(content, strip));
  }

  lemma MarkedIsMarked(body: string, strip: string -> string)
    requires |body| > PREVIEW_CHARS
    ensures IsMarked(Marked(body, strip))
  {
    hide L.Decimal;
  }

  lemma SerializeString(text: string)
    ensures Serialize(Str(text)) == text
  {
  }

  // ---- when truncation lengthens a body ----

  /** The fixed part of the marker text. */
  const MARKER_CHARS := 204

  lemma MarkedLength(body: string, strip: string -> string)
    requires |body| > PREVIEW_CHARS
    ensures |Marked(body, strip)| == MARKER_CHARS
      + |L.Decimal(|body|)| + |L.Decimal(|body| - PREVIEW_CHARS)| + |strip(body[..PREVIEW_CHARS])|
  {
    hide L.Decimal;
  }

  /** Truncation lengthens a body exactly when it cuts it and the marker, the two counts and
      the stripped preview together are longer than the body was. */
  lemma CompressionGrowsWhen(body: string, strip: string -> string)
    ensures |Truncate(Str(body), strip)| > |body| <==>
      && !IsMarked(body) && |body| > PREVIEW_CHARS
      && MARKER_CHARS + |L.Decimal(|body|)| + |L.Decimal(|body| - PREVIEW_CHARS)| + |strip(body[..PREVIEW_CHARS])| > |body|
  {
    SerializeString(body);
    if |body| > PREVIEW_CHARS {
      MarkedLength(body, strip);
    }
    hide Serialize, IsMarked, Marked, L.Decimal;
  }

  lemma {:induction false} DecimalLength(n: nat)
    ensures 1 <= |L.Decimal(n)| <= 1 + n / 10
    ensures 10 <= n < 100 ==> |L.Decimal(n)| == 2
    ensures 100 <= n < 1000 ==> |L.Decimal(n)| == 3
  {
    if n >= 10 {
      DecimalLength(n / 10);
    }
  }

  /** With a stripper that removes nothing, as for a preview without URL lines, the bodies that
      grow are those of 251 to 459 characters. */
  lemma CompressionCanGrow(body: string)
    ensures |Truncate(Str(body), (preview: string) => preview)| > |body| <==>
      !IsMarked(body) && PREVIEW_CHARS < |body| < 460
  {
    CompressionGrowsWhen(body, (preview: string) => preview);
    if |body| > PREVIEW_CHARS {
      DecimalLength(|body|);
      DecimalLength(|body| - PREVIEW_CHARS);
    }
    hide Truncate, IsMarked, L.Decimal;
  }

  // ---- compression ----

  predicate IsResultMessage(m: Message) {
    m.content != [] && forall i :: 0 <= i < |m.content| ==> m.content[i].ToolResult?
  }

  function CompressBlocks(bs: seq<Block>, strip: string -> string): (r: seq<Block>)
    ensures |r| == |bs| && forall i :: 0 <= i < |bs| ==> r[i] == CompressBlock(bs[i], strip)
  {
    if bs == [] then [] else [CompressBlock(bs[0], strip)] + CompressBlocks(bs[1..], strip)
  }

  function CompressMessage(m: Message, strip: string -> string): Message {
    if IsResultMessage(m) then Message(m.role, CompressBlocks(m.content, strip)) else m
  }

  function CompressAll(ms: seq<Message>, strip: string -> string): (r: seq<Message>)
    ensures |r| == |ms| && forall i :: 0 <= i < |ms| ==> r[i] == CompressMessage(ms[i], strip)
  {
    if ms == [] then [] else [CompressMessage(ms[0], strip)] + CompressAll(ms[1..], strip)
  }

  /** Where the trailing run of result-only messages starts. */
  function TrailStart(ms: seq<Message>): (n: nat)
    ensures n <= |ms|
    ensures n > 0 ==> !IsResultMessage(ms[n - 1])
    ensures forall i :: n <= i < |ms| ==> IsResultMessage(ms[i])
  {
    if ms == [] || !IsResultMessage(ms[|ms| - 1]) then |ms| else TrailStart(ms[..|ms| - 1])
  }

  /** Everything before the trailing run is compressed, and the run is kept. */
  function Compress(ms: seq<Message>, strip: string -> string): (r: seq<Message>)
    ensures |r| == |ms|
  {
    CompressAll(ms[..TrailStart(ms)], strip) + ms[TrailStart(ms)..]
  }

  lemma CompressAt(ms: seq<Message>, strip: string -> string, i: nat)
    requires i < |ms|
    ensures Compress(ms, strip)[i] == if i < TrailStart(ms) then CompressMessage(ms[i], strip) else ms[i]
  {
    hide CompressMessage, IsResultMessage, TrailStart;
    var n := TrailStart(ms);
    var head := CompressAll(ms[..n], strip);
    if i < n {
      assert head[i] == CompressMessage(ms[..n][i], strip);
    } else {
      assert ms[n..][i - n] == ms[i];
    }
  }

  method CompressOldToolResults(ms: seq<Message>, strip: string -> string) returns (out: seq<Message>)
    ensures out == Compress(ms, strip)
  {
    hide CompressMessage, IsResultMessage, TrailStart, Compress;
    if ms == [] {
      CompressNothing(ms, strip);
      return ms;
    }
    var preserveFrom := PreserveFrom(ms);
    if preserveFrom == 0 {
      CompressNothing(ms, strip);
      return ms;
    }
    out := [];
    var idx := 0;
    while idx < |ms|
      invariant 0 <= idx <= |ms| && out == Compress(ms, strip)[..idx]
    {
      CompressAt(ms, strip, idx);
      var m := ms[idx];
      if idx < preserveFrom {
        m := Compressed(m, strip);
      }
      out := out + [m];
      idx := idx + 1;
    }
  }

  lemma CompressNothing(ms: seq<Message>, strip: string -> string)
    requires TrailStart(ms) == 0 || ms == []
    ensures Compress(ms, strip) == ms
  {
  }

  /** The walk from the tail. */
  method PreserveFrom(ms: seq<Message>) returns (preserveFrom: nat)
    ensures preserveFrom == TrailStart(ms)
  {
    preserveFrom := |ms|;
    var i := |ms|;
    assert ms[..i] == ms;
    while i > 0
      invariant 0 <= i <= |ms| && preserveFrom == i
      invariant TrailStart(ms) == TrailStart(ms[..i])
    {
      i := i - 1;
      assert ms[..i + 1][..i] == ms[..i];
      if IsResultMessage(ms[i]) {
        preserveFrom := i;
      } else {
        break;
      }
    }
  }

  /** The loop body for a message before the trailing run. */
  method Compressed(m: Message, strip: string -> string) returns (r: Message)
    ensures r == CompressMessage(m, strip)
  {
    r := m;
    if IsResultMessage(m) {
      var content := CompressedContent(m.content, strip);
      r := Message(m.role, content);
    }
  }

  method CompressedContent(bs: seq<Block>, strip: string -> string) returns (out: seq<Block>)
    ensures out == CompressBlocks(bs, strip)
  {
    out := [];
    for k := 0 to |bs|
      invariant |out| == k && forall j :: 0 <= j < k ==> out[j] == CompressBlock(bs[j], strip)
    {
      out := out + [CompressBlock(bs[k], strip)];
    }
  }

  // ---- laws of compression ----

  lemma CompressMessageKeeps(m: Message, strip: string -> string)
    ensures var r := CompressMessage(m, strip);
      && IsResultMessage(r) == IsResultMessage(m)
      && CompressMessage(r, strip) == r
      && r.role == m.role && |r.content| == |m.content|
      && forall i :: 0 <= i < |m.content| ==> SameFrame(r.content[i], m.content[i])
  {
    if IsResultMessage(m) {
      var r := CompressMessage(m, strip);
      assert IsResultMessage(r);
      var again := CompressBlocks(r.content, strip);
      forall i | 0 <= i < |m.content| ensures again[i] == r.content[i] && SameFrame(r.content[i], m.content[i]) {
        TruncateIsIdempotent(m.content[i].payload, strip);
      }
      assert again == r.content;
    }
  }

  /** Only the payload of a tool result may differ. */
  predicate SameFrame(a: Block, b: Block) {
    if b.ToolResult? then a.ToolResult? && a.toolUseId == b.toolUseId && a.isError == b.isError else a == b
  }

  predicate KeepsShape(a: Message, b: Message) {
    && a.role == b.role && |a.content| == |b.content|
    && forall i :: 0 <= i < |b.content| ==> SameFrame(a.content[i], b.content[i])
  }

  /** Compression keeps the messages, their roles and blocks, and every tool id and error flag;
      the trailing run and every message that is not result-only stay as they are. */
  lemma CompressKeepsShape(ms: seq<Message>, strip: string -> string)
    ensures var r := Compress(ms, strip);
      && |r| == |ms| && TrailStart(r) == TrailStart(ms) && r[TrailStart(ms)..] == ms[TrailStart(ms)..]
      && forall i :: 0 <= i < |ms| ==> KeepsShape(r[i], ms[i]) && (!IsResultMessage(ms[i]) ==> r[i] == ms[i])
  {
    var r := Compress(ms, strip);
    forall i | 0 <= i < |ms|
      ensures KeepsShape(r[i], ms[i]) && (!IsResultMessage(ms[i]) ==> r[i] == ms[i])
      ensures IsResultMessage(r[i]) == IsResultMessage(ms[i])
    {
      CompressAt(ms, strip, i);
      CompressMessageKeeps(ms[i], strip);
    }
    SameTrail(r, ms);
  }

  lemma {:induction false} SameTrail(a: seq<Message>, b: seq<Message>)
    requires |a| == |b| && forall i :: 0 <= i < |a| ==> IsResultMessage(a[i]) == IsResultMessage(b[i])
    ensures TrailStart(a) == TrailStart(b)
    decreases |a|
  {
    if a != [] {
      SameTrail(a[..|a| - 1], b[..|b| - 1]);
    }
  }

  lemma TrailOfSnoc(ms: seq<Message>, m: Message)
    ensures TrailStart(ms + [m]) == if IsResultMessage(m) then TrailStart(ms) else |ms| + 1
  {
    hide IsResultMessage;
    assert (ms + [m])[..|ms|] == ms;
  }

  lemma {:induction false} TrailOfAppend(a: seq<Message>, b: seq<Message>)
    ensures TrailStart(a + b) == if TrailStart(b) > 0 then |a| + TrailStart(b) else TrailStart(a)
    decreases |b|
  {
    hide IsResultMessage, TrailStart;
    if b == [] {
      assert a + b == a;
    } else {
      var n := |b| - 1;
      assert b == b[..n] + [b[n]] && a + b == a + b[..n] + [b[n]];
      TrailOfAppend(a, b[..n]);
      TrailOfSnoc(b[..n], b[n]);
      TrailOfSnoc(a + b[..n], b[n]);
    }
  }

  /** Compressing on every request is the same as compressing once, when the history grows by
      any messages in between. */
  lemma CompressOnceIsEnough(ms: seq<Message>, more: seq<Message>, strip: string -> string)
    ensures Compress(Compress(ms, strip) + more, strip) == Compress(ms + more, strip)
  {
    hide Compress, CompressMessage, IsResultMessage, TrailStart, KeepsShape;
    var once := Compress(ms, strip);
    CompressKeepsShape(ms, strip);
    TrailOfAppend(ms, more);
    TrailOfAppend(once, more);
    var a, b := once + more, ms + more;
    var n := TrailStart(b);
    forall i | 0 <= i < |b| ensures Compress(a, strip)[i] == Compress(b, strip)[i] {
      CompressAt(a, strip, i);
      CompressAt(b, strip, i);
      if i < |ms| {
        CompressAt(ms, strip, i);
        CompressMessageKeeps(ms[i], strip);
      }
    }
  }

  lemma CompressIsIdempotent(ms: seq<Message>, strip: string -> string)
    ensures Compress(Compress(ms, strip), strip) == Compress(ms, strip)
  {
    CompressOnceIsEnough(ms, [], strip);
    assert Compress(ms, strip) + [] == Compress(ms, strip) && ms + [] == ms;
  }
}
