/** Content-Length framing of the LSP base protocol over a byte stream. */
module LspFraming {
  import opened Text
  import opened Wrappers

  /** A byte, written as the character with its code. */
  type byte = c: char | c as int < 256 witness 'a'

  // ---- Python text helpers, on ASCII ----

  predicate IsDigit(c: char) {
    '0' <= c <= '9'
  }

  function LowerChar(c: char): char {
    if 'A' <= c <= 'Z' then (c as int + 32) as char else c
  }

  function Lower(s: string): string {
    seq(|s|, i requires 0 <= i < |s| => LowerChar(s[i]))
  }

  /** `str.partition(":")`, keeping the two outer parts. */
  function Partition(s: string): (string, string) {
    if s == [] then ([], [])
    else if s[0] == ':' then ([], s[1..])
    else
      var (key, value) := Partition(s[1..]);
      ([s[0]] + key, value)
  }

  // ---- integers ----

  function Digit(n: nat): byte
    requires n < 10
  {
    ('0' as int + n) as char
  }

  function Decimal(n: nat): (r: seq<byte>) {
    if n < 10 then [Digit(n)] else Decimal(n / 10) + [Digit(n % 10)]
  }

  /** Digits, with single underscores allowed between them. */
  function ReadDigits(s: string): Option<nat> {
    if s == [] || !IsDigit(s[|s| - 1]) then None
    else
      var d := s[|s| - 1] as int - '0' as int;
      var front := s[..|s| - 1];
      if front == [] then Some(d)
      else
        match ReadDigits(if front[|front| - 1] == '_' then front[..|front| - 1] else front)
        case None => None
        case Some(n) => Some(n * 10 + d)
  }

  /** `int(text)` of stripped text. */
  function ReadInt(s: string): Option<int> {
    if s != [] && (s[0] == '-' || s[0] == '+') then
      match ReadDigits(s[1..])
      case None => None
      case Some(n) =>
        var m: int := n;
        Some(if s[0] == '-' then -m else m)
    else
      match ReadDigits(s)
      case None => None
      case Some(n) => Some(n)
  }

  lemma {:induction false} DecimalReadsBack(n: nat)
    ensures Decimal(n) != [] && ReadDigits(Decimal(n)) == Some(n)
    ensures forall i :: 0 <= i < |Decimal(n)| ==> IsDigit(Decimal(n)[i])
  {
    if n >= 10 {
      DecimalReadsBack(n / 10);
      var s := Decimal(n);
      assert s[..|s| - 1] == Decimal(n / 10);
      assert IsDigit(Decimal(n / 10)[|Decimal(n / 10)| - 1]);
    }
  }

  // ---- frames ----

  const HEADER := "Content-Length: "
  const CRLF := "\r\n"

  function Frame(body: seq<byte>): (r: seq<byte>) {
    HEADER + Decimal(|body|) + "\r\n\r\n" + body
  }

  /** `readline`: through the next newline, or to the end of the stream. */
  function LineLength(s: seq<byte>): (n: nat)
    ensures n <= |s|
    ensures s != [] ==> n > 0
  {
    if s == [] then 0 else if s[0] == '\n' then 1 else 1 + LineLength(s[1..])
  }

  datatype Received = Body(body: seq<byte>) | NotAscii | BadLength | Incomplete

  datatype Headers = Headers(fields: map<string, string>, consumed: nat) | HeaderNotAscii

  predicate IsAscii(s: string) {
    forall i :: 0 <= i < |s| ==> s[i] as int < 128
  }

  /** Header lines up to the first blank one, starting at `pos`. */
  function ReadHeaders(s: seq<byte>, pos: nat, fields: map<string, string>): (h: Headers)
    requires pos <= |s|
    ensures h.Headers? ==> pos <= h.consumed <= |s|
    decreases |s| - pos
  {
    var n := LineLength(s[pos..]);
    var line := s[pos..][..n];
    if !IsAscii(line) then HeaderNotAscii
    else if Strip(line) == [] then Headers(fields, pos + n)
    else
      var (key, value) := Partition(Strip(line));
      ReadHeaders(s, pos + n, fields[Lower(Strip(key)) := Strip(value)])
  }

  /** What one `receive_message` makes of the stream, and how much it consumes. */
  function Receive(s: seq<byte>): (Received, nat) {
    match ReadHeaders(s, 0, map[])
    case HeaderNotAscii => (NotAscii, 0)
    case Headers(fields, used) =>
      match ReadInt(if "content-length" in fields then fields["content-length"] else "0")
      case None => (BadLength, used)
      case Some(n) =>
        if n < 0 then (BadLength, used)
        else if used + n > |s| then (Incomplete, used)
        else (Body(s[used..used + n]), used + n)
  }

  class Pipe {
    var bytes: seq<byte>

    constructor ()
      ensures bytes == []
    {
      bytes := [];
    }

    method Write(s: seq<byte>)
      modifies this
      ensures bytes == old(bytes) + s
    {
      bytes := bytes + s;
    }

    method ReadLine() returns (line: seq<byte>)
      modifies this
      ensures line == old(bytes)[..LineLength(old(bytes))]
      ensures bytes == old(bytes)[LineLength(old(bytes))..]
    {
      var n := LineLength(bytes);
      line := bytes[..n];
      bytes := bytes[n..];
    }
  }

  method SendMessage(pipe: Pipe, body: seq<byte>)
    modifies pipe
    ensures pipe.bytes == old(pipe.bytes) + Frame(body)
  {
    var header: seq<byte> := HEADER + Decimal(|body|) + "\r\n\r\n";
    pipe.Write(header + body);
    assert old(pipe.bytes) + (header + body) == old(pipe.bytes) + Frame(body);
  }

  method ReceiveHeaders(pipe: Pipe) returns (h: Option<map<string, string>>)
    modifies pipe
    ensures var r := ReadHeaders(old(pipe.bytes), 0, map[]);
      if r.Headers? then h == Some(r.fields) && pipe.bytes == old(pipe.bytes)[r.consumed..] else h == None
  {
    hide Strip, Partition, Lower, LineLength, IsAscii;
    ghost var s := pipe.bytes;
    ghost var pos := 0;
    var headers: map<string, string> := map[];
    while true
      invariant 0 <= pos <= |s| && pipe.bytes == s[pos..]
      invariant ReadHeaders(s, pos, headers) == ReadHeaders(s, 0, map[])
      decreases |s| - pos
    {
      ghost var n := LineLength(s[pos..]);
      var line := pipe.ReadLine();
      assert line == s[pos..][..n] && s[pos..][n..] == s[pos + n..];
      if !IsAscii(line) { return None; }
      var text := Strip(line);
      if text == [] { return Some(headers); }
      BlankStripsToNothing();
      assert line != [];
      var parts := Partition(text);
      headers := headers[Lower(Strip(parts.0)) := Strip(parts.1)];
      pos := pos + n;
    }
  }

  lemma BlankStripsToNothing()
    ensures Strip([]) == []
  {
  }

  method ReceiveMessage(pipe: Pipe) returns (r: Received)
    modifies pipe
    ensures r == Receive(old(pipe.bytes)).0
    ensures r.Body? ==> pipe.bytes == old(pipe.bytes)[Receive(old(pipe.bytes)).1..]
  {
    hide ReadInt, ReadHeaders;
    ghost var s := pipe.bytes;
    ghost var used := ReadHeaders(s, 0, map[]);
    var headers := ReceiveHeaders(pipe);
    if headers.None? { return NotAscii; }
    var fields := headers.value;
    var length := ReadInt(if "content-length" in fields then fields["content-length"] else "0");
    if length.None? || length.value < 0 { return BadLength; }
    var n := length.value;
    if n > |pipe.bytes| { return Incomplete; }
    assert pipe.bytes[..n] == s[used.consumed..used.consumed + n];
    assert pipe.bytes[n..] == s[used.consumed + n..];
    r := Body(pipe.bytes[..n]);
    pipe.bytes := pipe.bytes[n..];
  }

  // ---- framing is self-delimiting ----

  lemma {:induction false} LineEndsAtNewline(a: seq<byte>, rest: seq<byte>)
    requires '\n' !in a
    ensures LineLength(a + ['\n'] + rest) == |a| + 1
  {
    if a != [] {
      assert (a + ['\n'] + rest)[1..] == a[1..] + ['\n'] + rest;
      LineEndsAtNewline(a[1..], rest);
    }
  }

  lemma StripTrailing(a: string)
    requires a != [] && !IsSpace(a[0]) && !IsSpace(a[|a| - 1])
    ensures Strip(a) == a && Strip(a + "\r\n") == a
  {
    var s := a + "\r\n";
    assert StripLeft(s) == s;
    assert s[..|s| - 1] == a + "\r";
    assert (a + "\r")[..|a|] == a;
    assert StripRight(a + "\r") == StripRight(a);
  }

  lemma {:induction false} PartitionAtFirstColon(a: string, b: string)
    requires ':' !in a
    ensures Partition(a + ":" + b) == (a, b)
  {
    var s := a + ":" + b;
    if a == [] {
      assert s[1..] == b;
    } else {
      assert s[1..] == a[1..] + ":" + b;
      assert s[0] == a[0] && a[0] in a;
      PartitionAtFirstColon(a[1..], b);
      assert a == [a[0]] + a[1..];
    }
  }

  lemma HeaderLineStrips(n: nat)
    ensures HEADER + Decimal(n) != [] && Strip(HEADER + Decimal(n) + CRLF) == HEADER + Decimal(n)
  {
    DecimalReadsBack(n);
    var d, text := Decimal(n), HEADER + Decimal(n);
    assert text[|text| - 1] == d[|d| - 1];
    assert IsDigit(d[|d| - 1]);
    StripTrailing(text);
  }

  lemma HeaderLineIsAscii(n: nat)
    ensures IsAscii(HEADER + Decimal(n) + CRLF)
  {
    DecimalReadsBack(n);
    var d, line := Decimal(n), HEADER + Decimal(n) + CRLF;
    forall i | 0 <= i < |line| ensures line[i] as int < 128 {
      if |HEADER| <= i < |HEADER| + |d| { assert line[i] == d[i - |HEADER|] && IsDigit(d[i - |HEADER|]); }
    }
  }

  lemma HeaderLineSplits(n: nat)
    ensures Partition(HEADER + Decimal(n)) == ("Content-Length", " " + Decimal(n))
  {
    assert HEADER + Decimal(n) == "Content-Length" + ":" + (" " + Decimal(n));
    PartitionAtFirstColon("Content-Length", " " + Decimal(n));
  }

  lemma HeaderNameNormalizes()
    ensures Lower(Strip("Content-Length")) == "content-length"
  {
    StripTrailing("Content-Length");
    assert Lower("Content-Length") == "content-length";
  }

  lemma HeaderValueReads(n: nat)
    ensures Strip(" " + Decimal(n)) == Decimal(n) && ReadInt(Decimal(n)) == Some(n)
  {
    DecimalReadsBack(n);
    var d := Decimal(n);
    assert IsDigit(d[0]) && IsDigit(d[|d| - 1]);
    StripTrailing(d);
    assert (" " + d)[1..] == d;
    assert StripLeft(" " + d) == StripLeft(d);
  }

  /** Receiving from a frame followed by anything yields exactly its body, whatever bytes
      the body holds, and consumes exactly the frame. */
  lemma FrameIsSelfDelimiting(body: seq<byte>, rest: seq<byte>)
    ensures Receive(Frame(body) + rest) == (Body(body), |Frame(body)|)
  {
    hide ReadHeaders, ReadInt, Decimal;
    var s := Frame(body) + rest;
    var used := |HEADER + Decimal(|body|)| + 4;
    assert s == HEADER + Decimal(|body|) + "\r\n\r\n" + (body + rest);
    HeadersOfFrame(|body|, s, body + rest);
    HeaderValueReads(|body|);
    assert s[used..used + |body|] == body;
  }

  lemma HeadersOfFrame(n: nat, s: seq<byte>, rest: seq<byte>)
    requires s == HEADER + Decimal(n) + "\r\n\r\n" + rest
    ensures ReadHeaders(s, 0, map[]) == Headers(map["content-length" := Decimal(n)], |HEADER + Decimal(n)| + 4)
  {
    hide Strip, Partition, Lower, IsAscii, Decimal, LineLength;
    var text: seq<byte> := HEADER + Decimal(n);
    var fields := map["content-length" := Decimal(n)];
    HeaderLineStrips(n);
    HeaderLineIsAscii(n);
    HeaderLineSplits(n);
    HeaderNameNormalizes();
    HeaderValueReads(n);
    FirstLine(n, s, rest);
    SecondLine(s, text, rest);
    assert s[0..] == s;
    assert ReadHeaders(s, 0, map[]) == ReadHeaders(s, |text| + 2, fields);
    assert ReadHeaders(s, |text| + 2, fields) == Headers(fields, |text| + 4);
  }

  lemma FirstLine(n: nat, s: seq<byte>, rest: seq<byte>)
    requires s == HEADER + Decimal(n) + "\r\n\r\n" + rest
    ensures LineLength(s) == |HEADER + Decimal(n)| + 2
    ensures s[..LineLength(s)] == HEADER + Decimal(n) + CRLF
  {
    hide Decimal, LineLength;
    var text: seq<byte> := HEADER + Decimal(n);
    DecimalReadsBack(n);
    assert '\n' !in text + ['\r'];
    LineEndsAtNewline(text + ['\r'], CRLF + rest);
    assert s == (text + ['\r']) + ['\n'] + (CRLF + rest);
  }

  lemma SecondLine(s: seq<byte>, text: seq<byte>, rest: seq<byte>)
    requires s == text + "\r\n\r\n" + rest
    ensures LineLength(s[|text| + 2..]) == 2 && s[|text| + 2..][..2] == CRLF
    ensures Strip(CRLF) == [] && IsAscii(CRLF)
  {
    assert s[|text| + 2..] == CRLF + rest;
    var t := s[|text| + 2..];
    assert t[0] == '\r' && t[1..][0] == '\n';
  }

  // ---- whole conversations ----

  function Frames(bodies: seq<seq<byte>>): seq<byte> {
    if bodies == [] then [] else Frame(bodies[0]) + Frames(bodies[1..])
  }

  /** Receive until something other than a body comes back, at most `n` times. */
  function ReceiveUpTo(s: seq<byte>, n: nat): (seq<seq<byte>>, seq<byte>) {
    if n == 0 then ([], s)
    else
      var (r, used) := Receive(s);
      if r.Body? && used <= |s| then
        var (more, rest) := ReceiveUpTo(s[used..], n - 1);
        ([r.body] + more, rest)
      else ([], s)
  }

  /** Any sequence of bodies, sent one after another, is received in order, and nothing is
      left over. */
  lemma {:induction false} ConversationRoundTrips(bodies: seq<seq<byte>>)
    ensures ReceiveUpTo(Frames(bodies), |bodies|) == (bodies, [])
  {
    hide Receive, Frame;
    if bodies != [] {
      var head, rest := Frame(bodies[0]), Frames(bodies[1..]);
      FrameIsSelfDelimiting(bodies[0], rest);
      assert (head + rest)[|head|..] == rest;
      ConversationRoundTrips(bodies[1..]);
      assert bodies == [bodies[0]] + bodies[1..];
    }
  }
}
