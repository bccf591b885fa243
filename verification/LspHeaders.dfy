/** Frames with any number of header lines. */
module LspHeaders {
  import opened Text
  import opened Wrappers
  import opened LspFraming

  datatype Header = Header(name: seq<byte>, value: seq<byte>)

  /** A name without a colon and a value, both without line feeds, without whitespace at their ends
      and in ASCII; the value may be empty. */
  predicate IsPlain(h: Header) {
    && h.name != [] && ':' !in h.name && '\n' !in h.name && '\n' !in h.value
    && Clean(h.name) && Clean(h.value) && IsAscii(h.name) && IsAscii(h.value)
  }

  function LineOf(h: Header): seq<byte> {
    h.name + ": " + h.value + CRLF
  }

  function HeaderText(hs: seq<Header>): seq<byte> {
    if hs == [] then CRLF else LineOf(hs[0]) + HeaderText(hs[1..])
  }

  /** The value of the last header of this name, in whatever case it is written. */
  function ValueOf(hs: seq<Header>, name: string): Option<string> {
    if hs == [] then None
    else
      var n := |hs| - 1;
      if Lower(hs[n].name) == name then Some(hs[n].value) else ValueOf(hs[..n], name)
  }

  // ---- one line ----

  lemma CleanStrips(s: string)
    requires Clean(s)
    ensures Strip(s) == s && Strip(" " + s) == s
  {
    assert (" " + s)[1..] == s;
    if s == [] {
      assert StripLeft(" ") == StripLeft([]);
    }
  }

  lemma {:induction false} TrailingSpaces(s: string, tail: string)
    requires forall i :: 0 <= i < |tail| ==> IsSpace(tail[i])
    ensures StripRight(s + tail) == StripRight(s)
    decreases |tail|
  {
    var n := |tail| - 1;
    if tail == [] {
      assert s + tail == s;
    } else {
      assert (s + tail)[..|s| + n] == s + tail[..n] && (s + tail)[|s| + n] == tail[n];
      TrailingSpaces(s, tail[..n]);
    }
  }

  /** What stripping and splitting make of a header line. */
  lemma LineReads(h: Header)
    requires IsPlain(h)
    ensures var (key, value) := Partition(Strip(LineOf(h)));
      Strip(LineOf(h)) != [] && Strip(key) == h.name && Strip(value) == h.value
  {
    var line, text := LineOf(h), h.name + ": " + h.value;
    assert line[0] == h.name[0] && StripLeft(line) == line;
    if h.value == [] {
      var shown := h.name + ":";
      assert line == shown + (" " + CRLF);
      TrailingSpaces(shown, " " + CRLF);
      assert shown[|shown| - 1] == ':' && StripRight(shown) == shown;
      assert shown == h.name + ":" + [];
      PartitionAtFirstColon(h.name, []);
    } else {
      TrailingSpaces(text, CRLF);
      assert text[|text| - 1] == h.value[|h.value| - 1] && StripRight(text) == text;
      assert text == h.name + ":" + (" " + h.value);
      PartitionAtFirstColon(h.name, " " + h.value);
    }
    CleanStrips(h.name);
    CleanStrips(h.value);
  }

  lemma LineIsOne(h: Header, rest: seq<byte>)
    requires IsPlain(h)
    ensures var s := LineOf(h) + rest;
      LineLength(s) == |LineOf(h)| && s[..LineLength(s)] == LineOf(h) && IsAscii(LineOf(h))
  {
    var front := h.name + ": " + h.value + "\r";
    assert LineOf(h) == front + ['\n'];
    LineEndsAtNewline(front, rest);
    assert LineOf(h) + rest == front + ['\n'] + rest;
  }

  lemma BlankLine(rest: seq<byte>)
    ensures LineLength(CRLF + rest) == 2 && (CRLF + rest)[..2] == CRLF && IsAscii(CRLF) && Strip(CRLF) == []
  {
    LineEndsAtNewline("\r", rest);
    assert CRLF + rest == "\r" + ['\n'] + rest;
    TrailingSpaces([], CRLF);
    assert [] + CRLF == CRLF && StripLeft(CRLF) == StripLeft("\n") == StripLeft([]);
  }

  // ---- all lines ----

  /** The fields after these headers. */
  function FieldsAfter(hs: seq<Header>, fields: map<string, string>): map<string, string> {
    if hs == [] then fields else FieldsAfter(hs[1..], fields[Lower(hs[0].name) := hs[0].value])
  }

  lemma {:induction false} FieldsSnoc(hs: seq<Header>, h: Header, fields: map<string, string>)
    ensures FieldsAfter(hs + [h], fields) == FieldsAfter(hs, fields)[Lower(h.name) := h.value]
    decreases |hs|
  {
    hide Lower;
    if hs == [] {
      assert (hs + [h])[1..] == [];
    } else {
      assert (hs + [h])[1..] == hs[1..] + [h] && (hs + [h])[0] == hs[0];
      FieldsSnoc(hs[1..], h, fields[Lower(hs[0].name) := hs[0].value]);
    }
  }

  lemma {:induction false} FieldsHoldLast(hs: seq<Header>, name: string)
    ensures var fields := FieldsAfter(hs, map[]);
      && (name in fields <==> ValueOf(hs, name).Some?)
      && (name in fields ==> fields[name] == ValueOf(hs, name).value)
    decreases |hs|
  {
    hide Lower;
    if hs != [] {
      var n := |hs| - 1;
      FieldsHoldLast(hs[..n], name);
      assert hs == hs[..n] + [hs[n]];
      FieldsSnoc(hs[..n], hs[n], map[]);
    }
  }

  lemma {:induction false} HeadersRead(s: seq<byte>, pos: nat, hs: seq<Header>, fields: map<string, string>)
    requires forall h :: h in hs ==> IsPlain(h)
    requires pos <= |s| && HeaderText(hs) <= s[pos..]
    ensures ReadHeaders(s, pos, fields) == Headers(FieldsAfter(hs, fields), pos + |HeaderText(hs)|)
    decreases |hs|
  {
    hide Strip, Partition, Lower, IsAscii, LineLength, IsPlain, LineOf;
    var rest := s[pos..][|HeaderText(hs)|..];
    assert s[pos..] == HeaderText(hs) + rest;
    if hs == [] {
      BlankLine(rest);
    } else {
      var h, later := hs[0], HeaderText(hs[1..]);
      assert h in hs;
      assert HeaderText(hs) + rest == LineOf(h) + (later + rest);
      LineIsOne(h, later + rest);
      LineReads(h);
      var next := pos + |LineOf(h)|;
      assert s[next..] == later + rest;
      HeadersRead(s, next, hs[1..], fields[Lower(h.name) := h.value]);
    }
  }

  /** A frame is received whole whatever other headers it has, in whatever order and case: if the last
      Content-Length gives the length of the body, the body is received, and without any
      Content-Length an empty one. */
  lemma FrameWithHeaders(hs: seq<Header>, body: seq<byte>, rest: seq<byte>)
    requires forall h :: h in hs ==> IsPlain(h)
    requires var length := ValueOf(hs, "content-length");
      if length.Some? then length.value == Decimal(|body|) else body == []
    ensures Receive(HeaderText(hs) + body + rest) == (Body(body), |HeaderText(hs)| + |body|)
  {
    hide *;
    var head, fields := HeaderText(hs), FieldsAfter(hs, map[]);
    var s := head + body + rest;
    HeadAndBody(head, body, rest);
    HeadersRead(s, 0, hs, map[]);
    FieldsHoldLast(hs, "content-length");
    HeaderValueReads(|body|);
    ZeroReads();
    ReceiveGives(s, fields, |head|, |body|);
  }

  lemma HeadAndBody(head: seq<byte>, body: seq<byte>, rest: seq<byte>)
    ensures var s := head + body + rest;
      s[0..] == s && head <= s && |head| + |body| <= |s| && s[|head|..|head| + |body|] == body
  {
  }

  lemma ReceiveGives(s: seq<byte>, fields: map<string, string>, used: nat, n: nat)
    requires ReadHeaders(s, 0, map[]) == Headers(fields, used) && used + n <= |s|
    requires ReadInt(if "content-length" in fields then fields["content-length"] else "0") == Some(n)
    ensures Receive(s) == (Body(s[used..used + n]), used + n)
  {
    hide ReadHeaders, ReadInt;
  }

  lemma ZeroReads()
    ensures ReadInt("0") == Some(0)
  {
    HeaderValueReads(0);
    assert Decimal(0) == "0";
  }
}
