/**
 What the parser does not do: it never enters its comment phase, so it refuses every size line with an
 extension; it never completes a message of announced length 0; it cuts a status to 16 bits; and with a websocket
 established inside a piece, cutting the piece elsewhere gives another state. Each with the input that shows it.
 */
module HttpLimits {
  import opened Options
  import opened HttpMessage
  import opened HttpNumbers
  import opened HttpParser
  import opened HttpRuns
  import opened HttpChunks
  import opened HttpWhole
  import opened HttpStatus

  // ---------- the comment phase ----------

  lemma TakeNotComment(v: Fsm, c: Byte)
    requires Coherent(v) && !v.phase.Comment?
    ensures !Take(v, c).phase.Comment?
  {
    if v.phase.Bodylen? { SizeByteNotComment(Put(v, c)); }
  }

  /** The test for an extension looks at the byte behind the last one, which is the terminating 0. */
  lemma SizeByteNotComment(u: Fsm)
    requires Coherent(u) && u.phase.Bodylen? && u.mem[u.len] == 0
    ensures !RecvBodylen(u).phase.Comment?
  {
  }

  lemma {:induction false} FeedNotComment(v: Fsm, piece: seq<Byte>)
    requires Coherent(v) && !v.phase.Comment?
    ensures !Feed(v, piece).phase.Comment?
    decreases |piece|
  {
    if piece != [] && !Stopped(v) && !v.phase.WebSocket? {
      TakeNotComment(v, piece[0]);
      FeedNotComment(Take(v, piece[0]), piece[1..]);
    }
  }

  /** Whatever is received, in whatever pieces, the parser is never in its comment phase. */
  lemma {:induction false} NeverComment(v: Fsm, pieces: seq<seq<Byte>>)
    requires Coherent(v) && !v.phase.Comment?
    ensures !FeedAll(v, pieces).phase.Comment?
    decreases |pieces|
  {
    if pieces != [] {
      FeedNotComment(v, pieces[0]);
      NeverComment(Feed(v, pieces[0]), pieces[1..]);
    }
  }

  // ---------- size lines ----------

  /** A text as a C string: up to its first 0. */
  function CText(text: seq<Byte>): seq<Byte> {
    if text == [] || text[0] == 0 then [] else [text[0]] + CText(text[1..])
  }

  lemma {:induction false} CTextAt(mem: seq<Byte>, i: nat, text: seq<Byte>)
    requires i + |text| < |mem| && mem[i..i + |text|] == text && mem[i + |text|] == 0
    ensures TextAt(mem, i) == CText(text) && |CText(text)| <= |text|
    decreases |text|
  {
    if text != [] {
      assert mem[i] == mem[i..i + |text|][0];
      assert mem[i + 1..i + |text|] == text[1..];
      CTextAt(mem, i + 1, text[1..]);
    }
  }

  function Magnitude(text: seq<Byte>): seq<Byte> {
    if text != [] && text[0] == '-' as int then text[1..] else text
  }

  /** A text that `htoi` cannot read. */
  predicate NotHex(text: seq<Byte>) {
    exists i :: 0 <= i < |text| && !IsHexDigit(text[i])
  }

  lemma {:induction false} HexFailsExactly(text: seq<Byte>, acc: nat)
    ensures HexFrom(text, acc).None? <==> NotHex(text)
    decreases |text|
  {
    if text != [] {
      HexDigitExactly(text[0]);
      if IsHexDigit(text[0]) {
        HexFailsExactly(text[1..], acc * 16 + HexDigit(text[0]).value);
        if i :| 0 <= i < |text| && !IsHexDigit(text[i]) {
          assert text[1..][i - 1] == text[i];
        }
      }
    }
  }

  lemma SizeRefused(u: Fsm, text: seq<Byte>)
    requires Coherent(u) && u.phase.Bodylen? && RecvLf(u.mem, u.len) == 2 && |text| + 2 <= u.len - u.line
    requires TextAt(Blank(u.mem, u.len, 2), u.line) == text
    ensures RecvBodylen(u).phase.Error? <==> NotHex(Magnitude(text))
  {
    HexFailsExactly(Magnitude(text), 0);
  }

  /** Exactly: a size line is refused if and only if it has a byte, before any 0 and after a leading minus, that
      is no hex digit. */
  lemma SizeLineRefusedExactly(v: Fsm, text: seq<Byte>)
    requires AtChunkStart(v) && 0 < v.len && NoByte(text, LF)
    ensures Feed(v, Terminated(text)).phase.Error? <==> NotHex(Magnitude(CText(text)))
  {
    LineStored(v, text);
    LineFed(v, text);
    var w := Feed(v, text + [CR]);
    var u := Put(w, LF);
    LineEnds(v, u, text);
    BlankedText(v, u, text);
    TakeSize(w, LF);
    SizeRefused(u, CText(text));
  }

  lemma BlankedText(v: Fsm, u: Fsm, text: seq<Byte>)
    requires Coherent(v) && Stored(v, u, Terminated(text))
    ensures TextAt(Blank(u.mem, u.len, 2), v.len) == CText(text) && |CText(text)| <= |text|
  {
    var mem, line := Blank(u.mem, u.len, 2), u.mem[v.len..u.len];
    forall j | 0 <= j < |text| ensures mem[v.len + j] == text[j] { assert line[j] == Terminated(text)[j]; }
    assert mem[v.len..v.len + |text|] == text;
    CTextAt(mem, v.len, text);
  }

  lemma {:induction false} CTextKeeps(text: seq<Byte>, more: seq<Byte>)
    requires NoByte(text, 0)
    ensures CText(text + more) == text + CText(more)
    decreases |text|
  {
    if text == [] {
      assert text + more == more;
    } else {
      assert (text + more)[1..] == text[1..] + more;
      CTextKeeps(text[1..], more);
    }
  }

  /** The semicolon that begins an extension is no hex digit. */
  lemma ExtensionNotHex(size: seq<Byte>, ext: seq<Byte>)
    requires HexText(size)
    ensures NotHex(Magnitude(CText(size + [';' as int] + ext)))
  {
    var tail := [';' as int] + ext;
    HexTextPlain(size);
    assert size + [';' as int] + ext == size + tail;
    CTextKeeps(size, tail);
    var c := size + CText(tail);
    assert CText(tail)[0] == ';' as int && c[|size|] == ';' as int && c[0] == size[0];
    HexDigitExactly(c[|size|]);
  }

  /** So every chunk extension (section 7.1.1 of RFC 9112) is refused, whatever it says. */
  lemma ExtensionRefused(v: Fsm, size: seq<Byte>, ext: seq<Byte>)
    requires AtChunkStart(v) && 0 < v.len && HexText(size) && NoByte(ext, LF)
    ensures Feed(v, Terminated(size + [';' as int] + ext)).phase.Error?
  {
    ExtensionNotHex(size, ext);
    HexTextPlain(size);
    SizeLineRefusedExactly(v, size + [';' as int] + ext);
  }

  // ---------- headers that are there ----------

  /** A header line. */
  function HeaderLine(key: seq<Byte>, value: seq<Byte>): seq<Byte> {
    key + [':' as int] + value
  }

  lemma LineHasKey(key: seq<Byte>, value: seq<Byte>)
    requires value != [] && value[0] != ' ' as int && value[0] != ':' as int && |value| < TOKEN_SIZE
    ensures HeaderValue([HeaderLine(key, value)], key) == Some(value)
  {
    var text, tail := HeaderLine(key, value), [':' as int] + value;
    assert HasKey(text, key) && text[|key|..] == tail;
    assert tail[0] == ':' as int && tail[1..] == value;
    assert SkipSeparators(tail) == SkipSeparators(value) == value;
  }

  lemma LineHasOtherKey(key: seq<Byte>, value: seq<Byte>, other: seq<Byte>)
    requires key != [] && other != [] && ToLower(key[0]) != ToLower(other[0])
    ensures HeaderValue([HeaderLine(key, value)], other) == None
  {
    assert HeaderLine(key, value)[0] == key[0];
    NotThatKey(HeaderLine(key, value), other);
  }

  lemma NotThatKey(text: seq<Byte>, key: seq<Byte>)
    requires text != [] && key != [] && ToLower(text[0]) != ToLower(key[0])
    ensures HeaderValue([text], key) == None
  {
    assert HeaderValue([text][1..], key) == None;
  }

  /** Text of printable characters is free of LF and 0. */
  lemma PrintableText(s: string)
    requires s != "" && |s| < UINT16 && forall i :: 0 <= i < |s| ==> ' ' <= s[i] <= '~'
    ensures GoodLine(Ascii(s))
  {
    forall i | 0 <= i < |s| ensures Ascii(s)[i] != LF && Ascii(s)[i] != 0 { assert Ascii(s)[i] == s[i] as int; }
  }

  // ---------- an extension ----------

  const CHUNKED_LINE: string := "Transfer-Encoding:chunked"

  /** The one header line of a chunked message. */
  function ChunkedHeader(): seq<seq<Byte>> {
    [Ascii(CHUNKED_LINE)]
  }

  lemma ChunkedLine()
    ensures Ascii(CHUNKED_LINE) == HeaderLine(Ascii("Transfer-Encoding"), Ascii("chunked"))
  {
    assert CHUNKED_LINE == "Transfer-Encoding" + ":" + "chunked";
  }

  lemma ChunkedSaysChunked()
    ensures GoodLines(ChunkedHeader()) && SaysChunked(ChunkedHeader())
  {
    var key, value := Ascii("Transfer-Encoding"), Ascii("chunked");
    PrintableText(CHUNKED_LINE);
    ChunkedLine();
    LineHasKey(key, value);
    LineHasOtherKey(key, value, Ascii("Content-Length"));
    assert value[..|value|] == value;
  }

  /** A chunk of one byte, with an extension: the message is an error at the end of the size line. */
  lemma SomeExtensionRefused()
    ensures Feed(Start, Head(ChunkedHeader()) + Terminated(Ascii("1;x"))).phase.Error?
  {
    ChunkedSaysChunked();
    ExtensionAfterHead(ChunkedHeader());
  }

  lemma ExtensionAfterHead(texts: seq<seq<Byte>>)
    requires GoodLines(texts) && SaysChunked(texts)
    ensures Feed(Start, Head(texts) + Terminated(Ascii("1;x"))).phase.Error?
  {
    ChunkedHead(texts);
    HeadNotEmpty(texts);
    var size, ext: seq<Byte> := ['1' as int], ['x' as int];
    assert Ascii("1;x") == size + [';' as int] + ext;
    HexDigitIs('1' as int, 1);
    assert IsDigitOf(size[0], 1);
    ExtensionRefused(Feed(Start, Head(texts)), size, ext);
    FeedConcat(Start, Head(texts), Terminated(Ascii("1;x")));
  }

  lemma HeadNotEmpty(texts: seq<seq<Byte>>)
    requires GoodLines(texts)
    ensures 0 < Feed(Start, Head(texts)).len
  {
    HeadRead(texts);
  }

  // ---------- a status that is cut ----------

  const CUT_STATUS: string := "HTTP/1.1 65736"

  lemma DigitsOfStatus()
    ensures StatusOf(Ascii("65736")) == 65736
  {
    var d := Ascii("65736");
    assert d[0] == '6' as int && d[1] == '5' as int && d[2] == '7' as int && d[3] == '3' as int && d[4] == '6' as int;
    assert d[..4][..3] == d[..3] && d[..3][..2] == d[..2] && d[..2][..1] == d[..1] && d[..1][..0] == [];
    assert Decimal(d[..1]) == 6;
    assert Decimal(d[..2]) == 65;
    assert Decimal(d[..3]) == 657;
    assert Decimal(d[..4]) == 6573;
  }

  lemma CutStatusLine()
    ensures NamesOk(Ascii(CUT_STATUS))
  {
    var l := StatusLine(Ascii("HTTP/"), '1' as int, ' ' as int, 0, Ascii("65736"), []);
    DigitsOfStatus();
    assert CUT_STATUS == "HTTP/" + "1.1 " + "65736";
    assert LineOf(l) == Ascii(CUT_STATUS);
  }

  lemma CutStatusSaysNothing()
    ensures GoodLines([Ascii(CUT_STATUS)]) && SaysNothing([Ascii(CUT_STATUS)])
  {
    var text := Ascii(CUT_STATUS);
    PrintableText(CUT_STATUS);
    NotThatKey(text, Ascii("Content-Length"));
    NotThatKey(text, Ascii("Transfer-Encoding"));
    NotThatKey(text, Ascii("Sec-WebSocket-Key"));
    NotThatKey(text, Ascii("Sec-WebSocket-Accept"));
  }

  /** A reply of this one line has no body and is not 200, and is an error at the end of its header block. */
  lemma CutStatusRefused()
    ensures Feed(Start, Head([Ascii(CUT_STATUS)])).phase.Error?
  {
    CutStatusLine();
    CutStatusSaysNothing();
    NoBodyExactly([Ascii(CUT_STATUS)]);
  }

  // ---------- a length of 0 ----------

  function ZeroLength(): seq<seq<Byte>> {
    [HeaderLine(Ascii("Content-Length"), ['0' as int])]
  }

  lemma ZeroSaysLength()
    ensures GoodLines(ZeroLength()) && SaysLength(ZeroLength(), 0)
  {
    LineHasKey(Ascii("Content-Length"), ['0' as int]);
    var zero: seq<Byte> := ['0' as int];
    assert IsDigitOf(zero[0], 0) && Spells(zero, 0, 10);
    assert WritesAs(zero, 0, [], [], zero);
  }

  /** A message that says `Content-Length: 0` is not complete at its last byte, and any byte after it is an error. */
  lemma ZeroLengthHangs(next: Byte)
    ensures Feed(Start, Head(ZeroLength())).phase.BodyNochunk?
    ensures Feed(Start, Head(ZeroLength()) + [next]).phase.Error?
  {
    ZeroSaysLength();
    LengthHead(ZeroLength(), 0);
    CompleteExactly(ZeroLength(), 0, []);
  }

  // ---------- an upgrade inside a piece ----------

  lemma KeyIsGoodLine()
    ensures GoodLines(AsksUpgrade())
  {
    var text := AsksUpgrade()[0];
    assert |text| == 19;
    forall i | 0 <= i < |text| ensures text[i] != LF && text[i] != 0 {
      if i < 17 { assert text[i] == Ascii("Sec-WebSocket-Key")[i] == "Sec-WebSocket-Key"[i] as int; }
    }
  }

  function AsksUpgrade(): seq<seq<Byte>> {
    [HeaderLine(Ascii("Sec-WebSocket-Key"), ['x' as int])]
  }

  lemma UpgradeSaysUpgrade()
    ensures GoodLines(AsksUpgrade()) && SaysUpgrade(AsksUpgrade())
  {
    KeyIsGoodLine();
    var key := Ascii("Sec-WebSocket-Key");
    LineHasKey(key, ['x' as int]);
    LineHasOtherKey(key, ['x' as int], Ascii("Content-Length"));
    LineHasOtherKey(key, ['x' as int], Ascii("Transfer-Encoding"));
  }

  lemma UpgradeReached(texts: seq<seq<Byte>>)
    requires GoodLines(texts) && SaysUpgrade(texts)
    ensures Feed(Start, Head(texts)).phase.WebSocket?
  {
    HeadRead(texts);
    var v := PastEmptyLine(Feed(Start, Lines(texts)));
    KindRead(v.mem, v.len, v.hd, texts);
  }

  /** Every message that upgrades, with a byte behind its header block in the same piece: the pieces matter. */
  lemma CutMatters(texts: seq<seq<Byte>>, c: Byte, b: seq<Byte>)
    requires GoodLines(texts) && SaysUpgrade(texts) && b != []
    ensures Feed(Feed(Start, Head(texts) + [c]), b) != Feed(Start, Head(texts) + [c] + b)
  {
    UpgradeReached(texts);
    var a := Head(texts) + [c];
    assert a[..|a| - 1] == Head(texts);
    CutExactly(Start, a, b);
  }

  lemma SomeCutMatters() returns (a: seq<Byte>, b: seq<Byte>)
    ensures a != [] && b != [] && Feed(Feed(Start, a), b) != Feed(Start, a + b)
  {
    UpgradeSaysUpgrade();
    CutMatters(AsksUpgrade(), 0, [0]);
    a, b := Head(AsksUpgrade()) + [0], [0];
  }
}
