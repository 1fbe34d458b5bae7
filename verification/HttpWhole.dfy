/**
 Whole messages from the first byte: the header block decides how the body is read, and body, headers and
 trailer come out as they were sent, in whatever pieces the bytes arrive.
 */
module HttpWhole {
  import opened Options
  import opened HttpMessage
  import opened HttpNumbers
  import opened HttpParser
  import opened HttpRuns
  import opened HttpChunks

  predicate GoodLines(texts: seq<seq<Byte>>) {
    texts != [] && |texts| <= MAX_HEADER && forall i :: 0 <= i < |texts| ==> GoodLine(texts[i])
  }

  /** The header block: lines and the empty line. */
  function Head(texts: seq<seq<Byte>>): seq<Byte> {
    Lines(texts) + Terminated([])
  }

  /** The header announces `n` bytes: its value writes the number. */
  ghost predicate SaysLength(texts: seq<seq<Byte>>, n: int) {
    var length := HeaderValue(texts, Ascii("Content-Length"));
    length.Some? && Writes(length.value, n) && -0x8000_0000 <= n < 0x8000_0000
  }

  predicate SaysChunked(texts: seq<seq<Byte>>) {
    && HeaderInt(texts, Ascii("Content-Length")).None?
    && var coding := HeaderValue(texts, Ascii("Transfer-Encoding"));
    && coding.Some? && BeginsWith(coding.value, Ascii("chunked"))
  }

  predicate SaysUpgrade(texts: seq<seq<Byte>>) {
    && HeaderInt(texts, Ascii("Content-Length")).None? && !SaysChunked(texts)
    && (HeaderValue(texts, Ascii("Sec-WebSocket-Key")).Some? || HeaderValue(texts, Ascii("Sec-WebSocket-Accept")).Some?)
  }

  predicate SaysNothing(texts: seq<seq<Byte>>) {
    HeaderInt(texts, Ascii("Content-Length")).None? && !SaysChunked(texts) && !SaysUpgrade(texts)
  }

  /** What the recorded lines say is what the code's searches find. */
  lemma KindRead(mem: seq<Byte>, end: nat, hd: seq<Slice>, texts: seq<seq<Byte>>)
    requires Readable(mem, end, hd, texts)
    ensures Texts(mem, hd) == texts
    ensures var k := KindOf(texts, hd);
      && (forall n :: SaysLength(texts, n) ==> k == Length(n))
      && (SaysChunked(texts) ==> k == Chunks) && (SaysUpgrade(texts) ==> k == Upgrade)
      && (SaysNothing(texts) ==> k == NoBody)
  {
    forall n | SaysLength(texts, n) ensures HeaderInt(texts, Ascii("Content-Length")) == Some(n) {
      IntExactly(HeaderValue(texts, Ascii("Content-Length")).value, n);
    }
    SearchFinds(texts, hd, Ascii("Content-Length"));
    SearchFinds(texts, hd, Ascii("Transfer-Encoding"));
    SearchFinds(texts, hd, Ascii("Sec-WebSocket-Key"));
    SearchFinds(texts, hd, Ascii("Sec-WebSocket-Accept"));
  }

  lemma TextsRead(mem: seq<Byte>, end: nat, slices: seq<Slice>, texts: seq<seq<Byte>>)
    requires Readable(mem, end, slices, texts)
    ensures Texts(mem, slices) == texts
  {
  }

  /** The state in which the empty line is met: the header lines are all recorded. */
  lemma HeadRead(texts: seq<seq<Byte>>)
    requires GoodLines(texts)
    ensures var v := Feed(Start, Lines(texts));
      && AfterLines(Start, v, texts) && 0 < v.len && v.phase.Header?
      && Feed(Start, Head(texts)) == Dispatch(PastEmptyLine(v))
      && Readable(PastEmptyLine(v).mem, v.len + 2, v.hd, texts)
  {
    ManyLines(Start, texts);
    var v := Feed(Start, Lines(texts));
    EmptyLine(v);
    FeedConcat(Start, Lines(texts), Terminated([]));
    assert [] + Slices(texts, 0) == Slices(texts, 0);
    StillReadable(v.mem, PastEmptyLine(v).mem, v.len, v.len + 2, v.hd, texts);
  }

  lemma ChunkedHead(texts: seq<seq<Byte>>)
    requires GoodLines(texts) && SaysChunked(texts)
    ensures var v := Feed(Start, Head(texts));
      && AtChunkStart(v) && v.bl == 0 && |v.hd| == |texts| && Readable(v.mem, v.len, v.hd, texts)
  {
    HeadRead(texts);
    var v := PastEmptyLine(Feed(Start, Lines(texts)));
    KindRead(v.mem, v.len, v.hd, texts);
  }

  lemma HeadersKept(v: Fsm, w: Fsm, texts: seq<seq<Byte>>, trailer: seq<seq<Byte>>)
    requires Coherent(w) && Readable(v.mem, v.len, v.hd, texts) && Kept(v.mem, w.mem, v.len) && v.len <= w.len
    requires |v.hd| <= |w.hd| && w.hd[..|v.hd|] == v.hd && Readable(w.mem, w.len, w.hd[|v.hd|..], trailer)
    ensures Texts(w.mem, w.hd) == texts + trailer
  {
    StillReadable(v.mem, w.mem, v.len, w.len, v.hd, texts);
    TextsRead(w.mem, w.len, v.hd, texts);
    TextsRead(w.mem, w.len, w.hd[|v.hd|..], trailer);
    assert w.hd == v.hd + w.hd[|v.hd|..];
  }

  /** A whole chunked message: header lines, any chunks, trailer. */
  function ChunkedMessage(texts: seq<seq<Byte>>, cs: seq<Chunk>, last: seq<Byte>, trailer: seq<seq<Byte>>): seq<Byte> {
    Head(texts) + EncodeBody(cs, last, trailer)
  }

  lemma ChunkedWhole(texts: seq<seq<Byte>>, cs: seq<Chunk>, last: seq<Byte>, trailer: seq<seq<Byte>>)
    requires GoodLines(texts) && SaysChunked(texts)
    requires (forall i :: 0 <= i < |cs| ==> GoodChunk(cs[i])) && |Decoded(cs)| < UINT32 && GoodLast(last)
    requires (forall i :: 0 <= i < |trailer| ==> GoodLine(trailer[i])) && |texts| + |trailer| <= MAX_HEADER
    ensures var w := Feed(Start, ChunkedMessage(texts, cs, last, trailer));
      w.phase.Finish? && BodyOf(w) == Decoded(cs) && Texts(w.mem, w.hd) == texts + trailer
  {
    ChunkedHead(texts);
    var v := Feed(Start, Head(texts));
    ChunkedRoundTrip(v, cs, last, trailer);
    FeedConcat(Start, Head(texts), EncodeBody(cs, last, trailer));
    HeadersKept(v, Feed(v, EncodeBody(cs, last, trailer)), texts, trailer);
  }

  /** A chunked message in any pieces, followed by any further bytes, is complete with the decoded body and
      with the texts of the header and trailer lines. */
  lemma ChunkedInPieces(pieces: seq<seq<Byte>>, more: seq<Byte>,
                        texts: seq<seq<Byte>>, cs: seq<Chunk>, last: seq<Byte>, trailer: seq<seq<Byte>>)
    requires NonEmpty(pieces) && Flatten(pieces) == ChunkedMessage(texts, cs, last, trailer) + more
    requires GoodLines(texts) && SaysChunked(texts)
    requires (forall i :: 0 <= i < |cs| ==> GoodChunk(cs[i])) && |Decoded(cs)| < UINT32 && GoodLast(last)
    requires (forall i :: 0 <= i < |trailer| ==> GoodLine(trailer[i])) && |texts| + |trailer| <= MAX_HEADER
    ensures var w := FeedAll(Start, pieces);
      w.phase.Finish? && BodyOf(w) == Decoded(cs) && Texts(w.mem, w.hd) == texts + trailer
  {
    var m := ChunkedMessage(texts, cs, last, trailer);
    ChunkedWhole(texts, cs, last, trailer);
    FeedConcat(Start, m, more);
    FeedStopped(Feed(Start, m), more);
    PiecesDoNotMatter(Start, pieces);
  }

  // ---------- bodies with a length ----------

  lemma LengthByte(v: Fsm, c: Byte)
    requires Coherent(v) && v.phase.BodyNochunk?
    ensures Take(v, c) == Put(v, c).(phase := if v.len + 1 < v.bd + v.bl then BodyNochunk
                                     else if v.len + 1 == v.bd + v.bl then Finish else Error)
  {
  }

  /** Bytes short of the announced length are only stored; the last one completes the message. */
  lemma {:induction false} LengthBytes(v: Fsm, body: seq<Byte>)
    requires Coherent(v) && v.phase.BodyNochunk? && v.len + |body| == v.bd + v.bl && body != []
    ensures var w := Feed(v, body); w.phase.Finish? && Stored(v, w.(phase := v.phase), body)
    decreases |body|
  {
    LengthByte(v, body[0]);
    PutStores(v, body[0]);
    var w := Take(v, body[0]);
    assert [body[0]] + body[1..] == body;
    if |body| == 1 {
      assert body[1..] == [];
    } else {
      LengthBytes(w, body[1..]);
      StoredTrans(v, w, Feed(w, body[1..]).(phase := v.phase), [body[0]], body[1..]);
    }
  }

  lemma LengthHead(texts: seq<seq<Byte>>, n: int)
    requires GoodLines(texts) && SaysLength(texts, n)
    ensures var v := Feed(Start, Head(texts));
      && Coherent(v) && v.phase.BodyNochunk? && v.bd == v.len && v.bl == Unsigned(n)
      && Readable(v.mem, v.len, v.hd, texts)
  {
    HeadRead(texts);
    var v := PastEmptyLine(Feed(Start, Lines(texts)));
    KindRead(v.mem, v.len, v.hd, texts);
  }

  lemma LengthRead(v: Fsm, texts: seq<seq<Byte>>, body: seq<Byte>)
    requires Coherent(v) && v.phase.BodyNochunk? && v.bd == v.len && v.bl == |body| && body != []
    requires Readable(v.mem, v.len, v.hd, texts)
    ensures var w := Feed(v, body); w.phase.Finish? && BodyOf(w) == body && Texts(w.mem, w.hd) == texts
  {
    LengthBytes(v, body);
    var w := Feed(v, body);
    assert w.mem[v.bd..v.bd + v.bl] == w.mem[v.len..w.len];
    StillReadable(v.mem, w.mem, v.len, w.len, v.hd, texts);
    TextsRead(w.mem, w.len, w.hd, texts);
  }

  lemma LengthWhole(texts: seq<seq<Byte>>, n: int, body: seq<Byte>)
    requires GoodLines(texts) && SaysLength(texts, n) && |body| == Unsigned(n) && body != []
    ensures var w := Feed(Start, Head(texts) + body);
      w.phase.Finish? && BodyOf(w) == body && Texts(w.mem, w.hd) == texts
  {
    LengthHead(texts, n);
    LengthRead(Feed(Start, Head(texts)), texts, body);
    FeedConcat(Start, Head(texts), body);
  }

  /** The exact condition: a message whose header announces `n` bytes and that carries them all is complete if
      and only if `n` is not 0. With a length of 0 the parser goes on waiting, and the next byte is an error. */
  lemma CompleteExactly(texts: seq<seq<Byte>>, n: int, body: seq<Byte>)
    requires GoodLines(texts) && SaysLength(texts, n) && |body| == Unsigned(n)
    ensures Feed(Start, Head(texts) + body).phase.Finish? <==> Unsigned(n) != 0
    ensures Unsigned(n) == 0 ==> forall c: Byte :: Feed(Start, Head(texts) + [c]).phase.Error?
  {
    LengthHead(texts, n);
    var v := Feed(Start, Head(texts));
    if body == [] {
      assert Head(texts) + body == Head(texts);
      forall c: Byte ensures Feed(Start, Head(texts) + [c]).phase.Error? {
        FeedConcat(Start, Head(texts), [c]);
        LengthByte(v, c);
        OneByte(v, c);
      }
    } else {
      LengthWhole(texts, n, body);
    }
  }
}
