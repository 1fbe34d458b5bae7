/**
 The chunked transfer coding (section 7.1 of RFC 9112) and whole messages: decoding in place, inside the one
 buffer, gives back exactly the bytes that were encoded.
 */
module HttpChunks {
  import opened Options
  import opened HttpMessage
  import opened HttpNumbers
  import opened HttpParser
  import opened HttpRuns

  /** A chunk: its size as written, in hex digits of either case, leading zeros allowed, and its data. */
  datatype Chunk = Chunk(size: seq<Byte>, data: seq<Byte>)

  predicate HexText(text: seq<Byte>) {
    text != [] && forall i :: 0 <= i < |text| ==> IsHexDigit(text[i])
  }

  predicate GoodChunk(c: Chunk) {
    c.data != [] && |c.data| < 0x8000_0000 && Spells(c.size, |c.data|, 16)
  }

  predicate GoodLast(text: seq<Byte>) {
    Spells(text, 0, 16)
  }

  function EncodeChunk(c: Chunk): seq<Byte> {
    Terminated(c.size) + Terminated(c.data)
  }

  function EncodeChunks(cs: seq<Chunk>): seq<Byte> {
    if cs == [] then [] else EncodeChunk(cs[0]) + EncodeChunks(cs[1..])
  }

  function Decoded(cs: seq<Chunk>): seq<Byte> {
    if cs == [] then [] else cs[0].data + Decoded(cs[1..])
  }

  /** The last chunk, of size 0, trailer lines, and the empty line that ends the message. */
  function LastPart(last: seq<Byte>, trailer: seq<seq<Byte>>): seq<Byte> {
    Terminated(last) + (Lines(trailer) + Terminated([]))
  }

  /** A whole chunked body. */
  function EncodeBody(cs: seq<Chunk>, last: seq<Byte>, trailer: seq<seq<Byte>>): seq<Byte> {
    EncodeChunks(cs) + LastPart(last, trailer)
  }

  predicate AtChunkStart(v: Fsm) {
    Coherent(v) && v.phase.Bodylen? && v.line == v.len == v.bd + v.bl
  }

  // ---------- the size line ----------

  lemma HexTextPlain(text: seq<Byte>)
    requires HexText(text)
    ensures NoByte(text, LF) && NoByte(text, 0) && text[0] != '-' as int
  {
    forall i | 0 <= i < |text| ensures text[i] != LF && text[i] != 0 && text[i] != '-' as int { HexDigitExactly(text[i]); }
  }

  lemma {:induction false} SpellingPlain(text: seq<Byte>, n: nat)
    requires Spells(text, n, 16)
    ensures HexText(text)
    decreases |text|
  {
    var last := |text| - 1;
    if last > 0 { SpellingPlain(text[..last], n / 16); }
    forall i | 0 <= i < |text| ensures IsHexDigit(text[i]) {
      if i < last { assert text[..last][i] == text[i]; } else { assert IsDigitOf(text[i], n % 16); }
    }
  }

  /** What the size line makes of the buffer: size `n`, read off and overwritten. */
  function PastSize(u: Fsm, mem: seq<Byte>, n: nat): Fsm {
    if n == 0 then u.(mem := mem, phase := Footer, line := u.len)
    else u.(mem := mem, phase := Body, bl := Unsigned(u.bl + n), len := u.line)
  }

  lemma SizeIs(text: seq<Byte>, n: nat, max: nat)
    requires Spells(text, n, 16) && |text| < max
    ensures Hex(text, max) == Some(n) && text != []
  {
    SpellingPlain(text, n);
    HexTextPlain(text);
    HexExactly(text, n);
  }

  lemma RecvSize(u: Fsm, text: seq<Byte>, n: nat)
    requires Coherent(u) && u.phase.Bodylen? && RecvLf(u.mem, u.len) == 2 && u.len == u.line + |text| + 2
    requires Spells(text, n, 16) && TextAt(Blank(u.mem, u.len, 2), u.line) == text
    ensures RecvBodylen(u) == PastSize(u, Blank(u.mem, u.len, 2), n)
  {
    SizeIs(text, n, u.len - u.line);
  }

  lemma TakeSize(v: Fsm, c: Byte)
    requires Coherent(v) && v.phase.Bodylen?
    ensures Take(v, c) == RecvBodylen(Put(v, c))
  {
  }

  lemma SizeLine(v: Fsm, text: seq<Byte>, n: nat)
    requires AtChunkStart(v) && Spells(text, n, 16)
    ensures Coherent(Feed(v, text + [CR]))
    ensures var u := Put(Feed(v, text + [CR]), LF);
      && u == v.(mem := u.mem, len := u.len) && u.len == v.len + |text| + 2
      && var mem := Blank(u.mem, u.len, 2);
      && mem[..v.len] == v.mem[..v.len]
      && Feed(v, Terminated(text)) == PastSize(u, mem, n)
  {
    SpellingPlain(text, n);
    HexTextPlain(text);
    LineStored(v, text);
    LineFed(v, text);
    var w := Feed(v, text + [CR]);
    var u := Put(w, LF);
    LineEnds(v, u, text);
    BlankedLine(v, u, text);
    TakeSize(w, LF);
    RecvSize(u, text, n);
  }

  // ---------- the data ----------

  lemma BodyByte(v: Fsm, c: Byte)
    requires Coherent(v) && v.phase.Body? && v.len < v.bd + v.bl
    ensures Take(v, c) == Put(v, c)
  {
  }

  /** Data bytes are only stored, whatever they are, CR and LF included. */
  lemma {:induction false} BodyBytes(v: Fsm, data: seq<Byte>)
    requires Coherent(v) && v.phase.Body? && v.len + |data| <= v.bd + v.bl
    ensures Stored(v, Feed(v, data), data)
    decreases |data|
  {
    if data == [] {
      assert v.mem[v.len..v.len] == [];
    } else {
      PutStores(v, data[0]);
      BodyByte(v, data[0]);
      var w := Put(v, data[0]);
      BodyBytes(w, data[1..]);
      StoredTrans(v, w, Feed(w, data[1..]), [data[0]], data[1..]);
      assert [data[0]] + data[1..] == data;
    }
  }

  lemma BodyCr(v: Fsm)
    requires Coherent(v) && v.phase.Body? && v.len == v.bd + v.bl
    ensures Take(v, CR) == Put(v, CR)
  {
  }

  lemma BodyLf(v: Fsm)
    requires Coherent(v) && v.phase.Body? && v.len == v.bd + v.bl + 1 && 2 <= v.len && v.mem[v.len - 1] == CR
    ensures Take(v, LF) == Put(v, LF).(len := v.len - 1, line := v.len - 1, phase := Bodylen)
  {
  }

  /** The terminator after the data is removed from the buffer. */
  lemma DataLine(v: Fsm, data: seq<Byte>)
    requires Coherent(v) && v.phase.Body? && v.len + |data| == v.bd + v.bl && data != []
    ensures var w := Feed(v, Terminated(data));
      && Coherent(w) && w == v.(mem := w.mem, len := v.bd + v.bl, line := v.bd + v.bl, phase := Bodylen)
      && w.mem[..v.len] == v.mem[..v.len] && w.mem[v.len..w.len] == data
  {
    DataAndCr(v, data);
    var x := Feed(v, data + [CR]);
    FeedConcat(v, data + [CR], [LF]);
    LfTakenOff(v, x, data);
  }

  lemma LfTakenOff(v: Fsm, x: Fsm, data: seq<Byte>)
    requires Coherent(v) && v.phase.Body? && v.len + |data| == v.bd + v.bl && data != []
    requires Stored(v, x, data + [CR]) && x.mem[x.len - 1] == CR
    ensures var w := Feed(x, [LF]);
      && Coherent(w) && w == v.(mem := w.mem, len := v.bd + v.bl, line := v.bd + v.bl, phase := Bodylen)
      && w.mem[..v.len] == v.mem[..v.len] && w.mem[v.len..w.len] == data
  {
    LfRemoved(x);
    LfStored(v, x, data);
    TerminatorGone(v, Put(x, LF), data);
  }

  lemma LfStored(v: Fsm, x: Fsm, data: seq<Byte>)
    requires Coherent(v) && Stored(v, x, data + [CR])
    ensures Stored(v, Put(x, LF), Terminated(data))
  {
    PutStores(x, LF);
    StoredTrans(v, x, Put(x, LF), data + [CR], [LF]);
  }

  lemma TerminatorGone(v: Fsm, y: Fsm, data: seq<Byte>)
    requires Coherent(v) && Stored(v, y, Terminated(data))
    ensures var w := y.(len := y.len - 2, line := y.len - 2, phase := Bodylen);
      && Coherent(w) && w == v.(mem := y.mem, len := v.len + |data|, line := v.len + |data|, phase := Bodylen)
      && w.mem[..v.len] == v.mem[..v.len] && w.mem[v.len..w.len] == data
  {
    PrefixStored(v, y, data, [CR] + [LF]);
  }

  lemma LfRemoved(x: Fsm)
    requires Coherent(x) && x.phase.Body? && x.len == x.bd + x.bl + 1 && 2 <= x.len && x.mem[x.len - 1] == CR
    ensures Feed(x, [LF]) == Put(x, LF).(len := x.len - 1, line := x.len - 1, phase := Bodylen)
  {
    BodyLf(x);
    OneByte(x, LF);
  }

  lemma DataAndCr(v: Fsm, data: seq<Byte>)
    requires Coherent(v) && v.phase.Body? && v.len + |data| == v.bd + v.bl
    ensures var x := Feed(v, data + [CR]); Stored(v, x, data + [CR]) && x.mem[x.len - 1] == CR
  {
    BodyBytes(v, data);
    var u := Feed(v, data);
    BodyCr(u);
    PutStores(u, CR);
    OneByte(u, CR);
    FeedConcat(v, data, [CR]);
    LastStored(u, Put(u, CR), [CR]);
    StoredTrans(v, u, Put(u, CR), data, [CR]);
  }

  lemma PrefixStored(v: Fsm, w: Fsm, a: seq<Byte>, b: seq<Byte>)
    requires Coherent(v) && Stored(v, w, Terminated(a)) && b == [CR] + [LF]
    ensures w.mem[v.len..v.len + |a|] == a
  {
    var all := w.mem[v.len..w.len];
    assert all == a + b;
    assert all[..|a|] == a;
    assert w.mem[v.len..v.len + |a|] == all[..|a|];
  }

  // ---------- chunks ----------

  /** `w` is `v` with `data` added to the decoded body. */
  ghost predicate Grown(v: Fsm, w: Fsm, data: seq<Byte>) {
    && AtChunkStart(v) && AtChunkStart(w)
    && w == v.(mem := w.mem, len := w.len, line := w.line, bl := w.bl) && w.bl == v.bl + |data|
    && w.mem[..v.len] == v.mem[..v.len] && w.mem[v.len..w.len] == data
  }

  lemma PastChunkSize(v: Fsm, u: Fsm, mem: seq<Byte>, n: nat)
    requires AtChunkStart(v) && u == v.(mem := u.mem, len := u.len) && 0 < n && v.bl + n < UINT32
    ensures PastSize(u, mem, n) == v.(mem := mem, phase := Body, bl := v.bl + n)
  {
    assert Unsigned(v.bl + n) == v.bl + n;
  }

  /** The size line of a chunk leaves the parser where the data begins. */
  lemma ChunkSize(v: Fsm, text: seq<Byte>, n: nat)
    requires AtChunkStart(v) && Spells(text, n, 16) && 0 < n && v.bl + n < UINT32
    ensures var u := Feed(v, Terminated(text));
      && Coherent(u) && u == v.(mem := u.mem, phase := Body, bl := v.bl + n) && u.mem[..v.len] == v.mem[..v.len]
  {
    SizeLine(v, text, n);
    var u := Put(Feed(v, text + [CR]), LF);
    PastChunkSize(v, u, Blank(u.mem, u.len, 2), n);
  }

  lemma OneChunk(v: Fsm, c: Chunk)
    requires AtChunkStart(v) && GoodChunk(c) && v.bl + |c.data| < UINT32
    ensures Grown(v, Feed(v, EncodeChunk(c)), c.data)
  {
    ChunkSize(v, c.size, |c.data|);
    var u := Feed(v, Terminated(c.size));
    DataLine(u, c.data);
    FeedConcat(v, Terminated(c.size), Terminated(c.data));
  }

  lemma GrownTrans(u: Fsm, v: Fsm, w: Fsm, a: seq<Byte>, b: seq<Byte>)
    requires Grown(u, v, a) && Grown(v, w, b)
    ensures Grown(u, w, a + b)
  {
    assert w.mem[..u.len] == w.mem[..v.len][..u.len];
    assert w.mem[u.len..w.len] == w.mem[..v.len][u.len..] + w.mem[v.len..w.len];
    assert v.mem[..v.len][u.len..] == v.mem[u.len..v.len];
    assert v.mem[..v.len][..u.len] == v.mem[..u.len];
  }

  lemma {:induction false} ManyChunks(v: Fsm, cs: seq<Chunk>)
    requires AtChunkStart(v) && (forall i :: 0 <= i < |cs| ==> GoodChunk(cs[i])) && v.bl + |Decoded(cs)| < UINT32
    ensures Grown(v, Feed(v, EncodeChunks(cs)), Decoded(cs))
    decreases |cs|
  {
    if cs == [] {
      assert v.mem[v.len..v.len] == [];
    } else {
      OneChunk(v, cs[0]);
      var u := Feed(v, EncodeChunk(cs[0]));
      FeedConcat(v, EncodeChunk(cs[0]), EncodeChunks(cs[1..]));
      ManyChunks(u, cs[1..]);
      GrownTrans(v, u, Feed(u, EncodeChunks(cs[1..])), cs[0].data, Decoded(cs[1..]));
    }
  }

  // ---------- the last chunk and the trailer ----------

  /** The first `n` bytes are there and the same in both buffers. */
  ghost predicate Kept(mem: seq<Byte>, mem': seq<Byte>, n: nat) {
    n <= |mem| && n <= |mem'| && mem[..n] == mem'[..n]
  }

  lemma KeptTrans(a: seq<Byte>, b: seq<Byte>, c: seq<Byte>, m: nat, n: nat)
    requires Kept(a, b, m) && Kept(b, c, n) && m <= n
    ensures Kept(a, c, m)
  {
    assert b[..n][..m] == b[..m] && c[..n][..m] == c[..m];
  }

  lemma KeptSlice(a: seq<Byte>, b: seq<Byte>, i: nat, n: nat)
    requires Kept(a, b, n) && i <= n
    ensures a[i..n] == b[i..n]
  {
    assert a[i..n] == a[..n][i..] && b[i..n] == b[..n][i..];
  }

  lemma LastSize(v: Fsm, last: seq<Byte>)
    requires AtChunkStart(v) && GoodLast(last)
    ensures var u := Feed(v, Terminated(last));
      && AtLineStart(u) && u == v.(mem := u.mem, len := u.len, line := u.len, phase := Footer)
      && u.len == v.len + |last| + 2 && Kept(v.mem, u.mem, v.len)
  {
    SizeLine(v, last, 0);
  }

  /** Trailer lines are recorded like headers, the empty line completes the message. */
  lemma Trailer(u: Fsm, trailer: seq<seq<Byte>>)
    requires AtLineStart(u) && u.phase.Footer? && 0 < u.len
    requires (forall i :: 0 <= i < |trailer| ==> GoodLine(trailer[i])) && |u.hd| + |trailer| <= MAX_HEADER
    ensures var w := Feed(u, Lines(trailer) + Terminated([]));
      && Coherent(w) && w.phase.Finish? && w.bd == u.bd && w.bl == u.bl && Kept(u.mem, w.mem, u.len) && u.len <= w.len
      && w.hd == u.hd + Slices(trailer, u.len)
      && Readable(w.mem, w.len, Slices(trailer, u.len), trailer)
  {
    ManyLines(u, trailer);
    var x := Feed(u, Lines(trailer));
    EmptyLine(x);
    FeedConcat(u, Lines(trailer), Terminated([]));
    var w := PastEmptyLine(x);
    KeptTrans(u.mem, x.mem, w.mem, u.len, x.len);
    StillReadable(x.mem, w.mem, x.len, w.len, Slices(trailer, u.len), trailer);
  }

  lemma StillReadable(mem: seq<Byte>, mem': seq<Byte>, end: nat, end': nat, slices: seq<Slice>, texts: seq<seq<Byte>>)
    requires Readable(mem, end, slices, texts) && Kept(mem, mem', end) && end <= end' <= |mem'|
    ensures Readable(mem', end', slices, texts)
  {
    forall i | 0 <= i < |texts| ensures TextAt(mem', slices[i].at) == texts[i] {
      SameText(mem, mem', slices[i].at, end);
    }
  }

  lemma LastChunk(v: Fsm, last: seq<Byte>, trailer: seq<seq<Byte>>)
    requires AtChunkStart(v) && GoodLast(last)
    requires (forall i :: 0 <= i < |trailer| ==> GoodLine(trailer[i])) && |v.hd| + |trailer| <= MAX_HEADER
    ensures var w := Feed(v, LastPart(last, trailer)); var slices := Slices(trailer, v.len + |last| + 2);
      && Coherent(w) && w.phase.Finish? && w.bd == v.bd && w.bl == v.bl && Kept(v.mem, w.mem, v.len) && v.len <= w.len
      && w.hd == v.hd + slices && Readable(w.mem, w.len, slices, trailer)
  {
    LastSize(v, last);
    var u := Feed(v, Terminated(last));
    Trailer(u, trailer);
    var rest := Lines(trailer) + Terminated([]);
    FeedConcat(v, Terminated(last), rest);
    KeptTrans(v.mem, u.mem, Feed(u, rest).mem, v.len, u.len);
  }

  /** Decoding inverts encoding: from the start of a chunked body, any chunks, in any spelling of their sizes,
      with any bytes in them, the last chunk and any trailer lines there is room for bring the parser to the
      end of the message with the body equal to the concatenated data and the trailer lines recorded. */
  lemma ChunkedRoundTrip(v: Fsm, cs: seq<Chunk>, last: seq<Byte>, trailer: seq<seq<Byte>>)
    requires AtChunkStart(v) && v.bl == 0
    requires (forall i :: 0 <= i < |cs| ==> GoodChunk(cs[i])) && |Decoded(cs)| < UINT32
    requires GoodLast(last)
    requires (forall i :: 0 <= i < |trailer| ==> GoodLine(trailer[i])) && |v.hd| + |trailer| <= MAX_HEADER
    ensures var w := Feed(v, EncodeBody(cs, last, trailer));
      && Coherent(w) && w.phase.Finish? && BodyOf(w) == Decoded(cs) && w.bl == |Decoded(cs)|
      && Kept(v.mem, w.mem, v.len) && v.len <= w.len
      && |w.hd| == |v.hd| + |trailer| && w.hd[..|v.hd|] == v.hd
      && Readable(w.mem, w.len, w.hd[|v.hd|..], trailer)
  {
    ManyChunks(v, cs);
    var u := Feed(v, EncodeChunks(cs));
    LastChunk(u, last, trailer);
    FeedConcat(v, EncodeChunks(cs), LastPart(last, trailer));
    var w := Feed(u, LastPart(last, trailer));
    BodyKept(v, u, w, Decoded(cs));
    SliceCount(trailer, u.len + |last| + 2);
    assert w.hd[|v.hd|..] == Slices(trailer, u.len + |last| + 2);
  }

  lemma BodyKept(v: Fsm, u: Fsm, w: Fsm, data: seq<Byte>)
    requires Grown(v, u, data) && v.bl == 0
    requires Kept(u.mem, w.mem, u.len) && w.bd == u.bd && w.bl == u.bl
    ensures BodyOf(w) == data && Kept(v.mem, w.mem, v.len)
  {
    KeptSlice(u.mem, w.mem, v.len, u.len);
    KeptTrans(v.mem, u.mem, w.mem, v.len, u.len);
  }
}
