/**
 The block of memory behind the parser's buffer. It is reallocated to a size that does not depend on what it has to
 hold, so it holds only buffers up to that size; the other modules say what the parser does as long as the buffer
 stays inside it, and this one exactly when it does.
 */
module HttpBlock {
  import opened HttpMessage
  import opened HttpParser
  import opened HttpRuns
  import opened HttpChunks
  import opened HttpWhole

  /** The block has its first size or the other one. */
  predicate Sized(k: Block) {
    k.size == k.max || k.size == 2 * Limit(k)
  }

  lemma TakenExactly(k: Block, len: nat)
    requires Sized(k)
    ensures Sized(TakenAt(k, len)) && TakenAt(k, len).max == k.max
    ensures TakenAt(k, len).inside <==> k.inside && len + 1 < 2 * Limit(k)
  {
  }

  /** Byte `n` of the piece is stored: the message has not stopped before, nor has a websocket taken the byte
      after which `append` returns. */
  predicate Stores(v: Fsm, piece: seq<Byte>, n: nat)
    requires Coherent(v)
  {
    && n < |piece| && !Stopped(Feed(v, piece[..n]))
    && (n > 0 ==> !Feed(v, piece[..n - 1]).phase.WebSocket?)
  }

  /** Every byte of the piece that is stored, and the 0 behind it, lie below twice the limit. */
  ghost predicate FitsBelow(v: Fsm, piece: seq<Byte>, room: nat)
    requires Coherent(v)
  {
    forall n: nat :: Stores(v, piece, n) ==> Feed(v, piece[..n]).len + 1 < room
  }

  lemma FedFurther(v: Fsm, piece: seq<Byte>, n: nat)
    requires Coherent(v) && 0 < n <= |piece| && !Stopped(v) && !v.phase.WebSocket?
    ensures Feed(v, piece[..n]) == Feed(Take(v, piece[0]), piece[1..][..n - 1])
  {
    assert piece[..n][1..] == piece[1..][..n - 1];
  }

  lemma StoresFirst(v: Fsm, piece: seq<Byte>)
    requires Coherent(v) && piece != [] && !Stopped(v)
    ensures Stores(v, piece, 0) && Feed(v, piece[..0]) == v
  {
    assert piece[..0] == [];
  }

  lemma StoresFurther(v: Fsm, piece: seq<Byte>, n: nat)
    requires Coherent(v) && 0 < n < |piece| && !Stopped(v) && !v.phase.WebSocket?
    ensures Stores(v, piece, n) <==> Stores(Take(v, piece[0]), piece[1..], n - 1)
    ensures Feed(v, piece[..n]) == Feed(Take(v, piece[0]), piece[1..][..n - 1])
  {
    FedFurther(v, piece, n);
    if n > 1 { FedFurther(v, piece, n - 1); } else { StoresFirst(v, piece); }
  }

  lemma FitsFurther(v: Fsm, piece: seq<Byte>, room: nat)
    requires Coherent(v) && piece != [] && !Stopped(v) && !v.phase.WebSocket?
    ensures FitsBelow(v, piece, room) <==> v.len + 1 < room && FitsBelow(Take(v, piece[0]), piece[1..], room)
  {
    StoresFirst(v, piece);
    var w, rest := Take(v, piece[0]), piece[1..];
    if v.len + 1 < room && FitsBelow(w, rest, room) {
      forall n: nat | Stores(v, piece, n) ensures Feed(v, piece[..n]).len + 1 < room {
        if n > 0 { StoresFurther(v, piece, n); }
      }
    }
    if FitsBelow(v, piece, room) {
      forall n: nat | Stores(w, rest, n) ensures Feed(w, rest[..n]).len + 1 < room {
        StoresFurther(v, piece, n + 1);
      }
    }
  }

  lemma WebSocketKept(v: Fsm, piece: seq<Byte>)
    requires Coherent(v) && v.phase.WebSocket?
    ensures Feed(v, piece).phase.WebSocket?
  {
  }

  lemma WebSocketFits(v: Fsm, piece: seq<Byte>, room: nat)
    requires Coherent(v) && piece != [] && v.phase.WebSocket?
    ensures FitsBelow(v, piece, room) <==> v.len + 1 < room
  {
    StoresFirst(v, piece);
    forall n: nat | Stores(v, piece, n) ensures n == 0 {
      if n > 0 { WebSocketKept(v, piece[..n - 1]); }
    }
  }

  /** Exactly when the code stays inside its block: if every byte stored lies, with the 0 behind it, below twice the
      limit. Header lines, decoded body and the line being read count, size lines already read do not. */
  lemma {:induction false} InsideExactly(v: Fsm, k: Block, piece: seq<Byte>)
    requires Coherent(v) && Sized(k) && k.inside
    ensures FeedBlock(v, k, piece).inside <==> FitsBelow(v, piece, 2 * Limit(k))
    ensures Sized(FeedBlock(v, k, piece)) && FeedBlock(v, k, piece).max == k.max
    decreases |piece|
  {
    if piece != [] && !Stopped(v) {
      TakenExactly(k, v.len);
      if v.phase.WebSocket? {
        WebSocketFits(v, piece, 2 * Limit(k));
      } else {
        FitsFurther(v, piece, 2 * Limit(k));
        if v.len + 1 < 2 * Limit(k) {
          InsideExactly(Take(v, piece[0]), TakenAt(k, v.len), piece[1..]);
        } else {
          StaysOutside(Take(v, piece[0]), TakenAt(k, v.len), piece[1..]);
        }
      }
    } else {
      NothingStored(v, piece);
    }
  }

  lemma NothingStored(v: Fsm, piece: seq<Byte>)
    requires Coherent(v) && (piece == [] || Stopped(v))
    ensures forall n: nat :: !Stores(v, piece, n)
  {
    forall n: nat ensures !Stores(v, piece, n) {
      if n < |piece| { FeedStopped(v, piece[..n]); }
    }
  }

  lemma {:induction false} StaysOutside(v: Fsm, k: Block, piece: seq<Byte>)
    requires Coherent(v) && Sized(k) && !k.inside
    ensures !FeedBlock(v, k, piece).inside && Sized(FeedBlock(v, k, piece)) && FeedBlock(v, k, piece).max == k.max
    decreases |piece|
  {
    if piece != [] && !Stopped(v) && !v.phase.WebSocket? {
      StaysOutside(Take(v, piece[0]), TakenAt(k, v.len), piece[1..]);
    }
  }

  // ---------- pieces ----------

  lemma {:induction false} BlockConcat(v: Fsm, k: Block, a: seq<Byte>, b: seq<Byte>)
    requires Coherent(v) && !Feed(v, a).phase.WebSocket?
    ensures FeedBlock(v, k, a + b) == FeedBlock(Feed(v, a), FeedBlock(v, k, a), b)
    decreases |a|
  {
    if a == [] {
      assert a + b == b;
    } else if !Stopped(v) {
      assert !v.phase.WebSocket? && (a + b)[1..] == a[1..] + b;
      BlockConcat(Take(v, a[0]), TakenAt(k, v.len), a[1..], b);
    }
  }

  /** The pieces make no difference to the block either. */
  lemma {:induction false} BlockOfPieces(v: Fsm, k: Block, pieces: seq<seq<Byte>>)
    requires NonEmpty(pieces)
    requires Coherent(v) && !Feed(v, Flatten(pieces)).phase.WebSocket?
    ensures FeedAllBlock(v, k, pieces) == FeedBlock(v, k, Flatten(pieces))
    decreases |pieces|
  {
    if pieces != [] {
      var a, rest := pieces[0], Flatten(pieces[1..]);
      if Feed(v, a).phase.WebSocket? {
        assert (a + rest)[..|a|] == a;
        WebSocketStays(v, a + rest, |a|);
      }
      FeedConcat(v, a, rest);
      BlockConcat(v, k, a, rest);
      BlockOfPieces(Feed(v, a), FeedBlock(v, k, a), pieces[1..]);
    }
  }

  // ---------- what fits, and what does not ----------

  lemma TakeGrows(v: Fsm, c: Byte)
    requires Coherent(v)
    ensures Take(v, c).len <= v.len + 1
  {
  }

  /** The buffer never holds more bytes than were received. */
  lemma {:induction false} LenBound(v: Fsm, piece: seq<Byte>)
    requires Coherent(v)
    ensures Feed(v, piece).len <= v.len + |piece|
    decreases |piece|
  {
    if piece != [] && !Stopped(v) && !v.phase.WebSocket? {
      TakeGrows(v, piece[0]);
      LenBound(Take(v, piece[0]), piece[1..]);
    }
  }

  /** So every message of fewer bytes than twice the limit stays inside, whatever it is. */
  lemma ShortFits(chunk: ChunkSize, bytes: seq<Byte>)
    requires |bytes| < 2 * (chunk - 1)
    ensures FeedBlock(Start, NewBlock(chunk), bytes).inside
  {
    forall n: nat | Stores(Start, bytes, n) ensures Feed(Start, bytes[..n]).len + 1 < 2 * (chunk - 1) {
      LenBound(Start, bytes[..n]);
    }
    InsideExactly(Start, NewBlock(chunk), bytes);
  }

  /** A first line that is as long as that leaves the block, and so does every message that begins with it. */
  lemma LongLineLeaves(chunk: ChunkSize, text: seq<Byte>, more: seq<Byte>)
    requires NoByte(text, LF) && |text| >= 2 * (chunk - 1)
    ensures !FeedBlock(Start, NewBlock(chunk), text + more).inside
  {
    var n := 2 * (chunk - 1) - 1;
    TextOfLine(Start, text[..n]);
    TextOfLine(Start, text[..n - 1]);
    assert Stores(Start, text, n);
    InsideExactly(Start, NewBlock(chunk), text);
    TextOfLine(Start, text);
    BlockConcat(Start, NewBlock(chunk), text, more);
    StaysOutside(Feed(Start, text), FeedBlock(Start, NewBlock(chunk), text), more);
  }

  /** What the driver of a connection asks for (src/http.cpp, line 704). */
  const CHUNK_SIZE: ChunkSize := 512

  /** A header line of 1022 bytes. */
  function LongHeader(): (r: seq<seq<Byte>>)
    ensures |r| == 1 && |r[0]| == 1022 && forall i :: 0 <= i < 1022 ==> r[0][i] == 'x' as int
  {
    [seq(1022, _ => 'x' as int)]
  }

  /** It makes a header block that the parser accepts, and that is outside the block. */
  lemma LongHeaderLeaves()
    ensures GoodLines(LongHeader()) && !FeedBlock(Start, NewBlock(CHUNK_SIZE), Head(LongHeader())).inside
  {
    var text := LongHeader()[0];
    var more := [CR] + [LF] + Lines(LongHeader()[1..]) + Terminated([]);
    assert Head(LongHeader()) == text + more;
    LongLineLeaves(CHUNK_SIZE, text, more);
  }
}
