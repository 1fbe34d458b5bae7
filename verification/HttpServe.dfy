/**
 HttpServContext::OnRead (src/http.cpp, lines 724-768): the driver of the parser on one connection. Each read
 delivers pieces; the driver feeds them, and then calls back and writes, reads again, or closes.

 `calls` are the parser states the callback was run on. A reply that was written closes the connection.
 */
module HttpServe {
  import opened HttpMessage
  import opened HttpParser
  import opened HttpRuns
  import opened HttpChunks
  import opened HttpWhole
  import opened HttpBlock

  /** What the connection waits for. */
  datatype Next = ToRead | ToWrite | Closed

  datatype Serv = Serv(fsm: Fsm, next: Next, calls: seq<Fsm>)

  /** The states in which OnRead takes bytes. */
  predicate Receiving(p: Phase) {
    !p.Finish? && !p.Error? && !p.WebSocket?
  }

  /** One OnRead. */
  function Served(c: Serv, ok: bool, pieces: seq<seq<Byte>>): Serv
    requires Coherent(c.fsm)
  {
    if ok && Receiving(c.fsm.phase) then
      var v := FeedAll(c.fsm, pieces);
      if v.phase.Finish? then Serv(v, ToWrite, c.calls + [v]) else Serv(v, ToRead, c.calls)
    else c.(next := Closed)
  }

  /** What it does to the parser's block. */
  function ServedBlock(c: Serv, k: Block, ok: bool, pieces: seq<seq<Byte>>): Block
    requires Coherent(c.fsm)
  {
    if ok && Receiving(c.fsm.phase) then FeedAllBlock(c.fsm, k, pieces) else k
  }

  class HttpServContext {
    const fsm: HttpFSM
    var next: Next
    ghost var calls: seq<Fsm>

    ghost function View(): Serv
      reads this, fsm
    {
      Serv(fsm.View(), next, calls)
    }

    constructor ()
      ensures fsm.Valid() && View() == Serv(Start, ToRead, []) && fsm.BlockView() == NewBlock(CHUNK_SIZE)
      ensures fresh(fsm)
    {
      fsm := new HttpFSM(CHUNK_SIZE);
      next, calls := ToRead, [];
    }

    method OnRead(ok: bool, pieces: seq<seq<Byte>>)
      requires fsm.Valid() && next.ToRead? && NonEmpty(pieces)
      modifies this, fsm
      ensures fsm.Valid() && View() == Served(old(View()), ok, pieces)
      ensures fsm.BlockView() == ServedBlock(old(View()), old(fsm.BlockView()), ok, pieces)
    {
      ghost var v, k := fsm.View(), fsm.BlockView();
      if ok && Receiving(fsm.state) {
        var i := 0;
        while i < |pieces|
          invariant i <= |pieces| && fsm.Valid() && next == old(next) && calls == old(calls)
          invariant FeedAll(v, pieces) == FeedAll(fsm.View(), pieces[i..])
          invariant FeedAllBlock(v, k, pieces) == FeedAllBlock(fsm.View(), fsm.BlockView(), pieces[i..])
        {
          assert pieces[i..][0] == pieces[i] && pieces[i..][1..] == pieces[i + 1..];
          fsm.Append(pieces[i]);
          i := i + 1;
        }
        if fsm.state == Finish {
          calls := calls + [fsm.View()];
          next := ToWrite;
        } else {
          next := ToRead;
        }
        return;
      }
      next := Closed;
    }

    method OnWrite()
      requires next.ToWrite?
      modifies this`next
      ensures next == Closed
    {
      next := Closed;
    }
  }

  /** Successful reads, one after the other, as long as the driver reads. */
  function Serve(c: Serv, rounds: seq<seq<seq<Byte>>>): Serv
    requires Coherent(c.fsm)
    decreases |rounds|
  {
    if rounds == [] || c.next != ToRead then c else Serve(Served(c, true, rounds[0]), rounds[1..])
  }

  function ServeBlock(c: Serv, k: Block, rounds: seq<seq<seq<Byte>>>): Block
    requires Coherent(c.fsm)
    decreases |rounds|
  {
    if rounds == [] || c.next != ToRead then k
    else ServeBlock(Served(c, true, rounds[0]), ServedBlock(c, k, true, rounds[0]), rounds[1..])
  }

  /** All the bytes of all the reads. */
  function Received(rounds: seq<seq<seq<Byte>>>): seq<Byte> {
    if rounds == [] then [] else Flatten(rounds[0]) + Received(rounds[1..])
  }

  predicate NonEmptyReads(rounds: seq<seq<seq<Byte>>>) {
    forall i :: 0 <= i < |rounds| ==> NonEmpty(rounds[i])
  }

  lemma {:induction false} StillStopped(c: Serv, rounds: seq<seq<seq<Byte>>>)
    requires Coherent(c.fsm) && c.fsm.phase.Error?
    ensures Serve(c, rounds).fsm == c.fsm && Serve(c, rounds).calls == c.calls
    ensures c.next != ToWrite ==> Serve(c, rounds).next != ToWrite
    decreases |rounds|
  {
    if rounds != [] && c.next == ToRead { StillStopped(Served(c, true, rounds[0]), rounds[1..]); }
  }

  lemma ReadFed(v: Fsm, pieces: seq<seq<Byte>>, more: seq<Byte>)
    requires Coherent(v) && NonEmpty(pieces) && !Feed(v, Flatten(pieces) + more).phase.WebSocket?
    ensures FeedAll(v, pieces) == Feed(v, Flatten(pieces)) && !FeedAll(v, pieces).phase.WebSocket?
    ensures Feed(v, Flatten(pieces) + more) == Feed(FeedAll(v, pieces), more)
  {
    var a := Flatten(pieces);
    assert (a + more)[..|a|] == a;
    if Feed(v, a).phase.WebSocket? { WebSocketStays(v, a + more, |a|); }
    PiecesDoNotMatter(v, pieces);
    FeedConcat(v, a, more);
  }

  /** However the bytes of a message that does not upgrade are spread over reads and pieces, the callback is run
      exactly if they hold a whole message, once, on the state that all of them together lead to; and exactly then the
      driver goes on to write the reply. */
  lemma {:induction false} CalledExactlyOnce(c: Serv, rounds: seq<seq<seq<Byte>>>)
    requires Coherent(c.fsm) && NonEmptyReads(rounds) && c.next == ToRead && !c.fsm.phase.Finish?
    requires !Feed(c.fsm, Received(rounds)).phase.WebSocket?
    ensures var v := Feed(c.fsm, Received(rounds));
      && Serve(c, rounds).calls == (if v.phase.Finish? then c.calls + [v] else c.calls)
      && (Serve(c, rounds).next == ToWrite <==> v.phase.Finish?)
    decreases |rounds|
  {
    if rounds == [] {
    } else if c.fsm.phase.Error? {
      FeedStopped(c.fsm, Received(rounds));
      StillStopped(c, rounds);
    } else {
      ReadFed(c.fsm, rounds[0], Received(rounds[1..]));
      var d := Served(c, true, rounds[0]);
      if d.fsm.phase.Finish? {
        FeedStopped(d.fsm, Received(rounds[1..]));
      } else {
        assert NonEmptyReads(rounds[1..]) by {
          assert forall i :: 0 <= i < |rounds| - 1 ==> rounds[1..][i] == rounds[i + 1];
        }
        CalledExactlyOnce(d, rounds[1..]);
      }
    }
  }

  /** A read that fails, after any reads that left the driver reading, closes the connection, and no callback is run
      at all. */
  lemma FailedReadCloses(c: Serv, rounds: seq<seq<seq<Byte>>>, pieces: seq<seq<Byte>>)
    requires Coherent(c.fsm) && NonEmptyReads(rounds) && c.next == ToRead && !c.fsm.phase.Finish?
    requires !Feed(c.fsm, Received(rounds)).phase.WebSocket? && Serve(c, rounds).next == ToRead
    ensures Coherent(Serve(c, rounds).fsm)
    ensures var d := Served(Serve(c, rounds), false, pieces); d.next == Closed && d.calls == c.calls
  {
    CalledExactlyOnce(c, rounds);
    StaysCoherent(c, rounds);
  }

  lemma {:induction false} StaysCoherent(c: Serv, rounds: seq<seq<seq<Byte>>>)
    requires Coherent(c.fsm)
    ensures Coherent(Serve(c, rounds).fsm)
    decreases |rounds|
  {
    if rounds != [] && c.next == ToRead { StaysCoherent(Served(c, true, rounds[0]), rounds[1..]); }
  }

  /** After an error the connection is closed at the next read, and the callback is never run. */
  lemma ErrorCloses(c: Serv, rounds: seq<seq<seq<Byte>>>)
    requires Coherent(c.fsm) && c.fsm.phase.Error? && c.next == ToRead && rounds != []
    ensures Serve(c, rounds) == c.(next := Closed)
  {
    var d := Served(c, true, rounds[0]);
    assert Serve(d, rounds[1..]) == d;
  }

  /** A chunked message, read from the first byte on in any reads and pieces, with anything after it: the callback
      is run once, on the decoded body and the header and trailer texts as sent. */
  lemma ChunkedServed(rounds: seq<seq<seq<Byte>>>, more: seq<Byte>,
                      texts: seq<seq<Byte>>, cs: seq<Chunk>, last: seq<Byte>, trailer: seq<seq<Byte>>)
    requires NonEmptyReads(rounds) && Received(rounds) == ChunkedMessage(texts, cs, last, trailer) + more
    requires GoodLines(texts) && SaysChunked(texts)
    requires (forall i :: 0 <= i < |cs| ==> GoodChunk(cs[i])) && |Decoded(cs)| < UINT32 && GoodLast(last)
    requires (forall i :: 0 <= i < |trailer| ==> GoodLine(trailer[i])) && |texts| + |trailer| <= MAX_HEADER
    ensures var calls := Serve(Serv(Start, ToRead, []), rounds).calls;
      |calls| == 1 && BodyOf(calls[0]) == Decoded(cs) && Texts(calls[0].mem, calls[0].hd) == texts + trailer
  {
    var m := ChunkedMessage(texts, cs, last, trailer);
    ChunkedWhole(texts, cs, last, trailer);
    FeedConcat(Start, m, more);
    FeedStopped(Feed(Start, m), more);
    CalledExactlyOnce(Serv(Start, ToRead, []), rounds);
  }

  // ---------- the block ----------

  lemma {:induction false} BlockStays(c: Serv, k: Block, rounds: seq<seq<seq<Byte>>>)
    requires Coherent(c.fsm) && !Receiving(c.fsm.phase)
    ensures ServeBlock(c, k, rounds) == k
    decreases |rounds|
  {
    if rounds != [] && c.next == ToRead { BlockStays(Served(c, true, rounds[0]), k, rounds[1..]); }
  }

  /** Reads and pieces make no difference to the block: it is as if all bytes had come at once. */
  lemma {:induction false} BlockOfReads(c: Serv, k: Block, rounds: seq<seq<seq<Byte>>>)
    requires Coherent(c.fsm) && NonEmptyReads(rounds) && c.next == ToRead && !c.fsm.phase.WebSocket?
    requires !Feed(c.fsm, Received(rounds)).phase.WebSocket?
    ensures ServeBlock(c, k, rounds) == FeedBlock(c.fsm, k, Received(rounds))
    decreases |rounds|
  {
    if rounds == [] {
    } else if !Receiving(c.fsm.phase) {
      BlockStays(c, k, rounds);
    } else {
      var a, rest := Flatten(rounds[0]), Received(rounds[1..]);
      ReadFed(c.fsm, rounds[0], rest);
      BlockConcat(c.fsm, k, a, rest);
      BlockOfPieces(c.fsm, k, rounds[0]);
      var d, m := Served(c, true, rounds[0]), ServedBlock(c, k, true, rounds[0]);
      if d.fsm.phase.Finish? {
        BlockStays(d, m, rounds[1..]);
      } else {
        assert NonEmptyReads(rounds[1..]) by {
          assert forall i :: 0 <= i < |rounds| - 1 ==> rounds[1..][i] == rounds[i + 1];
        }
        BlockOfReads(d, m, rounds[1..]);
      }
    }
  }

  /** Exactly when a connection stays inside its parser's block: if every byte that is stored lies below 1021. */
  lemma ConnectionFitsExactly(rounds: seq<seq<seq<Byte>>>)
    requires NonEmptyReads(rounds) && !Feed(Start, Received(rounds)).phase.WebSocket?
    ensures ServeBlock(Serv(Start, ToRead, []), NewBlock(CHUNK_SIZE), rounds).inside <==> FitsBelow(Start, Received(rounds), 1022)
    ensures |Received(rounds)| <= 1021 ==> FitsBelow(Start, Received(rounds), 1022)
  {
    BlockOfReads(Serv(Start, ToRead, []), NewBlock(CHUNK_SIZE), rounds);
    InsideExactly(Start, NewBlock(CHUNK_SIZE), Received(rounds));
    if |Received(rounds)| <= 1021 { ShortFits(CHUNK_SIZE, Received(rounds)); }
  }
}
