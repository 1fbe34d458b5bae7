/**
 SVStream (src/conn.h, src/conn.cpp): replies to one client go out one gRPC write at a time, in order, on a
 stream that is kept alive by a reference count.

 The class is the stream itself; each of its methods is one critical section of `mtx_` or one operation on
 `refc_`, proved against a function on its fields. Module SendRuns interleaves them. `issued` records the
 replies handed to io_.Write, `deleted` how often the destructor was entered.
 */
module SendStream {

  type Reply = nat

  datatype Stream = Stream(refc: int, isSending: bool, queue: seq<Reply>, issued: seq<Reply>, deleted: nat)

  const Fresh: Stream := Stream(0, false, [], [], 0)

  function Ref(s: Stream): Stream {
    s.(refc := s.refc + 1)
  }

  function Unref(s: Stream): Stream {
    s.(refc := s.refc - 1, deleted := if s.refc - 1 <= 0 then s.deleted + 1 else s.deleted)
  }

  function Write(s: Stream, r: Reply): Stream {
    s.(issued := s.issued + [r])
  }

  /** The first half of Send: queue the reply behind a write in progress, or become the one that writes. */
  function Claim(s: Stream, r: Reply): Stream {
    if s.isSending then s.(queue := s.queue + [r]) else s.(isSending := true)
  }

  /** Send as a whole. */
  function Sent(s: Stream, r: Reply): Stream {
    if s.isSending then Claim(s, r) else Write(Ref(Claim(s, r)), r)
  }

  /** Step as a whole: write the next queued reply, or stop sending and drop the reference of the write. */
  function Stepped(s: Stream): Stream {
    if s.queue != [] then Write(s, s.queue[0]).(queue := s.queue[1..]) else Unref(s.(isSending := false))
  }

  class SVStream {
    var refc: int
    var isSending: bool
    var queue: seq<Reply>
    var issued: seq<Reply>
    var deleted: nat

    ghost function View(): Stream
      reads this
    {
      Stream(refc, isSending, queue, issued, deleted)
    }

    constructor ()
      ensures View() == Fresh
    {
      refc, isSending, queue, issued, deleted := 0, false, [], [], 0;
    }

    method AddRef()
      modifies this
      ensures View() == Ref(old(View()))
    {
      refc := refc + 1;
    }

    method Release()
      modifies this
      ensures View() == Unref(old(View()))
    {
      refc := refc - 1;
      if refc <= 0 {
        deleted := deleted + 1;
      }
    }

    /** `io_.Write` */
    method Issue(r: Reply)
      modifies this`issued
      ensures View() == Write(old(View()), r)
    {
      issued := issued + [r];
    }

    method Send(r: Reply)
      modifies this
      ensures View() == Sent(old(View()), r)
    {
      if !isSending {
        isSending := true;
        AddRef();
        Issue(r);
      } else {
        queue := queue + [r];
      }
    }

    /** A write has completed. */
    method Step()
      modifies this
      ensures View() == Stepped(old(View()))
    {
      if |queue| > 0 {
        Issue(queue[0]);
        queue := queue[1..];
      } else {
        isSending := false;
        Release();
      }
    }

    /** A write has failed. */
    method Destroy()
      modifies this
      ensures View() == Unref(old(View()))
    {
      Release();
    }
  }
}
