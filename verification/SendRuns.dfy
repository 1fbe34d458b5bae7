/**
 Any number of threads that send on one stream, the worker thread that completes its writes, and the holders of
 references to it (src/conn.h, lines 98-151 and 252-305; src/conn.cpp, lines 63-80; src/worker.cpp, lines 20-50),
 step by step.

 Holder 0 is the Conn; the others are Stream handles and StreamClosers, created by someone who holds a
 reference. A thread sends through a holder. `lock` is `mtx_` with what its owner does next: a sender tests
 `is_sending_`, adds a reference, writes and unlocks; the worker writes, pops and unlocks. Meanwhile other threads
 go on with what needs no lock. All completions of a stream are delivered by one worker thread, which takes the next
 one only when it is done with the last: a completed write runs Step, a failed one Destroy, and both drop the
 write's reference outside the lock.
 */
module SendRuns {
  import opened SendStream

  /** Who is inside a critical section, and what comes next there. */
  datatype Lock =
    | Free
    | ToRef(h: nat, r: Reply)    // Send, after it set `is_sending_`: ++refc_
    | ToWrite(h: nat, r: Reply)  // io_.Write
    | ToUnlock(h: nat)           // mtx_.unlock
    | ToPop                      // Step, after its io_.Write: pop, mtx_.unlock

  /** The worker thread outside the lock: between completions, about to lock in Step, about to drop a reference. */
  datatype Worker = Waiting | ToLock | ToUnref

  datatype State = State(
    stream: Stream, holders: set<nat>, lock: Lock,
    worker: Worker,
    flying: nat,      // writes issued and not completed
    failed: nat,      // writes that failed
    sent: seq<Reply>) // replies in the order of their critical sections

  datatype Action =
    | Acquire(from: nat, h: nat) // `from` makes a new handle or closer
    | Drop(h: nat)               // a holder goes away
    | Send(h: nat, r: Reply)     // lock, test is_sending_, and queue and unlock if a write is in progress
    | SendRef
    | SendWrite
    | SendUnlock
    | Complete(ok: bool)         // the completion queue delivers to the worker
    | Step                       // lock, test the queue, and write its front or stop sending and unlock
    | StepPop
    | Leave                      // Unref after Step or in Destroy

  /** The holder a thread is sending through. */
  predicate Through(l: Lock, h: nat) {
    (l.ToRef? || l.ToWrite? || l.ToUnlock?) && l.h == h
  }

  /** What the code's callers must do: hold a reference while using the stream. */
  predicate Enabled(s: State, a: Action) {
    match a
    case Acquire(from, h) => from in s.holders && h !in s.holders
    case Drop(h) => h in s.holders && !Through(s.lock, h)
    case Send(h, _) => h in s.holders && s.lock.Free?
    case SendRef => s.lock.ToRef?
    case SendWrite => s.lock.ToWrite?
    case SendUnlock => s.lock.ToUnlock?
    case Complete(_) => s.flying > 0 && s.worker.Waiting? && !s.lock.ToPop?
    case Step => s.worker.ToLock? && s.lock.Free?
    case StepPop => s.lock.ToPop? && s.stream.queue != []
    case Leave => s.worker.ToUnref?
  }

  function Apply(s: State, a: Action): State
    requires Enabled(s, a)
  {
    match a
    case Acquire(_, h) => s.(stream := Ref(s.stream), holders := s.holders + {h})
    case Drop(h) => s.(stream := Unref(s.stream), holders := s.holders - {h})
    case Send(h, r) =>
      s.(stream := Claim(s.stream, r), sent := s.sent + [r], lock := if s.stream.isSending then Free else ToRef(h, r))
    case SendRef => s.(stream := Ref(s.stream), lock := ToWrite(s.lock.h, s.lock.r))
    case SendWrite => s.(stream := Write(s.stream, s.lock.r), lock := ToUnlock(s.lock.h), flying := s.flying + 1)
    case SendUnlock => s.(lock := Free)
    case Complete(ok) =>
      if ok then s.(flying := s.flying - 1, worker := ToLock)
      else s.(flying := s.flying - 1, worker := ToUnref, failed := s.failed + 1)
    case Step =>
      if s.stream.queue != [] then
        s.(stream := Write(s.stream, s.stream.queue[0]), worker := Waiting, lock := ToPop, flying := s.flying + 1)
      else s.(stream := s.stream.(isSending := false), worker := ToUnref)
    case StepPop => s.(stream := s.stream.(queue := s.stream.queue[1..]), lock := Free)
    case Leave => s.(stream := Unref(s.stream), worker := Waiting)
  }

  /** A new Conn with its stream. */
  predicate Init(s: State) {
    && s.stream == Ref(Fresh) && s.holders == {0} && s.lock == Free && s.worker == Waiting
    && s.flying == s.failed == 0 && s.sent == []
  }

  ghost predicate Reaches(s0: State, run: seq<Action>, s: State)
    decreases |run|
  {
    if run == [] then Init(s0) && s == s0
    else
      var last := |run| - 1;
      exists m :: Reaches(s0, run[..last], m) && Enabled(m, run[last]) && s == Apply(m, run[last])
  }

  // ---------- the invariant ----------

  /** 1 if the condition holds. */
  function One(b: bool): nat {
    if b then 1 else 0
  }

  /** The write that the stream is busy with: about to be issued, in flight, or completed and not yet followed up. */
  function Busy(s: State): nat {
    One(s.lock.ToRef? || s.lock.ToWrite?) + s.flying + One(s.worker.ToLock?)
  }

  /** The reply of the sender in its critical section, before it is written. */
  function InHand(s: State): seq<Reply> {
    if s.lock.ToRef? || s.lock.ToWrite? then [s.lock.r] else []
  }

  /** The replies that wait: the queue without the front that Step has already written. */
  function InQueue(s: State): seq<Reply> {
    if s.lock.ToPop? && s.stream.queue != [] then s.stream.queue[1..] else s.stream.queue
  }

  /** References held: by holders, by the write, and by the worker until it drops the write's. */
  function Held(s: State): nat {
    |s.holders| + One(s.lock.ToWrite?) + s.flying + One(s.worker.ToLock? || s.worker.ToUnref?)
  }

  predicate Inv(s: State) {
    && Busy(s) + s.failed == One(s.stream.isSending)
    && s.stream.issued + InHand(s) + InQueue(s) == s.sent
    && (!s.stream.isSending ==> s.stream.queue == [])
    && s.stream.refc == Held(s)
    && s.stream.deleted == One(Held(s) == 0)
    && (s.lock.ToRef? || s.lock.ToWrite? || s.lock.ToUnlock? ==> s.lock.h in s.holders)
    && (s.lock.ToPop? ==> s.stream.queue != [] && s.flying == 1)
    && (s.lock.ToRef? || s.lock.ToWrite? ==> s.stream.queue == [])
  }

  lemma OrderKept(s: State, a: Action)
    requires Inv(s) && Enabled(s, a)
    ensures var t := Apply(s, a); t.stream.issued + InHand(t) + InQueue(t) == t.sent
  {
    var q := s.stream.queue;
    if a.Send? {
      if s.stream.isSending {
        assert s.stream.issued + InHand(s) + InQueue(s) + [a.r] == s.stream.issued + InHand(s) + (InQueue(s) + [a.r]);
      } else {
        assert q == [] && s.stream.issued + [] + [] + [a.r] == s.stream.issued + [a.r] + [];
      }
    } else if a.SendWrite? {
      assert s.stream.issued + [s.lock.r] + q == (s.stream.issued + [s.lock.r]) + [] + q;
    } else if a.Step? && q != [] {
      assert s.stream.issued + [] + q == (s.stream.issued + [q[0]]) + [] + q[1..];
    }
  }

  lemma HeldKept(s: State, a: Action)
    requires Inv(s) && Enabled(s, a)
    ensures var t := Apply(s, a); t.stream.refc == Held(t) && t.stream.deleted == One(Held(t) == 0)
  {
    assert s.holders != {} ==> |s.holders| > 0;
  }

  lemma ActionKeepsInv(s: State, a: Action)
    requires Inv(s) && Enabled(s, a)
    ensures Inv(Apply(s, a))
  {
    OrderKept(s, a);
    HeldKept(s, a);
  }

  lemma {:induction false} ReachableInv(s0: State, run: seq<Action>, s: State)
    requires Reaches(s0, run, s)
    ensures Inv(s)
    decreases |run|
  {
    if run != [] {
      var last := |run| - 1;
      var m :| Reaches(s0, run[..last], m) && Enabled(m, run[last]) && s == Apply(m, run[last]);
      ReachableInv(s0, run[..last], m);
      ActionKeepsInv(m, run[last]);
    }
  }

  // ---------- what follows for every run ----------

  /** At most one write is in flight, and none while its completion or the next write is being dealt with. */
  lemma OneWriteInFlight(s0: State, run: seq<Action>, s: State)
    requires Reaches(s0, run, s)
    ensures s.flying <= 1
    ensures s.worker.ToLock? || s.lock.ToRef? || s.lock.ToWrite? ==> s.flying == 0
    ensures s.worker.ToLock? ==> !s.lock.ToRef? && !s.lock.ToWrite?
  {
    ReachableInv(s0, run, s);
  }

  /** Writes issued, then the one about to be issued, then the replies that wait, are the replies in the order of
      Send. */
  lemma SentInOrder(s0: State, run: seq<Action>, s: State)
    requires Reaches(s0, run, s)
    ensures s.stream.issued + InHand(s) + InQueue(s) == s.sent
    ensures s.stream.issued <= s.sent
  {
    ReachableInv(s0, run, s);
    FirstOfThree(s.stream.issued, InHand(s), InQueue(s));
  }

  lemma FirstOfThree(a: seq<Reply>, b: seq<Reply>, c: seq<Reply>)
    ensures a <= a + b + c
  {
    assert a + b + c == a + (b + c);
  }

  /** After a failed write nothing is ever written again: no later step issues a write. */
  lemma NoWriteAfterFailure(s0: State, run: seq<Action>, s: State, a: Action)
    requires Reaches(s0, run, s) && Enabled(s, a) && s.failed > 0
    ensures Apply(s, a).stream.issued == s.stream.issued && Apply(s, a).failed == s.failed == 1
  {
    ReachableInv(s0, run, s);
  }

  /** A queued reply always has a write on its way, whose completion will send it, unless a write failed. */
  lemma QueueIsServed(s0: State, run: seq<Action>, s: State)
    requires Reaches(s0, run, s) && s.stream.queue != [] && s.failed == 0
    ensures Busy(s) == 1
  {
    ReachableInv(s0, run, s);
  }

  /** With nothing in flight or being dealt with and no failure, everything sent has been written. */
  lemma AllWritten(s0: State, run: seq<Action>, s: State)
    requires Reaches(s0, run, s) && s.failed == 0 && Busy(s) == 0
    ensures s.stream.issued == s.sent && s.stream.queue == [] && !s.stream.isSending
  {
    ReachableInv(s0, run, s);
    assert s.stream.issued + [] + [] == s.stream.issued;
  }

  /** The reference count is the Conn, handles and closers, plus the write in flight, plus the one the worker is
      about to drop or to hand on. */
  lemma RefcIsHolders(s0: State, run: seq<Action>, s: State)
    requires Reaches(s0, run, s)
    ensures s.stream.refc == Held(s)
  {
    ReachableInv(s0, run, s);
  }

  /** The stream is deleted exactly when the last reference is gone, and once. */
  lemma DeletedExactly(s0: State, run: seq<Action>, s: State)
    requires Reaches(s0, run, s)
    ensures s.stream.deleted <= 1
    ensures s.stream.deleted == 1 <==> s.holders == {} && s.flying == 0 && s.worker.Waiting?
  {
    ReachableInv(s0, run, s);
    assert s.holders != {} ==> |s.holders| > 0;
  }

  /** And nobody touches it afterwards: no step is left that could, and nobody is inside a critical section. */
  lemma NoUseAfterDelete(s0: State, run: seq<Action>, s: State, a: Action)
    requires Reaches(s0, run, s) && s.stream.deleted > 0
    ensures !Enabled(s, a) && s.lock.Free?
  {
    ReachableInv(s0, run, s);
    DeletedExactly(s0, run, s);
  }
}
