/**
 BlockingReaderWriterQueue (ext/MoodyCamel/readerwriterqueue.h): the single-producer queue with a semaphore on top,
 both step by step. The producer puts an element in and then signals; the consumer waits and then takes one out, or
 peeks without waiting. Steps of the two sides interleave freely.
 */
module BlockingQueue {
  import Q = SpscQueue
  import P = SpscQueueProof
  import R = SpscQueueRuns
  import C = SpscQueueCalls
  import Sema = Semaphore

  datatype ProdPC =
    | PIdle
    | PInner                       // inside inner.enqueue or inner.try_enqueue
    | PSignal                      // it succeeded
    | PWaitsForSignal              // inside sema.signal

  datatype ConsPC =
    | CIdle
    | CWaiting(pops: bool)         // inside sema.tryWait or sema.wait, for pop or for the others
    | CTake(pops: bool)            // it succeeded
    | CInner                       // inside inner.try_dequeue or inner.pop
    | CPeek                        // inside inner.peek

  datatype State = State(inner: Q.State, sema: Sema.State, prod: ProdPC, cons: ConsPC)

  datatype Action =
    | Put(x: Q.Item, can: bool)            // enqueue or try_enqueue begins
    | ProdMove(works: bool)                // a step of it inside the inner queue
    | Signal                               // sema.signal() begins
    | Wait(k: Sema.WaitKind, pops: bool)   // try_dequeue, pop, wait_dequeue or wait_dequeue_timed begins
    | SemaMove(a: Sema.Action)             // a step inside the semaphore
    | Take                                 // inner.try_dequeue or inner.pop after a successful wait
    | Peek                                 // peek
    | ConsMove                             // a step of either inside the inner queue

  ghost predicate Enabled(s: State, a: Action) {
    match a
    case Put(x, can) => s.prod.PIdle? && Q.Enabled(s.inner, Q.Enqueue(x, can))
    case ProdMove(works) => s.prod.PInner? && Q.Enabled(s.inner, Q.ProdMove(works))
    case Signal => s.prod.PSignal? && s.sema.signaller.SIdle?
    case Wait(_, _) => s.cons.CIdle? && s.sema.waiter.WIdle?
    case SemaMove(m) => (m.WaitMove? || m.SignalMove?) && Sema.Enabled(s.sema, m)
    case Take => s.cons.CTake? && Q.Enabled(s.inner, Q.Take(Q.Dequeue))
    case Peek => s.cons.CIdle? && Q.Enabled(s.inner, Q.Take(Q.Peek))
    case ConsMove => (s.cons.CInner? || s.cons.CPeek?) && Q.Enabled(s.inner, Q.ConsMove)
  }

  /** `inner` returns to the producer with success if an element has gone in. */
  function AfterProd(before: Q.State, after: Q.State): ProdPC {
    if !after.prod.PIdle? then PInner else if |after.put| > |before.put| then PSignal else PIdle
  }

  function AfterSema(s: State, sema: Sema.State): State {
    s.(sema := sema,
       prod := if s.prod.PWaitsForSignal? && sema.signaller.SIdle? then PIdle else s.prod,
       cons := if s.cons.CWaiting? && sema.waiter.WIdle?
               then if sema.taken > s.sema.taken then CTake(s.cons.pops) else CIdle
               else s.cons)
  }

  ghost function Apply(s: State, a: Action): State
    requires Enabled(s, a)
  {
    match a
    case Put(x, can) => s.(inner := Q.Apply(s.inner, Q.Enqueue(x, can)), prod := PInner)
    case ProdMove(works) =>
      var inner := Q.Apply(s.inner, Q.ProdMove(works));
      s.(inner := inner, prod := AfterProd(s.inner, inner))
    case Signal => s.(sema := Sema.Apply(s.sema, Sema.Signal(1)), prod := PWaitsForSignal)
    case Wait(k, pops) => s.(sema := Sema.Apply(s.sema, Sema.Wait(k)), cons := CWaiting(pops))
    case SemaMove(m) => AfterSema(s, Sema.Apply(s.sema, m))
    case Take => s.(inner := Q.Apply(s.inner, Q.Take(if s.cons.pops then Q.Pop else Q.Dequeue)), cons := CInner)
    case Peek => s.(inner := Q.Apply(s.inner, Q.Take(Q.Peek)), cons := CPeek)
    case ConsMove =>
      var inner := Q.Apply(s.inner, Q.ConsMove);
      s.(inner := inner, cons := if inner.cons.CIdle? then CIdle else s.cons)
  }

  /** A semaphore nobody has used. */
  const NoTokens: Sema.State := Sema.State(0, 0, Sema.WIdle, Sema.SIdle, 0, 0)

  /** A new queue. */
  predicate Init(s: State, maxSize: nat) {
    Q.Init(s.inner, maxSize) && s.sema == NoTokens && s.prod.PIdle? && s.cons.CIdle?
  }

  ghost predicate Reaches(s0: State, maxSize: nat, run: seq<Action>, s: State)
    decreases |run|
  {
    if run == [] then Init(s0, maxSize) && s == s0
    else
      var last := |run| - 1;
      exists m :: Reaches(s0, maxSize, run[..last], m) && Enabled(m, run[last]) && s == Apply(m, run[last])
  }

  // ---------- the invariant ----------

  function One(b: bool): int {
    if b then 1 else 0
  }

  function Stored(q: Q.State): int {
    |q.put| - |q.got|
  }

  /** Elements stored are tokens not taken, plus one put in and not yet signalled, plus one whose token was
      taken and that is still to be taken out. */
  predicate Balanced(s: State) {
    Stored(s.inner) == s.sema.signalled - s.sema.taken + One(s.prod.PSignal? || s.sema.signaller.SAdd?)
                       + One(s.cons.CTake? || s.cons.CInner?)
  }

  /** What the inner operation of each side is. */
  predicate InStep(s: State) {
    && (s.prod.PInner? <==> !s.inner.prod.PIdle?)
    && (s.prod.PWaitsForSignal? <==> !s.sema.signaller.SIdle?)
    && (s.cons.CInner? || s.cons.CPeek? <==> !s.inner.cons.CIdle?)
    && (s.cons.CWaiting? <==> !s.sema.waiter.WIdle?)
  }

  /** A take under way takes, and has not seen an empty queue. */
  predicate TakeOk(s: State) {
    var pc := s.inner.cons;
    && (s.cons.CInner? && !pc.CIdle? ==> C.KindOf(pc) != Q.Peek && (pc.CTailBlock? ==> !pc.empty))
    && (s.cons.CPeek? && !pc.CIdle? ==> C.KindOf(pc) == Q.Peek && !pc.CFront? && !pc.CAdvance?)
  }

  ghost predicate Inv(s: State) {
    && P.Inv(s.inner) && Sema.Inv(s.sema) && (s.sema.signaller.SAdd? ==> s.sema.signaller.n == 1)
    && InStep(s) && Balanced(s) && TakeOk(s)
  }

  // ---------- every step keeps it ----------

  /** A step of the producer puts at most one element in, and only as its last. */
  lemma ProdPuts(q: Q.State, works: bool)
    requires Q.ProdEnabled(q)
    ensures var q' := Q.ProdStep(q, works);
      && q'.got == q.got && q'.cons == q.cons
      && (q'.put == q.put || (q'.prod.PIdle? && |q'.put| == |q.put| + 1))
  {
  }

  lemma ProdMoveKeeps(s: State, works: bool)
    requires Inv(s) && Enabled(s, ProdMove(works))
    ensures Inv(Apply(s, ProdMove(works)))
  {
    P.ProdStepKeeps(s.inner, works);
    ProdPuts(s.inner, works);
  }

  lemma PutKeeps(s: State, x: Q.Item, can: bool)
    requires Inv(s) && Enabled(s, Put(x, can))
    ensures Inv(Apply(s, Put(x, can)))
  {
    P.EnqueueKeeps(s.inner, x, can);
  }

  lemma TakeKeeps(s: State)
    requires Inv(s) && Enabled(s, Take)
    ensures Inv(Apply(s, Take))
  {
    P.TakeKeeps(s.inner, if s.cons.pops then Q.Pop else Q.Dequeue);
  }

  lemma PeekKeeps(s: State)
    requires Inv(s) && Enabled(s, Peek)
    ensures Inv(Apply(s, Peek))
  {
    P.TakeKeeps(s.inner, Q.Peek);
  }

  lemma SemaKeeps(s: State, m: Sema.Action)
    requires Inv(s) && Enabled(s, SemaMove(m))
    ensures Inv(Apply(s, SemaMove(m)))
  {
    Sema.ActionKeepsInv(s.sema, m);
  }

  /** A step of a take that has an element to take: it goes on, or it takes the front element of the stream. */
  lemma TakeStep(q: Q.State)
    requires P.Inv(q) && Q.ConsEnabled(q) && Stored(q) > 0 && C.KindOf(q.cons) != Q.Peek
    requires q.cons.CTailBlock? ==> !q.cons.empty
    ensures var q' := Q.ConsStep(q);
      && q'.put == q.put && q'.prod == q.prod
      && if q'.cons.CIdle? then q'.got == q.put[..|q.got| + 1] && q'.log == q.log + [Q.Took(|q.got|, q.put[|q.got|])]
         else q'.got == q.got && C.KindOf(q'.cons) != Q.Peek && (q'.cons.CTailBlock? ==> !q'.cons.empty)
  {
    P.ConsStepKeeps(q);
    if q.cons.CFront? { TakesFront(q); }
  }

  /** Front index and stream agree on the element that is taken. */
  lemma TakesFront(q: Q.State)
    requires P.Inv(q) && Q.ConsEnabled(q) && q.cons.CFront? && Stored(q) > 0
    ensures var q' := Q.ConsStep(q);
      q'.got == q.put[..|q.got| + 1] && q'.log == q.log + [Q.Took(|q.got|, q.put[|q.got|])]
  {
    var q' := Q.ConsStep(q);
    P.ConsStepKeeps(q);
    assert q'.got <= q'.put && q'.got == q.got + [q.cons.x] && q.got <= q.put;
    assert q'.got[|q.got|] == q.put[|q.got|];
  }

  /** A step of a peek takes nothing. */
  lemma PeekStep(q: Q.State)
    requires P.Inv(q) && Q.ConsEnabled(q) && C.KindOf(q.cons) == Q.Peek && !q.cons.CFront? && !q.cons.CAdvance?
    ensures var q' := Q.ConsStep(q);
      && q'.put == q.put && q'.prod == q.prod && q'.got == q.got
      && (!q'.cons.CIdle? ==> C.KindOf(q'.cons) == Q.Peek && !q'.cons.CFront? && !q'.cons.CAdvance?)
  {
  }

  lemma TakeMoveKeeps(s: State)
    requires Inv(s) && Enabled(s, ConsMove) && s.cons.CInner?
    ensures Inv(Apply(s, ConsMove))
  {
    P.ConsStepKeeps(s.inner);
    TakeStep(s.inner);
  }

  lemma PeekMoveKeeps(s: State)
    requires Inv(s) && Enabled(s, ConsMove) && s.cons.CPeek?
    ensures Inv(Apply(s, ConsMove))
  {
    P.ConsStepKeeps(s.inner);
    PeekStep(s.inner);
  }

  lemma ActionKeepsInv(s: State, a: Action)
    requires Inv(s) && Enabled(s, a)
    ensures Inv(Apply(s, a))
  {
    if a.Put? {
      PutKeeps(s, a.x, a.can);
    } else if a.ProdMove? {
      ProdMoveKeeps(s, a.works);
    } else if a.SemaMove? {
      SemaKeeps(s, a.a);
    } else if a.Take? {
      TakeKeeps(s);
    } else if a.Peek? {
      PeekKeeps(s);
    } else if a.ConsMove? {
      if s.cons.CInner? { TakeMoveKeeps(s); } else { PeekMoveKeeps(s); }
    }
  }

  predicate Unused(q: Q.State) {
    q.prod.PIdle? && q.cons.CIdle? && |q.put| == |q.got|
  }

  lemma InitUnused(q: Q.State, maxSize: nat)
    requires Q.Init(q, maxSize)
    ensures Unused(q)
  {
  }

  lemma NoTokensOk()
    ensures Sema.Inv(NoTokens)
  {
  }

  lemma UnusedIsInStep(s: State)
    requires Unused(s.inner) && s.sema == NoTokens && s.prod.PIdle? && s.cons.CIdle?
    ensures InStep(s) && TakeOk(s)
  {
  }

  lemma UnusedIsBalanced(s: State)
    requires Unused(s.inner) && s.sema == NoTokens && s.prod.PIdle? && s.cons.CIdle?
    ensures Balanced(s)
  {
  }

  lemma InnerStarts(q: Q.State, maxSize: nat)
    requires Q.Init(q, maxSize)
    ensures P.Inv(q)
  {
    R.InitKeeps(q, maxSize);
  }

  lemma InitInv(s: State, maxSize: nat)
    requires Init(s, maxSize)
    ensures Inv(s)
  {
    InnerStarts(s.inner, maxSize);
    InitUnused(s.inner, maxSize);
    NoTokensOk();
    UnusedIsInStep(s);
    UnusedIsBalanced(s);
  }

  lemma {:induction false} ReachableInv(s0: State, maxSize: nat, run: seq<Action>, s: State)
    requires Reaches(s0, maxSize, run, s)
    ensures Inv(s)
    decreases |run|
  {
    if run == [] {
      InitInv(s, maxSize);
    } else {
      var last := |run| - 1;
      var m: State :| Reaches(s0, maxSize, run[..last], m) && Enabled(m, run[last]) && s == Apply(m, run[last]);
      ReachableInv(s0, maxSize, run[..last], m);
      ActionKeepsInv(m, run[last]);
    }
  }

  // ---------- what holds of every run ----------

  /** After every successful wait the inner queue holds an element, and goes on holding it until it is taken. */
  lemma WaitFindsElement(s0: State, maxSize: nat, run: seq<Action>, s: State)
    requires Reaches(s0, maxSize, run, s) && (s.cons.CTake? || s.cons.CInner?)
    ensures |s.inner.got| < |s.inner.put|
  {
    ReachableInv(s0, maxSize, run, s);
  }

  /** So the assertions on `success` hold: the take or pop that follows a successful wait returns the oldest element,
      never "nothing", however producer and timeouts interleave with it. */
  lemma TakeSucceeds(s0: State, maxSize: nat, run: seq<Action>, s: State)
    requires Reaches(s0, maxSize, run, s) && s.cons.CInner? && Enabled(s, ConsMove) && Apply(s, ConsMove).cons.CIdle?
    ensures var q, q' := s.inner, Apply(s, ConsMove).inner;
      && |q.got| < |q.put| && q'.got == q.put[..|q.got| + 1]
      && q'.log == q.log + [Q.Took(|q.got|, q.put[|q.got|])]
  {
    ReachableInv(s0, maxSize, run, s);
    TakeStep(s.inner);
  }

  /** Nobody is stuck: every operation under way inside the queue can take its next step. */
  lemma InnerDefined(s0: State, maxSize: nat, run: seq<Action>, s: State)
    requires Reaches(s0, maxSize, run, s)
    ensures s.prod.PInner? ==> Enabled(s, ProdMove(true))
    ensures s.cons.CTake? ==> Enabled(s, Take)
    ensures s.cons.CInner? || s.cons.CPeek? ==> Enabled(s, ConsMove)
  {
    ReachableInv(s0, maxSize, run, s);
  }

  // ---------- the queue and the semaphore by themselves ----------

  /** Whether the last call that waits was `pop`. */
  function LastPops(run: seq<Action>): bool
    decreases |run|
  {
    if run == [] then false
    else
      var last := |run| - 1;
      if run[last].Wait? then run[last].pops else LastPops(run[..last])
  }

  /** What the inner queue sees of a run. */
  function InnerRun(run: seq<Action>): seq<Q.Action>
    decreases |run|
  {
    if run == [] then []
    else
      var before, a := run[..|run| - 1], run[|run| - 1];
      InnerRun(before) + match a
                         case Put(x, can) => [Q.Enqueue(x, can)]
                         case ProdMove(works) => [Q.ProdMove(works)]
                         case Take => [Q.Take(if LastPops(before) then Q.Pop else Q.Dequeue)]
                         case Peek => [Q.Take(Q.Peek)]
                         case ConsMove => [Q.ConsMove]
                         case _ => []
  }

  /** What the semaphore sees of it. */
  function SemaRun(run: seq<Action>): seq<Sema.Action>
    decreases |run|
  {
    if run == [] then []
    else
      var before, a := run[..|run| - 1], run[|run| - 1];
      SemaRun(before) + match a
                        case Signal => [Sema.Signal(1)]
                        case Wait(k, _) => [Sema.Wait(k)]
                        case SemaMove(m) => [m]
                        case _ => []
  }

  /** The call that waits or takes is the last one made. */
  predicate PopsOk(run: seq<Action>, s: State) {
    s.cons.CWaiting? || s.cons.CTake? ==> s.cons.pops == LastPops(run)
  }

  lemma InnerNext(q0: Q.State, maxSize: nat, run: seq<Q.Action>, q: Q.State, a: Q.Action)
    requires Q.Reaches(q0, maxSize, run, q) && Q.Enabled(q, a)
    ensures Q.Reaches(q0, maxSize, run + [a], Q.Apply(q, a))
  {
    assert (run + [a])[..|run + [a]| - 1] == run;
  }

  lemma InnerStep(s0: State, maxSize: nat, run: seq<Action>, s: State, a: Action)
    requires Enabled(s, a) && PopsOk(run, s) && Q.Reaches(s0.inner, maxSize, InnerRun(run), s.inner)
    ensures Q.Reaches(s0.inner, maxSize, InnerRun(run + [a]), Apply(s, a).inner)
  {
    var inner, inner' := InnerRun(run), InnerRun(run + [a]);
    assert (run + [a])[..|run + [a]| - 1] == run;
    if a.Put? {
      InnerNext(s0.inner, maxSize, inner, s.inner, Q.Enqueue(a.x, a.can));
    } else if a.ProdMove? {
      InnerNext(s0.inner, maxSize, inner, s.inner, Q.ProdMove(a.works));
    } else if a.Take? {
      InnerNext(s0.inner, maxSize, inner, s.inner, Q.Take(if s.cons.pops then Q.Pop else Q.Dequeue));
    } else if a.Peek? {
      InnerNext(s0.inner, maxSize, inner, s.inner, Q.Take(Q.Peek));
    } else if a.ConsMove? {
      InnerNext(s0.inner, maxSize, inner, s.inner, Q.ConsMove);
    } else {
      assert inner' == inner;
    }
  }

  lemma SemaNext(run: seq<Sema.Action>, s: Sema.State, a: Sema.Action)
    requires Sema.Reaches(NoTokens, 0, run, s) && Sema.Enabled(s, a)
    ensures Sema.Reaches(NoTokens, 0, run + [a], Sema.Apply(s, a))
  {
    assert (run + [a])[..|run + [a]| - 1] == run;
  }

  lemma SemaStep(run: seq<Action>, s: State, a: Action)
    requires Enabled(s, a) && Sema.Reaches(NoTokens, 0, SemaRun(run), s.sema)
    ensures Sema.Reaches(NoTokens, 0, SemaRun(run + [a]), Apply(s, a).sema)
    ensures Sema.EverySignalCounts(SemaRun(run)) ==> Sema.EverySignalCounts(SemaRun(run + [a]))
  {
    var sema, sema' := SemaRun(run), SemaRun(run + [a]);
    assert (run + [a])[..|run + [a]| - 1] == run;
    if a.Signal? {
      SemaNext(sema, s.sema, Sema.Signal(1));
    } else if a.Wait? {
      SemaNext(sema, s.sema, Sema.Wait(a.k));
    } else if a.SemaMove? {
      SemaNext(sema, s.sema, a.a);
    } else {
      assert sema' == sema;
    }
  }

  lemma PopsKept(run: seq<Action>, s: State, a: Action)
    requires Enabled(s, a) && PopsOk(run, s)
    ensures PopsOk(run + [a], Apply(s, a))
  {
    assert (run + [a])[..|run + [a]| - 1] == run;
  }

  lemma PartsStep(s0: State, maxSize: nat, run: seq<Action>, s: State, a: Action)
    requires Enabled(s, a) && PopsOk(run, s) && Q.Reaches(s0.inner, maxSize, InnerRun(run), s.inner)
    requires Sema.Reaches(NoTokens, 0, SemaRun(run), s.sema) && Sema.EverySignalCounts(SemaRun(run))
    ensures PopsOk(run + [a], Apply(s, a)) && Q.Reaches(s0.inner, maxSize, InnerRun(run + [a]), Apply(s, a).inner)
    ensures Sema.Reaches(NoTokens, 0, SemaRun(run + [a]), Apply(s, a).sema) && Sema.EverySignalCounts(SemaRun(run + [a]))
  {
    InnerStep(s0, maxSize, run, s, a);
    SemaStep(run, s, a);
    PopsKept(run, s, a);
  }

  /** Every run of the blocking queue is, inside, a run of the plain queue with the same elements put in and the same
      calls made, and a run of the semaphore with one signal for each element that went in: what holds of every run of
      these holds here. */
  lemma {:induction false} PartsRun(s0: State, maxSize: nat, run: seq<Action>, s: State)
    requires Reaches(s0, maxSize, run, s)
    ensures Q.Reaches(s0.inner, maxSize, InnerRun(run), s.inner)
    ensures Sema.Reaches(NoTokens, 0, SemaRun(run), s.sema) && Sema.EverySignalCounts(SemaRun(run))
    ensures PopsOk(run, s)
    decreases |run|
  {
    if run == [] {
      assert Q.Reaches(s0.inner, maxSize, [], s.inner) && Sema.Reaches(NoTokens, 0, [], s.sema);
    } else {
      var before, a := run[..|run| - 1], run[|run| - 1];
      var m: State :| Reaches(s0, maxSize, before, m) && Enabled(m, a) && s == Apply(m, a);
      PartsRun(s0, maxSize, before, m);
      assert run == before + [a];
      PartsStep(s0, maxSize, before, m, a);
    }
  }

  /** So what was put in is the arguments of the calls accepted, in order, and what was taken out is a prefix of it. */
  lemma StreamIsAccepted(s0: State, maxSize: nat, run: seq<Action>, s: State)
    requires Reaches(s0, maxSize, run, s)
    ensures C.CallsWith(InnerRun(run), C.AcceptedCalls(s0.inner, InnerRun(run)), s.inner.put) && s.inner.got <= s.inner.put
  {
    PartsRun(s0, maxSize, run, s);
    C.StreamIsAccepted(s0.inner, maxSize, InnerRun(run), s.inner);
  }

  /** `size_approx` is exact when neither side is inside an operation. */
  lemma SizeIsExactAtRest(s0: State, maxSize: nat, run: seq<Action>, s: State)
    requires Reaches(s0, maxSize, run, s) && s.prod.PIdle? && s.cons.CIdle?
    ensures (if s.sema.count > 0 then s.sema.count else 0) == |s.inner.put| - |s.inner.got|
  {
    ReachableInv(s0, maxSize, run, s);
  }
}
