/**
 A run of the queue in which a comparison of words is not the order of the counters: a consumer loads the tail, and
 before it goes on more than half a turn of elements pass through the queue.
 */
module ImplicitQueueIncidents {
  import opened Options
  import opened Words
  import opened ImplicitQueue
  import opened ImplicitQueueCounters
  import opened ImplicitQueueBlocks
  import opened ImplicitQueueRuns
  import opened ImplicitQueueWords
  import opened ImplicitQueueAlone

  /** One producer, two consumers, no initial blocks. */
  function NewQueue(): State {
    State([NewProd], [CIdle, CIdle], [], 0, 0, [])
  }

  lemma Extend(run: seq<Action>, s: State, a: Action) returns (run': seq<Action>, s': State)
    requires Reaches(NewQueue(), run, s) && Enabled(s, a)
    ensures Reaches(NewQueue(), run', s') && s' == Apply(s, a)
  {
    run', s' := run + [a], Apply(s, a);
    assert run'[..|run'| - 1] == run;
  }

  // ---------- one element enqueued ----------

  /** What an enqueue leaves alone until it publishes. */
  predicate SameCounters(s: State, t: State) {
    && |s.prods| == |t.prods| == 1 && t.cons == s.cons && s.poolSize == t.poolSize == 0
    && t.prods[0].tail == s.prods[0].tail && t.prods[0].head == s.prods[0].head
    && t.prods[0].opt == s.prods[0].opt && t.prods[0].over == s.prods[0].over
  }

  /** A step of the producer; `try_get` finds no block, allocation works. */
  lemma ProdMoves(run: seq<Action>, s: State) returns (run': seq<Action>, s': State)
    requires Reaches(NewQueue(), run, s) && |s.prods| == 1 && s.poolSize == 0
    requires !s.prods[0].pc.PIdle? && !s.prods[0].pc.PPublish?
    requires s.prods[0].pc.PCheck? ==> !Full(s.prods[0].head, s.prods[0].tail)
    ensures Reaches(NewQueue(), run', s') && SameCounters(s, s')
    ensures !s'.prods[0].pc.PIdle? && ToWrite(s'.prods[0].pc) < ToWrite(s.prods[0].pc)
  {
    NobodyIsStuck(NewQueue(), run, s);
    var ch := if s.prods[0].pc.PFree? then Fails else Works;
    assert ProdEnabled(s, 0, Fails);
    run', s' := Extend(run, s, ProdMove(0, ch));
    ProdGoesOn(s, ch);
  }

  lemma ProdGoesOn(s: State, ch: Choice)
    requires |s.prods| == 1 && s.poolSize == 0 && ProdEnabled(s, 0, ch) && !s.prods[0].pc.PPublish?
    requires s.prods[0].pc.PCheck? ==> !Full(s.prods[0].head, s.prods[0].tail)
    requires ch == if s.prods[0].pc.PFree? then Fails else Works
    ensures var t := ProdStep(s, 0, ch);
      SameCounters(s, t) && !t.prods[0].pc.PIdle? && ToWrite(t.prods[0].pc) < ToWrite(s.prods[0].pc)
  {
  }

  lemma {:induction false} WriteDone(run: seq<Action>, s: State) returns (run': seq<Action>, s': State)
    requires Reaches(NewQueue(), run, s) && |s.prods| == 1 && s.poolSize == 0 && !s.prods[0].pc.PIdle?
    requires !Full(s.prods[0].head, s.prods[0].tail)
    ensures Reaches(NewQueue(), run', s') && SameCounters(s, s') && s'.prods[0].pc.PPublish?
    decreases ToWrite(s.prods[0].pc)
  {
    if s.prods[0].pc.PPublish? {
      run', s' := run, s;
    } else {
      var m;
      run', m := ProdMoves(run, s);
      run', s' := WriteDone(run', m);
    }
  }

  lemma EnqueueDone(run: seq<Action>, s: State) returns (run': seq<Action>, s': State)
    requires Reaches(NewQueue(), run, s) && |s.prods| == 1 && s.poolSize == 0 && s.prods[0].pc.PIdle?
    requires s.prods[0].head == s.prods[0].tail
    ensures Reaches(NewQueue(), run', s') && |s'.prods| == 1 && s'.prods[0].pc.PIdle?
    ensures SameCounters(s, s'.(prods := [s'.prods[0].(tail := s.prods[0].tail)])) && s'.prods[0].tail == s.prods[0].tail + 1
  {
    ProducerStaysInWindow(NewQueue(), run, s, 0);
    var m;
    run', m := Extend(run, s, Enqueue(0, 0));
    run', m := WriteDone(run', m);
    NobodyIsStuck(NewQueue(), run', m);
    run', s' := Extend(run', m, ProdMove(0, Works));
  }

  // ---------- one element dequeued ----------

  /** The claim of consumer 1 is made, and the rest concerns its block alone. */
  predicate SameQueue(s: State, t: State) {
    && |s.prods| == |t.prods| == 1 && |s.cons| == |t.cons| == 2 && t.cons[0] == s.cons[0] && s.poolSize == t.poolSize == 0
    && t.prods[0].tail == s.prods[0].tail && t.prods[0].head == s.prods[0].head && t.prods[0].pc == s.prods[0].pc
    && t.prods[0].opt == s.prods[0].opt && t.prods[0].over == s.prods[0].over
  }

  lemma ClaimMoves(run: seq<Action>, s: State) returns (run': seq<Action>, s': State)
    requires Reaches(NewQueue(), run, s) && |s.prods| == 1 && |s.cons| == 2 && s.poolSize == 0 && Holds(s.cons[1])
    ensures Reaches(NewQueue(), run', s') && SameQueue(s, s') && (Holds(s'.cons[1]) || s'.cons[1].CIdle?)
    ensures Work(s'.cons[1]) < Work(s.cons[1])
  {
    DequeueIsWaitFree(NewQueue(), run, s, 1);
    run', s' := Extend(run, s, ConsMove(1));
  }

  lemma {:induction false} ClaimDone(run: seq<Action>, s: State) returns (run': seq<Action>, s': State)
    requires Reaches(NewQueue(), run, s) && |s.prods| == 1 && |s.cons| == 2 && s.poolSize == 0
    requires Holds(s.cons[1]) || s.cons[1].CIdle?
    ensures Reaches(NewQueue(), run', s') && SameQueue(s, s') && s'.cons[1].CIdle?
    decreases Work(s.cons[1])
  {
    if s.cons[1].CIdle? {
      run', s' := run, s;
    } else {
      var m;
      run', m := ClaimMoves(run, s);
      run', s' := ClaimDone(run', m);
    }
  }

  /** Between dequeues: consumer 0 sleeps at `pc`, `n` elements have been enqueued and `n - k` claimed, none of them
      after a failed attempt. */
  predicate Passed(s: State, pc: ConsPC, n: nat, k: nat) {
    && |s.prods| == 1 && s.poolSize == 0 && |s.cons| == 2 && s.cons[0] == pc && s.cons[1].CIdle? && k <= n
    && s.prods[0].pc.PIdle? && s.prods[0].tail == n && s.prods[0].over == 0 && s.prods[0].head == s.prods[0].opt == n - k
  }

  lemma Reserved(run: seq<Action>, s: State, pc: ConsPC, n: nat) returns (run': seq<Action>, s': State)
    requires Reaches(NewQueue(), run, s) && Passed(s, pc, n, 1)
    ensures Reaches(NewQueue(), run', s') && s' == Goto(s, 1, CReserve(0, 0, 1))
  {
    ReachableInv(NewQueue(), run, s);
    run', s' := Extend(run, s, Dequeue(1, 0, 1));
    run', s' := Extend(run', s', ConsMove(1));
    run', s' := Extend(run', s', ConsMove(1));
    assert s' == Goto(s, 1, COpt(0, 1, n, 0));
    run', s' := Extend(run', s', ConsMove(1));
  }

  lemma Claimed(run: seq<Action>, s: State, pc: ConsPC, n: nat) returns (run': seq<Action>, s': State)
    requires Reaches(NewQueue(), run, s) && |s.cons| == 2 && s.cons[1] == CReserve(0, 0, 1)
    requires Passed(Goto(s, 1, CIdle), pc, n, 1)
    ensures Reaches(NewQueue(), run', s') && |s'.cons| == 2 && Holds(s'.cons[1]) && Passed(Goto(s', 1, CIdle), pc, n, 0)
  {
    ReachableInv(NewQueue(), run, s);
    run', s' := Extend(run, s, ConsMove(1));
    assert s'.cons[1] == CRecheck(0, 0, 1, n - 1);
    run', s' := Extend(run', s', ConsMove(1));
    assert s'.cons[1] == CClaim(0, 1);
    run', s' := Extend(run', s', ConsMove(1));
  }

  lemma DequeueDone(run: seq<Action>, s: State, pc: ConsPC, n: nat) returns (run': seq<Action>, s': State)
    requires Reaches(NewQueue(), run, s) && Passed(s, pc, n, 1)
    ensures Reaches(NewQueue(), run', s') && Passed(s', pc, n, 0)
  {
    var m;
    run', m := Reserved(run, s, pc, n);
    assert Goto(m, 1, CIdle) == s;
    run', m := Claimed(run', m, pc, n);
    run', s' := ClaimDone(run', m);
  }

  // ---------- rounds ----------

  /** The first element enqueued, and consumer 0 about to make its first comparison. */
  lemma Asleep() returns (run: seq<Action>, s: State)
    ensures Reaches(NewQueue(), run, s) && Passed(s, COpt(0, 1, 1, 0), 1, 1)
  {
    assert Reaches(NewQueue(), [], NewQueue());
    run, s := EnqueueDone([], NewQueue());
    ReachableInv(NewQueue(), run, s);
    run, s := Extend(run, s, Dequeue(0, 0, 1));
    run, s := Extend(run, s, ConsMove(0));
    run, s := Extend(run, s, ConsMove(0));
  }

  /** It sleeps while `n` elements are enqueued and dequeued by the other consumer, one after the other. */
  lemma {:induction false} Sleeping(n: nat) returns (run: seq<Action>, s: State)
    requires 0 < n
    ensures Reaches(NewQueue(), run, s) && Passed(s, COpt(0, 1, 1, 0), n, 0)
    decreases n
  {
    if n == 1 {
      run, s := Asleep();
    } else {
      run, s := Sleeping(n - 1);
      run, s := EnqueueDone(run, s);
    }
    run, s := DequeueDone(run, s, COpt(0, 1, 1, 0), n);
  }

  /** After `n` elements the comparison is wrong exactly if more than half a turn of them have passed the tail it has
      loaded, whole turns not counted: for `n` from 2^63 + 2 to 2^64 it finds an element in a queue that is empty. */
  lemma SleeperMisled(n: nat) returns (run: seq<Action>, s: State, x: int)
    requires 0 < n
    ensures Reaches(NewQueue(), run, s) && Passed(s, COpt(0, 1, 1, 0), n, 0)
    ensures x == s.prods[0].opt - s.cons[0].over && s.cons[0].tail <= x
    ensures Less(x, s.cons[0].tail) <==> (n - 1) % WORD > HALF
    ensures HALF + 1 < n <= WORD ==> Less(x, s.cons[0].tail)
  {
    run, s := Sleeping(n);
    x := n;
    LessThanOne(n);
  }

  lemma LessThanOne(n: nat)
    requires 0 < n
    ensures Less(n, 1) <==> (n - 1) % WORD > HALF
    ensures HALF + 1 < n <= WORD ==> Less(n, 1)
  {
    TestRightExactly(n, 1);
    if HALF + 1 < n <= WORD { ModSmall(n - 1); }
  }
}
