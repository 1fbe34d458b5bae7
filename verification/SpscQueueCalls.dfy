/**
 What the calls on ReaderWriterQueue of a run put in and return: the stream is the arguments of the calls accepted, a
 call is refused only for want of room or memory, and an undisturbed take returns the oldest element there is.
 */
module SpscQueueCalls {
  import opened Sets
  import opened SpscQueue
  import opened SpscQueueProof
  import opened SpscQueueRuns

  // ---------- what was put in ----------

  /** The state after `run`. */
  function After(s0: State, run: seq<Action>): State
    decreases |run|
  {
    if run == [] then s0
    else
      var last := |run| - 1;
      var m := After(s0, run[..last]);
      if Enabled(m, run[last]) then Apply(m, run[last]) else m
  }

  lemma {:induction false} ReachedIsAfter(s0: State, maxSize: nat, run: seq<Action>, s: State)
    requires Reaches(s0, maxSize, run, s)
    ensures s == After(s0, run)
    decreases |run|
  {
    if run != [] {
      var last := |run| - 1;
      var m :| Reaches(s0, maxSize, run[..last], m) && Enabled(m, run[last]) && s == Apply(m, run[last]);
      ReachedIsAfter(s0, maxSize, run[..last], m);
    }
  }

  lemma LastStep(s0: State, maxSize: nat, run: seq<Action>, s: State) returns (before: seq<Action>, a: Action, m: State)
    requires Reaches(s0, maxSize, run, s) && run != []
    ensures run == before + [a] && |before| < |run|
    ensures Reaches(s0, maxSize, before, m) && Enabled(m, a) && s == Apply(m, a) && m == After(s0, before)
  {
    before, a := run[..|run| - 1], run[|run| - 1];
    m :| Reaches(s0, maxSize, before, m) && Enabled(m, a) && s == Apply(m, a);
    ReachedIsAfter(s0, maxSize, before, m);
  }

  /** The step makes an element visible: it stores the tail of the tail block, or another tail block. */
  predicate Publishes(s: State, a: Action) {
    a.ProdMove? && (s.prod.PTail? || s.prod.PSwitch?)
  }

  /** Where in the run the producer has made its last call; the length of the run if nowhere. */
  function LastCall(run: seq<Action>): nat
    decreases |run|
  {
    if run == [] then 0
    else
      var last := |run| - 1;
      if run[last].Enqueue? then last
      else if LastCall(run[..last]) == last then |run| else LastCall(run[..last])
  }

  /** The calls, each where the run makes it, whose element was made visible. */
  function AcceptedCalls(s0: State, run: seq<Action>): seq<nat>
    decreases |run|
  {
    if run == [] then []
    else
      var before, a := run[..|run| - 1], run[|run| - 1];
      AcceptedCalls(s0, before) + (if Publishes(After(s0, before), a) then [LastCall(before)] else [])
  }

  predicate IsCall(run: seq<Action>, k: nat) {
    k < |run| && run[k].Enqueue?
  }

  /** Different calls, in the order in which the run makes them, with these arguments. */
  predicate CallsWith(run: seq<Action>, calls: seq<nat>, xs: seq<Item>) {
    && |calls| == |xs| && (forall i :: 0 <= i < |calls| ==> IsCall(run, calls[i]) && run[calls[i]].x == xs[i])
    && forall i, j :: 0 <= i < j < |calls| ==> calls[i] < calls[j]
  }

  function ItemOf(pc: ProdPC): Item
    requires !pc.PIdle?
  {
    match pc
    case PFront(x, _) => x
    case PStore(x) => x
    case PTail(x) => x
    case PNext(x, _) => x
    case PCompare(x, _, _) => x
    case PNextFront(x, _) => x
    case PNextStore(x, _) => x
    case PNextTail(x, _) => x
    case PAlloc(x) => x
    case PLink(x, _) => x
    case PSwitch(x, _) => x
  }

  /** How the producer goes with the calls it has made. */
  predicate Recorded(s: State, run: seq<Action>, calls: seq<nat>) {
    && CallsWith(run, calls, s.put) && LastCall(run) <= |run|
    && (LastCall(run) == |run| ==> calls == [])
    && (LastCall(run) < |run| ==> run[LastCall(run)].Enqueue? && forall i :: 0 <= i < |calls| ==> calls[i] <= LastCall(run))
    && (!s.prod.PIdle? ==>
          && IsCall(run, LastCall(run)) && ItemOf(s.prod) == run[LastCall(run)].x
          && forall i :: 0 <= i < |calls| ==> calls[i] < LastCall(run))
  }

  lemma ProdStepIs(s: State, works: bool)
    requires ProdEnabled(s)
    ensures var s' := ProdStep(s, works);
      && (!s'.prod.PIdle? ==> ItemOf(s'.prod) == ItemOf(s.prod))
      && (if s.prod.PTail? || s.prod.PSwitch? then s'.prod.PIdle? && s'.put == s.put + [ItemOf(s.prod)]
          else s'.put == s.put)
  {
  }

  lemma ConsStepIs(s: State)
    requires ConsEnabled(s)
    ensures ConsStep(s).put == s.put && ConsStep(s).prod == s.prod
  {
  }

  lemma RunEnds(s0: State, run: seq<Action>, a: Action)
    ensures var run' := run + [a];
      && AcceptedCalls(s0, run') == AcceptedCalls(s0, run) + (if Publishes(After(s0, run), a) then [LastCall(run)] else [])
      && LastCall(run') == (if a.Enqueue? then |run| else if LastCall(run) == |run| then |run'| else LastCall(run))
  {
    assert (run + [a])[..|run + [a]| - 1] == run;
  }

  lemma StillCalls(run: seq<Action>, a: Action, calls: seq<nat>, xs: seq<Item>)
    requires CallsWith(run, calls, xs)
    ensures CallsWith(run + [a], calls, xs)
  {
    forall i | 0 <= i < |calls| ensures IsCall(run + [a], calls[i]) && (run + [a])[calls[i]].x == xs[i] {
      assert IsCall(run, calls[i]);
    }
  }

  lemma ActionRecorded(s0: State, run: seq<Action>, s: State, a: Action)
    requires s == After(s0, run) && Enabled(s, a) && Recorded(s, run, AcceptedCalls(s0, run))
    ensures Recorded(Apply(s, a), run + [a], AcceptedCalls(s0, run + [a]))
  {
    var calls := AcceptedCalls(s0, run);
    RunEnds(s0, run, a);
    StillCalls(run, a, calls, s.put);
    if a.ProdMove? {
      ProdStepIs(s, a.works);
    } else if a.ConsMove? {
      ConsStepIs(s);
    } else if a.Enqueue? {
      forall i | 0 <= i < |calls| ensures calls[i] < |run| { assert IsCall(run, calls[i]); }
    }
  }

  lemma {:induction false} RunRecorded(s0: State, maxSize: nat, run: seq<Action>, s: State)
    requires Reaches(s0, maxSize, run, s)
    ensures Recorded(s, run, AcceptedCalls(s0, run))
    decreases |run|
  {
    if run == [] {
      assert s.put == [];
    } else {
      var before, a, m := LastStep(s0, maxSize, run, s);
      RunRecorded(s0, maxSize, before, m);
      ActionRecorded(s0, before, m, a);
    }
  }

  /** In every run what was put in is the arguments of the calls accepted, different ones, in the order in which the
      run makes them; and what was taken out is a prefix of these arguments. */
  lemma StreamIsAccepted(s0: State, maxSize: nat, run: seq<Action>, s: State)
    requires Reaches(s0, maxSize, run, s)
    ensures CallsWith(run, AcceptedCalls(s0, run), s.put) && s.got <= s.put
  {
    RunRecorded(s0, maxSize, run, s);
    TakenIsPrefix(s0, maxSize, run, s);
  }

  /** A call is refused only if it must not allocate and the next block is the front block, or its allocation fails. */
  lemma RefusedOnlyIf(s: State, works: bool)
    requires ProdEnabled(s) && ProdStep(s, works).prod.PIdle? && !Publishes(s, ProdMove(works))
    ensures (s.prod.PCompare? && !s.prod.can && s.prod.n == s.frontBlock) || (s.prod.PAlloc? && !works)
  {
  }

  // ---------- a take that returns nothing ----------

  /** Action `k` is the consumer's load of the tail of an empty queue. */
  ghost predicate FindsEmpty(s0: State, maxSize: nat, run: seq<Action>, k: nat) {
    k < |run| && run[k] == ConsMove &&
    exists m :: Reaches(s0, maxSize, run[..k], m) && m.cons.CTail? && m.put == m.got
  }

  predicate NoTake(run: seq<Action>) {
    forall i :: 0 <= i < |run| ==> !run[i].Take?
  }

  /** The consumer has found the queue empty since its last call. */
  ghost predicate SawEmpty(s0: State, maxSize: nat, run: seq<Action>) {
    exists k: nat :: k < |run| && FindsEmpty(s0, maxSize, run, k) && NoTake(run[k..])
  }

  lemma SawEmptyStays(s0: State, maxSize: nat, run: seq<Action>, a: Action)
    requires SawEmpty(s0, maxSize, run) && !a.Take?
    ensures SawEmpty(s0, maxSize, run + [a])
  {
    var k: nat :| k < |run| && FindsEmpty(s0, maxSize, run, k) && NoTake(run[k..]);
    var after := run + [a];
    assert after[..k] == run[..k] && after[k..] == run[k..] + [a] && after[k] == run[k];
    assert FindsEmpty(s0, maxSize, after, k);
  }

  lemma SeesEmpty(s0: State, maxSize: nat, run: seq<Action>, s: State)
    requires Reaches(s0, maxSize, run, s) && s.cons.CTail? && s.put == s.got
    ensures SawEmpty(s0, maxSize, run + [ConsMove])
  {
    var k, after := |run|, run + [ConsMove];
    assert after[..k] == run && after[k..] == [ConsMove];
    assert FindsEmpty(s0, maxSize, after, k);
  }

  /** Only that load sets the mark. */
  lemma MarkIsLoad(s: State, a: Action)
    requires Enabled(s, a) && Apply(s, a).cons.CTailBlock? && Apply(s, a).cons.empty
    ensures s.cons == Apply(s, a).cons || (a == ConsMove && s.cons.CTail? && s.put == s.got)
    ensures !a.Take?
  {
  }

  lemma {:induction false} MarkedSawEmpty(s0: State, maxSize: nat, run: seq<Action>, s: State)
    requires Reaches(s0, maxSize, run, s) && s.cons.CTailBlock? && s.cons.empty
    ensures SawEmpty(s0, maxSize, run)
    decreases |run|
  {
    if run != [] {
      var before, a, m := LastStep(s0, maxSize, run, s);
      MarkIsLoad(m, a);
      if s.cons == m.cons {
        MarkedSawEmpty(s0, maxSize, before, m);
        SawEmptyStays(s0, maxSize, before, a);
      } else {
        SeesEmpty(s0, maxSize, before, m);
      }
    }
  }

  /** In every interleaving a take or peek that returns nothing has found the queue empty, at one of its own loads. */
  lemma NothingOnlyIfEmpty(s0: State, maxSize: nat, run: seq<Action>, s: State)
    requires Reaches(s0, maxSize, run, s) && Enabled(s, ConsMove)
    requires var log := ConsStep(s).log; log != s.log && log != [] && log[|log| - 1].Nothing?
    ensures SawEmpty(s0, maxSize, run)
  {
    ReachableInv(s0, maxSize, run, s);
    assert s.cons.CTailBlock? && |s.live| == 1;
    MarkedSawEmpty(s0, maxSize, run, s);
  }

  // ---------- how long calls take ----------

  /** How many steps of its own the producer still needs, at most. */
  function ProdWork(pc: ProdPC): nat {
    match pc
    case PIdle => 0
    case PFront(_, _) => 9
    case PNext(_, _) => 8
    case PCompare(_, _, _) => 7
    case PNextFront(_, _) => 6
    case PNextStore(_, _) => 5
    case PNextTail(_, _) => 4
    case PAlloc(_) => 6
    case PLink(_, _) => 5
    case PSwitch(_, _) => 3
    case PStore(_) => 2
    case PTail(_) => 1
  }

  function ConsWork(pc: ConsPC): nat {
    match pc
    case CIdle => 0
    case CTail(_) => 8
    case CTailBlock(_, _) => 7
    case CTailAgain(_) => 6
    case CNext(_) => 5
    case CNextTail(_, _) => 4
    case CAdvance(_, _) => 3
    case CRead(_) => 2
    case CPeekNext(_) => 1
    case CFront(_, _) => 1
  }

  lemma ProdNearer(s: State, works: bool)
    requires ProdEnabled(s)
    ensures ProdWork(ProdStep(s, works).prod) < ProdWork(s.prod) <= 9
  {
  }

  lemma ConsNearer(s: State)
    requires ConsEnabled(s)
    ensures ConsWork(ConsStep(s).cons) < ConsWork(s.cons) <= 8
  {
  }

  /** Both sides are wait-free: whatever the other one does, a call needs at most nine steps of its own, and each brings
      it nearer to its return. */
  lemma CallsAreWaitFree(s0: State, maxSize: nat, run: seq<Action>, s: State, works: bool)
    requires Reaches(s0, maxSize, run, s)
    ensures !s.prod.PIdle? ==> ProdEnabled(s) && ProdWork(ProdStep(s, works).prod) < ProdWork(s.prod) <= 9
    ensures !s.cons.CIdle? ==> ConsEnabled(s) && ConsWork(ConsStep(s).cons) < ConsWork(s.cons) <= 8
  {
    AssertionsHold(s0, maxSize, run, s);
    if !s.prod.PIdle? { ProdNearer(s, works); }
    if !s.cons.CIdle? { ConsNearer(s); }
  }

  // ---------- a take that nobody disturbs ----------

  function KindOf(pc: ConsPC): Kind
    requires !pc.CIdle?
  {
    match pc
    case CTail(k) => k
    case CTailBlock(k, _) => k
    case CTailAgain(k) => k
    case CNext(k) => k
    case CNextTail(k, _) => k
    case CAdvance(k, _) => k
    case CRead(k) => k
    case CPeekNext(_) => Peek
    case CFront(k, _) => k
  }

  /** What a call of kind `k` answers when nobody disturbs it. */
  function AnswerOf(s: State, k: Kind): Answer {
    if |s.got| >= |s.put| then Nothing(true)
    else if k == Peek then Saw(|s.got|, s.put[|s.got|])
    else Took(|s.got|, s.put[|s.got|])
  }

  /** And what is taken out by it. */
  function TakenBy(s: State, k: Kind): seq<Item> {
    if k == Peek || |s.got| >= |s.put| then [] else [s.put[|s.got|]]
  }

  /** The consumer is inside a call of kind `k`, and what it has seen is what there is. */
  predicate Taking(s: State, k: Kind) {
    && !s.cons.CIdle? && KindOf(s.cons) == k && (s.cons.CFront? || s.cons.CAdvance? ==> k != Peek)
    && (s.cons.CTailBlock? ==> s.cons.empty == (s.put == s.got))
  }

  /** A step of a take, nobody else moving, where the elements it reads are the ones to read. */
  lemma TakeGoes(s: State, k: Kind)
    requires ConsEnabled(s) && Taking(s, k)
    requires s.put == s.got <==> |s.got| >= |s.put|
    requires s.cons.CTailBlock? ==> (s.frontBlock == s.tailBlock <==> s.put == s.got)
    requires s.cons.CRead? ==> |s.got| < |s.put| && s.put[|s.got|] == s.blocks[s.frontBlock].data[s.blocks[s.frontBlock].front]
    requires s.cons.CFront? ==> |s.got| < |s.put| && s.put[|s.got|] == s.cons.x
    requires s.cons.CPeekNext? ==> |s.got| < |s.put| && s.put[|s.got|] == s.blocks[s.cons.n].data[s.blocks[s.cons.n].front]
    ensures var t := ConsStep(s);
      && t.put == s.put && t.prod == s.prod
      && if t.cons.CIdle? then t.got == s.got + TakenBy(s, k) && t.log == s.log + [AnswerOf(s, k)]
         else t.got == s.got && t.log == s.log && Taking(t, k)
  {
  }

  /** A step of a take, nobody else moving: it goes on, or gives the right answer. */
  lemma TakeStep(s: State, k: Kind)
    requires Inv(s) && ConsEnabled(s) && Taking(s, k)
    ensures var t := ConsStep(s);
      && Inv(t) && t.put == s.put && t.prod == s.prod && ConsWork(t.cons) < ConsWork(s.cons)
      && if t.cons.CIdle? then t.got == s.got + TakenBy(s, k) && t.log == s.log + [AnswerOf(s, k)]
         else t.got == s.got && t.log == s.log && Taking(t, k)
  {
    ConsStepKeeps(s);
    ConsNearer(s);
    if s.cons.CRead? || s.cons.CFront? {
      FrontElement(s);
    } else if s.cons.CPeekNext? {
      SecondElement(s);
    } else if s.cons.CTailBlock? {
      SeenIsSo(s);
    }
    TakeGoes(s, k);
  }

  /** With nobody disturbing, the tail block is the front block only if the queue is empty, and then it is. */
  lemma SeenIsSo(s: State)
    requires Inv(s) && s.cons.CTailBlock? && s.cons.empty == (s.put == s.got)
    ensures s.frontBlock == s.tailBlock <==> s.put == s.got
    ensures s.put == s.got <==> |s.got| >= |s.put|
  {
    if s.put == s.got { EmptyIsOneBlock(s); }
  }

  lemma EmptyIsOneBlock(s: State)
    requires Inv(s) && s.put == s.got
    ensures |s.live| == 1
  {
    assert |Content(s.blocks, s.live)| == 0;
    if |s.live| > 1 {
      var last := |s.live| - 1;
      ContentLength(s.blocks, s.live);
      MemberOfSum(Counts(s.blocks, s.live), last);
    }
  }

  lemma {:induction false} MemberOfSum(ns: seq<nat>, i: nat)
    requires i < |ns|
    ensures ns[i] <= Sum(ns)
  {
    if i > 0 { MemberOfSum(ns[1..], i - 1); }
  }

  /** `n` steps of the consumer, nobody else moving. */
  function ConsAlone(s: State, n: nat): State
    decreases n
  {
    if n == 0 || !ConsEnabled(s) then s else ConsAlone(ConsStep(s), n - 1)
  }

  lemma {:induction false} TakeEnds(s: State, k: Kind, n: nat) returns (t: State)
    requires Inv(s) && Taking(s, k) && ConsEnabled(s) && ConsWork(s.cons) <= n
    ensures t == ConsAlone(s, n) && t.cons.CIdle? && t.put == s.put && t.prod == s.prod
    ensures t.got == s.got + TakenBy(s, k) && t.log == s.log + [AnswerOf(s, k)]
    decreases n
  {
    TakeStep(s, k);
    var m := ConsStep(s);
    if m.cons.CIdle? {
      t := m;
    } else {
      TakeGoesOn(m);
      t := TakeEnds(m, k, n - 1);
    }
  }

  lemma TakeGoesOn(s: State)
    requires Inv(s) && !s.cons.CIdle?
    ensures ConsEnabled(s)
  {
  }

  lemma TakeBegins(s: State, k: Kind)
    requires Inv(s) && s.cons.CIdle?
    ensures var c := CallTake(s, k);
      Inv(c) && Taking(c, k) && ConsEnabled(c) && ConsWork(c.cons) <= 8 && c.put == s.put && c.got == s.got && c.log == s.log
  {
    TakeKeeps(s, k);
  }

  /** From any reachable state, whatever the producer has halfway, a call of `try_dequeue`, `pop` or `peek` that runs
      undisturbed returns after at most eight steps: the oldest element there is, taken out unless it only peeks, and
      nothing exactly if there is none. */
  lemma LoneTake(s0: State, maxSize: nat, run: seq<Action>, s: State, k: Kind) returns (n: nat, t: State)
    requires Reaches(s0, maxSize, run, s) && Enabled(s, Take(k))
    ensures n <= 8 && t == ConsAlone(Apply(s, Take(k)), n) && t.cons.CIdle? && t.put == s.put
    ensures if s.got == s.put then t.got == s.got && t.log == s.log + [Nothing(true)]
            else |s.got| < |s.put| &&
                 if k == Peek then t.got == s.got && t.log == s.log + [Saw(|s.got|, s.put[|s.got|])]
                 else t.got == s.got + [s.put[|s.got|]] && t.log == s.log + [Took(|s.got|, s.put[|s.got|])]
  {
    ReachableInv(s0, maxSize, run, s);
    TakeBegins(s, k);
    n := 8;
    t := TakeEnds(CallTake(s, k), k, n);
    TakenIsPrefix(s0, maxSize, run, s);
  }
}
