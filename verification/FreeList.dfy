/**
 The lock-free free list of ext/MoodyCamel/concurrentqueue.h, as a transition system.

 Any number of threads run `add`, `try_get` and `add_knowing_refcount_is_zero` at once. Every atomic
 load, store, compare-and-swap or fetch_add of the source is one step of one thread; steps of different
 threads interleave freely (sequential consistency). The words `freeListRefs` are kept as the raw 32-bit
 values of the source, with wrap-around.

 The fields `loc`, `chain`, `adds` and `gets` of a state are auxiliary: steps write them and no step
 reads them, except that a client may call `add` only on a node it has (`loc` is `Out`).
 */
module FreeList {

  const SHOULD_BE_ON_FREELIST: int := 0x8000_0000
  const WORD: int := 0x1_0000_0000

  datatype Ptr = Null | At(n: nat)

  /** What `add_knowing_refcount_is_zero` does when it returns: leave `add`, or go on with the loop of
      `try_get`, whose local `head` is then the given pointer. */
  datatype Ret = ToCaller | ToLoop(head: Ptr)

  datatype PC =
    | Idle
    | GetLoad                                    // load freeListHead
    | GetRefs(h: nat)                            // load h.freeListRefs
    | GetPin(h: nat, r: int)                     // CAS h.freeListRefs from r to r + 1
    | GetNext(h: nat)                            // load h.freeListNext
    | GetSwing(h: nat, next: Ptr)                // CAS freeListHead from h to next
    | GetAssert(h: nat)                          // load h.freeListRefs for the assertion
    | GetDrop(h: nat)                            // h.freeListRefs.fetch_add(-2), return h
    | GetUnpin(h: nat, seen: Ptr)                // h.freeListRefs.fetch_add(-1)
    | AddEnter(n: nat)                           // n.freeListRefs.fetch_add(SHOULD_BE_ON_FREELIST)
    | LinkLoad(n: nat, ret: Ret)                 // load freeListHead
    | LinkNext(n: nat, head: Ptr, ret: Ret)      // store n.freeListNext
    | LinkRef(n: nat, head: Ptr, ret: Ret)       // store n.freeListRefs = 1
    | LinkSwing(n: nat, head: Ptr, ret: Ret)     // CAS freeListHead from head to n
    | LinkBack(n: nat, head: Ptr, ret: Ret)      // n.freeListRefs.fetch_add(SHOULD_BE_ON_FREELIST - 1)

  /** Where a node is: with a client, on its way in (three stages), in the list, or on its way out. */
  datatype Loc =
    | Out
    | Adding(t: nat)
    | Pending
    | Linking(t: nat, counted: bool)
    | Listed
    | Taken(t: nat)

  datatype State = State(
    head: Ptr,
    refs: seq<int>,
    next: seq<Ptr>,
    threads: seq<PC>,
    loc: seq<Loc>,
    chain: seq<nat>,
    adds: seq<nat>,
    gets: seq<nat>)

  // ---------- the code, one atomic access at a time ----------

  /** The loop test of `try_get`. */
  function Loop(head: Ptr): PC {
    if head.Null? then Idle else GetRefs(head.n)
  }

  function Resume(ret: Ret): PC {
    match ret
    case ToCaller => Idle
    case ToLoop(h) => Loop(h)
  }

  predicate HasNode(pc: PC) {
    !pc.Idle? && !pc.GetLoad?
  }

  function NodeOf(pc: PC): nat
    requires HasNode(pc)
  {
    match pc
    case GetRefs(h) => h
    case GetPin(h, _) => h
    case GetNext(h) => h
    case GetSwing(h, _) => h
    case GetAssert(h) => h
    case GetDrop(h) => h
    case GetUnpin(h, _) => h
    case AddEnter(n) => n
    case LinkLoad(n, _) => n
    case LinkNext(n, _, _) => n
    case LinkRef(n, _, _) => n
    case LinkSwing(n, _, _) => n
    case LinkBack(n, _, _) => n
  }

  predicate WellFormed(s: State) {
    var k := |s.refs|;
    && |s.next| == |s.loc| == |s.adds| == |s.gets| == k
    && |s.threads| + 1 < SHOULD_BE_ON_FREELIST  // the counts fit in the 31 bits of REFS_MASK
    && (forall t :: 0 <= t < |s.threads| && HasNode(s.threads[t]) ==> NodeOf(s.threads[t]) < k)
  }

  function Goto(s: State, t: nat, pc: PC): State
    requires t < |s.threads|
  {
    s.(threads := s.threads[t := pc])
  }

  /** The next atomic access of thread `t`. */
  function Step(s: State, t: nat): State
    requires WellFormed(s) && t < |s.threads| && !s.threads[t].Idle?
  {
    match s.threads[t]
    case GetLoad => Goto(s, t, Loop(s.head))
    case GetRefs(h) =>
      Goto(s, t, if s.refs[h] % SHOULD_BE_ON_FREELIST == 0 then GetLoad else GetPin(h, s.refs[h]))
    case GetPin(h, r) =>
      if s.refs[h] == r
      then Goto(s, t, GetNext(h)).(refs := s.refs[h := (r + 1) % WORD])
      else Goto(s, t, GetLoad)
    case GetNext(h) => Goto(s, t, GetSwing(h, s.next[h]))
    case GetSwing(h, next) =>
      if s.head == At(h)
      then Goto(s, t, GetAssert(h)).(head := next, loc := s.loc[h := Taken(t)],
                                     chain := if s.chain == [] then [] else s.chain[1..])
      else Goto(s, t, GetUnpin(h, s.head))
    case GetAssert(h) => Goto(s, t, GetDrop(h))
    case GetDrop(h) =>
      Goto(s, t, Idle).(refs := s.refs[h := (s.refs[h] - 2) % WORD], loc := s.loc[h := Out],
                        gets := s.gets[h := s.gets[h] + 1])
    case GetUnpin(h, seen) =>
      var was := s.refs[h];
      var s' := s.(refs := s.refs[h := (was - 1) % WORD]);
      if was == SHOULD_BE_ON_FREELIST + 1
      then Goto(s', t, LinkLoad(h, ToLoop(seen))).(loc := s.loc[h := Linking(t, false)])
      else Goto(s', t, Loop(seen))
    case AddEnter(n) =>
      var was := s.refs[n];
      var s' := s.(refs := s.refs[n := (was + SHOULD_BE_ON_FREELIST) % WORD]);
      if was == 0
      then Goto(s', t, LinkLoad(n, ToCaller)).(loc := s.loc[n := Linking(t, false)])
      else Goto(s', t, Idle).(loc := s.loc[n := Pending])
    case LinkLoad(n, ret) => Goto(s, t, LinkNext(n, s.head, ret))
    case LinkNext(n, head, ret) => Goto(s, t, LinkRef(n, head, ret)).(next := s.next[n := head])
    case LinkRef(n, head, ret) =>
      Goto(s, t, LinkSwing(n, head, ret)).(refs := s.refs[n := 1], loc := s.loc[n := Linking(t, true)])
    case LinkSwing(n, head, ret) =>
      if s.head == head
      then Goto(s, t, Resume(ret)).(head := At(n), loc := s.loc[n := Listed], chain := [n] + s.chain)
      else Goto(s, t, LinkBack(n, s.head, ret))
    case LinkBack(n, head, ret) =>
      var was := s.refs[n];
      var s' := s.(refs := s.refs[n := (was + SHOULD_BE_ON_FREELIST - 1) % WORD]);
      if was == 1
      then Goto(s', t, LinkNext(n, head, ret)).(loc := s.loc[n := Linking(t, false)])
      else Goto(s', t, Resume(ret)).(loc := s.loc[n := Pending])
  }

  /** An idle thread calls `try_get`. */
  function CallGet(s: State, t: nat): State
    requires t < |s.threads|
  {
    Goto(s, t, GetLoad)
  }

  /** An idle thread calls `add` on a node that is out of the list. */
  function CallAdd(s: State, t: nat, n: nat): State
    requires WellFormed(s) && t < |s.threads| && n < |s.loc|
  {
    Goto(s, t, AddEnter(n)).(loc := s.loc[n := Adding(t)], adds := s.adds[n := s.adds[n] + 1])
  }

  datatype Action = DoStep(t: nat) | DoGet(t: nat) | DoAdd(t: nat, n: nat)

  predicate Enabled(s: State, a: Action) {
    && WellFormed(s)
    && a.t < |s.threads|
    && match a
       case DoStep(t) => !s.threads[t].Idle?
       case DoGet(t) => s.threads[t].Idle?
       case DoAdd(t, n) => s.threads[t].Idle? && n < |s.loc| && s.loc[n].Out?
  }

  function Apply(s: State, a: Action): State
    requires Enabled(s, a)
  {
    match a
    case DoStep(t) => Step(s, t)
    case DoGet(t) => CallGet(s, t)
    case DoAdd(t, n) => CallAdd(s, t, n)
  }

  predicate Init(s: State) {
    && WellFormed(s)
    && s.head == Null && s.chain == []
    && (forall t :: 0 <= t < |s.threads| ==> s.threads[t].Idle?)
    && (forall n :: 0 <= n < |s.refs| ==>
          s.refs[n] == 0 && s.next[n].Null? && s.loc[n].Out? && s.adds[n] == 0 && s.gets[n] == 0)
  }

  /** `s` is reached from an initial state by the actions `run`, in this order. */
  ghost predicate Reaches(s0: State, run: seq<Action>, s: State)
    decreases |run|
  {
    if run == [] then Init(s0) && s == s0
    else
      var last := |run| - 1;
      exists m :: Reaches(s0, run[..last], m) && Enabled(m, run[last]) && s == Apply(m, run[last])
  }

  // ---------- the invariant ----------

  /** Thread holds one counted reference on `n`. */
  predicate Pins(pc: PC, n: nat) {
    match pc
    case GetNext(h) => h == n
    case GetSwing(h, _) => h == n
    case GetAssert(h) => h == n
    case GetDrop(h) => h == n
    case GetUnpin(h, _) => h == n
    case _ => false
  }

  function PinCount(threads: seq<PC>, n: nat): nat {
    if threads == [] then 0 else (if Pins(threads[0], n) then 1 else 0) + PinCount(threads[1..], n)
  }

  /** The reference that stands for being in the list. */
  function LinkRefs(l: Loc): int {
    if l.Listed? || l.Taken? || (l.Linking? && l.counted) then 1 else 0
  }

  function Flag(l: Loc): int {
    if l.Pending? || (l.Linking? && !l.counted) then SHOULD_BE_ON_FREELIST else 0
  }

  function First(chain: seq<nat>): Ptr {
    if chain == [] then Null else At(chain[0])
  }

  predicate ChainOk(s: State)
    requires WellFormed(s)
  {
    && s.head == First(s.chain)
    && (forall i :: 0 <= i < |s.chain| ==> s.chain[i] < |s.refs|)
    && (forall i :: 0 <= i < |s.chain| ==> s.next[s.chain[i]] == First(s.chain[i + 1..]))
    && (forall i, j :: 0 <= i < j < |s.chain| ==> s.chain[i] != s.chain[j])
    && (forall n :: 0 <= n < |s.refs| ==> (s.loc[n].Listed? <==> n in s.chain))
  }

  predicate NodeOk(s: State, n: nat)
    requires WellFormed(s) && n < |s.refs|
  {
    var pins := PinCount(s.threads, n);
    && s.refs[n] == LinkRefs(s.loc[n]) + pins + Flag(s.loc[n])
    && (s.loc[n].Pending? ==> pins > 0)
    && (s.loc[n].Linking? && !s.loc[n].counted ==> pins == 0)
    && s.adds[n] == s.gets[n] + (if s.loc[n].Out? then 0 else 1)
    && match s.loc[n]
       case Adding(t) => t < |s.threads| && s.threads[t] == AddEnter(n)
       case Linking(t, counted) =>
         && t < |s.threads|
         && var pc := s.threads[t];
            if counted then (pc.LinkSwing? || pc.LinkBack?) && pc.n == n
            else (pc.LinkLoad? || pc.LinkNext? || pc.LinkRef?) && pc.n == n
       case Taken(t) => t < |s.threads| && s.threads[t] in {GetAssert(n), GetDrop(n)}
       case _ => true
  }

  predicate ThreadOk(s: State, t: nat)
    requires WellFormed(s) && t < |s.threads|
  {
    match s.threads[t]
    case GetPin(_, r) => r % SHOULD_BE_ON_FREELIST != 0
    case GetSwing(h, next) => s.next[h] == next
    case GetAssert(h) => s.loc[h] == Taken(t)
    case GetDrop(h) => s.loc[h] == Taken(t)
    case AddEnter(n) => s.loc[n] == Adding(t)
    case LinkLoad(n, ret) => s.loc[n] == Linking(t, false) && RetOk(s, ret)
    case LinkNext(n, head, ret) => s.loc[n] == Linking(t, false) && PtrOk(s, head) && RetOk(s, ret)
    case LinkRef(n, head, ret) =>
      s.loc[n] == Linking(t, false) && s.next[n] == head && PtrOk(s, head) && RetOk(s, ret)
    case LinkSwing(n, head, ret) =>
      s.loc[n] == Linking(t, true) && s.next[n] == head && PtrOk(s, head) && RetOk(s, ret)
    case LinkBack(n, head, ret) => s.loc[n] == Linking(t, true) && PtrOk(s, head) && RetOk(s, ret)
    case GetUnpin(_, seen) => PtrOk(s, seen)
    case _ => true
  }

  predicate PtrOk(s: State, p: Ptr) {
    p.At? ==> p.n < |s.refs|
  }

  predicate RetOk(s: State, ret: Ret) {
    ret.ToLoop? ==> PtrOk(s, ret.head)
  }

  ghost predicate Inv(s: State) {
    && WellFormed(s)
    && ChainOk(s)
    && (forall n :: 0 <= n < |s.next| ==> PtrOk(s, s.next[n]))
    && (forall n :: 0 <= n < |s.refs| ==> NodeOk(s, n))
    && (forall t :: 0 <= t < |s.threads| ==> ThreadOk(s, t))
  }

  // ---------- counting references ----------

  lemma {:induction false} PinCountUpdate(threads: seq<PC>, t: nat, pc: PC, n: nat)
    requires t < |threads|
    ensures PinCount(threads[t := pc], n) + (if Pins(threads[t], n) then 1 else 0)
         == PinCount(threads, n) + (if Pins(pc, n) then 1 else 0)
  {
    if t == 0 {
      assert threads[t := pc][1..] == threads[1..];
    } else {
      assert threads[t := pc][1..] == threads[1..][t - 1 := pc];
      PinCountUpdate(threads[1..], t - 1, pc, n);
    }
  }

  lemma {:induction false} PinCountBound(threads: seq<PC>, n: nat)
    ensures PinCount(threads, n) <= |threads|
  {
    if threads != [] { PinCountBound(threads[1..], n); }
  }

  lemma {:induction false} PinCountWitness(threads: seq<PC>, t: nat, n: nat)
    requires t < |threads| && Pins(threads[t], n)
    ensures PinCount(threads, n) > 0
  {
    if t > 0 { PinCountWitness(threads[1..], t - 1, n); }
  }

  lemma {:induction false} PinCountNone(threads: seq<PC>, n: nat)
    requires forall t :: 0 <= t < |threads| ==> !Pins(threads[t], n)
    ensures PinCount(threads, n) == 0
  {
    if threads != [] {
      assert !Pins(threads[0], n);
      assert forall t :: 0 <= t < |threads| - 1 ==> threads[1..][t] == threads[t + 1];
      PinCountNone(threads[1..], n);
    }
  }

  /** How a step that moves thread `t` to `pc` changes the count of one node. */
  lemma PinsAfter(s: State, t: nat, pc: PC, n: nat)
    requires t < |s.threads|
    ensures PinCount(s.threads[t := pc], n) + (if Pins(s.threads[t], n) then 1 else 0)
         == PinCount(s.threads, n) + (if Pins(pc, n) then 1 else 0)
    ensures PinCount(s.threads, n) <= |s.threads|
    ensures Pins(s.threads[t], n) ==> PinCount(s.threads, n) > 0
  {
    PinCountUpdate(s.threads, t, pc, n);
    PinCountBound(s.threads, n);
    if Pins(s.threads[t], n) { PinCountWitness(s.threads, t, n); }
  }

  // ---------- every step keeps the invariant ----------

  lemma InitInv(s: State)
    requires Init(s)
    ensures Inv(s)
  {
    forall n: nat | n < |s.refs| ensures NodeOk(s, n) {
      PinCountNone(s.threads, n);
    }
  }

  /** Thread whose operation has the node in its hands. */
  predicate Names(l: Loc, u: nat) {
    (l.Adding? || l.Linking? || l.Taken?) && l.t == u
  }

  /** Thread `t` moves and only node `k` changes; a change of `k` that others could see is ruled out. */
  ghost predicate Touches(s: State, s': State, t: nat, k: nat)
    requires WellFormed(s)
  {
    && t < |s.threads| && k < |s.refs| && |s'.threads| == |s.threads| && WellFormed(s') && |s'.refs| == |s.refs|
    && s'.threads == s.threads[t := s'.threads[t]]
    && s'.refs == s.refs[k := s'.refs[k]]
    && s'.next == s.next[k := s'.next[k]]
    && s'.loc == s.loc[k := s'.loc[k]]
    && s'.adds == s.adds[k := s'.adds[k]]
    && s'.gets == s.gets[k := s'.gets[k]]
    && (HasNode(s.threads[t]) ==> NodeOf(s.threads[t]) == k)
    && (forall n: nat :: n != k ==> !Pins(s'.threads[t], n))
    && (s'.loc[k] == s.loc[k] || forall u :: Names(s.loc[k], u) ==> u == t)
    && (s'.next[k] == s.next[k] || (PinCount(s.threads, k) == 0 && Names(s.loc[k], t)))
  }

  lemma OtherNodes(s: State, s': State, t: nat, k: nat, n: nat)
    requires Inv(s) && Touches(s, s', t, k) && n < |s.refs| && n != k
    ensures NodeOk(s', n)
  {
    PinsAfter(s, t, s'.threads[t], n);
    assert NodeOk(s, n);
  }

  lemma OtherThreads(s: State, s': State, t: nat, k: nat, u: nat)
    requires Inv(s) && Touches(s, s', t, k) && u < |s.threads| && u != t
    ensures ThreadOk(s', u)
  {
    assert ThreadOk(s, u);
    assert s'.loc[k] == s.loc[k] || !Names(s.loc[k], u);
    if Pins(s.threads[u], k) { PinCountWitness(s.threads, u, k); }
  }

  lemma TouchKeepsInv(s: State, s': State, t: nat, k: nat)
    requires Inv(s) && Touches(s, s', t, k)
    requires ChainOk(s') && NodeOk(s', k) && ThreadOk(s', t) && PtrOk(s', s'.next[k])
    ensures Inv(s')
  {
    forall n: nat | n < |s'.refs| ensures NodeOk(s', n) {
      if n != k { OtherNodes(s, s', t, k, n); }
    }
    forall u: nat | u < |s'.threads| ensures ThreadOk(s', u) {
      if u != t { OtherThreads(s, s', t, k, u); }
    }
    forall n: nat | n < |s'.next| ensures PtrOk(s', s'.next[n]) {
      assert PtrOk(s, s.next[n]);
    }
  }

  /** A step that leaves head and links alone and takes no node into the list or off it. */
  lemma ChainKept(s: State, s': State, k: nat)
    requires WellFormed(s) && WellFormed(s') && ChainOk(s) && k < |s.refs| == |s'.refs|
    requires s'.head == s.head && s'.chain == s.chain && s'.next == s.next
    requires s'.loc == s.loc[k := s'.loc[k]] && (s'.loc[k].Listed? <==> s.loc[k].Listed?)
    ensures ChainOk(s')
  {
  }

  lemma CallAddKeepsInv(s: State, t: nat, n: nat)
    requires Inv(s) && Enabled(s, DoAdd(t, n))
    ensures Inv(CallAdd(s, t, n))
  {
    var s' := CallAdd(s, t, n);
    PinsAfter(s, t, AddEnter(n), n);
    assert NodeOk(s, n);
    TouchKeepsInv(s, s', t, n);
  }

  /** A step that only moves its thread, to a point that needs no more than what holds already. */
  lemma MoveKeepsInv(s: State, t: nat, pc: PC)
    requires Inv(s) && t < |s.threads|
    requires s.threads[t].Idle? || s.threads[t].GetLoad? || s.threads[t].GetRefs? || s.threads[t].GetPin?
    requires pc.GetLoad? || pc.Idle? || pc.GetRefs? || pc.GetPin?
    requires HasNode(pc) ==> NodeOf(pc) < |s.refs|
    requires pc.GetPin? ==> pc.r % SHOULD_BE_ON_FREELIST != 0
    ensures Inv(Goto(s, t, pc))
  {
    var s' := Goto(s, t, pc);
    forall n: nat | n < |s'.refs| ensures NodeOk(s', n) {
      PinsAfter(s, t, pc, n);
      assert NodeOk(s, n);
    }
    forall u: nat | u < |s'.threads| ensures ThreadOk(s', u) { assert ThreadOk(s, u); }
  }

  /** Pinning a node, seen from the node and the thread alone. */
  lemma PinStep(s: State, t: nat)
    requires WellFormed(s) && t < |s.threads| && s.threads[t].GetPin? && s.refs[s.threads[t].h] == s.threads[t].r
    requires NodeOk(s, s.threads[t].h) && ThreadOk(s, t)
    ensures var s', h := Step(s, t), s.threads[t].h;
      && Touches(s, s', t, h) && NodeOk(s', h) && ThreadOk(s', t)
      && s'.head == s.head && s'.chain == s.chain && s'.next == s.next && s'.loc == s.loc
  {
    PinsAfter(s, t, Step(s, t).threads[t], s.threads[t].h);
  }

  lemma GetPinKeepsInv(s: State, t: nat)
    requires Inv(s) && t < |s.threads| && s.threads[t].GetPin?
    ensures Inv(Step(s, t))
  {
    var s', h := Step(s, t), s.threads[t].h;
    if s.refs[h] == s.threads[t].r {
      assert NodeOk(s, h) && ThreadOk(s, t) && PtrOk(s, s.next[h]);
      PinStep(s, t);
      ChainKept(s, s', h);
      TouchKeepsInv(s, s', t, h);
    } else {
      MoveKeepsInv(s, t, GetLoad);
    }
  }

  /** The steps of the two operations that read a link, the head or the count and change no node. */
  lemma ReadStep(s: State, t: nat)
    requires WellFormed(s) && t < |s.threads|
    requires s.threads[t].GetNext? || s.threads[t].GetAssert? || s.threads[t].LinkLoad?
    requires var k := NodeOf(s.threads[t]); NodeOk(s, k) && ThreadOk(s, t) && PtrOk(s, s.next[k]) && PtrOk(s, s.head)
    ensures var s', k := Step(s, t), NodeOf(s.threads[t]);
      && Touches(s, s', t, k) && NodeOk(s', k) && ThreadOk(s', t) && s' == s.(threads := s'.threads)
  {
    PinsAfter(s, t, Step(s, t).threads[t], NodeOf(s.threads[t]));
  }

  lemma ReadKeepsInv(s: State, t: nat)
    requires Inv(s) && t < |s.threads|
    requires s.threads[t].GetNext? || s.threads[t].GetAssert? || s.threads[t].LinkLoad?
    ensures Inv(Step(s, t))
  {
    var s', k := Step(s, t), NodeOf(s.threads[t]);
    assert NodeOk(s, k) && ThreadOk(s, t) && PtrOk(s, s.next[k]);
    ReadStep(s, t);
    ChainKept(s, s', k);
    TouchKeepsInv(s, s', t, k);
  }

  /** With `h` pinned, its link still is what was read, so the swing removes exactly the front of the list. */
  lemma GetSwingStep(s: State, t: nat)
    requires WellFormed(s) && t < |s.threads| && s.threads[t].GetSwing? && ChainOk(s)
    requires NodeOk(s, s.threads[t].h) && ThreadOk(s, t) && PtrOk(s, s.head)
    ensures var s', h := Step(s, t), s.threads[t].h;
      && Touches(s, s', t, h) && NodeOk(s', h) && ThreadOk(s', t) && s'.refs == s.refs && s'.next == s.next
      && (if s.head == At(h) then s'.head == s.next[h] && s'.chain == s.chain[1..] && s'.loc == s.loc[h := Taken(t)]
          else s'.head == s.head && s'.chain == s.chain && s'.loc == s.loc)
  {
    var h := s.threads[t].h;
    if s.head == At(h) { assert s.chain[0] == h && s.loc[h].Listed?; }
    PinsAfter(s, t, Step(s, t).threads[t], h);
  }

  lemma GetSwingKeepsInv(s: State, t: nat)
    requires Inv(s) && t < |s.threads| && s.threads[t].GetSwing?
    ensures Inv(Step(s, t))
  {
    var s', h := Step(s, t), s.threads[t].h;
    assert NodeOk(s, h) && ThreadOk(s, t) && PtrOk(s, s.next[h]);
    GetSwingStep(s, t);
    if s.head == At(h) { SwingOffChain(s, s', h, Taken(t)); } else { ChainKept(s, s', h); }
    TouchKeepsInv(s, s', t, h);
  }

  lemma SwingOffChain(s: State, s': State, h: nat, l: Loc)
    requires WellFormed(s) && ChainOk(s) && s.head == At(h) && h < |s.refs| && WellFormed(s')
    requires s'.refs == s.refs && s'.next == s.next && s'.head == s.next[h] && s'.chain == s.chain[1..]
    requires !l.Listed? && s'.loc == s.loc[h := l]
    ensures ChainOk(s')
  {
    assert s.chain[0] == h;
    assert s.next[s.chain[0]] == First(s.chain[0 + 1..]);
    forall i | 0 <= i < |s'.chain| ensures s'.next[s'.chain[i]] == First(s'.chain[i + 1..]) {
      assert s'.chain[i] == s.chain[i + 1] && s'.chain[i + 1..] == s.chain[i + 1 + 1..];
    }
    forall n: nat | n < |s.refs| ensures s'.loc[n].Listed? <==> n in s'.chain {
      assert n in s.chain <==> n == s.chain[0] || n in s'.chain;
    }
  }

  /** Dropping both references of a node that was taken. */
  lemma DropStep(s: State, t: nat)
    requires WellFormed(s) && t < |s.threads| && s.threads[t].GetDrop?
    requires NodeOk(s, s.threads[t].h) && ThreadOk(s, t)
    ensures var s', h := Step(s, t), s.threads[t].h;
      && Touches(s, s', t, h) && NodeOk(s', h) && ThreadOk(s', t)
      && s'.head == s.head && s'.chain == s.chain && s'.next == s.next && (s'.loc[h].Listed? <==> s.loc[h].Listed?)
  {
    PinsAfter(s, t, Step(s, t).threads[t], s.threads[t].h);
  }

  lemma GetDropKeepsInv(s: State, t: nat)
    requires Inv(s) && t < |s.threads| && s.threads[t].GetDrop?
    ensures Inv(Step(s, t))
  {
    var s', h := Step(s, t), s.threads[t].h;
    assert NodeOk(s, h) && ThreadOk(s, t) && PtrOk(s, s.next[h]);
    DropStep(s, t);
    ChainKept(s, s', h);
    TouchKeepsInv(s, s', t, h);
  }

  /** Giving up a pin, seen from the node and the thread alone: with nobody else on a node that waits to be added,
      the thread goes on to add it. */
  lemma UnpinStep(s: State, t: nat)
    requires WellFormed(s) && t < |s.threads| && s.threads[t].GetUnpin?
    requires NodeOk(s, s.threads[t].h) && PtrOk(s, s.threads[t].seen)
    ensures var s', h := Step(s, t), s.threads[t].h;
      && Touches(s, s', t, h) && NodeOk(s', h) && ThreadOk(s', t)
      && s'.head == s.head && s'.chain == s.chain && s'.next == s.next && (s'.loc[h].Listed? <==> s.loc[h].Listed?)
  {
    var h := s.threads[t].h;
    PinsAfter(s, t, Step(s, t).threads[t], h);
    if s.refs[h] == SHOULD_BE_ON_FREELIST + 1 {
      assert s.loc[h].Pending? && PinCount(s.threads, h) == 1;
    } else {
      assert s.loc[h].Pending? ==> PinCount(s.threads, h) > 1;
    }
  }

  lemma GetUnpinKeepsInv(s: State, t: nat)
    requires Inv(s) && t < |s.threads| && s.threads[t].GetUnpin?
    ensures Inv(Step(s, t))
  {
    var s', h := Step(s, t), s.threads[t].h;
    assert NodeOk(s, h) && ThreadOk(s, t) && PtrOk(s, s.next[h]);
    UnpinStep(s, t);
    ChainKept(s, s', h);
    TouchKeepsInv(s, s', t, h);
  }

  /** Entering `add`. */
  lemma AddEnterStep(s: State, t: nat)
    requires WellFormed(s) && t < |s.threads| && s.threads[t].AddEnter?
    requires NodeOk(s, s.threads[t].n) && ThreadOk(s, t)
    ensures var s', n := Step(s, t), s.threads[t].n;
      && Touches(s, s', t, n) && NodeOk(s', n) && ThreadOk(s', t)
      && s'.head == s.head && s'.chain == s.chain && s'.next == s.next && (s'.loc[n].Listed? <==> s.loc[n].Listed?)
  {
    PinsAfter(s, t, Step(s, t).threads[t], s.threads[t].n);
  }

  lemma AddEnterKeepsInv(s: State, t: nat)
    requires Inv(s) && t < |s.threads| && s.threads[t].AddEnter?
    ensures Inv(Step(s, t))
  {
    var s', n := Step(s, t), s.threads[t].n;
    assert NodeOk(s, n) && ThreadOk(s, t) && PtrOk(s, s.next[n]);
    AddEnterStep(s, t);
    ChainKept(s, s', n);
    TouchKeepsInv(s, s', t, n);
  }

  /** Only the linking thread writes the link, and only while nobody has the node pinned. */
  lemma LinkStoreKeepsInv(s: State, t: nat)
    requires Inv(s) && t < |s.threads| && (s.threads[t].LinkNext? || s.threads[t].LinkRef?)
    ensures Inv(Step(s, t))
  {
    var s' := Step(s, t);
    var n := s.threads[t].n;
    PinsAfter(s, t, s'.threads[t], n);
    assert NodeOk(s, n) && ThreadOk(s, t) && PtrOk(s, s.next[n]);
    assert n !in s.chain;
    TouchKeepsInv(s, s', t, n);
  }

  /** The swing of the head to a new node, seen from the node and the thread alone. */
  lemma LinkSwingStep(s: State, t: nat)
    requires WellFormed(s) && t < |s.threads| && s.threads[t].LinkSwing?
    requires NodeOk(s, s.threads[t].n) && ThreadOk(s, t) && PtrOk(s, s.head)
    ensures var s', n := Step(s, t), s.threads[t].n;
      && Touches(s, s', t, n) && NodeOk(s', n) && ThreadOk(s', t) && s'.refs == s.refs && s'.next == s.next
      && (if s.head == s.threads[t].head
          then s'.head == At(n) && s'.chain == [n] + s.chain && s'.loc == s.loc[n := Listed]
          else s'.head == s.head && s'.chain == s.chain && s'.loc == s.loc)
  {
    PinsAfter(s, t, Step(s, t).threads[t], s.threads[t].n);
  }

  lemma LinkSwingKeepsInv(s: State, t: nat)
    requires Inv(s) && t < |s.threads| && s.threads[t].LinkSwing?
    ensures Inv(Step(s, t))
  {
    var s', n := Step(s, t), s.threads[t].n;
    assert NodeOk(s, n) && ThreadOk(s, t) && PtrOk(s, s.next[n]);
    LinkSwingStep(s, t);
    if s.head == s.threads[t].head { SwingOntoChain(s, s', n); } else { ChainKept(s, s', n); }
    TouchKeepsInv(s, s', t, n);
  }

  lemma SwingOntoChain(s: State, s': State, n: nat)
    requires WellFormed(s) && ChainOk(s) && n < |s.refs| && s.next[n] == s.head && !s.loc[n].Listed? && WellFormed(s')
    requires s'.refs == s.refs && s'.next == s.next && s'.head == At(n) && s'.chain == [n] + s.chain
    requires s'.loc == s.loc[n := Listed]
    ensures ChainOk(s')
  {
    forall i | 0 <= i < |s'.chain| ensures s'.next[s'.chain[i]] == First(s'.chain[i + 1..]) {
      if i == 0 {
        assert s'.chain[0 + 1..] == s.chain;
      } else {
        assert s'.chain[i] == s.chain[i - 1] && s'.chain[i + 1..] == s.chain[i - 1 + 1..];
      }
    }
  }

  /** Taking back a link, seen from the node and the thread alone. */
  lemma LinkBackStep(s: State, t: nat)
    requires WellFormed(s) && t < |s.threads| && s.threads[t].LinkBack?
    requires NodeOk(s, s.threads[t].n) && ThreadOk(s, t)
    ensures var s', n := Step(s, t), s.threads[t].n;
      && Touches(s, s', t, n) && NodeOk(s', n) && ThreadOk(s', t)
      && s'.head == s.head && s'.chain == s.chain && s'.next == s.next && (s'.loc[n].Listed? <==> s.loc[n].Listed?)
  {
    var s', n := Step(s, t), s.threads[t].n;
    PinsAfter(s, t, s'.threads[t], n);
    assert PinCount(s'.threads, n) == PinCount(s.threads, n) == s.refs[n] - 1;
  }

  lemma LinkBackKeepsInv(s: State, t: nat)
    requires Inv(s) && t < |s.threads| && s.threads[t].LinkBack?
    ensures Inv(Step(s, t))
  {
    var s', n := Step(s, t), s.threads[t].n;
    assert NodeOk(s, n) && ThreadOk(s, t) && PtrOk(s, s.next[n]);
    LinkBackStep(s, t);
    ChainKept(s, s', n);
    TouchKeepsInv(s, s', t, n);
  }

  lemma ActionKeepsInv(s: State, a: Action)
    requires Inv(s) && Enabled(s, a)
    ensures Inv(Apply(s, a))
  {
    match a
    case DoGet(t) => MoveKeepsInv(s, t, GetLoad);
    case DoAdd(t, n) => CallAddKeepsInv(s, t, n);
    case DoStep(t) =>
      match s.threads[t]
      case GetPin(_, _) => GetPinKeepsInv(s, t);
      case GetSwing(_, _) => GetSwingKeepsInv(s, t);
      case GetDrop(_) => GetDropKeepsInv(s, t);
      case GetUnpin(_, _) => GetUnpinKeepsInv(s, t);
      case AddEnter(_) => AddEnterKeepsInv(s, t);
      case LinkNext(_, _, _) => LinkStoreKeepsInv(s, t);
      case LinkRef(_, _, _) => LinkStoreKeepsInv(s, t);
      case LinkSwing(_, _, _) => LinkSwingKeepsInv(s, t);
      case LinkBack(_, _, _) => LinkBackKeepsInv(s, t);
      case GetLoad => MoveKeepsInv(s, t, Loop(s.head));
      case GetRefs(_) => MoveKeepsInv(s, t, Step(s, t).threads[t]);
      case _ => ReadKeepsInv(s, t);
  }

  // ---------- what holds of every run ----------

  lemma {:induction false} ReachableInv(s0: State, run: seq<Action>, s: State)
    requires Reaches(s0, run, s)
    ensures Inv(s)
    decreases |run|
  {
    if run == [] {
      InitInv(s);
    } else {
      var last := |run| - 1;
      var m :| Reaches(s0, run[..last], m) && Enabled(m, run[last]) && s == Apply(m, run[last]);
      ReachableInv(s0, run[..last], m);
      ActionKeepsInv(m, run[last]);
    }
  }

  /** Following the links from the head visits `nodes` and ends: a statement about memory alone. */
  ghost predicate HeadChain(head: Ptr, next: seq<Ptr>, nodes: seq<nat>)
    decreases |nodes|
  {
    match head
    case Null => nodes == []
    case At(n) => nodes != [] && nodes[0] == n && n < |next| && HeadChain(next[n], next, nodes[1..])
  }

  lemma {:induction false} ChainIsHeadChain(s: State, i: nat)
    requires WellFormed(s) && ChainOk(s) && i <= |s.chain|
    ensures HeadChain(First(s.chain[i..]), s.next, s.chain[i..])
    decreases |s.chain| - i
  {
    if i < |s.chain| {
      assert s.chain[i..][1..] == s.chain[i + 1..];
      assert s.next[s.chain[i]] == First(s.chain[i + 1..]);
      ChainIsHeadChain(s, i + 1);
    }
  }

  /** In every interleaving the links from the head run through distinct nodes to null, and no client and
      no other operation holds any of them. */
  lemma ListStaysAcyclic(s0: State, run: seq<Action>, s: State)
    requires Reaches(s0, run, s)
    ensures HeadChain(s.head, s.next, s.chain)
    ensures forall i, j :: 0 <= i < j < |s.chain| ==> s.chain[i] != s.chain[j]
    ensures forall n :: 0 <= n < |s.loc| ==> (n in s.chain <==> s.loc[n].Listed?)
  {
    ReachableInv(s0, run, s);
    ChainIsHeadChain(s, 0);
    assert s.chain[0..] == s.chain;
  }

  lemma AddedAndTaken(s0: State, run: seq<Action>, s: State, n: nat)
    requires Reaches(s0, run, s) && n < |s.adds|
    ensures n < |s.gets| && s.gets[n] <= s.adds[n] <= s.gets[n] + 1
  {
    ReachableInv(s0, run, s);
    assert NodeOk(s, n);
  }

  /** Two threads never take the same node off the list. */
  lemma OneTaker(s0: State, run: seq<Action>, s: State, t: nat, u: nat)
    requires Reaches(s0, run, s) && t < |s.threads| && u < |s.threads| && t != u
    requires s.threads[t].GetAssert? || s.threads[t].GetDrop?
    requires s.threads[u].GetAssert? || s.threads[u].GetDrop?
    ensures s.threads[t].h != s.threads[u].h
  {
    ReachableInv(s0, run, s);
    assert ThreadOk(s, t) && ThreadOk(s, u);
  }

  /** The assertion of `try_get` holds whenever a thread evaluates it: the flag of a node just taken is 0. */
  lemma TakenFlagIsClear(s0: State, run: seq<Action>, s: State, t: nat)
    requires Reaches(s0, run, s) && t < |s.threads| && s.threads[t].GetAssert?
    ensures s.threads[t].h < |s.refs| && 0 <= s.refs[s.threads[t].h] < SHOULD_BE_ON_FREELIST
  {
    ReachableInv(s0, run, s);
    assert ThreadOk(s, t) && NodeOk(s, s.threads[t].h);
    PinCountBound(s.threads, s.threads[t].h);
  }

  ghost predicate Quiescent(s: State) {
    forall t :: 0 <= t < |s.threads| ==> s.threads[t].Idle?
  }

  /** No loss: with no operation in flight, the nodes reached from the head are exactly the nodes counted as added and
      not counted as handed out since. */
  lemma RestIsListed(s0: State, run: seq<Action>, s: State)
    requires Reaches(s0, run, s) && Quiescent(s)
    ensures HeadChain(s.head, s.next, s.chain) && |s.gets| == |s.adds|
    ensures forall n :: 0 <= n < |s.adds| ==> (n in s.chain <==> s.adds[n] == s.gets[n] + 1)
  {
    ReachableInv(s0, run, s);
    ChainIsHeadChain(s, 0);
    assert s.chain[0..] == s.chain;
    forall n: nat | n < |s.adds| ensures n in s.chain <==> s.adds[n] == s.gets[n] + 1 {
      PinCountNone(s.threads, n);
      assert NodeOk(s, n);
    }
  }

  /** A client that got a node is the only one: it may call `add` on it again, and nothing else can take
      it or hand it out before that. */
  lemma OwnedUntilAdded(s: State, a: Action, n: nat)
    requires Inv(s) && Enabled(s, a) && n < |s.loc| && s.loc[n].Out?
    ensures Apply(s, a).loc[n].Out? || a == DoAdd(a.t, n)
    ensures Apply(s, a).gets[n] == s.gets[n]
  {
    if a.DoStep? {
      assert ThreadOk(s, a.t) && NodeOk(s, n);
      if s.threads[a.t].GetUnpin? && s.threads[a.t].h == n {
        PinCountBound(s.threads, n);
      }
      if s.threads[a.t].GetSwing? && s.head == At(s.threads[a.t].h) {
        assert s.chain[0] in s.chain;
      }
    }
  }
}
