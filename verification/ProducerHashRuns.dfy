/**
 The thread-to-producer hash over whole runs: a thread that has a producer always gets that one, no two threads
 share one, and every probing loop ends, under any interleaving of insertions, lazy copies and resizes.
 */
module ProducerHashRuns {
  import opened Options
  import opened Sets
  import opened ProducerHash
  import opened ProducerHashProof

  /** What a call returns is the producer the thread owns; null only if it owns none. */
  lemma ReturnsOwn(s0: State, run: seq<Action>, s: State, t: nat)
    requires Reaches(s0, run, s) && t < |s.threads| && s.threads[t].pc.Done?
    ensures s.threads[t].pc.r == s.threads[t].own
  {
    ReachableInv(s0, run, s);
    assert ThreadOk(s.tables, s.threads[t], t);
  }

  lemma StepKeepsOwn(s: State, a: Action, t: nat)
    requires Enabled(s, a) && ThreadOk(s.tables, s.threads[a.t], a.t) && t < |s.threads| && s.threads[t].own.Some?
    ensures var threads' := Apply(s, a).threads; t < |threads'| && threads'[t].own == s.threads[t].own
  {
    if s.threads[a.t].pc.InsertCas? { assert a.t != t; }
  }

  /** `s'` is reached from `s` by the steps `more`. */
  ghost predicate Continues(s: State, more: seq<Action>, s': State)
    decreases |more|
  {
    if more == [] then s' == s
    else
      var last := |more| - 1;
      exists m :: Continues(s, more[..last], m) && Enabled(m, more[last]) && s' == Apply(m, more[last])
  }

  /** The producer a thread owns never changes. */
  lemma {:induction false} OwnStays(s: State, more: seq<Action>, s': State, t: nat)
    requires Inv(s) && Continues(s, more, s') && t < |s.threads| && s.threads[t].own.Some?
    ensures Inv(s') && t < |s'.threads| && s'.threads[t].own == s.threads[t].own
    decreases |more|
  {
    if more != [] {
      var last := |more| - 1;
      var m :| Continues(s, more[..last], m) && Enabled(m, more[last]) && s' == Apply(m, more[last]);
      OwnStays(s, more[..last], m, t);
      OneMoreStep(m, more[last], t);
    }
  }

  lemma OneMoreStep(s: State, a: Action, t: nat)
    requires Inv(s) && Enabled(s, a) && t < |s.threads| && s.threads[t].own.Some?
    ensures var s' := Apply(s, a); Inv(s') && t < |s'.threads| && s'.threads[t].own == s.threads[t].own
  {
    ActionKeepsInv(s, a);
    StepKeepsOwn(s, a, t);
  }

  /** A thread always gets the same producer: what a call returns, any later call of the thread returns. */
  lemma SameProducer(s0: State, run: seq<Action>, s: State, more: seq<Action>, s': State, t: nat, p: nat)
    requires Reaches(s0, run, s) && Continues(s, more, s') && t < |s.threads| && t < |s'.threads|
    requires s.threads[t].pc == Done(Some(p)) && s'.threads[t].pc.Done?
    ensures s'.threads[t].pc.r == Some(p)
  {
    ReturnsOwn(s0, run, s, t);
    ReachableInv(s0, run, s);
    OwnStays(s, more, s', t);
    assert ThreadOk(s'.tables, s'.threads[t], t);
  }

  /** Two threads never share a producer. */
  lemma NeverShared(s0: State, run: seq<Action>, s: State, t: nat, u: nat)
    requires Reaches(s0, run, s) && t < |s.threads| && u < |s.threads| && t != u
    requires s.threads[t].own.Some?
    ensures s.threads[t].own != s.threads[u].own
  {
    ReachableInv(s0, run, s);
    assert ProducerOf(s.threads[t]) == s.threads[t].own;
    assert s.threads[u].own.Some? ==> ProducerOf(s.threads[u]) == s.threads[u].own;
    assert ProducerOf(s.threads[t]) != ProducerOf(s.threads[u]);
  }

  /** A thread that owns a producer finds it: its search never falls through to an insertion. */
  lemma FoundOnceAdded(s0: State, run: seq<Action>, s: State, t: nat)
    requires Reaches(s0, run, s) && t < |s.threads| && s.threads[t].pc.Count?
    ensures s.threads[t].own.None?
  {
    ReachableInv(s0, run, s);
    assert ThreadOk(s.tables, s.threads[t], t);
  }

  /** At least a quarter of the slots of every table is free, always. */
  lemma QuarterAlwaysFree(s0: State, run: seq<Action>, s: State, k: nat)
    requires Reaches(s0, run, s) && k < |s.tables|
    ensures 4 * |Used(s.tables[k].slots)| < 3 * Cap(s.tables[k])
  {
    ReachableInv(s0, run, s);
    assert TableSlotsOk(s.tables[k].slots, s.threads, k);
    QuarterFree(s.tables[k].slots, s.threads, k, s.order, s.count);
  }

  /** The table and the number of slots passed in the probing loop a thread is in. */
  function LoopTable(pc: PC): Option<nat> {
    match pc
    case Search(_, h, _) => Some(h)
    case Copy(main, _, _) => Some(main)
    case CopyCas(main, _, _) => Some(main)
    case Insert(main, _, _) => Some(main)
    case InsertCas(main, _, _) => Some(main)
    case _ => None
  }

  function Passed(pc: PC): nat {
    match pc
    case Search(_, _, seen) => seen
    case Copy(_, seen, _) => seen
    case CopyCas(_, seen, _) => seen
    case Insert(_, seen, _) => seen
    case InsertCas(_, seen, _) => seen
    case _ => 0
  }

  /** Every probing loop ends: it has passed fewer than three quarters of the slots of its table whenever it
      probes, however many keys other threads add in front of it. */
  lemma ProbesAreFew(s0: State, run: seq<Action>, s: State, t: nat)
    requires Reaches(s0, run, s) && t < |s.threads| && LoopTable(s.threads[t].pc).Some?
    ensures LoopTable(s.threads[t].pc).value < |s.tables|
    ensures 4 * Passed(s.threads[t].pc) < 3 * Cap(s.tables[LoopTable(s.threads[t].pc).value])
  {
    ReachableInv(s0, run, s);
    var th := s.threads[t];
    assert ThreadOk(s.tables, th, t);
    var k := LoopTable(th.pc).value;
    assert TableSlotsOk(s.tables[k].slots, s.threads, k) && Cap(s.tables[k]) % 4 == 0;
    VisitedFew(s.tables[k].slots, s.threads, k, s.order, s.count, th.hash, t, Passed(th.pc));
  }

  /** What is left of the loops of a search: tables to go, slots to go in this one, and the CAS of a slot. */
  predicate Shorter(s: State, pc: PC, pc': PC)
    requires LoopTable(pc).Some? && LoopTable(pc').Some?
  {
    var k, k' := LoopTable(pc).value, LoopTable(pc').value;
    || k' < k
    || (k' == k < |s.tables| && Passed(pc) < Passed(pc') <= Cap(s.tables[k]))
    || (k' == k && Passed(pc') == Passed(pc) && (pc.Copy? || pc.Insert?) && (pc'.CopyCas? || pc'.InsertCas?))
  }

  lemma SearchAdvances(s: State, t: nat)
    requires Inv(s) && Shaped(s) && t < |s.threads| && s.threads[t].pc.Search?
    requires Passed(s.threads[t].pc) < Cap(s.tables[s.threads[t].pc.h])
    ensures var pc, pc' := s.threads[t].pc, Probed(s, t);
      LoopTable(pc').None? || pc'.Copy? || Shorter(s, pc, pc')
  {
    assert s.tables[s.threads[t].pc.h].prev != Some(s.threads[t].pc.h);
  }

  /** Each step a thread takes in a loop leaves it or gets nearer to its end, and no other thread's step moves it: so
      a search, a lazy copy and an insertion each take a bounded number of the thread's own steps. */
  lemma ProbeAdvances(s0: State, run: seq<Action>, s: State, t: nat, ok: bool)
    requires Reaches(s0, run, s) && Enabled(s, Action(t, ok)) && LoopTable(s.threads[t].pc).Some?
    ensures var pc, pc' := s.threads[t].pc, Apply(s, Action(t, ok)).threads[t].pc;
      LoopTable(pc').None? || (pc.Search? && pc'.Copy?) || Shorter(s, pc, pc')
    ensures NotMovedByOthers(s, t)
  {
    LoopAdvances(s0, run, s, t, ok);
    NobodyMoves(s, t);
  }

  lemma LoopAdvances(s0: State, run: seq<Action>, s: State, t: nat, ok: bool)
    requires Reaches(s0, run, s) && Enabled(s, Action(t, ok)) && LoopTable(s.threads[t].pc).Some?
    ensures var pc, pc' := s.threads[t].pc, Apply(s, Action(t, ok)).threads[t].pc;
      LoopTable(pc').None? || (pc.Search? && pc'.Copy?) || Shorter(s, pc, pc')
  {
    ProbesAreFew(s0, run, s, t);
    if s.threads[t].pc.Search? {
      ReachableInv(s0, run, s);
      SearchAdvances(s, t);
    }
  }

  /** No other thread's step changes where thread `t` is. */
  ghost predicate NotMovedByOthers(s: State, t: nat)
    requires t < |s.threads|
  {
    forall a :: Enabled(s, a) && a.t != t ==> |Apply(s, a).threads| > t && Apply(s, a).threads[t] == s.threads[t]
  }

  lemma NobodyMoves(s: State, t: nat)
    requires t < |s.threads|
    ensures NotMovedByOthers(s, t)
  {
    forall a | Enabled(s, a) && a.t != t ensures |Apply(s, a).threads| > t && Apply(s, a).threads[t] == s.threads[t] {
      OnlyOneMoves(s, a);
    }
  }

  predicate OneMoves(s: State, s': State, t: nat) {
    |s'.threads| == |s.threads| && t < |s.threads| && s'.threads == s.threads[t := s'.threads[t]]
  }

  lemma StoreMovesOne(s: State, t: nat)
    requires Shaped(s) && t < |s.threads|
    requires var pc := s.threads[t].pc; pc.CopyCas? || pc.InsertCas? || pc.CopyVal? || pc.InsertVal?
    ensures OneMoves(s, Store(s, t), t)
  {
  }

  lemma ManageMovesOne(s: State, t: nat, ok: bool)
    requires Shaped(s) && t < |s.threads|
    ensures OneMoves(s, Manage(s, t, ok), t)
  {
  }

  lemma OnlyOneMoves(s: State, a: Action)
    requires Enabled(s, a)
    ensures OneMoves(s, Apply(s, a), a.t)
  {
    var pc := s.threads[a.t].pc;
    if pc.CopyCas? || pc.InsertCas? || pc.CopyVal? || pc.InsertVal? {
      StoreMovesOne(s, a.t);
    } else if !pc.Search? && !pc.Copy? && !pc.Insert? {
      ManageMovesOne(s, a.t, a.ok);
    }
  }

  /** One resizer at a time, working on the newest table; each table links to the one before it. */
  lemma OneResizer(s0: State, run: seq<Action>, s: State, t: nat, u: nat)
    requires Reaches(s0, run, s) && t < |s.threads| && u < |s.threads|
    requires Holds(s.threads[t].pc) && Holds(s.threads[u].pc)
    ensures t == u && s.flag
    ensures s.threads[t].pc.Grow? ==> s.threads[t].pc.main == |s.tables| - 1
    ensures forall k :: 0 <= k < |s.tables| ==> s.tables[k].prev == if k == 0 then None else Some(k - 1)
  {
    ReachableInv(s0, run, s);
    assert ThreadOk(s.tables, s.threads[t], t);
  }

  /** With no call in flight, the count is the number of threads that own a producer. */
  lemma CountIsExact(s0: State, run: seq<Action>, s: State)
    requires Reaches(s0, run, s)
    requires forall t :: 0 <= t < |s.threads| ==> s.threads[t].pc.Idle?
    ensures s.count == |set t: nat | t < |s.threads| && s.threads[t].own.Some?|
    ensures !s.flag
  {
    ReachableInv(s0, run, s);
    var owners := set t: nat | t < |s.threads| && s.threads[t].own.Some?;
    ListSize(s.order);
    forall t | t in owners ensures t in s.order { assert Active(s.threads[t]); }
    assert owners == Elements(s.order);
  }
}
