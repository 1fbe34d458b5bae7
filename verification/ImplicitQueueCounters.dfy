/**
 The optimistic and overcommit counters of ImplicitProducer: whatever the interleaving of `dequeue` and
 `dequeue_bulk`, `headIndex` never passes `tailIndex`.

 The argument orders reservations by the value `my` that `dequeueOptimisticCount.fetch_add` returned. What
 all earlier reservations have used up or may still use never exceeds `my` less the overcommit read before;
 a claim granted against a tail at least that far ahead is therefore covered. Claims that were granted later
 but reserved earlier only shrink what the last one in reservation order (`gmy`) already allowed for.
 */
module ImplicitQueueCounters {
  import opened Words
  import opened ImplicitQueue

  /** What a consumer has added to the optimistic count and not yet settled. */
  function Unsettled(pc: ConsPC, p: nat): nat {
    match pc
    case CRecheck(q, _, k, _) => if q == p then k else 0
    case CGiveBack(q, k, _) => if q == p then k else 0
    case CClaim(q, a) => if q == p then a else 0
    case CRefund(q, k) => if q == p then k else 0
    case _ => 0
  }

  /** What a consumer may yet add to the head, counting undecided reservations made before `x`. */
  function Committed(pc: ConsPC, p: nat, x: int): nat {
    match pc
    case CRecheck(q, _, k, my) => if q == p && my < x then k else 0
    case CGiveBack(q, _, a) => if q == p then a else 0
    case CClaim(q, a) => if q == p then a else 0
    case _ => 0
  }

  function SumUnsettled(cons: seq<ConsPC>, p: nat): nat {
    if cons == [] then 0 else Unsettled(cons[0], p) + SumUnsettled(cons[1..], p)
  }

  function SumCommitted(cons: seq<ConsPC>, p: nat, x: int): nat {
    if cons == [] then 0 else Committed(cons[0], p, x) + SumCommitted(cons[1..], p, x)
  }

  lemma {:induction false} SumUpdate(cons: seq<ConsPC>, c: nat, pc: ConsPC, p: nat, x: int)
    requires c < |cons|
    ensures SumUnsettled(cons[c := pc], p) + Unsettled(cons[c], p) == SumUnsettled(cons, p) + Unsettled(pc, p)
    ensures SumCommitted(cons[c := pc], p, x) + Committed(cons[c], p, x)
         == SumCommitted(cons, p, x) + Committed(pc, p, x)
  {
    if c == 0 {
      assert cons[c := pc][1..] == cons[1..];
    } else {
      assert cons[c := pc][1..] == cons[1..][c - 1 := pc];
      SumUpdate(cons[1..], c - 1, pc, p, x);
    }
  }

  predicate Sane(pc: ConsPC) {
    match pc
    case CGiveBack(_, k, a) => 0 < a < k
    case CClaim(_, a) => 0 < a
    case CReserve(_, _, k) => 0 < k
    case CRecheck(_, _, k, _) => 0 < k
    case COpt(_, max, _, _) => 0 < max
    case COver(_, max, _) => 0 < max
    case CTail(_, max) => 0 < max
    case _ => true
  }

  lemma {:induction false} CommittedWithinUnsettled(cons: seq<ConsPC>, p: nat, x: int)
    requires forall c :: 0 <= c < |cons| ==> Sane(cons[c])
    ensures SumCommitted(cons, p, x) <= SumUnsettled(cons, p)
  {
    if cons != [] {
      assert Sane(cons[0]);
      forall c | 0 <= c < |cons[1..]| ensures Sane(cons[1..][c]) { assert cons[1..][c] == cons[c + 1]; }
      CommittedWithinUnsettled(cons[1..], p, x);
    }
  }

  lemma {:induction false} CommittedMember(cons: seq<ConsPC>, c: nat, p: nat, x: int)
    requires c < |cons|
    ensures Committed(cons[c], p, x) <= SumCommitted(cons, p, x)
  {
    if c > 0 { CommittedMember(cons[1..], c - 1, p, x); }
  }

  lemma {:induction false} NothingUnsettled(cons: seq<ConsPC>, p: nat)
    requires forall c :: 0 <= c < |cons| ==> Unsettled(cons[c], p) == 0
    ensures SumUnsettled(cons, p) == 0
  {
    if cons != [] {
      assert Unsettled(cons[0], p) == 0;
      forall c | 0 <= c < |cons[1..]| ensures Unsettled(cons[1..][c], p) == 0 { assert cons[1..][c] == cons[c + 1]; }
      NothingUnsettled(cons[1..], p);
    }
  }

  // ---------- the invariant ----------

  /** What may come before a reservation at `x`: the head, granted claims, and undecided ones before `x`. */
  function Ahead(s: State, p: nat, x: int): int
    requires p < |s.prods|
  {
    s.prods[p].head + SumCommitted(s.cons, p, x)
  }

  ghost predicate CountersOk(s: State, p: nat)
    requires p < |s.prods|
  {
    var pr := s.prods[p];
    && pr.opt == pr.over + pr.head + SumUnsettled(s.cons, p)
    && Ahead(s, p, pr.gmy) <= pr.hw <= pr.tail
    && pr.gmy < pr.opt
  }

  ghost predicate ConsOk(s: State, c: nat)
    requires c < |s.cons|
  {
    var pc := s.cons[c];
    && Sane(pc)
    && (!pc.CIdle? ==> pc.p < |s.prods|)
    && (pc.COpt? || pc.CReserve? || pc.CRecheck? ==> pc.over <= s.prods[pc.p].over)
    && (pc.CRecheck? ==>
          var pr := s.prods[pc.p];
          && pc.my + pc.k <= pr.opt && pc.my != pr.gmy && pc.over <= pc.my
          && (pc.my > pr.gmy ==> Ahead(s, pc.p, pc.my) <= pc.my - pc.over))
  }

  ghost predicate DistinctReservations(s: State) {
    forall c, d :: 0 <= c < d < |s.cons| && s.cons[c].CRecheck? && s.cons[d].CRecheck? && s.cons[c].p == s.cons[d].p
      ==> s.cons[c].my != s.cons[d].my
  }

  ghost predicate CounterInv(s: State) {
    && (forall p :: 0 <= p < |s.prods| ==> CountersOk(s, p))
    && (forall c :: 0 <= c < |s.cons| ==> ConsOk(s, c))
    && DistinctReservations(s)
  }

  lemma InitCounters(s: State)
    requires Init(s)
    ensures CounterInv(s)
  {
    forall p: nat | p < |s.prods| ensures CountersOk(s, p) {
      NothingUnsettled(s.cons, p);
      assert forall c :: 0 <= c < |s.cons| ==> Sane(s.cons[c]);
      CommittedWithinUnsettled(s.cons, p, -1);
    }
  }

  // ---------- every step keeps it ----------

  /** The counters of a producer that a step leaves alone. */
  predicate SameCounters(a: Prod, b: Prod) {
    a.tail == b.tail && a.head == b.head && a.opt == b.opt && a.over == b.over && a.gmy == b.gmy && a.hw == b.hw
  }

  /** A producer's steps can only raise the tail. */
  lemma ProdKeepsCounters(s: State, p: nat, ch: Choice)
    requires CounterInv(s) && ProdEnabled(s, p, ch)
    ensures CounterInv(ProdStep(s, p, ch))
  {
    var s' := ProdStep(s, p, ch);
    assert s'.cons == s.cons && |s'.prods| == |s.prods|;
    forall q: nat | q < |s'.prods| ensures CountersOk(s', q) { assert CountersOk(s, q); }
    forall c: nat | c < |s'.cons| ensures ConsOk(s', c) { assert ConsOk(s, c); }
  }

  /** Consumer `c` moves; counters change, if at all, at producer `p` only. */
  ghost predicate MovesAt(s: State, s': State, c: nat, p: nat) {
    && c < |s.cons| && |s'.cons| == |s.cons| && p < |s.prods| && |s'.prods| == |s.prods|
    && s'.cons == s.cons[c := s'.cons[c]]
    && (forall q :: 0 <= q < |s.prods| && q != p ==> SameCounters(s'.prods[q], s.prods[q]))
    && (s.cons[c].CIdle? || s.cons[c].p == p)
    && (s'.cons[c].CIdle? || s'.cons[c].p == p)
  }

  lemma OtherProducers(s: State, s': State, c: nat, p: nat, q: nat)
    requires CounterInv(s) && MovesAt(s, s', c, p) && q < |s.prods| && q != p
    ensures CountersOk(s', q)
  {
    SumUpdate(s.cons, c, s'.cons[c], q, s.prods[q].gmy);
    assert CountersOk(s, q);
  }

  lemma OtherConsumers(s: State, s': State, c: nat, p: nat, d: nat)
    requires CounterInv(s) && MovesAt(s, s', c, p) && d < |s.cons| && d != c
    requires s.prods[p].over <= s'.prods[p].over && s.prods[p].opt <= s'.prods[p].opt
    requires s.cons[d].CRecheck? && s.cons[d].p == p ==>
               var my := s.cons[d].my;
               && my != s'.prods[p].gmy
               && (my > s'.prods[p].gmy ==>
                     && my > s.prods[p].gmy
                     && s'.prods[p].head + Committed(s'.cons[c], p, my) <= s.prods[p].head + Committed(s.cons[c], p, my))
    ensures ConsOk(s', d)
  {
    assert ConsOk(s, d);
    if s.cons[d].CRecheck? {
      SumUpdate(s.cons, c, s'.cons[c], s.cons[d].p, s.cons[d].my);
    }
  }

  /** The steps that touch no counter. */
  lemma QuietStepKeepsCounters(s: State, s': State, c: nat, p: nat)
    requires CounterInv(s) && MovesAt(s, s', c, p) && SameCounters(s'.prods[p], s.prods[p])
    requires forall q: nat :: Unsettled(s.cons[c], q) == 0 && Unsettled(s'.cons[c], q) == 0
    requires !s'.cons[c].CRecheck? && ConsOk(s', c)
    ensures CounterInv(s')
  {
    assert Unsettled(s.cons[c], p) == 0 && Unsettled(s'.cons[c], p) == 0;
    assert ConsOk(s, c);
    forall q: nat | q < |s'.prods| ensures CountersOk(s', q) {
      SumUpdate(s.cons, c, s'.cons[c], q, s.prods[q].gmy);
      assert CountersOk(s, q);
    }
    forall d: nat | d < |s'.cons| ensures ConsOk(s', d) {
      assert ConsOk(s, d);
      if d != c { OtherConsumers(s, s', c, p, d); }
    }
  }

  /** A new reservation comes after all others, so what lies ahead of it is at most the unsettled total. */
  lemma ReserveKeepsCounters(s: State, c: nat)
    requires CounterInv(s) && ConsEnabled(s, c) && s.cons[c].CReserve?
    ensures CounterInv(ConsStep(s, c))
  {
    var s' := ConsStep(s, c);
    var p := s.cons[c].p;
    var pr := s.prods[p];
    assert ConsOk(s, c) && CountersOk(s, p);
    SumUpdate(s.cons, c, s'.cons[c], p, pr.gmy);
    SumUpdate(s.cons, c, s'.cons[c], p, pr.opt);
    assert forall d :: 0 <= d < |s.cons| ==> Sane(s.cons[d]) by {
      forall d | 0 <= d < |s.cons| ensures Sane(s.cons[d]) { assert ConsOk(s, d); }
    }
    CommittedWithinUnsettled(s.cons, p, pr.opt);
    forall q: nat | q < |s'.prods| ensures CountersOk(s', q) {
      if q != p { OtherProducers(s, s', c, p, q); }
    }
    forall d: nat | d < |s'.cons| ensures ConsOk(s', d) {
      assert ConsOk(s, d);
      if d != c { OtherConsumers(s, s', c, p, d); }
    }
    assert forall d :: 0 <= d < |s.cons| && s.cons[d].CRecheck? && s.cons[d].p == p ==> s.cons[d].my < pr.opt by {
      forall d | 0 <= d < |s.cons| && s.cons[d].CRecheck? && s.cons[d].p == p ensures s.cons[d].my < pr.opt {
        assert ConsOk(s, d);
      }
    }
  }

  /** A refused reservation takes its share out of everything that was reckoned with it. */
  lemma RefuseKeepsCounters(s: State, c: nat)
    requires CounterInv(s) && ConsEnabled(s, c) && s.cons[c].CRecheck? && ConsStep(s, c).cons[c].CRefund?
    ensures CounterInv(ConsStep(s, c))
  {
    var s' := ConsStep(s, c);
    var p := s.cons[c].p;
    assert ConsOk(s, c) && CountersOk(s, p);
    SumUpdate(s.cons, c, s'.cons[c], p, s.prods[p].gmy);
    forall q: nat | q < |s'.prods| ensures CountersOk(s', q) {
      if q != p { OtherProducers(s, s', c, p, q); }
    }
    forall d: nat | d < |s'.cons| ensures ConsOk(s', d) {
      assert ConsOk(s, d);
      if d != c { OtherConsumers(s, s', c, p, d); }
    }
  }

  /** Granting to the latest reservation in order moves the limit; any other grant stays within it. */
  lemma GrantKeepsCounters(s: State, c: nat)
    requires CounterInv(s) && ConsEnabled(s, c) && s.cons[c].CRecheck? && !ConsStep(s, c).cons[c].CRefund?
    ensures CounterInv(ConsStep(s, c))
  {
    var s' := ConsStep(s, c);
    var p := s.cons[c].p;
    var my := s.cons[c].my;
    assert ConsOk(s, c) && CountersOk(s, p);
    GrantWithinTail(s, c);
    forall q: nat | q < |s'.prods| ensures CountersOk(s', q) {
      if q != p { OtherProducers(s, s', c, p, q); }
    }
    forall d: nat | d < |s'.cons| ensures ConsOk(s', d) {
      if d != c {
        assert ConsOk(s, d);
        assert s.cons[d].CRecheck? && s.cons[d].p == p ==> s.cons[d].my != my;
        OtherConsumers(s, s', c, p, d);
      }
    }
  }

  lemma GrantWithinTail(s: State, c: nat)
    requires CounterInv(s) && ConsEnabled(s, c) && s.cons[c].CRecheck? && !ConsStep(s, c).cons[c].CRefund?
    ensures CountersOk(ConsStep(s, c), s.cons[c].p) && ConsOk(ConsStep(s, c), c)
  {
    var s' := ConsStep(s, c);
    var p := s.cons[c].p;
    assert ConsOk(s, c) && CountersOk(s, p);
    SumUpdate(s.cons, c, s'.cons[c], p, s.prods[p].gmy);
    SumUpdate(s.cons, c, s'.cons[c], p, s.cons[c].my);
  }

  lemma SettleKeepsCounters(s: State, c: nat)
    requires CounterInv(s) && ConsEnabled(s, c)
    requires s.cons[c].CGiveBack? || s.cons[c].CClaim? || s.cons[c].CRefund?
    ensures CounterInv(ConsStep(s, c))
  {
    var s' := ConsStep(s, c);
    var p := s.cons[c].p;
    assert ConsOk(s, c) && CountersOk(s, p);
    SumUpdate(s.cons, c, s'.cons[c], p, s.prods[p].gmy);
    forall q: nat | q < |s'.prods| ensures CountersOk(s', q) {
      if q != p { OtherProducers(s, s', c, p, q); }
    }
    forall d: nat | d < |s'.cons| ensures ConsOk(s', d) {
      assert ConsOk(s, d);
      if d != c { OtherConsumers(s, s', c, p, d); }
    }
  }

  lemma EnqueueKeepsCounters(s: State, a: Action)
    requires CounterInv(s) && Enabled(s, a) && a.Enqueue?
    ensures CounterInv(Apply(s, a))
  {
    var s' := Apply(s, a);
    forall q: nat | q < |s'.prods| ensures CountersOk(s', q) { assert CountersOk(s, q); }
    forall d: nat | d < |s'.cons| ensures ConsOk(s', d) { assert ConsOk(s, d); }
  }

  lemma ConsKeepsCounters(s: State, c: nat)
    requires CounterInv(s) && ConsEnabled(s, c)
    ensures CounterInv(ConsStep(s, c))
  {
    assert ConsOk(s, c);
    var pc, s' := s.cons[c], ConsStep(s, c);
    if pc.CReserve? {
      ReserveKeepsCounters(s, c);
    } else if pc.CRecheck? {
      if s'.cons[c].CRefund? { RefuseKeepsCounters(s, c); } else { GrantKeepsCounters(s, c); }
    } else if pc.CGiveBack? || pc.CClaim? || pc.CRefund? {
      SettleKeepsCounters(s, c);
    } else {
      QuietStepKeepsCounters(s, s', c, pc.p);
    }
  }

  lemma ActionKeepsCounters(s: State, a: Action)
    requires CounterInv(s) && Enabled(s, a)
    ensures CounterInv(Apply(s, a))
  {
    match a
    case Enqueue(_, _) => EnqueueKeepsCounters(s, a);
    case ProdMove(p, ch) => ProdKeepsCounters(s, p, ch);
    case Dequeue(c, p, max) => QuietStepKeepsCounters(s, Apply(s, a), c, p);
    case ConsMove(c) => ConsKeepsCounters(s, c);
  }

  lemma {:induction false} ReachableCounters(s0: State, run: seq<Action>, s: State)
    requires Reaches(s0, run, s)
    ensures CounterInv(s)
    decreases |run|
  {
    if run == [] {
      InitCounters(s);
    } else {
      var last := |run| - 1;
      var m :| Reaches(s0, run[..last], m) && Enabled(m, run[last]) && s == Apply(m, run[last]);
      ReachableCounters(s0, run[..last], m);
      ActionKeepsCounters(m, run[last]);
    }
  }

  // ---------- what holds of every run ----------

  /** Consumers never overrun: in every reachable state the head, and the head after every claim that is
      already granted, are at most the tail. */
  lemma HeadNeverPassesTail(s0: State, run: seq<Action>, s: State, p: nat, c: nat)
    requires Reaches(s0, run, s) && p < |s.prods| && c < |s.cons|
    ensures s.prods[p].head <= s.prods[p].tail
    ensures s.cons[c].CClaim? && s.cons[c].p == p ==> s.prods[p].head + s.cons[c].a <= s.prods[p].tail
  {
    ReachableCounters(s0, run, s);
    assert CountersOk(s, p);
    CommittedMember(s.cons, c, p, s.prods[p].gmy);
  }

  /** With no dequeue of `p` between its reservation and its settlement, the optimistic count less the
      overcommit is the head: no element is hidden by failed attempts. */
  lemma SettledCountersMeetHead(s0: State, run: seq<Action>, s: State, p: nat)
    requires Reaches(s0, run, s) && p < |s.prods|
    requires forall c :: 0 <= c < |s.cons| ==> Unsettled(s.cons[c], p) == 0
    ensures s.prods[p].opt - s.prods[p].over == s.prods[p].head
  {
    ReachableCounters(s0, run, s);
    assert CountersOk(s, p);
    NothingUnsettled(s.cons, p);
  }

  /** The assertion `overcommit <= myDequeueCount` of both dequeues. */
  lemma OvercommitBelowCount(s0: State, run: seq<Action>, s: State, c: nat)
    requires Reaches(s0, run, s) && c < |s.cons| && s.cons[c].CRecheck?
    ensures s.cons[c].over <= s.cons[c].my
  {
    ReachableCounters(s0, run, s);
    assert ConsOk(s, c);
  }
}
