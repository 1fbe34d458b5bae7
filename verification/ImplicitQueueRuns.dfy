/**
 What every run of the concurrent queue guarantees: delivery exactly once and in order, conservation of
 items, blocks in one place at a time, and dequeues that fail only on an empty sub-queue.
 */
module ImplicitQueueRuns {
  import opened Options
  import opened Slots
  import opened Words
  import opened ImplicitQueue
  import opened ImplicitQueueCalls
  import opened ImplicitQueueCounters
  import opened ImplicitQueueBlocks

  // ---------- the log of deliveries ----------

  /** Indices of producer `p` that were delivered. */
  function Delivered(log: seq<Delivery>, p: nat): set<nat> {
    if log == [] then {}
    else
      var last := log[|log| - 1];
      Delivered(log[..|log| - 1], p) + (if last.p == p then {last.i} else {})
  }

  /** Items of producer `p` that were delivered. */
  function DeliveredItems(log: seq<Delivery>, p: nat): multiset<Item> {
    if log == [] then multiset{}
    else
      var last := log[|log| - 1];
      DeliveredItems(log[..|log| - 1], p) + (if last.p == p then multiset{last.x} else multiset{})
  }

  /** The first index of `p` that consumer `c` has not been delivered and may still be. */
  function Frontier(s: State, c: nat, p: nat): nat
    requires c < |s.cons| && p < |s.prods|
  {
    if Holds(s.cons[c]) && s.cons[c].p == p then HoldOf(s.cons[c]).mid else s.prods[p].head
  }

  ghost predicate EntryInLog(s: State, k: nat)
    requires k < |s.out|
  {
    var d := s.out[k];
    && d.p < |s.prods| && d.c < |s.cons|
    && d.i < |s.prods[d.p].hist| && d.x == s.prods[d.p].hist[d.i] && d.i in s.prods[d.p].taken
    && d.i < |s.prods[d.p].claimer| && s.prods[d.p].claimer[d.i] == d.c
    && d.i < Frontier(s, d.c, d.p)
  }

  ghost predicate LogInv(s: State) {
    && (forall k :: 0 <= k < |s.out| ==> EntryInLog(s, k))
    && (forall j, k :: 0 <= j < k < |s.out| && s.out[j].p == s.out[k].p ==> s.out[j].i != s.out[k].i)
    && (forall j, k :: 0 <= j < k < |s.out| && s.out[j].p == s.out[k].p && s.out[j].c == s.out[k].c
          ==> s.out[j].i < s.out[k].i)
    && (forall p: nat :: p < |s.prods| ==> Delivered(s.out, p) == s.prods[p].taken)
    && (forall p: nat :: p < |s.prods| ==> DeliveredItems(s.out, p) == Select(s.prods[p].hist, s.prods[p].taken))
  }

  /** The items of `h` at the indices in `chosen`. */
  function Select(h: seq<Item>, chosen: set<nat>): multiset<Item> {
    if h == [] then multiset{}
    else Select(h[..|h| - 1], chosen) + (if |h| - 1 in chosen then multiset{h[|h| - 1]} else multiset{})
  }

  lemma {:induction false} SelectAdd(h: seq<Item>, chosen: set<nat>, i: nat)
    requires i !in chosen
    ensures Select(h, chosen + {i}) == Select(h, chosen) + (if i < |h| then multiset{h[i]} else multiset{})
  {
    if h != [] {
      var t, last := h[..|h| - 1], |h| - 1;
      SelectAdd(t, chosen, i);
      if i == last {
        assert Select(h, chosen + {i}) == Select(t, chosen + {i}) + multiset{h[last]};
      } else {
        assert last in chosen + {i} <==> last in chosen;
        if i < |h| { assert t[i] == h[i]; }
      }
    }
  }

  lemma {:induction false} SelectPrefix(h: seq<Item>, chosen: set<nat>, n: nat)
    requires n <= |h| && (forall i: nat :: i < |h| ==> (i in chosen <==> i < n))
    ensures Select(h, chosen) == multiset(h[..n])
  {
    if h == [] {
      assert h[..n] == [];
    } else if n == |h| {
      assert h[..n] == h[..|h| - 1] + [h[|h| - 1]];
      assert h[..|h| - 1][..|h| - 1] == h[..|h| - 1];
      SelectPrefix(h[..|h| - 1], chosen, |h| - 1);
    } else {
      assert h[..|h| - 1][..n] == h[..n];
      SelectPrefix(h[..|h| - 1], chosen, n);
    }
  }

  ghost predicate Inv(s: State) {
    CounterInv(s) && DataInv(s) && LogInv(s)
  }

  lemma OldEntryStays(s: State, c: nat, k: nat)
    requires Inv(s) && ConsEnabled(s, c) && s.cons[c].CMove? && k < |s.out|
    ensures var s' := ConsStep(s, c); k < |s'.out| && s'.out[k] == s.out[k] && EntryInLog(s', k)
  {
    assert EntryInLog(s, k) && HolderOk(s, c);
  }

  lemma NewEntryHolds(s: State, c: nat)
    requires Inv(s) && ConsEnabled(s, c) && s.cons[c].CMove?
    ensures var s' := ConsStep(s, c);
      |s'.out| == |s.out| + 1 && s'.out[|s.out|].p == s.cons[c].p && EntryInLog(s', |s.out|)
  {
    HeldSlot(s, c);
    assert HolderOk(s, c) && ProdOk(s, s.cons[c].p);
  }

  lemma DeliverEntries(s: State, c: nat)
    requires Inv(s) && ConsEnabled(s, c) && s.cons[c].CMove?
    ensures var s' := ConsStep(s, c);
      && |s'.out| == |s.out| + 1 && s'.out[..|s.out|] == s.out && s'.out[|s.out|].p == s.cons[c].p
      && (forall k: nat :: k < |s'.out| ==> EntryInLog(s', k))
  {
    var s' := ConsStep(s, c);
    NewEntryHolds(s, c);
    forall k: nat | k < |s.out| ensures s'.out[k] == s.out[k] && EntryInLog(s', k) {
      OldEntryStays(s, c, k);
    }
  }

  lemma DeliverOnce(s: State, c: nat)
    requires Inv(s) && ConsEnabled(s, c) && s.cons[c].CMove?
    ensures var pc := s.cons[c];
      forall j :: 0 <= j < |s.out| && s.out[j].p == pc.p ==> s.out[j].i != pc.j && (s.out[j].c == c ==> s.out[j].i < pc.j)
  {
    var pc := s.cons[c];
    assert HolderOk(s, c) && ProdOk(s, pc.p);
    forall j | 0 <= j < |s.out| && s.out[j].p == pc.p
      ensures s.out[j].i != pc.j && (s.out[j].c == c ==> s.out[j].i < pc.j)
    {
      assert EntryInLog(s, j);
    }
  }

  lemma LogMore(log: seq<Delivery>, d: Delivery, p: nat)
    ensures Delivered(log + [d], p) == Delivered(log, p) + (if d.p == p then {d.i} else {})
    ensures DeliveredItems(log + [d], p) == DeliveredItems(log, p) + (if d.p == p then multiset{d.x} else multiset{})
  {
    assert (log + [d])[..|log + [d]| - 1] == log;
  }

  /** What was moved out is what was logged, producer by producer. */
  lemma DeliverTotals(s: State, c: nat, p: nat)
    requires Inv(s) && ConsEnabled(s, c) && s.cons[c].CMove? && p < |s.prods|
    ensures var s' := ConsStep(s, c);
      && p < |s'.prods| && Delivered(s'.out, p) == s'.prods[p].taken
      && DeliveredItems(s'.out, p) == Select(s'.prods[p].hist, s'.prods[p].taken)
  {
    var s' := ConsStep(s, c);
    var pc := s.cons[c];
    HeldSlot(s, c);
    assert HolderOk(s, c) && ProdOk(s, pc.p);
    LogMore(s.out, s'.out[|s.out|], p);
    SelectAdd(s.prods[pc.p].hist, s.prods[pc.p].taken, pc.j);
  }

  lemma DeliverKeepsLog(s: State, c: nat)
    requires Inv(s) && ConsEnabled(s, c) && s.cons[c].CMove?
    ensures LogInv(ConsStep(s, c))
  {
    DeliverEntries(s, c);
    DeliverOnce(s, c);
    var s' := ConsStep(s, c);
    forall p: nat | p < |s'.prods|
      ensures Delivered(s'.out, p) == s'.prods[p].taken
           && DeliveredItems(s'.out, p) == Select(s'.prods[p].hist, s'.prods[p].taken)
    {
      DeliverTotals(s, c, p);
    }
  }

  lemma PublishKeepsLog(s: State, s': State, p: nat, x: Item)
    requires Inv(s) && p < |s.prods| && |s'.prods| == |s.prods| && s'.out == s.out && s'.cons == s.cons
    requires s'.prods == s.prods[p := s'.prods[p]]
    requires s'.prods[p].taken == s.prods[p].taken && s'.prods[p].claimer == s.prods[p].claimer
    requires s'.prods[p].head == s.prods[p].head
    requires s'.prods[p].hist == s.prods[p].hist || s'.prods[p].hist == s.prods[p].hist + [x]
    ensures LogInv(s')
  {
    forall k: nat | k < |s'.out| ensures EntryInLog(s', k) { assert EntryInLog(s, k); }
    assert ProdOk(s, p);
    var h := s.prods[p].hist;
    assert (h + [x])[..|h|] == h && |h| !in s.prods[p].taken;
    assert Select(h + [x], s.prods[p].taken) == Select(h, s.prods[p].taken);
  }

  /** Consumer steps other than a delivery move no frontier back. */
  lemma ConsMoveKeepsLog(s: State, s': State, c: nat)
    requires Inv(s) && c < |s.cons| && |s'.cons| == |s.cons| && |s'.prods| == |s.prods| && s'.out == s.out
    requires s'.cons == s.cons[c := s'.cons[c]]
    requires forall p :: 0 <= p < |s.prods| ==>
               && s'.prods[p].taken == s.prods[p].taken && s'.prods[p].hist == s.prods[p].hist
               && s.prods[p].claimer <= s'.prods[p].claimer && s.prods[p].head <= s'.prods[p].head
               && Frontier(s, c, p) <= Frontier(s', c, p)
    ensures LogInv(s')
  {
    forall k: nat | k < |s'.out| ensures EntryInLog(s', k) {
      assert EntryInLog(s, k);
      assert Frontier(s, s.out[k].c, s.out[k].p) <= Frontier(s', s.out[k].c, s.out[k].p);
    }
  }

  lemma ProdStepKeepsLog(s: State, p: nat, ch: Choice)
    requires Inv(s) && ProdEnabled(s, p, ch)
    ensures LogInv(ProdStep(s, p, ch))
  {
    PublishKeepsLog(s, ProdStep(s, p, ch), p, if s.prods[p].pc.PPublish? then s.prods[p].pc.x else 0);
  }

  lemma FrontierAdvances(s: State, c: nat, p: nat)
    requires ConsEnabled(s, c) && EndsBelowHead(s, c) && p < |s.prods|
    ensures Frontier(s, c, p) <= Frontier(ConsStep(s, c), c, p)
  {
  }

  /** What a claim covers ends at or below the head. */
  predicate EndsBelowHead(s: State, c: nat)
    requires c < |s.cons|
  {
    var pc := s.cons[c];
    Holds(pc) ==>
      && pc.p < |s.prods| && HoldOf(pc).mid <= HoldOf(pc).e <= s.prods[pc.p].head
      && (pc.CMove? ==> pc.be <= pc.e)
  }

  lemma ConsStepKeepsLog(s: State, c: nat)
    requires Inv(s) && ConsEnabled(s, c)
    ensures LogInv(ConsStep(s, c))
  {
    if s.cons[c].CMove? {
      DeliverKeepsLog(s, c);
    } else {
      assert HolderOk(s, c) && ProdOk(s, s.cons[c].p);
      assert EndsBelowHead(s, c);
      forall p: nat | p < |s.prods| ensures Frontier(s, c, p) <= Frontier(ConsStep(s, c), c, p) {
        FrontierAdvances(s, c, p);
      }
      StepKeepsRecord(s, c);
      ConsMoveKeepsLog(s, ConsStep(s, c), c);
    }
  }

  lemma StepKeepsRecord(s: State, c: nat)
    requires ConsEnabled(s, c) && !s.cons[c].CMove?
    ensures ConsStep(s, c).out == s.out
    ensures forall p :: 0 <= p < |s.prods| ==>
               && ConsStep(s, c).prods[p].taken == s.prods[p].taken && ConsStep(s, c).prods[p].hist == s.prods[p].hist
               && s.prods[p].claimer <= ConsStep(s, c).prods[p].claimer && s.prods[p].head <= ConsStep(s, c).prods[p].head
  {
  }

  lemma ActionKeepsInv(s: State, a: Action)
    requires Inv(s) && Enabled(s, a)
    ensures Inv(Apply(s, a))
  {
    ActionKeepsCounters(s, a);
    match a
    case Enqueue(p, x) =>
      EnqueueKeepsData(s, p, x);
      PublishKeepsLog(s, Apply(s, a), p, x);
    case ProdMove(p, ch) =>
      ProdStepKeepsData(s, p, ch);
      ProdStepKeepsLog(s, p, ch);
    case Dequeue(c, p, max) =>
      QuietStepKeepsData(s, Apply(s, a), c);
      ConsMoveKeepsLog(s, Apply(s, a), c);
    case ConsMove(c) =>
      ConsStepKeepsData(s, c);
      ConsStepKeepsLog(s, c);
  }

  lemma {:induction false} ReachableInv(s0: State, run: seq<Action>, s: State)
    requires Reaches(s0, run, s)
    ensures Inv(s)
    decreases |run|
  {
    if run == [] {
      InitCounters(s);
      InitData(s);
    } else {
      var last := |run| - 1;
      var m :| Reaches(s0, run[..last], m) && Enabled(m, run[last]) && s == Apply(m, run[last]);
      ReachableInv(s0, run[..last], m);
      ActionKeepsInv(m, run[last]);
    }
  }

  // ---------- delivery ----------

  /** Every delivery hands over the argument of the call that was accepted with the delivered index, to the one
      consumer that claimed the index, and no index of a producer is ever delivered twice. */
  lemma DeliveredOnce(s0: State, run: seq<Action>, s: State, k: nat)
    requires Reaches(s0, run, s) && k < |s.out|
    ensures var d := s.out[k]; var calls := AcceptedCalls(s0, run, d.p);
      && d.p < |s.prods| && d.i < s.prods[d.p].head == |s.prods[d.p].claimer| <= |calls|
      && calls[d.i].at < |run| && run[calls[d.i].at] == Enqueue(d.p, d.x)
      && s.prods[d.p].claimer[d.i] == d.c
    ensures forall j :: 0 <= j < k && s.out[j].p == s.out[k].p ==> s.out[j].i != s.out[k].i
  {
    ReachableInv(s0, run, s);
    var d := s.out[k];
    assert EntryInLog(s, k) && ProdOk(s, d.p);
    HistoryIsAccepted(s0, run, s, d.p);
    assert IsCall(run, d.p, AcceptedCalls(s0, run, d.p)[d.i]);
  }

  /** Each consumer receives the items of a producer in the order they were enqueued. */
  lemma DeliveredInOrder(s0: State, run: seq<Action>, s: State, j: nat, k: nat)
    requires Reaches(s0, run, s) && j < k < |s.out| && s.out[j].p == s.out[k].p && s.out[j].c == s.out[k].c
    ensures var calls := AcceptedCalls(s0, run, s.out[k].p);
      s.out[j].i < s.out[k].i < |calls| && calls[s.out[j].i].at < calls[s.out[k].i].at
  {
    ReachableInv(s0, run, s);
    DeliveredOnce(s0, run, s, k);
    HistoryIsAccepted(s0, run, s, s.out[k].p);
  }

  /** Claims are handed out in the order of enqueueing: a claim covers exactly the next indices. */
  lemma ClaimsFollowEnqueueOrder(s0: State, run: seq<Action>, s: State, c: nat)
    requires Reaches(s0, run, s) && ConsEnabled(s, c) && s.cons[c].CClaim?
    ensures var p := s.cons[c].p;
            var s' := ConsStep(s, c);
      && s'.cons[c].CEntry? && s'.cons[c].p == p
      && s'.cons[c].i == s.prods[p].head == |s.prods[p].claimer| && s'.cons[c].e == s'.prods[p].head <= |s.prods[p].hist|
      && s'.prods[p].claimer[..s'.cons[c].i] == s.prods[p].claimer
      && forall i :: s'.cons[c].i <= i < s'.cons[c].e ==> s'.prods[p].claimer[i] == c
  {
    ReachableInv(s0, run, s);
    var p := s.cons[c].p;
    assert ProdOk(s, p) && CountersOk(s, p);
    CommittedMember(s.cons, c, p, s.prods[p].gmy);
  }

  /** Conservation, when no consumer is inside a claim on `p`: what was delivered from `p` together with
      what is left between head and tail is exactly what was accepted from `p`. */
  lemma ItemsConserved(s0: State, run: seq<Action>, s: State, p: nat)
    requires Reaches(s0, run, s) && p < |s.prods|
    requires forall c :: 0 <= c < |s.cons| && Holds(s.cons[c]) ==> s.cons[c].p != p
    ensures s.prods[p].head <= |Accepted(s0, run, p)| == s.prods[p].tail
    ensures DeliveredItems(s.out, p) + multiset(Accepted(s0, run, p)[s.prods[p].head..]) == multiset(Accepted(s0, run, p))
  {
    ReachableInv(s0, run, s);
    HistoryIsAccepted(s0, run, s, p);
    TakenUpToHead(s, p);
    var pr := s.prods[p];
    SelectPrefix(pr.hist, pr.taken, pr.head);
    TwoParts(pr.hist, pr.head);
  }

  lemma {:induction false} SelectAgree(h: seq<Item>, a: set<nat>, b: set<nat>)
    requires forall i: nat :: i < |h| ==> (i in a <==> i in b)
    ensures Select(h, a) == Select(h, b)
    decreases |h|
  {
    if h != [] { SelectAgree(h[..|h| - 1], a, b); }
  }

  /** The indices below `n` that are not in `chosen`. */
  function Others(chosen: set<nat>, n: nat): set<nat> {
    set i: nat | i < n && i !in chosen
  }

  lemma OtherOf(chosen: set<nat>, n: nat)
    ensures n in Others(chosen, n + 1) <==> n !in chosen
    ensures forall i: nat :: i < n ==> (i in Others(chosen, n + 1) <==> i in Others(chosen, n))
  {
  }

  lemma SelectLast(t: seq<Item>, x: Item, chosen: set<nat>)
    ensures Select(t + [x], chosen) == Select(t, chosen) + (if |t| in chosen then multiset{x} else multiset{})
  {
    assert (t + [x])[..|t|] == t;
  }

  lemma {:induction false} SelectSplit(h: seq<Item>, chosen: set<nat>)
    ensures Select(h, chosen) + Select(h, Others(chosen, |h|)) == multiset(h)
    decreases |h|
  {
    if h != [] {
      var t, x := h[..|h| - 1], h[|h| - 1];
      assert h == t + [x];
      SelectSplit(t, chosen);
      OtherOf(chosen, |t|);
      SelectAgree(t, Others(chosen, |h|), Others(chosen, |t|));
      SelectLast(t, x, chosen);
      SelectLast(t, x, Others(chosen, |h|));
    }
  }

  /** What stands in the slot of index `i`: in its block, if its entry of the index still has one. */
  function StoredAt(s: State, p: nat, i: nat): Option<Item>
    requires p < |s.prods| && Shaped(s)
  {
    var pr := s.prods[p];
    if i / BLOCK_SIZE < |pr.index| && pr.index[i / BLOCK_SIZE].Some? && pr.index[i / BLOCK_SIZE].value < |s.blocks|
    then s.blocks[pr.index[i / BLOCK_SIZE].value].slots[i % BLOCK_SIZE]
    else None
  }

  /** The published indices whose slots hold an element. */
  function Standing(s: State, p: nat): set<nat>
    requires p < |s.prods| && Shaped(s)
  {
    set i: nat | i < s.prods[p].tail && StoredAt(s, p, i).Some?
  }

  /** The slot of an index holds its item until that is moved out. */
  lemma StoredIsItem(s: State, p: nat, i: nat)
    requires DataInv(s) && p < |s.prods| && i < s.prods[p].tail
    ensures i < |s.prods[p].hist|
    ensures StoredAt(s, p, i) == if i in s.prods[p].taken then None else Some(s.prods[p].hist[i])
  {
    var pr, n := s.prods[p], i / BLOCK_SIZE;
    assert ProdOk(s, p) && n < |pr.index| && i in RangeOf(n);
    assert EntryOk(s, p, n);
    if pr.index[n].Some? {
      assert BlockOk(s, pr.index[n].value);
      assert s.blocks[pr.index[n].value].slots[i % BLOCK_SIZE] == Expected(pr, n * BLOCK_SIZE + i % BLOCK_SIZE);
    }
  }

  lemma StandingAreOthers(s: State, p: nat)
    requires DataInv(s) && p < |s.prods|
    ensures |s.prods[p].hist| == s.prods[p].tail && Standing(s, p) == Others(s.prods[p].taken, s.prods[p].tail)
  {
    assert ProdOk(s, p);
    forall i: nat | i < s.prods[p].tail ensures StoredAt(s, p, i).Some? <==> i !in s.prods[p].taken { StoredIsItem(s, p, i); }
  }

  /** Conservation at every moment of every run: the items delivered from `p`, and those that stand in the slots of
      its blocks, are exactly the items accepted; each stands in the slot of its own index. */
  lemma EveryItemAccountedFor(s0: State, run: seq<Action>, s: State, p: nat)
    requires Reaches(s0, run, s) && p < |s.prods|
    ensures Shaped(s)
    ensures var items := Accepted(s0, run, p);
      && DeliveredItems(s.out, p) + Select(items, Standing(s, p)) == multiset(items)
      && forall i: nat :: i in Standing(s, p) ==> i < |items| && StoredAt(s, p, i) == Some(items[i])
  {
    ReachableInv(s0, run, s);
    HistoryIsAccepted(s0, run, s, p);
    StandingAreOthers(s, p);
    SelectSplit(s.prods[p].hist, s.prods[p].taken);
    forall i: nat | i in Standing(s, p) ensures i < |s.prods[p].hist| && StoredAt(s, p, i) == Some(s.prods[p].hist[i]) {
      StoredIsItem(s, p, i);
    }
  }

  lemma TwoParts(xs: seq<Item>, n: nat)
    requires n <= |xs|
    ensures multiset(xs[..n]) + multiset(xs[n..]) == multiset(xs)
  {
    assert xs == xs[..n] + xs[n..];
  }

  /** Outside any claim on `p`, the indices taken are those below its head. */
  lemma TakenUpToHead(s: State, p: nat)
    requires Inv(s) && p < |s.prods|
    requires forall c :: 0 <= c < |s.cons| && Holds(s.cons[c]) ==> s.cons[c].p != p
    ensures s.prods[p].head <= |s.prods[p].hist| == s.prods[p].tail
    ensures forall i: nat :: i < |s.prods[p].hist| ==> (i in s.prods[p].taken <==> i < s.prods[p].head)
    ensures DeliveredItems(s.out, p) == Select(s.prods[p].hist, s.prods[p].taken)
  {
    var pr := s.prods[p];
    assert ProdOk(s, p);
    forall i: nat | i < |pr.hist| ensures i in pr.taken <==> i < pr.head {
      if i < pr.head {
        assert ClaimOk(s, p, i);
        assert !InHold(s.cons[pr.claimer[i]], p, i);
      }
    }
  }

  // ---------- blocks ----------

  /** Where a block can be: in the part of the initial pool not yet given out, in the free list, with a producer
      that took it from there and has not installed it, in an entry of a producer's index, or with a consumer that
      took it out of its entry and has not added it to the free list. */
  datatype Place = Pool | FreeList | Taker(p: nat) | Entry(p: nat, n: nat) | Releaser(c: nat)

  predicate IsAt(s: State, b: nat, place: Place)
    requires b < |s.blocks|
  {
    match place
    case Pool => s.poolNext <= b < s.poolSize
    case FreeList => s.blocks[b].loc.Free?
    case Taker(p) => p < |s.prods| && (s.prods[p].pc.PReset? || s.prods[p].pc.PInstall?) && s.prods[p].pc.b == b
    case Entry(p, n) => p < |s.prods| && BlockAt(s.prods[p], n, b)
    case Releaser(c) => c < |s.cons| && s.cons[c].CFree? && s.cons[c].b == b
  }

  function PlaceOf(loc: Loc): Place {
    match loc
    case InPool => Pool
    case Free => FreeList
    case Handed(p) => Taker(p)
    case Owned(p, n) => Entry(p, n)
    case Closing(p, n, _) => Entry(p, n)
    case Releasing(c) => Releaser(c)
  }

  lemma IsSomewhere(s: State, b: nat)
    requires DataInv(s) && b < |s.blocks|
    ensures IsAt(s, b, PlaceOf(s.blocks[b].loc))
  {
    assert BlockOk(s, b);
  }

  lemma IsNowhereElse(s: State, b: nat, place: Place)
    requires DataInv(s) && b < |s.blocks| && IsAt(s, b, place)
    ensures place == PlaceOf(s.blocks[b].loc)
  {
    match place
    case Pool => assert s.blocks[b].loc.InPool?;
    case FreeList =>
    case Taker(p) => assert ProdOk(s, p);
    case Entry(p, n) => assert EntryOk(s, p, n);
    case Releaser(c) => assert HolderOk(s, c);
  }

  /** The blocks are partitioned: at every moment every block, of the initial pool or allocated later, is in
      exactly one place. None is lost, none is in two entries or in an entry and in a pool. */
  lemma OnePlace(s0: State, run: seq<Action>, s: State, b: nat) returns (place: Place)
    requires Reaches(s0, run, s) && b < |s.blocks|
    ensures forall q: Place :: IsAt(s, b, q) <==> q == place
  {
    ReachableInv(s0, run, s);
    place := PlaceOf(s.blocks[b].loc);
    IsSomewhere(s, b);
    forall q: Place | IsAt(s, b, q) ensures q == place {
      IsNowhereElse(s, b, q);
    }
  }

  /** A block is released by one consumer only: the one whose retirement completed its count. */
  lemma OneReleaser(s0: State, run: seq<Action>, s: State, c: nat, d: nat)
    requires Reaches(s0, run, s) && c < |s.cons| && d < |s.cons| && c != d
    requires (s.cons[c].CUnlink? || s.cons[c].CFree?) && (s.cons[d].CUnlink? || s.cons[d].CFree?)
    ensures s.cons[c].b != s.cons[d].b
  {
    ReachableInv(s0, run, s);
    assert HolderOk(s, c) && HolderOk(s, d);
  }

  /** A released block has no element left in it and no claimed index still to be retired. */
  lemma ReleasedBlockIsDone(s0: State, run: seq<Action>, s: State, c: nat)
    requires Reaches(s0, run, s) && c < |s.cons| && s.cons[c].CUnlink?
    ensures var pc := s.cons[c];
      && pc.b < |s.blocks| && s.blocks[pc.b].slots == EmptySlots() && pc.p < |s.prods|
      && RangeOf(pc.n) <= s.prods[pc.p].retired
      && forall d, i :: 0 <= d < |s.cons| && i in RangeOf(pc.n) ==> !InHold(s.cons[d], pc.p, i)
  {
    ReachableInv(s0, run, s);
    var pc := s.cons[c];
    assert HolderOk(s, c) && BlockOk(s, pc.b);
    FullCountIsWholeRange(s.prods[pc.p].retired, pc.n);
    ConsumerNeverStuck(s, c);
    ClosedBlockIsBare(s, c);
    forall d, i | 0 <= d < |s.cons| && i in RangeOf(pc.n) ensures !InHold(s.cons[d], pc.p, i) {
      assert HolderOk(s, d);
    }
  }

  // ---------- progress ----------

  /** In every reachable state every operation under way can take its next step: no null block is
      dereferenced, no empty slot moved out, no full slot overwritten. */
  lemma NobodyIsStuck(s0: State, run: seq<Action>, s: State)
    requires Reaches(s0, run, s)
    ensures forall c :: 0 <= c < |s.cons| && !s.cons[c].CIdle? ==> ConsEnabled(s, c)
    ensures forall p :: 0 <= p < |s.prods| && !s.prods[p].pc.PIdle? ==> ProdEnabled(s, p, Fails)
    ensures forall p :: 0 <= p < |s.prods| && s.prods[p].pc.PWrite? ==>
              && s.prods[p].tailBlock.Some? && s.prods[p].tailBlock.value < |s.blocks|
              && |s.blocks[s.prods[p].tailBlock.value].slots| == BLOCK_SIZE
              && s.blocks[s.prods[p].tailBlock.value].slots[s.prods[p].tail % BLOCK_SIZE] == None
  {
    ReachableInv(s0, run, s);
    forall c: nat | c < |s.cons| && !s.cons[c].CIdle? ensures ConsEnabled(s, c) { ConsumerNeverStuck(s, c); }
    forall p: nat | p < |s.prods| && !s.prods[p].pc.PIdle?
      ensures ProdEnabled(s, p, Fails)
      ensures s.prods[p].pc.PWrite? ==>
                s.blocks[s.prods[p].tailBlock.value].slots[s.prods[p].tail % BLOCK_SIZE] == None
    {
      assert ProdOk(s, p);
      if s.prods[p].pc.PWrite? {
        TailBlockIsOwned(s, p);
        WriteKeepsData(s, p, Fails);
      }
    }
  }

  /** How many steps of its own a consumer still needs, at most. */
  function Work(pc: ConsPC): nat {
    match pc
    case CIdle => 0
    case CTail(_, max) => 5 * max + 7
    case COver(_, max, _) => 5 * max + 6
    case COpt(_, max, _, _) => 5 * max + 5
    case CReserve(_, _, k) => 5 * k + 4
    case CRecheck(_, _, k, _) => 5 * k + 3
    case CGiveBack(_, k, _) => 5 * k + 2
    case CClaim(_, a) => 5 * a + 1
    case CRefund(_, _) => 1
    case CEntry(_, i, e) => if i < e then 5 * (e - i) else 0
    case CMove(_, _, j, be, e, _) => if j <= be <= e then be - j + 3 + 5 * (e - be) else 0
    case CEmpty(_, _, be, e, _) => if be <= e then 3 + 5 * (e - be) else 0
    case CUnlink(_, _, be, e, _) => if be <= e then 2 + 5 * (e - be) else 0
    case CFree(_, be, e, _) => if be <= e then 1 + 5 * (e - be) else 0
  }

  lemma StepReducesWork(s: State, c: nat)
    requires ConsEnabled(s, c) && Sane(s.cons[c])
    requires s.cons[c].CEntry? ==> s.cons[c].i < s.cons[c].e
    requires s.cons[c].CMove? ==> s.cons[c].j < s.cons[c].be <= s.cons[c].e
    requires s.cons[c].CEmpty? || s.cons[c].CUnlink? || s.cons[c].CFree? ==> s.cons[c].be <= s.cons[c].e
    ensures Work(ConsStep(s, c).cons[c]) < Work(s.cons[c])
  {
    if s.cons[c].CEntry? {
      var pc := s.cons[c];
      assert pc.i < Min(BlockEnd(pc.i), pc.e) <= pc.e;
    }
  }

  /** Dequeues are wait-free: whatever the others do, each own step brings a consumer closer to its return,
      and what others do cannot push it back. */
  lemma DequeueIsWaitFree(s0: State, run: seq<Action>, s: State, c: nat)
    requires Reaches(s0, run, s) && c < |s.cons| && !s.cons[c].CIdle?
    ensures ConsEnabled(s, c) && Work(ConsStep(s, c).cons[c]) < Work(s.cons[c])
  {
    ReachableInv(s0, run, s);
    ConsumerNeverStuck(s, c);
    assert HolderOk(s, c) && ConsOk(s, c);
    StepReducesWork(s, c);
  }

  // ---------- words ----------

  /** The fullness test keeps tail and head within half a turn of each other forever, so on these words the
      comparison is the order of the counters, and the test refuses exactly when a new block would reach
      half a turn. */
  lemma ProducerStaysInWindow(s0: State, run: seq<Action>, s: State, p: nat)
    requires Reaches(s0, run, s) && p < |s.prods|
    ensures var pr := s.prods[p];
      && 0 <= pr.tail - pr.head < HALF
      && (CircularLessThan(pr.head % WORD, pr.tail % WORD) <==> pr.head < pr.tail)
      && !CircularLessThan(pr.tail % WORD, pr.head % WORD)
      && (Full(pr.head, pr.tail) <==> pr.tail + BLOCK_SIZE - pr.head >= HALF)
  {
    ReachableInv(s0, run, s);
    var pr := s.prods[p];
    assert ProdOk(s, p);
    CheckIsExact(pr.head, pr.tail);
    CircularLessThanIsOrder(pr.head, pr.tail);
    CircularLessThanIsOrder(pr.tail, pr.head);
  }
}
