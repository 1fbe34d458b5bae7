/**
 The consumers' comparisons and `size_approx` (ext/MoodyCamel/concurrentqueue.h, lines 1653-1658, 2466-2475 and
 2688-2697), which the code makes on words of the counters, against the order of the counters.
 */
module ImplicitQueueWords {
  import opened Words
  import opened ImplicitQueue
  import opened ImplicitQueueCounters
  import opened ImplicitQueueBlocks
  import opened ImplicitQueueRuns

  /** `circular_less_than(x, tail)`, as dequeue asks it. */
  predicate Less(x: int, tail: int) {
    CircularLessThan(x % WORD, tail % WORD)
  }

  /** `circular_less_than(0, tail - x)`, as dequeue_bulk asks it. */
  predicate Some0(x: int, tail: int) {
    CircularLessThan(0, (tail - x) % WORD)
  }

  lemma Congruent(x: int, y: int)
    ensures (x % WORD - y % WORD) % WORD == (x - y) % WORD
  {
    ModSub(x, y);
  }

  /** Both forms ask the same, and the answer depends on the difference alone. */
  lemma SameTest(x: int, tail: int)
    ensures Less(x, tail) <==> 0 < (tail - x) % WORD < HALF
    ensures Some0(x, tail) <==> 0 < (tail - x) % WORD < HALF
  {
    Congruent(x, tail);
    ModNeg(tail - x);
    assert (x - tail) % WORD == (-(tail - x)) % WORD;
  }

  /** Exactly when the answer is the order of the counters, whatever they are. */
  lemma TestRightExactly(x: int, tail: int)
    ensures (Less(x, tail) <==> x < tail) <==> RightFor(x, tail)
    ensures (Some0(x, tail) <==> x < tail) <==> RightFor(x, tail)
  {
    SameTest(x, tail);
    ModNeg(tail - x);
  }

  /** `x` is ahead of the tail by at most half a turn, whole turns not counted, or behind it by less. */
  predicate RightFor(x: int, tail: int) {
    if x < tail then 0 < (tail - x) % WORD < HALF else (x - tail) % WORD <= HALF
  }

  lemma BelowHalf(x: int, tail: int)
    requires tail - x < HALF
    ensures RightFor(x, tail) <==> x < tail || (x - tail) % WORD <= HALF
  {
    if x < tail { ModSmall(tail - x); }
  }

  // ---------- the tail a consumer has loaded ----------

  /** Consumers know tails that were true: at most what the tail is now. */
  predicate SeenOk(s: State, c: nat)
    requires c < |s.cons|
  {
    var pc := s.cons[c];
    pc.COver? || pc.COpt? ==> pc.p < |s.prods| && pc.tail <= s.prods[pc.p].tail
  }

  ghost predicate AllSeenOk(s: State) {
    forall c :: 0 <= c < |s.cons| ==> SeenOk(s, c)
  }

  /** Producers stay, and no tail goes back. */
  ghost predicate TailsGrow(s: State, t: State) {
    |t.prods| == |s.prods| && forall p :: 0 <= p < |s.prods| ==> s.prods[p].tail <= t.prods[p].tail
  }

  lemma StepGrows(s: State, a: Action)
    requires Enabled(s, a)
    ensures TailsGrow(s, Apply(s, a))
  {
  }

  /** The step of a consumer that loads a tail, or keeps it. */
  lemma OwnLoads(s: State, c: nat)
    requires ConsEnabled(s, c) && SeenOk(s, c)
    ensures c < |ConsStep(s, c).cons| && SeenOk(ConsStep(s, c), c)
  {
  }

  lemma OthersKept(s: State, a: Action, c: nat)
    requires Enabled(s, a) && c < |s.cons| && (a.ConsMove? || a.Dequeue? ==> a.c != c)
    ensures c < |Apply(s, a).cons| && Apply(s, a).cons[c] == s.cons[c]
  {
  }

  lemma SameCount(s: State, a: Action)
    requires Enabled(s, a)
    ensures |Apply(s, a).cons| == |s.cons|
  {
  }

  lemma StepLoads(s: State, a: Action, c: nat)
    requires Enabled(s, a) && AllSeenOk(s) && c < |Apply(s, a).cons|
    ensures SeenOk(Apply(s, a), c)
  {
    StepGrows(s, a);
    SameCount(s, a);
    assert SeenOk(s, c);
    if a.ConsMove? && a.c == c {
      OwnLoads(s, c);
    } else if !a.Dequeue? || a.c != c {
      OthersKept(s, a, c);
    }
  }

  lemma {:induction false} ReachableSeen(s0: State, run: seq<Action>, s: State)
    requires Reaches(s0, run, s)
    ensures AllSeenOk(s)
    decreases |run|
  {
    if run != [] {
      var last := |run| - 1;
      var m :| Reaches(s0, run[..last], m) && Enabled(m, run[last]) && s == Apply(m, run[last]);
      ReachableSeen(s0, run[..last], m);
      forall c | 0 <= c < |s.cons| ensures SeenOk(s, c) { StepLoads(m, run[last], c); }
    }
  }

  // ---------- what follows ----------

  lemma {:induction false} UnsettledNotNegative(cons: seq<ConsPC>, p: nat)
    requires forall c :: 0 <= c < |cons| ==> Sane(cons[c])
    ensures SumUnsettled(cons, p) >= 0
    decreases |cons|
  {
    if cons != [] {
      assert forall c :: 0 <= c < |cons[1..]| ==> cons[1..][c] == cons[c + 1];
      UnsettledNotNegative(cons[1..], p);
    }
  }

  lemma AllSane(s: State)
    requires CounterInv(s)
    ensures forall d :: 0 <= d < |s.cons| ==> Sane(s.cons[d])
  {
    forall d | 0 <= d < |s.cons| ensures Sane(s.cons[d]) { assert ImplicitQueueCounters.ConsOk(s, d); }
  }

  lemma ReservedAhead(s: State, c: nat)
    requires CounterInv(s) && c < |s.cons| && s.cons[c].COpt? && s.cons[c].p < |s.prods|
    ensures var pr := s.prods[s.cons[c].p]; pr.head <= pr.opt - s.cons[c].over
  {
    assert ImplicitQueueCounters.ConsOk(s, c) && CountersOk(s, s.cons[c].p);
    AllSane(s);
    UnsettledNotNegative(s.cons, s.cons[c].p);
  }

  lemma ClaimAhead(s: State, c: nat)
    requires CounterInv(s) && c < |s.cons| && s.cons[c].CRecheck? && s.cons[c].p < |s.prods|
    requires s.cons[c].my > s.prods[s.cons[c].p].gmy
    ensures s.prods[s.cons[c].p].head <= s.cons[c].my - s.cons[c].over
  {
    assert ImplicitQueueCounters.ConsOk(s, c);
    AllSane(s);
    CommittedNotNegative(s.cons, s.cons[c].p, s.cons[c].my);
  }

  /** The elements of a producer are fewer than half a turn, and its items are those up to the tail. */
  lemma Within(s0: State, run: seq<Action>, s: State, p: nat)
    requires Reaches(s0, run, s) && p < |s.prods|
    ensures s.prods[p].tail - s.prods[p].head < HALF && |s.prods[p].hist| == s.prods[p].tail >= s.prods[p].head
  {
    ReachableInv(s0, run, s);
    assert ProdOk(s, p);
  }

  lemma FirstBound(s0: State, run: seq<Action>, s: State, c: nat)
    requires Reaches(s0, run, s) && c < |s.cons| && s.cons[c].COpt? && s.cons[c].p < |s.prods|
    ensures s.cons[c].tail - (s.prods[s.cons[c].p].opt - s.cons[c].over) < HALF
  {
    ReachableCounters(s0, run, s);
    ReservedAhead(s, c);
    ReachableSeen(s0, run, s);
    assert SeenOk(s, c);
    Within(s0, run, s, s.cons[c].p);
  }

  lemma SecondBound(s0: State, run: seq<Action>, s: State, c: nat)
    requires Reaches(s0, run, s) && c < |s.cons| && s.cons[c].CRecheck? && s.cons[c].p < |s.prods|
    requires s.cons[c].my > s.prods[s.cons[c].p].gmy
    ensures s.prods[s.cons[c].p].tail - (s.cons[c].my - s.cons[c].over) < HALF
  {
    ReachableCounters(s0, run, s);
    ClaimAhead(s, c);
    Within(s0, run, s, s.cons[c].p);
  }

  /** The first comparison of a dequeue, single or bulk, is the order of the counters exactly if the reservations made
      meanwhile are not ahead of the loaded tail or, whole turns not counted, at most half a turn ahead of it. */
  lemma FirstTestRightExactly(s0: State, run: seq<Action>, s: State, c: nat) returns (x: int, tail: int)
    requires Reaches(s0, run, s) && c < |s.cons| && s.cons[c].COpt? && s.cons[c].p < |s.prods|
    ensures x == s.prods[s.cons[c].p].opt - s.cons[c].over && tail == s.cons[c].tail
    ensures (Less(x, tail) <==> x < tail) <==> x < tail || (x - tail) % WORD <= HALF
    ensures (Some0(x, tail) <==> x < tail) <==> x < tail || (x - tail) % WORD <= HALF
  {
    FirstBound(s0, run, s, c);
    x, tail := s.prods[s.cons[c].p].opt - s.cons[c].over, s.cons[c].tail;
    TestRightExactly(x, tail);
    BelowHalf(x, tail);
  }

  /** The second comparison, after the reservation, for any reservation; one that is newer than all that were granted
      is never half a turn behind the tail, so that for it the condition is the same as for the first. */
  lemma SecondTestRightExactly(s0: State, run: seq<Action>, s: State, c: nat) returns (x: int, tail: int)
    requires Reaches(s0, run, s) && c < |s.cons| && s.cons[c].CRecheck? && s.cons[c].p < |s.prods|
    ensures x == s.cons[c].my - s.cons[c].over && tail == s.prods[s.cons[c].p].tail
    ensures (Less(x, tail) <==> x < tail) <==> RightFor(x, tail)
    ensures (Some0(x, tail) <==> x < tail) <==> RightFor(x, tail)
    ensures s.cons[c].my > s.prods[s.cons[c].p].gmy ==> (RightFor(x, tail) <==> x < tail || (x - tail) % WORD <= HALF)
  {
    x, tail := s.cons[c].my - s.cons[c].over, s.prods[s.cons[c].p].tail;
    TestRightExactly(x, tail);
    if s.cons[c].my > s.prods[s.cons[c].p].gmy {
      SecondBound(s0, run, s, c);
      BelowHalf(x, tail);
    }
  }

  /** With no dequeue of `p` in flight both comparisons are right, and the words give the number of elements: so what
      an undisturbed dequeue does (LoneDequeue) it also does on words. */
  lemma LoneTestsRight(s0: State, run: seq<Action>, s: State, p: nat)
    requires Reaches(s0, run, s) && p < |s.prods|
    requires forall c :: 0 <= c < |s.cons| ==> Unsettled(s.cons[c], p) == 0
    ensures s.prods[p].opt - s.prods[p].over == s.prods[p].head
    ensures WordsAgree(s.prods[p].head, s.prods[p].tail)
  {
    SettledCountersMeetHead(s0, run, s, p);
    Within(s0, run, s, p);
    RightWithin(s.prods[p].head, s.prods[p].tail);
  }

  /** Both comparisons and the difference are the same on words. */
  predicate WordsAgree(x: int, tail: int) {
    (Less(x, tail) <==> x < tail) && (Some0(x, tail) <==> x < tail) && (tail - x) % WORD == tail - x
  }

  lemma RightWithin(head: int, tail: int)
    requires 0 <= tail - head < HALF
    ensures WordsAgree(head, tail)
  {
    SameTest(head, tail);
    ModSmall(tail - head);
  }

  lemma {:induction false} CommittedNotNegative(cons: seq<ConsPC>, p: nat, x: int)
    requires forall c :: 0 <= c < |cons| ==> Sane(cons[c])
    ensures SumCommitted(cons, p, x) >= 0
    decreases |cons|
  {
    if cons != [] {
      assert forall c :: 0 <= c < |cons[1..]| ==> cons[1..][c] == cons[c + 1];
      CommittedNotNegative(cons[1..], p, x);
    }
  }

  // ---------- size_approx ----------

  /** On the words of a tail and a head. */
  function SizeApprox(tail: int, head: int): int {
    if CircularLessThan(head % WORD, tail % WORD) then (tail % WORD - head % WORD) % WORD else 0
  }

  lemma SizeOf(tail: int, head: int)
    requires tail - head < HALF
    ensures SizeApprox(tail, head) == (if head < tail then tail - head else 0)
            <==> head < tail || (head - tail) % WORD <= HALF
  {
    SameTest(head, tail);
    ModNeg(tail - head);
    Congruent(tail, head);
    if head < tail { ModSmall(tail - head); }
  }

  lemma SizeTogether(tail: int, head: int)
    requires 0 <= tail - head < HALF
    ensures SizeApprox(tail, head) == tail - head
  {
    SizeOf(tail, head);
  }

  /** With a tail that was loaded some time before the head, the size is that tail less the head, or 0 once the head
      has passed it, exactly if the head is not past it or, whole turns not counted, at most half a turn past it.
      Loaded together they give the number of elements. */
  lemma SizeApproxIs(s0: State, run: seq<Action>, s: State, p: nat, tail: nat)
    requires Reaches(s0, run, s) && p < |s.prods| && tail <= s.prods[p].tail
    ensures var head := s.prods[p].head;
      SizeApprox(tail, head) == (if head < tail then tail - head else 0) <==> head < tail || (head - tail) % WORD <= HALF
    ensures SizeApprox(s.prods[p].tail, s.prods[p].head) == |s.prods[p].hist| - s.prods[p].head
  {
    Within(s0, run, s, p);
    SizeOf(tail, s.prods[p].head);
    SizeTogether(s.prods[p].tail, s.prods[p].head);
  }
}
