/**
 Calls on the concurrent queue that nobody disturbs: an enqueue inside the window and with memory adds exactly its item,
 a dequeue fails only on an empty sub-queue and otherwise delivers the oldest items.
 */
module ImplicitQueueAlone {
  import opened Options
  import opened Slots
  import opened Words
  import opened ImplicitQueue
  import opened ImplicitQueueCalls
  import opened ImplicitQueueCounters
  import opened ImplicitQueueBlocks
  import opened ImplicitQueueRuns

  // ---------- enqueue ----------

  /** How far the producer is from having written its element. */
  function ToWrite(pc: ProdPC): nat {
    match pc
    case PCheck(_) => 8
    case PPoolLoad(_) => 7
    case PPoolTake(_) => 6
    case PFree(_) => 5
    case PCreate(_) => 4
    case PReset(_, _) => 3
    case PInstall(_, _) => 2
    case PWrite(_) => 1
    case _ => 0
  }

  /** Steps of producer `p` with memory available, nobody else moving: the block index takes the new entry, allocation
      works if it is tried. */
  ghost predicate Produces(s: State, p: nat, more: seq<Choice>, s': State)
    decreases |more|
  {
    if more == [] then s' == s
    else
      && ProdEnabled(s, p, more[0]) && (more[0].Fails? ==> !s.prods[p].pc.PCheck? && !s.prods[p].pc.PCreate?)
      && Produces(ProdStep(s, p, more[0]), p, more[1..], s')
  }

  /** Inside a call that will be accepted. */
  predicate Accepting(pr: Prod, x: Item) {
    !pr.pc.PIdle? && ItemOf(pr.pc) == x && (pr.pc.PCheck? ==> !Full(pr.head, pr.tail))
  }

  lemma ProdStepGoesOn(s: State, p: nat, ch: Choice, x: Item)
    requires ProdEnabled(s, p, ch) && Accepting(s.prods[p], x) && !s.prods[p].pc.PPublish?
    requires ch.Fails? ==> !s.prods[p].pc.PCheck? && !s.prods[p].pc.PCreate?
    ensures var pr, pr' := s.prods[p], ProdStep(s, p, ch).prods[p];
      Accepting(pr', x) && ToWrite(pr'.pc) < ToWrite(pr.pc) && pr'.head == pr.head && pr'.tail == pr.tail
  {
  }

  /** What the producer's steps leave as it is: everything of other producers, the consumers, what was delivered. */
  predicate OnlyProducer(s: State, s': State, p: nat) {
    && p < |s.prods| == |s'.prods| && s'.prods == s.prods[p := s'.prods[p]] && s'.cons == s.cons && s'.out == s.out
    && s'.prods[p].head == s.prods[p].head
  }

  lemma ProdStepKeepsHead(s: State, p: nat, ch: Choice)
    requires ProdEnabled(s, p, ch)
    ensures ProdStep(s, p, ch).prods[p].head == s.prods[p].head
  {
  }

  lemma {:induction false} GoesOn(s: State, p: nat, x: Item, more: seq<Choice>, s': State)
    requires p < |s.prods| && Accepting(s.prods[p], x) && Produces(s, p, more, s')
    ensures OnlyProducer(s, s', p)
    ensures var pr, pr' := s.prods[p], s'.prods[p];
      if pr'.pc.PIdle? then pr'.tail == pr.tail + 1 && pr'.hist == pr.hist + [x] && |more| <= ToWrite(pr.pc) + 1
      else Accepting(pr', x) && pr'.tail == pr.tail && pr'.hist == pr.hist && |more| + ToWrite(pr'.pc) <= ToWrite(pr.pc)
    decreases |more|
  {
    if more != [] {
      var ch := more[0];
      var m := ProdStep(s, p, ch);
      ProdStepIs(s, p, ch);
      ProdStepKeepsHead(s, p, ch);
      if s.prods[p].pc.PPublish? {
        assert forall ch :: !ProdEnabled(m, p, ch);
      } else {
        ProdStepGoesOn(s, p, ch, x);
        GoesOn(m, p, x, more[1..], s');
      }
    }
  }

  function Moves(p: nat, more: seq<Choice>): seq<Action> {
    seq(|more|, i requires 0 <= i < |more| => ProdMove(p, more[i]))
  }

  lemma ReachesNext(s0: State, run: seq<Action>, s: State, a: Action)
    requires Reaches(s0, run, s) && Enabled(s, a)
    ensures Reaches(s0, run + [a], Apply(s, a))
  {
    assert (run + [a])[..|run + [a]| - 1] == run;
  }

  lemma ProducesFirst(s: State, p: nat, more: seq<Choice>, s': State)
    requires Produces(s, p, more, s') && more != []
    ensures Enabled(s, ProdMove(p, more[0])) && Produces(Apply(s, ProdMove(p, more[0])), p, more[1..], s')
  {
  }

  lemma MovesNext(run: seq<Action>, p: nat, more: seq<Choice>)
    requires more != []
    ensures run + [ProdMove(p, more[0])] + Moves(p, more[1..]) == run + Moves(p, more)
  {
  }

  lemma {:induction false} ProducesReaches(s0: State, run: seq<Action>, s: State, p: nat, more: seq<Choice>, s': State)
    requires Reaches(s0, run, s) && Produces(s, p, more, s')
    ensures Reaches(s0, run + Moves(p, more), s')
    decreases |more|
  {
    if more == [] {
      assert run + Moves(p, more) == run;
    } else {
      var a := ProdMove(p, more[0]);
      ProducesFirst(s, p, more, s');
      ReachesNext(s0, run, s, a);
      var m, run' := Apply(s, a), run + [a];
      assert Reaches(s0, run', m) && Produces(m, p, more[1..], s');
      ProducesReaches(s0, run', m, p, more[1..], s');
      MovesNext(run, p, more);
    }
  }

  lemma CalledInWindow(s0: State, run: seq<Action>, s: State, p: nat, x: Item)
    requires Reaches(s0, run, s) && Enabled(s, Enqueue(p, x))
    requires s.prods[p].tail % BLOCK_SIZE == 0 ==> s.prods[p].tail + BLOCK_SIZE - s.prods[p].head < HALF
    ensures s.prods[p].head <= s.prods[p].tail
    ensures var pr := Apply(s, Enqueue(p, x)).prods[p];
      && Accepting(pr, x) && ToWrite(pr.pc) <= 8 && pr.head == s.prods[p].head && pr.tail == s.prods[p].tail
      && pr.hist == s.prods[p].hist
  {
    ReachableInv(s0, run, s);
    assert ProdOk(s, p);
    CheckIsExact(s.prods[p].head, s.prods[p].tail);
  }

  lemma LastStands(s: State, p: nat)
    requires DataInv(s) && p < |s.prods| && s.prods[p].tail > s.prods[p].head
    ensures |s.prods[p].hist| == s.prods[p].tail && Shaped(s)
    ensures StoredAt(s, p, s.prods[p].tail - 1) == Some(s.prods[p].hist[s.prods[p].tail - 1])
  {
    assert ProdOk(s, p);
    StoredIsItem(s, p, s.prods[p].tail - 1);
  }

  lemma ProducerNotStuck(s0: State, run: seq<Action>, s: State, p: nat)
    requires Reaches(s0, run, s) && p < |s.prods| && !s.prods[p].pc.PIdle?
    ensures ProdEnabled(s, p, if s.prods[p].pc.PFree? then Fails else Works) && Shaped(s)
  {
    NobodyIsStuck(s0, run, s);
    assert ProdEnabled(s, p, Fails);
  }

  /** In a reachable state the producer can go on, or the last element accepted from it stands in its slot. */
  lemma ProducerNow(s0: State, run: seq<Action>, s: State, p: nat)
    requires Reaches(s0, run, s) && p < |s.prods| && s.prods[p].tail >= s.prods[p].head
    ensures s.prods[p].hist == Accepted(s0, run, p)
    ensures !s.prods[p].pc.PIdle? ==> ProdEnabled(s, p, if s.prods[p].pc.PFree? then Fails else Works)
    ensures s.prods[p].tail > s.prods[p].head ==>
              && |s.prods[p].hist| == s.prods[p].tail && Shaped(s)
              && StoredAt(s, p, s.prods[p].tail - 1) == Some(s.prods[p].hist[s.prods[p].tail - 1])
  {
    HistoryIsAccepted(s0, run, s, p);
    if s.prods[p].tail > s.prods[p].head {
      ReachableInv(s0, run, s);
      LastStands(s, p);
    }
    if !s.prods[p].pc.PIdle? { ProducerNotStuck(s0, run, s, p); }
  }

  lemma AcceptingEnds(s0: State, run: seq<Action>, s: State, p: nat, x: Item, more: seq<Choice>, s': State)
    requires Reaches(s0, run, s) && p < |s.prods| && Produces(s, p, more, s')
    requires Accepting(s.prods[p], x) && ToWrite(s.prods[p].pc) <= 8 && s.prods[p].head <= s.prods[p].tail
    ensures OnlyProducer(s, s', p) && |more| <= 9
    ensures if s'.prods[p].pc.PIdle? then
              && Accepted(s0, run + Moves(p, more), p) == Accepted(s0, run, p) + [x]
              && Shaped(s') && StoredAt(s', p, s.prods[p].tail) == Some(x) && s'.prods[p].tail == s.prods[p].tail + 1
            else ProdEnabled(s', p, if s'.prods[p].pc.PFree? then Fails else Works) && s'.prods[p].tail == s.prods[p].tail
  {
    GoesOn(s, p, x, more, s');
    ProducesReaches(s0, run, s, p, more, s');
    HistoryIsAccepted(s0, run, s, p);
    ProducerNow(s0, run + Moves(p, more), s', p);
  }

  /** From any reachable state, whatever consumers and other producers are halfway, an enqueue that runs undisturbed
      with memory available, and inside the window if it needs a block, has returned after at most nine steps, and it is
      accepted: the items accepted from `p` are those before and its own, which stands in the slot of its index.
      Nothing else that a consumer could see has changed. */
  lemma LoneEnqueue(s0: State, run: seq<Action>, s: State, p: nat, x: Item, more: seq<Choice>, s': State)
    requires Reaches(s0, run, s) && Enabled(s, Enqueue(p, x)) && Produces(Apply(s, Enqueue(p, x)), p, more, s')
    requires s.prods[p].tail % BLOCK_SIZE == 0 ==> s.prods[p].tail + BLOCK_SIZE - s.prods[p].head < HALF
    ensures OnlyProducer(s, s', p) && |more| <= 9
    ensures if s'.prods[p].pc.PIdle? then
              && Accepted(s0, run + [Enqueue(p, x)] + Moves(p, more), p) == Accepted(s0, run, p) + [x]
              && Shaped(s') && StoredAt(s', p, s.prods[p].tail) == Some(x) && s'.prods[p].tail == s.prods[p].tail + 1
            else ProdEnabled(s', p, if s'.prods[p].pc.PFree? then Fails else Works) && s'.prods[p].tail == s.prods[p].tail
  {
    var called, run' := Apply(s, Enqueue(p, x)), run + [Enqueue(p, x)];
    ReachesNext(s0, run, s, Enqueue(p, x));
    CalledInWindow(s0, run, s, p, x);
    AcceptingEnds(s0, run', called, p, x, more, s');
    HistoryIsAccepted(s0, run, s, p);
    HistoryIsAccepted(s0, run', called, p);
  }

  /** In every run an enqueue is refused only by the window or by an allocation of its own that fails. */
  lemma RefusedOnlyIf(s0: State, run: seq<Action>, s: State, p: nat, ch: Choice)
    requires Reaches(s0, run, s) && Enabled(s, ProdMove(p, ch))
    requires var s' := Apply(s, ProdMove(p, ch)); s'.prods[p].pc.PIdle? && s'.prods[p].tail == s.prods[p].tail
    ensures || ((s.prods[p].pc.PCheck? || s.prods[p].pc.PCreate?) && ch.Fails?)
            || (s.prods[p].pc.PCheck? && s.prods[p].tail + BLOCK_SIZE - s.prods[p].head >= HALF)
  {
    ProducerStaysInWindow(s0, run, s, p);
  }

  // ---------- dequeue ----------

  /** `k` steps of consumer `c` while nobody else moves. */
  function Alone(s: State, c: nat, k: nat): State
    decreases k
  {
    if k == 0 || !ConsEnabled(s, c) then s else Alone(ConsStep(s, c), c, k - 1)
  }

  lemma LoneEmpty(s: State, c: nat, p: nat, max: nat, n: nat)
    requires n >= 3 && Shaped(s) && c < |s.cons| && p < |s.prods| && max > 0 && s.cons[c].CIdle?
    requires s.prods[p].opt == s.prods[p].over + s.prods[p].head && s.prods[p].head == s.prods[p].tail
    ensures Alone(Goto(s, c, CTail(p, max)), c, n) == s
  {
    var pr := s.prods[p];
    var s1 := Goto(s, c, CTail(p, max));
    var s2 := Goto(s, c, COver(p, max, pr.tail));
    var s3 := Goto(s, c, COpt(p, max, pr.tail, pr.over));
    assert ConsStep(s1, c) == s2 && ConsStep(s2, c) == s3 && ConsStep(s3, c) == s;
    AloneStep(s1, c, n);
    AloneStep(s2, c, n - 1);
    AloneStep(s3, c, n - 2);
    IdleStays(s, c, n - 3);
  }

  /** The loads up to the reservation. */
  lemma LoneReserve(s: State, c: nat, p: nat, max: nat, n: nat)
    requires Shaped(s) && c < |s.cons| && p < |s.prods| && max > 0 && s.cons[c].CIdle? && n >= 3
    requires s.prods[p].opt == s.prods[p].over + s.prods[p].head && s.prods[p].head < s.prods[p].tail
    ensures var pr := s.prods[p];
            var k := Min(max, pr.tail - pr.head);
            Alone(Goto(s, c, CTail(p, max)), c, n) == Alone(Goto(s, c, CReserve(p, pr.over, k)), c, n - 3)
  {
    var pr := s.prods[p];
    var k := Min(max, pr.tail - pr.head);
    var s1 := Goto(s, c, CTail(p, max));
    var s2 := Goto(s, c, COver(p, max, pr.tail));
    var s3 := Goto(s, c, COpt(p, max, pr.tail, pr.over));
    var s4 := Goto(s, c, CReserve(p, pr.over, k));
    assert ConsStep(s1, c) == s2 && ConsStep(s2, c) == s3 && ConsStep(s3, c) == s4;
    AloneStep(s1, c, n);
    AloneStep(s2, c, n - 1);
    AloneStep(s3, c, n - 2);
  }

  lemma AloneStep(s: State, c: nat, k: nat)
    requires k > 0 && ConsEnabled(s, c)
    ensures Alone(s, c, k) == Alone(ConsStep(s, c), c, k - 1)
  {
  }

  /** The reservation, the second load of the tail and the claim. */
  lemma LoneClaim(s: State, c: nat, p: nat, k: nat, n: nat) returns (t: State)
    requires Shaped(s) && c < |s.cons| && p < |s.prods| && s.cons[c] == CReserve(p, s.prods[p].over, k) && n >= 3
    requires s.prods[p].opt == s.prods[p].over + s.prods[p].head && 0 < k <= s.prods[p].tail - s.prods[p].head
    ensures Alone(s, c, n) == Alone(t, c, n - 3) && |t.cons| == |s.cons|
    ensures t.cons[c] == CEntry(p, s.prods[p].head, s.prods[p].head + k)
    ensures t.out == s.out && |t.prods| == |s.prods| && t.prods[p].hist == s.prods[p].hist
  {
    var s5 := ConsStep(s, c);
    var s6 := ConsStep(s5, c);
    assert s5.cons[c] == CRecheck(p, s.prods[p].over, k, s.prods[p].opt);
    assert s6.cons[c] == CClaim(p, k) && s6.prods[p].head == s.prods[p].head;
    AloneStep(s, c, n);
    AloneStep(s5, c, n - 1);
    AloneStep(s6, c, n - 2);
    t := ConsStep(s6, c);
  }

  lemma QuietCounters(s: State, p: nat)
    requires Inv(s) && p < |s.prods| && forall d :: 0 <= d < |s.cons| ==> s.cons[d].CIdle?
    ensures s.prods[p].opt == s.prods[p].over + s.prods[p].head && s.prods[p].head <= s.prods[p].tail
    ensures Shaped(s)
  {
    assert CountersOk(s, p) && ProdOk(s, p);
    NothingUnsettled(s.cons, p);
  }

  lemma LoneRun(s: State, c: nat, p: nat, max: nat, n: nat) returns (t: State)
    requires Shaped(s) && c < |s.cons| && p < |s.prods| && max > 0 && s.cons[c].CIdle? && n == 6
    requires s.prods[p].opt == s.prods[p].over + s.prods[p].head && s.prods[p].head < s.prods[p].tail
    ensures Alone(Goto(s, c, CTail(p, max)), c, n) == t && |t.cons| == |s.cons|
    ensures t.cons[c] == CEntry(p, s.prods[p].head, s.prods[p].head + Min(max, s.prods[p].tail - s.prods[p].head))
    ensures t.out == s.out && |t.prods| == |s.prods| && t.prods[p].hist == s.prods[p].hist
  {
    var k := Min(max, s.prods[p].tail - s.prods[p].head);
    var u := Goto(s, c, CReserve(p, s.prods[p].over, k));
    LoneReserve(s, c, p, max, n);
    t := LoneClaim(u, c, p, k, n - 3);
    assert Alone(t, c, n - 6) == t;
  }

  /** The deliveries of the indices from `lo` to `hi`. */
  function Deliveries(c: nat, p: nat, items: seq<Item>, lo: nat, hi: nat): seq<Delivery>
    requires lo <= hi <= |items|
  {
    seq(hi - lo, k requires 0 <= k < hi - lo => Delivery(c, p, lo + k, items[lo + k]))
  }

  /** What a consumer inside its claim still has to deliver begins here. */
  function Mid(pc: ConsPC, e: nat): nat {
    if Holds(pc) then HoldOf(pc).mid else e
  }

  /** The step of a consumer inside its claim: it delivers the next item or none. */
  lemma ClaimStepIs(s: State, c: nat)
    requires ConsEnabled(s, c) && EndsBelowHead(s, c) && Holds(s.cons[c]) && Sane(s.cons[c])
    requires s.cons[c].CEntry? ==> s.cons[c].i < s.cons[c].e
    requires s.cons[c].CMove? ==> s.cons[c].j < s.cons[c].be
    ensures var p, s', e := s.cons[c].p, ConsStep(s, c), HoldOf(s.cons[c]).e;
      && s'.prods[p].hist == s.prods[p].hist
      && (if Holds(s'.cons[c]) then s'.cons[c].p == p && HoldOf(s'.cons[c]).e == e else s'.cons[c].CIdle?)
      && Mid(s'.cons[c], e) == Mid(s.cons[c], e) + (if s.cons[c].CMove? then 1 else 0)
      && (!s.cons[c].CMove? ==> s'.out == s.out)
  {
  }

  /** From `s` to `s'` consumer `c` stays in its claim or returns, delivering what lies between. */
  ghost predicate Advances(s: State, s': State, c: nat) {
    && c < |s.cons| && c < |s'.cons| && Holds(s.cons[c])
    && var p, h := s.cons[c].p, HoldOf(s.cons[c]);
      && p < |s.prods| && p < |s'.prods| && s'.prods[p].hist == s.prods[p].hist && h.e <= |s.prods[p].hist|
      && (if Holds(s'.cons[c]) then s'.cons[c].p == p && HoldOf(s'.cons[c]).e == h.e else s'.cons[c].CIdle?)
      && h.mid <= Mid(s'.cons[c], h.e) <= h.e
      && s'.out == s.out + Deliveries(c, p, s.prods[p].hist, h.mid, Mid(s'.cons[c], h.e))
  }

  lemma HoldFacts(s: State, c: nat)
    requires Inv(s) && c < |s.cons| && Holds(s.cons[c])
    ensures ConsEnabled(s, c) && EndsBelowHead(s, c) && Sane(s.cons[c]) && Work(s.cons[c]) > 0
    ensures s.cons[c].CEntry? ==> s.cons[c].i < s.cons[c].e
    ensures s.cons[c].CMove? ==> s.cons[c].j < s.cons[c].be
    ensures s.cons[c].CEmpty? || s.cons[c].CUnlink? || s.cons[c].CFree? ==> s.cons[c].be <= s.cons[c].e
    ensures HoldOf(s.cons[c]).e <= |s.prods[s.cons[c].p].hist|
  {
    ConsumerNeverStuck(s, c);
    assert HolderOk(s, c) && ConsOk(s, c) && ProdOk(s, s.cons[c].p);
  }

  lemma ClaimAdvances(s: State, c: nat)
    requires Inv(s) && c < |s.cons| && Holds(s.cons[c])
    ensures ConsEnabled(s, c) && Advances(s, ConsStep(s, c), c)
  {
    HoldFacts(s, c);
    ClaimStepIs(s, c);
    StepDelivers(s, c);
  }

  lemma ClaimStep(s: State, c: nat, n: nat) returns (s': State)
    requires Inv(s) && c < |s.cons| && Holds(s.cons[c]) && n > 0
    ensures Alone(s, c, n) == Alone(s', c, n - 1)
    ensures Inv(s') && Advances(s, s', c) && Work(s'.cons[c]) < Work(s.cons[c])
  {
    HoldFacts(s, c);
    s' := ConsStep(s, c);
    AloneStep(s, c, n);
    ActionKeepsInv(s, ConsMove(c));
    StepReducesWork(s, c);
    ClaimAdvances(s, c);
  }

  lemma AdvancesJoin(s: State, m: State, s': State, c: nat)
    requires Advances(s, m, c) && Holds(m.cons[c]) && Advances(m, s', c)
    ensures Advances(s, s', c)
  {
    var p, h := s.cons[c].p, HoldOf(s.cons[c]);
    DeliveriesJoin(c, p, s.prods[p].hist, h.mid, HoldOf(m.cons[c]).mid, Mid(s'.cons[c], h.e));
  }

  lemma StepDelivers(s: State, c: nat)
    requires Inv(s) && ConsEnabled(s, c) && Holds(s.cons[c])
    ensures s.cons[c].CMove? ==> s.cons[c].j < |s.prods[s.cons[c].p].hist|
    ensures var p := s.cons[c].p;
      ConsStep(s, c).out == s.out + (if s.cons[c].CMove? then [Delivery(c, p, s.cons[c].j, s.prods[p].hist[s.cons[c].j])] else [])
  {
    if s.cons[c].CMove? { HeldSlot(s, c); }
  }

  lemma DeliveriesJoin(c: nat, p: nat, items: seq<Item>, lo: nat, mid: nat, hi: nat)
    requires lo <= mid <= hi <= |items|
    ensures Deliveries(c, p, items, lo, mid) + Deliveries(c, p, items, mid, hi) == Deliveries(c, p, items, lo, hi)
  {
  }

  /** Left alone, it delivers what is left of its claim, in order. */
  lemma {:induction false} ClaimDelivers(s: State, c: nat, n: nat) returns (t: State)
    requires Inv(s) && c < |s.cons| && Holds(s.cons[c]) && Work(s.cons[c]) <= n
    ensures t == Alone(s, c, n) && Advances(s, t, c) && t.cons[c].CIdle?
    decreases n
  {
    HoldFacts(s, c);
    var m := ClaimStep(s, c, n);
    if Holds(m.cons[c]) {
      t := ClaimDelivers(m, c, n - 1);
      AdvancesJoin(s, m, t, c);
    } else {
      IdleStays(m, c, n - 1);
      t := m;
    }
  }

  lemma IdleStays(s: State, c: nat, n: nat)
    requires c < |s.cons| && s.cons[c].CIdle?
    ensures Alone(s, c, n) == s
  {
  }

  lemma FirstAlone(s: State, c: nat, n: nat, k: nat) returns (m: State)
    requires ConsEnabled(s, c) && n > 0 && k > 0
    ensures Alone(s, c, n) == Alone(m, c, n - 1) && Alone(s, c, k) == Alone(m, c, k - 1)
  {
    m := ConsStep(s, c);
    AloneStep(s, c, n);
    AloneStep(s, c, k);
  }

  lemma {:induction false} AloneKeepsInv(s: State, c: nat, n: nat)
    requires Inv(s)
    ensures Inv(Alone(s, c, n))
    decreases n
  {
    if n > 0 && ConsEnabled(s, c) {
      ActionKeepsInv(s, ConsMove(c));
      AloneKeepsInv(ConsStep(s, c), c, n - 1);
    }
  }

  lemma StuckAlone(s: State, c: nat, n: nat)
    requires !ConsEnabled(s, c)
    ensures Alone(s, c, n) == s
  {
  }

  lemma {:induction false} AloneSplit(s: State, c: nat, n: nat, k: nat)
    ensures Alone(s, c, n + k) == Alone(Alone(s, c, n), c, k)
    decreases n
  {
    if !ConsEnabled(s, c) {
      StuckAlone(s, c, n);
      StuckAlone(s, c, k);
      StuckAlone(s, c, n + k);
    } else if n > 0 {
      var m := FirstAlone(s, c, n, n + k);
      AloneSplit(m, c, n - 1, k);
    }
  }

  /** After `n` steps that lead to a claim, `m` more deliver it. */
  lemma ThenDelivers(called: State, c: nat, n: nat, t: State, m: nat) returns (u: State)
    requires Inv(called) && t == Alone(called, c, n)
    requires c < |t.cons| && Holds(t.cons[c]) && Work(t.cons[c]) <= m
    ensures u == Alone(called, c, n + m) && Advances(t, u, c) && u.cons[c].CIdle?
  {
    AloneKeepsInv(called, c, n);
    AloneSplit(called, c, n, m);
    u := ClaimDelivers(t, c, m);
  }

  lemma LoneDelivers(s: State, c: nat, p: nat, max: nat, k: nat, n: nat) returns (u: State)
    requires Inv(s) && Shaped(s) && c < |s.cons| && p < |s.prods| && max > 0 && s.cons[c].CIdle?
    requires s.prods[p].opt == s.prods[p].over + s.prods[p].head && s.prods[p].head < s.prods[p].tail
    requires k == Min(max, s.prods[p].tail - s.prods[p].head) && n == 6
    ensures s.prods[p].head + k <= |s.prods[p].hist|
    ensures u == Alone(Goto(s, c, CTail(p, max)), c, n + 5 * max) && c < |u.cons| && u.cons[c].CIdle?
    ensures u.out == s.out + Deliveries(c, p, s.prods[p].hist, s.prods[p].head, s.prods[p].head + k)
  {
    var t := LoneRun(s, c, p, max, n);
    ActionKeepsInv(s, Dequeue(c, p, max));
    u := ThenDelivers(Apply(s, Dequeue(c, p, max)), c, n, t, 5 * max);
  }

  lemma QuietDequeue(s: State, c: nat, p: nat, max: nat) returns (n: nat, u: State)
    requires Inv(s) && c < |s.cons| && p < |s.prods| && max > 0
    requires forall d :: 0 <= d < |s.cons| ==> s.cons[d].CIdle?
    ensures s.prods[p].head <= s.prods[p].tail == |s.prods[p].hist|
    ensures n <= 6 + 5 * max && u == Alone(Goto(s, c, CTail(p, max)), c, n) && c < |u.cons| && u.cons[c].CIdle?
    ensures var lo := s.prods[p].head; var k := Min(max, s.prods[p].tail - lo);
      u.out == s.out + Deliveries(c, p, s.prods[p].hist, lo, lo + k) && (k == 0 ==> u == s)
  {
    n := 6 + 5 * max;
    QuietCounters(s, p);
    assert ProdOk(s, p);
    if s.prods[p].head == s.prods[p].tail {
      LoneEmpty(s, c, p, max, n);
      u := s;
    } else {
      u := LoneDelivers(s, c, p, max, Min(max, s.prods[p].tail - s.prods[p].head), 6);
    }
  }

  /** With no dequeue in flight, a dequeue that runs undisturbed has returned after at most 6 + 5 * max steps, having
      delivered as many of the oldest items accepted as it asked for and there are, in order. It comes back with none
      only from an empty sub-queue, which it leaves as it was. */
  lemma LoneDequeue(s0: State, run: seq<Action>, s: State, c: nat, p: nat, max: nat) returns (n: nat, u: State)
    requires Reaches(s0, run, s) && c < |s.cons| && p < |s.prods| && max > 0
    requires forall d :: 0 <= d < |s.cons| ==> s.cons[d].CIdle?
    ensures s.prods[p].head <= s.prods[p].tail == |Accepted(s0, run, p)|
    ensures n <= 6 + 5 * max && u == Alone(Apply(s, Dequeue(c, p, max)), c, n) && c < |u.cons| && u.cons[c].CIdle?
    ensures var lo := s.prods[p].head; var k := Min(max, s.prods[p].tail - lo);
      u.out == s.out + Deliveries(c, p, Accepted(s0, run, p), lo, lo + k) && (k == 0 ==> u == s)
  {
    ReachableInv(s0, run, s);
    HistoryIsAccepted(s0, run, s, p);
    n, u := QuietDequeue(s, c, p, max);
  }
}
