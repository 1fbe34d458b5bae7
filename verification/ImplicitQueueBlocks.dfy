/**
 Blocks and elements of ImplicitProducer: every block is in exactly one place, a claimed index never
 resolves to a released block, and every claimed index is delivered once, with the item enqueued there.
 */
module ImplicitQueueBlocks {
  import opened Options
  import opened Slots
  import opened Words
  import Sets
  import opened ImplicitQueue
  import opened Counters = ImplicitQueueCounters

  // ---------- what a consumer holds ----------

  /** First index claimed and not yet counted off its block, first not yet moved out, and end of the claim. */
  datatype Hold = Hold(lo: nat, mid: nat, e: nat)

  predicate Holds(pc: ConsPC) {
    pc.CEntry? || pc.CMove? || pc.CEmpty? || pc.CUnlink? || pc.CFree?
  }

  function HoldOf(pc: ConsPC): Hold
    requires Holds(pc)
  {
    match pc
    case CEntry(_, i, e) => Hold(i, i, e)
    case CMove(_, i, j, _, e, _) => Hold(i, j, e)
    case CEmpty(_, i, be, e, _) => Hold(i, be, e)
    case CUnlink(_, _, be, e, _) => Hold(be, be, e)
    case CFree(_, be, e, _) => Hold(be, be, e)
  }

  predicate InHold(pc: ConsPC, p: nat, i: nat) {
    Holds(pc) && pc.p == p && HoldOf(pc).lo <= i < HoldOf(pc).e
  }

  // ---------- the invariant ----------

  function RangeOf(n: nat): set<nat> {
    Interval(n * BLOCK_SIZE, n * BLOCK_SIZE + BLOCK_SIZE)
  }

  /** The block for index `tail` has been started: it was taken for an element not yet published, or holds
      earlier ones. */
  predicate Started(pr: Prod) {
    pr.tail % BLOCK_SIZE != 0 || pr.pc.PWrite? || pr.pc.PPublish?
  }

  /** The fullness test has been passed for the block of index `tail`. */
  predicate Checked(pr: Prod) {
    Started(pr) || (!pr.pc.PIdle? && !pr.pc.PCheck?)
  }

  ghost predicate ProdOk(s: State, p: nat)
    requires p < |s.prods|
  {
    var pr := s.prods[p];
    && |pr.hist| == pr.tail && |pr.claimer| == pr.head <= pr.tail
    && (forall i :: i in pr.retired ==> i in pr.taken)
    && (forall i :: i in pr.taken ==> i < pr.head)
    && |pr.index| == pr.tail / BLOCK_SIZE + (if Started(pr) then 1 else 0)
    && (Started(pr) ==> pr.tailBlock.Some? && pr.tailBlock == pr.index[pr.tail / BLOCK_SIZE])
    && (!pr.pc.PIdle? && !pr.pc.PWrite? && !pr.pc.PPublish? ==> pr.tail % BLOCK_SIZE == 0)
    && pr.tail - pr.head < HALF
    && (Checked(pr) ==> pr.tail / BLOCK_SIZE * BLOCK_SIZE + BLOCK_SIZE - pr.head < HALF)
    && (pr.pc.PReset? || pr.pc.PInstall? ==> pr.pc.b < |s.blocks| && s.blocks[pr.pc.b].loc == Handed(p))
    && (pr.pc.PInstall? ==> s.blocks[pr.pc.b].done == 0)
  }

  /** An empty index entry belongs to a block all of whose elements are gone; any other to a block that is
      this producer's. */
  ghost predicate EntryOk(s: State, p: nat, n: nat)
    requires p < |s.prods| && n < |s.prods[p].index|
  {
    match s.prods[p].index[n]
    case None => RangeOf(n) <= s.prods[p].retired
    case Some(b) =>
      b < |s.blocks| && (s.blocks[b].loc == Owned(p, n) || (s.blocks[b].loc.Closing? && s.blocks[b].loc.p == p && s.blocks[b].loc.n == n))
  }

  /** Every index below the head was claimed by one consumer and is counted off, or still held by it. */
  predicate ClaimOk(s: State, p: nat, i: nat)
    requires p < |s.prods| && i < |s.prods[p].claimer|
  {
    var c := s.prods[p].claimer[i];
    c < |s.cons| && (i in s.prods[p].retired || InHold(s.cons[c], p, i))
  }

  ghost predicate HolderOk(s: State, c: nat)
    requires c < |s.cons|
  {
    var pc := s.cons[c];
    Holds(pc) ==>
      && pc.p < |s.prods|
      && var pr := s.prods[pc.p];
         var h := HoldOf(pc);
      && h.lo <= h.mid <= h.e <= |pr.claimer|
      && (forall i :: h.lo <= i < h.e ==> pr.claimer[i] == c && i !in pr.retired && (i in pr.taken <==> i < h.mid))
      && match pc
         case CEntry(_, i, e) => i < e
         case CMove(_, i, j, be, e, b) => i <= j < be == Min(BlockEnd(i), e) && BlockAt(pr, i / BLOCK_SIZE, b)
         case CEmpty(_, i, be, e, b) => i < be == Min(BlockEnd(i), e) && BlockAt(pr, i / BLOCK_SIZE, b)
         case CUnlink(p, n, _, _, b) => BlockAt(pr, n, b) && b < |s.blocks| && s.blocks[b].loc == Closing(p, n, c)
         case CFree(_, _, _, b) => b < |s.blocks| && s.blocks[b].loc == Releasing(c)
  }

  predicate BlockAt(pr: Prod, n: nat, b: nat) {
    n < |pr.index| && pr.index[n] == Some(b)
  }

  /** What slot `i` must hold: an item enqueued and not yet moved out, or the one about to be published. */
  function Expected(pr: Prod, i: nat): Option<Item> {
    if i < |pr.hist| && i !in pr.taken then Some(pr.hist[i])
    else if i == |pr.hist| && pr.pc.PPublish? then Some(pr.pc.x)
    else None
  }

  ghost predicate LiveBlock(s: State, b: nat, p: nat, n: nat)
    requires b < |s.blocks|
  {
    && p < |s.prods| && BlockAt(s.prods[p], n, b)
    && s.blocks[b].done == |s.prods[p].retired * RangeOf(n)|
    && |s.blocks[b].slots| == BLOCK_SIZE
    && forall k: nat :: k < BLOCK_SIZE ==> s.blocks[b].slots[k] == Expected(s.prods[p], n * BLOCK_SIZE + k)
  }

  predicate NoElements(bl: Block) {
    bl.slots == EmptySlots()
  }

  ghost predicate BlockOk(s: State, b: nat)
    requires b < |s.blocks|
  {
    match s.blocks[b].loc
    case Owned(p, n) => LiveBlock(s, b, p, n) && s.blocks[b].done < BLOCK_SIZE
    case Closing(p, n, c) =>
      && LiveBlock(s, b, p, n) && s.blocks[b].done == BLOCK_SIZE
      && c < |s.cons| && s.cons[c].CUnlink? && s.cons[c].p == p && s.cons[c].n == n && s.cons[c].b == b
    case Releasing(c) => NoElements(s.blocks[b]) && c < |s.cons| && s.cons[c].CFree? && s.cons[c].b == b
    case Handed(p) =>
      && NoElements(s.blocks[b]) && p < |s.prods|
      && (s.prods[p].pc.PReset? || s.prods[p].pc.PInstall?) && s.prods[p].pc.b == b
    case InPool => NoElements(s.blocks[b]) && s.poolNext <= b < s.poolSize
    case Free => NoElements(s.blocks[b])
  }

  ghost predicate DataInv(s: State) {
    && Shaped(s)
    && (forall b :: s.poolNext <= b < s.poolSize ==> s.blocks[b].loc.InPool?)
    && (forall p :: 0 <= p < |s.prods| ==> ProdOk(s, p))
    && (forall p, n :: 0 <= p < |s.prods| && 0 <= n < |s.prods[p].index| ==> EntryOk(s, p, n))
    && (forall p, i :: 0 <= p < |s.prods| && 0 <= i < |s.prods[p].claimer| ==> ClaimOk(s, p, i))
    && (forall c :: 0 <= c < |s.cons| ==> HolderOk(s, c))
    && (forall b :: 0 <= b < |s.blocks| ==> BlockOk(s, b))
  }

  // ---------- facts read off the invariant ----------

  /** An index that is not counted off lies in a block that is still in the index. */
  lemma UnretiredBlockIsLive(s: State, p: nat, i: nat)
    requires DataInv(s) && p < |s.prods| && i < s.prods[p].tail && i !in s.prods[p].retired
    ensures i / BLOCK_SIZE < |s.prods[p].index| && s.prods[p].index[i / BLOCK_SIZE].Some?
  {
    var pr := s.prods[p];
    assert ProdOk(s, p);
    assert i / BLOCK_SIZE < |pr.index|;
    assert EntryOk(s, p, i / BLOCK_SIZE);
    assert i in RangeOf(i / BLOCK_SIZE);
  }

  /** While a consumer works on a block it is that producer's, and not yet counted empty. */
  lemma HeldBlock(s: State, c: nat)
    requires DataInv(s) && c < |s.cons| && (s.cons[c].CMove? || s.cons[c].CEmpty?)
    ensures var pc := s.cons[c];
      && pc.p < |s.prods| && pc.b < |s.blocks|
      && s.blocks[pc.b].loc == Owned(pc.p, pc.i / BLOCK_SIZE)
      && LiveBlock(s, pc.b, pc.p, pc.i / BLOCK_SIZE)
  {
    var pc := s.cons[c];
    assert HolderOk(s, c);
    assert EntryOk(s, pc.p, pc.i / BLOCK_SIZE) && BlockOk(s, pc.b);
    assert pc.i in RangeOf(pc.i / BLOCK_SIZE) && pc.i !in s.prods[pc.p].retired;
    if s.blocks[pc.b].loc.Closing? {
      FullCountIsWholeRange(s.prods[pc.p].retired, pc.i / BLOCK_SIZE);
    }
  }

  lemma SameBlock(i: nat, j: nat)
    requires i <= j < BlockEnd(i)
    ensures j / BLOCK_SIZE == i / BLOCK_SIZE && j == i / BLOCK_SIZE * BLOCK_SIZE + j % BLOCK_SIZE
  {
  }

  lemma HeldSlot(s: State, c: nat)
    requires DataInv(s) && c < |s.cons| && s.cons[c].CMove?
    ensures var pc := s.cons[c];
      && pc.p < |s.prods| && pc.b < |s.blocks| && pc.j < |s.prods[pc.p].hist|
      && |s.blocks[pc.b].slots| == BLOCK_SIZE
      && s.blocks[pc.b].slots[pc.j % BLOCK_SIZE] == Some(s.prods[pc.p].hist[pc.j])
  {
    HeldBlock(s, c);
    var pc := s.cons[c];
    assert HolderOk(s, c) && ProdOk(s, pc.p);
    SameBlock(pc.i, pc.j);
    assert s.blocks[pc.b].slots[pc.j % BLOCK_SIZE] == Expected(s.prods[pc.p], pc.j);
  }

  /** A consumer's next step is always defined: it never looks up a released block, never moves out a slot
      that holds no element, never gives back more than it reserved. */
  lemma ConsumerNeverStuck(s: State, c: nat)
    requires DataInv(s) && CounterInv(s) && c < |s.cons| && !s.cons[c].CIdle?
    ensures ConsEnabled(s, c)
  {
    assert HolderOk(s, c) && ConsOk(s, c);
    match s.cons[c]
    case CEntry(p, i, e) =>
      assert ProdOk(s, p);
      UnretiredBlockIsLive(s, p, i);
    case CMove(_, _, _, _, _, _) => HeldSlot(s, c);
    case CEmpty(_, _, _, _, _) => HeldBlock(s, c);
    case _ =>
  }

  lemma FullCountIsWholeRange(retired: set<nat>, n: nat)
    requires |retired * RangeOf(n)| == BLOCK_SIZE
    ensures RangeOf(n) <= retired
  {
    var r := retired * RangeOf(n);
    assert r <= RangeOf(n) && |RangeOf(n)| == BLOCK_SIZE;
    if r != RangeOf(n) {
      var x :| x in RangeOf(n) && x !in r;
      Sets.SubsetSize(r, RangeOf(n) - {x});
    }
  }

  lemma InitData(s: State)
    requires Init(s)
    ensures DataInv(s)
  {
  }

  // ---------- steps of a consumer ----------

  /** A step of `c` that changes no block and nothing of a producer but its counters. */
  lemma QuietStepKeepsData(s: State, s': State, c: nat)
    requires DataInv(s) && c < |s.cons| && |s'.cons| == |s.cons| && |s'.prods| == |s.prods|
    requires s'.cons == s.cons[c := s'.cons[c]] && s'.blocks == s.blocks && s'.poolNext == s.poolNext && s'.poolSize == s.poolSize
    requires forall p :: 0 <= p < |s.prods| ==>
               s'.prods[p].(opt := 0, over := 0, gmy := 0, hw := 0) == s.prods[p].(opt := 0, over := 0, gmy := 0, hw := 0)
    requires !Holds(s.cons[c]) && !Holds(s'.cons[c])
    ensures DataInv(s')
  {
    forall p: nat | p < |s'.prods| ensures ProdOk(s', p) { assert ProdOk(s, p); }
    forall p: nat, n: nat | p < |s'.prods| && n < |s'.prods[p].index| ensures EntryOk(s', p, n) { assert EntryOk(s, p, n); }
    forall p: nat, i: nat | p < |s'.prods| && i < |s'.prods[p].claimer| ensures ClaimOk(s', p, i) { assert ClaimOk(s, p, i); }
    forall d: nat | d < |s'.cons| ensures HolderOk(s', d) { assert HolderOk(s, d); }
    forall b: nat | b < |s'.blocks| ensures BlockOk(s', b) { assert BlockOk(s, b); }
  }

  /** Claiming takes the next indices in order, for this consumer alone. */
  lemma ClaimKeepsData(s: State, c: nat)
    requires DataInv(s) && ConsEnabled(s, c) && s.cons[c].CClaim? && 0 < s.cons[c].a
    requires s.prods[s.cons[c].p].head + s.cons[c].a <= s.prods[s.cons[c].p].tail
    ensures DataInv(ConsStep(s, c))
  {
    var s' := ConsStep(s, c);
    forall p: nat | p < |s'.prods| ensures ProdOk(s', p) { assert ProdOk(s, p); }
    forall p: nat, n: nat | p < |s'.prods| && n < |s'.prods[p].index| ensures EntryOk(s', p, n) { assert EntryOk(s, p, n); }
    ClaimClaims(s, c);
    ClaimHolders(s, c);
    forall b: nat | b < |s'.blocks| ensures BlockOk(s', b) {
      assert BlockOk(s, b);
      var loc := s.blocks[b].loc;
      if loc.Owned? || loc.Closing? { LiveFrame(s, s', b, loc.p, loc.n); }
    }
  }

  lemma ClaimClaims(s: State, c: nat)
    requires DataInv(s) && ConsEnabled(s, c) && s.cons[c].CClaim?
    ensures forall p, i :: 0 <= p < |s.prods| && 0 <= i < |ConsStep(s, c).prods[p].claimer| ==> ClaimOk(ConsStep(s, c), p, i)
  {
    var s' := ConsStep(s, c);
    assert ProdOk(s, s.cons[c].p);
    forall p: nat, i: nat | p < |s'.prods| && i < |s'.prods[p].claimer| ensures ClaimOk(s', p, i) {
      if i < |s.prods[p].claimer| { assert ClaimOk(s, p, i); }
    }
  }

  lemma ClaimHolders(s: State, c: nat)
    requires DataInv(s) && ConsEnabled(s, c) && s.cons[c].CClaim? && 0 < s.cons[c].a
    ensures forall d :: 0 <= d < |s.cons| ==> HolderOk(ConsStep(s, c), d)
  {
    var s' := ConsStep(s, c);
    assert ProdOk(s, s.cons[c].p);
    forall d: nat | d < |s'.cons| ensures HolderOk(s', d) { assert HolderOk(s, d); }
  }

  lemma EntryKeepsData(s: State, c: nat)
    requires DataInv(s) && ConsEnabled(s, c) && s.cons[c].CEntry?
    ensures DataInv(ConsStep(s, c))
  {
    var s' := ConsStep(s, c);
    assert HolderOk(s, c);
    forall p: nat | p < |s'.prods| ensures ProdOk(s', p) { assert ProdOk(s, p); }
    forall p: nat, n: nat | p < |s'.prods| && n < |s'.prods[p].index| ensures EntryOk(s', p, n) { assert EntryOk(s, p, n); }
    forall p: nat, i: nat | p < |s'.prods| && i < |s'.prods[p].claimer| ensures ClaimOk(s', p, i) { assert ClaimOk(s, p, i); }
    forall d: nat | d < |s'.cons| ensures HolderOk(s', d) { assert HolderOk(s, d); }
    forall b: nat | b < |s'.blocks| ensures BlockOk(s', b) { assert BlockOk(s, b); }
  }

  /** A live block stays as described when nothing of its range changes. */
  lemma LiveFrame(s: State, s': State, b: nat, p: nat, n: nat)
    requires b < |s.blocks| && b < |s'.blocks| && LiveBlock(s, b, p, n)
    requires s'.blocks[b].done == s.blocks[b].done && s'.blocks[b].slots == s.blocks[b].slots
    requires p < |s'.prods| && BlockAt(s'.prods[p], n, b)
    requires forall i :: i in RangeOf(n) ==>
               (i in s'.prods[p].retired <==> i in s.prods[p].retired) && Expected(s'.prods[p], i) == Expected(s.prods[p], i)
    ensures LiveBlock(s', b, p, n)
  {
    assert s'.prods[p].retired * RangeOf(n) == s.prods[p].retired * RangeOf(n);
    forall k: nat | k < BLOCK_SIZE ensures s'.blocks[b].slots[k] == Expected(s'.prods[p], n * BLOCK_SIZE + k) {
      assert n * BLOCK_SIZE + k in RangeOf(n);
    }
  }

  /** Producer `p0` has changed at most at the range of its block `n0`. */
  ghost predicate ChangedAt(s: State, s': State, p0: nat, n0: nat) {
    && |s'.prods| == |s.prods| && p0 < |s.prods| && s'.prods == s.prods[p0 := s'.prods[p0]]
    && s.prods[p0].pc == s'.prods[p0].pc && s'.prods[p0].hist == s.prods[p0].hist
    && |s'.prods[p0].index| == |s.prods[p0].index|
    && (forall n :: 0 <= n < |s.prods[p0].index| && n != n0 ==> s'.prods[p0].index[n] == s.prods[p0].index[n])
    && (forall i :: i !in RangeOf(n0) ==> (i in s'.prods[p0].retired <==> i in s.prods[p0].retired))
    && (forall i :: i !in RangeOf(n0) ==> (i in s'.prods[p0].taken <==> i in s.prods[p0].taken))
  }

  lemma OtherLive(s: State, s': State, p0: nat, n0: nat, b: nat, p: nat, n: nat)
    requires b < |s.blocks| && b < |s'.blocks| && s'.blocks[b] == s.blocks[b] && LiveBlock(s, b, p, n)
    requires ChangedAt(s, s', p0, n0) && !(p == p0 && n == n0)
    ensures LiveBlock(s', b, p, n)
  {
    if p == p0 { RangesDisjoint(n, n0); }
    LiveFrame(s, s', b, p, n);
  }

  lemma OtherBlock(s: State, s': State, p0: nat, n0: nat, b0: nat, c: nat, b: nat)
    requires DataInv(s) && p0 < |s.prods| && b < |s.blocks| && b != b0 && c < |s.cons|
    requires s'.poolNext == s.poolNext && s'.poolSize == s.poolSize
    requires |s'.blocks| == |s.blocks| && |s'.cons| == |s.cons| && s'.cons == s.cons[c := s'.cons[c]]
    requires s'.blocks[b] == s.blocks[b]
    requires (s.cons[c].CUnlink? || s.cons[c].CFree?) ==> s.cons[c].b == b0
    requires n0 < |s.prods[p0].index| && s.prods[p0].index[n0] == Some(b0)
    requires ChangedAt(s, s', p0, n0)
    ensures BlockOk(s', b)
  {
    assert BlockOk(s, b);
    var loc := s.blocks[b].loc;
    if loc.Owned? || loc.Closing? {
      OtherLive(s, s', p0, n0, b, loc.p, loc.n);
    }
  }

  lemma RangesDisjoint(m: nat, n: nat)
    requires m != n
    ensures RangeOf(m) !! RangeOf(n)
  {
  }

  lemma MoveKeepsData(s: State, c: nat)
    requires DataInv(s) && ConsEnabled(s, c) && s.cons[c].CMove?
    ensures DataInv(ConsStep(s, c))
  {
    var s' := ConsStep(s, c);
    var pc := s.cons[c];
    HeldBlock(s, c);
    MoveProds(s, c);
    MoveHolders(s, c);
    forall b: nat | b < |s'.blocks| ensures BlockOk(s', b) {
      if b == pc.b { MoveBlock(s, c); } else { MoveOthers(s, c, b); }
    }
    assert Shaped(s');
  }

  lemma MoveOthers(s: State, c: nat, b: nat)
    requires DataInv(s) && ConsEnabled(s, c) && s.cons[c].CMove? && b < |s.blocks| && b != s.cons[c].b
    ensures BlockOk(ConsStep(s, c), b)
  {
    var pc := s.cons[c];
    HeldBlock(s, c);
    assert HolderOk(s, c);
    SameBlock(pc.i, pc.j);
    assert pc.j in RangeOf(pc.i / BLOCK_SIZE);
    OtherBlock(s, ConsStep(s, c), pc.p, pc.i / BLOCK_SIZE, pc.b, c, b);
  }

  lemma MoveProds(s: State, c: nat)
    requires DataInv(s) && ConsEnabled(s, c) && s.cons[c].CMove?
    ensures forall p :: 0 <= p < |s.prods| ==> ProdOk(ConsStep(s, c), p)
    ensures forall p, n :: 0 <= p < |s.prods| && 0 <= n < |s.prods[p].index| ==> EntryOk(ConsStep(s, c), p, n)
    ensures forall p, i :: 0 <= p < |s.prods| && 0 <= i < |s.prods[p].claimer| ==> ClaimOk(ConsStep(s, c), p, i)
  {
    var s' := ConsStep(s, c);
    assert HolderOk(s, c);
    forall p: nat | p < |s.prods| ensures ProdOk(s', p) { assert ProdOk(s, p); }
    forall p: nat, n: nat | p < |s.prods| && n < |s.prods[p].index| ensures EntryOk(s', p, n) { assert EntryOk(s, p, n); }
    forall p: nat, i: nat | p < |s.prods| && i < |s.prods[p].claimer| ensures ClaimOk(s', p, i) { assert ClaimOk(s, p, i); }
  }

  /** What moving element `j` out changes for its producer and the consumer. */
  lemma MoveIs(s: State, c: nat, s': State)
    requires ConsEnabled(s, c) && s.cons[c].CMove? && s' == ConsStep(s, c)
    ensures var pc := s.cons[c]; var pr := s.prods[pc.p];
      && c < |s'.cons| && pc.p < |s'.prods|
      && s'.cons[c] == (if pc.j + 1 < pc.be then pc.(j := pc.j + 1) else CEmpty(pc.p, pc.i, pc.be, pc.e, pc.b))
      && s'.prods[pc.p] == pr.(taken := pr.taken + {pc.j})
      && pc.b < |s'.blocks|
      && s'.blocks[pc.b] == s.blocks[pc.b].(slots := s.blocks[pc.b].slots[pc.j % BLOCK_SIZE := None])
  {
  }

  lemma MoveOwnHolder(s: State, c: nat)
    requires DataInv(s) && ConsEnabled(s, c) && s.cons[c].CMove?
    ensures c < |ConsStep(s, c).cons| && HolderOk(ConsStep(s, c), c)
  {
    MoveIs(s, c, ConsStep(s, c));
    assert HolderOk(s, c);
  }

  lemma MoveOtherHolder(s: State, c: nat, d: nat)
    requires DataInv(s) && ConsEnabled(s, c) && s.cons[c].CMove? && d < |s.cons| && d != c
    ensures d < |ConsStep(s, c).cons| && HolderOk(ConsStep(s, c), d)
  {
    HeldBlock(s, c);
    assert HolderOk(s, c) && HolderOk(s, d);
  }

  lemma MoveHolders(s: State, c: nat)
    requires DataInv(s) && ConsEnabled(s, c) && s.cons[c].CMove?
    ensures forall d :: 0 <= d < |s.cons| ==> HolderOk(ConsStep(s, c), d)
  {
    var s' := ConsStep(s, c);
    forall d: nat | d < |s.cons| ensures HolderOk(s', d) {
      if d == c { MoveOwnHolder(s, c); } else { MoveOtherHolder(s, c, d); }
    }
  }

  lemma MovedSlots(slots: seq<Option<Item>>, slots': seq<Option<Item>>, pr: Prod, n: nat, j: nat)
    requires |slots| == BLOCK_SIZE && j == n * BLOCK_SIZE + j % BLOCK_SIZE && j < |pr.hist|
    requires slots' == slots[j % BLOCK_SIZE := None]
    requires forall k: nat :: k < BLOCK_SIZE ==> slots[k] == Expected(pr, n * BLOCK_SIZE + k)
    ensures forall k: nat :: k < BLOCK_SIZE ==> slots'[k] == Expected(pr.(taken := pr.taken + {j}), n * BLOCK_SIZE + k)
  {
    forall k: nat | k < BLOCK_SIZE ensures slots'[k] == Expected(pr.(taken := pr.taken + {j}), n * BLOCK_SIZE + k) {
      assert slots[k] == Expected(pr, n * BLOCK_SIZE + k);
    }
  }

  lemma MoveBlock(s: State, c: nat)
    requires DataInv(s) && ConsEnabled(s, c) && s.cons[c].CMove?
    ensures s.cons[c].b < |s.blocks| && BlockOk(ConsStep(s, c), s.cons[c].b)
  {
    var s' := ConsStep(s, c);
    var pc := s.cons[c];
    HeldBlock(s, c);
    assert HolderOk(s, c) && ProdOk(s, pc.p) && BlockOk(s, pc.b);
    SameBlock(pc.i, pc.j);
    MoveIs(s, c, s');
    MovedSlots(s.blocks[pc.b].slots, s'.blocks[pc.b].slots, s.prods[pc.p], pc.i / BLOCK_SIZE, pc.j);
    assert LiveBlock(s', pc.b, pc.p, pc.i / BLOCK_SIZE);
  }

  lemma IntervalInRange(i: nat, be: nat, e: nat)
    requires i < be == Min(BlockEnd(i), e)
    ensures Interval(i, be) <= RangeOf(i / BLOCK_SIZE)
  {
  }

  lemma EmptyKeepsData(s: State, c: nat)
    requires DataInv(s) && ConsEnabled(s, c) && s.cons[c].CEmpty?
    ensures DataInv(ConsStep(s, c))
  {
    var s' := ConsStep(s, c);
    HeldBlock(s, c);
    EmptyProds(s, c);
    EmptyHolders(s, c);
    forall b: nat | b < |s'.blocks| ensures BlockOk(s', b) {
      if b == s.cons[c].b { EmptyBlock(s, c); } else { EmptyOthers(s, c, b); }
    }
    assert Shaped(s');
  }

  lemma EmptyProds(s: State, c: nat)
    requires DataInv(s) && ConsEnabled(s, c) && s.cons[c].CEmpty?
    ensures forall p :: 0 <= p < |s.prods| ==> ProdOk(ConsStep(s, c), p)
    ensures forall p, n :: 0 <= p < |s.prods| && 0 <= n < |s.prods[p].index| ==> EntryOk(ConsStep(s, c), p, n)
    ensures forall p, i :: 0 <= p < |s.prods| && 0 <= i < |s.prods[p].claimer| ==> ClaimOk(ConsStep(s, c), p, i)
  {
    var s' := ConsStep(s, c);
    HeldBlock(s, c);
    forall p: nat | p < |s.prods| ensures ProdOk(s', p) { EmptyProd(s, c, p); }
    forall p: nat, n: nat | p < |s.prods| && n < |s.prods[p].index| ensures EntryOk(s', p, n) { EmptyEntry(s, c, p, n); }
    forall p: nat, i: nat | p < |s.prods| && i < |s.prods[p].claimer| ensures ClaimOk(s', p, i) {
      assert ClaimOk(s, p, i);
    }
  }

  lemma EmptyIs(s: State, c: nat, s': State)
    requires ConsEnabled(s, c) && s.cons[c].CEmpty? && s' == ConsStep(s, c)
    ensures var pc := s.cons[c];
      && |s'.prods| == |s.prods| && |s'.blocks| == |s.blocks| && s'.cons == s.cons[c := s'.cons[c]]
      && s'.prods == s.prods[pc.p := s.prods[pc.p].(retired := s.prods[pc.p].retired + Interval(pc.i, pc.be))]
      && (forall b :: 0 <= b < |s.blocks| && b != pc.b ==> s'.blocks[b] == s.blocks[b])
  {
  }

  lemma EmptyTurns(s: State, c: nat, s': State)
    requires ConsEnabled(s, c) && s.cons[c].CEmpty? && s' == ConsStep(s, c)
    ensures var pc := s.cons[c];
      && c < |s'.cons| && pc.b < |s'.blocks|
      && if s'.blocks[pc.b].done == BLOCK_SIZE
         then s'.cons[c] == CUnlink(pc.p, pc.i / BLOCK_SIZE, pc.be, pc.e, pc.b)
              && s'.blocks[pc.b].loc == Closing(pc.p, pc.i / BLOCK_SIZE, c)
         else s'.cons[c] == Continue(pc.p, pc.be, pc.e) && s'.blocks[pc.b].loc == s.blocks[pc.b].loc
  {
  }

  lemma EmptyOtherProd(s: State, c: nat, p: nat)
    requires DataInv(s) && ConsEnabled(s, c) && s.cons[c].CEmpty? && p < |s.prods| && p != s.cons[c].p
    ensures p < |ConsStep(s, c).prods| && ProdOk(ConsStep(s, c), p)
  {
    HeldBlock(s, c);
    EmptyIs(s, c, ConsStep(s, c));
    assert ProdOk(s, p);
  }

  lemma EmptyOwnProd(s: State, c: nat)
    requires DataInv(s) && ConsEnabled(s, c) && s.cons[c].CEmpty?
    ensures s.cons[c].p < |ConsStep(s, c).prods| && ProdOk(ConsStep(s, c), s.cons[c].p)
  {
    HeldBlock(s, c);
    EmptyIs(s, c, ConsStep(s, c));
    assert HolderOk(s, c) && ProdOk(s, s.cons[c].p);
  }

  lemma EmptyProd(s: State, c: nat, p: nat)
    requires DataInv(s) && ConsEnabled(s, c) && s.cons[c].CEmpty? && p < |s.prods|
    ensures p < |ConsStep(s, c).prods| && ProdOk(ConsStep(s, c), p)
  {
    if p == s.cons[c].p { EmptyOwnProd(s, c); } else { EmptyOtherProd(s, c, p); }
  }

  lemma EmptyEntry(s: State, c: nat, p: nat, n: nat)
    requires DataInv(s) && ConsEnabled(s, c) && s.cons[c].CEmpty? && p < |s.prods| && n < |s.prods[p].index|
    ensures EntryOk(ConsStep(s, c), p, n)
  {
    HeldBlock(s, c);
    assert EntryOk(s, p, n);
  }

  lemma EmptyOwnHolder(s: State, c: nat)
    requires DataInv(s) && ConsEnabled(s, c) && s.cons[c].CEmpty?
    ensures c < |ConsStep(s, c).cons| && HolderOk(ConsStep(s, c), c)
  {
    HeldBlock(s, c);
    EmptyIs(s, c, ConsStep(s, c));
    EmptyTurns(s, c, ConsStep(s, c));
    assert HolderOk(s, c);
  }

  /** A holder sees only its own claim, its entry, and where its block is. */
  lemma HolderKept(s: State, s': State, d: nat)
    requires d < |s.cons| && d < |s'.cons| && s'.cons[d] == s.cons[d] && HolderOk(s, d)
    requires |s'.prods| == |s.prods| && |s'.blocks| == |s.blocks|
    requires forall p :: 0 <= p < |s.prods| ==>
               && s'.prods[p].claimer == s.prods[p].claimer && s'.prods[p].taken == s.prods[p].taken
               && s'.prods[p].index == s.prods[p].index
    requires forall p, i :: 0 <= p < |s.prods| && InHold(s.cons[d], p, i) ==> (i in s'.prods[p].retired <==> i in s.prods[p].retired)
    requires s.cons[d].CUnlink? || s.cons[d].CFree? ==> s.cons[d].b < |s.blocks| ==> s'.blocks[s.cons[d].b] == s.blocks[s.cons[d].b]
    ensures HolderOk(s', d)
  {
    var pc := s.cons[d];
    if Holds(pc) {
      forall i | HoldOf(pc).lo <= i < HoldOf(pc).e ensures i in s'.prods[pc.p].retired <==> i in s.prods[pc.p].retired {
        assert InHold(pc, pc.p, i);
      }
    }
  }

  /** The indices one consumer retires are not those another one holds. */
  lemma HoldsApart(s: State, c: nat, d: nat, p: nat, i: nat)
    requires DataInv(s) && c < |s.cons| && s.cons[c].CEmpty? && d < |s.cons| && d != c && p < |s.prods|
    requires InHold(s.cons[d], p, i) && p == s.cons[c].p
    ensures i !in Interval(s.cons[c].i, s.cons[c].be)
  {
    ClaimedByHolder(s, d, i);
    var pc := s.cons[c];
    assert HolderOk(s, c);
    assert pc.be <= pc.e;
    assert pc.i <= i < pc.be ==> InHold(pc, p, i);
    if InHold(pc, p, i) { ClaimedByHolder(s, c, i); }
  }

  lemma ClaimedByHolder(s: State, d: nat, i: nat)
    requires d < |s.cons| && HolderOk(s, d) && Holds(s.cons[d]) && InHold(s.cons[d], s.cons[d].p, i)
    ensures s.cons[d].p < |s.prods| && i < |s.prods[s.cons[d].p].claimer| && s.prods[s.cons[d].p].claimer[i] == d
  {
  }

  lemma EmptyOtherHolder(s: State, c: nat, d: nat)
    requires DataInv(s) && ConsEnabled(s, c) && s.cons[c].CEmpty? && d < |s.cons| && d != c
    ensures d < |ConsStep(s, c).cons| && HolderOk(ConsStep(s, c), d)
  {
    var s' := ConsStep(s, c);
    HeldBlock(s, c);
    EmptyIs(s, c, s');
    assert HolderOk(s, d);
    forall p, i: nat | 0 <= p < |s.prods| && InHold(s.cons[d], p, i)
      ensures i in s'.prods[p].retired <==> i in s.prods[p].retired
    {
      if p == s.cons[c].p { HoldsApart(s, c, d, p, i); }
    }
    HolderKept(s, s', d);
  }

  lemma EmptyHolders(s: State, c: nat)
    requires DataInv(s) && ConsEnabled(s, c) && s.cons[c].CEmpty?
    ensures forall d :: 0 <= d < |s.cons| ==> HolderOk(ConsStep(s, c), d)
  {
    var s' := ConsStep(s, c);
    forall d: nat | d < |s.cons| ensures HolderOk(s', d) {
      if d == c { EmptyOwnHolder(s, c); } else { EmptyOtherHolder(s, c, d); }
    }
  }

  lemma EmptyOthers(s: State, c: nat, b: nat)
    requires DataInv(s) && ConsEnabled(s, c) && s.cons[c].CEmpty? && b < |s.blocks| && b != s.cons[c].b
    ensures BlockOk(ConsStep(s, c), b)
  {
    var pc := s.cons[c];
    HeldBlock(s, c);
    assert HolderOk(s, c);
    IntervalInRange(pc.i, pc.be, pc.e);
    OtherBlock(s, ConsStep(s, c), pc.p, pc.i / BLOCK_SIZE, pc.b, c, b);
  }

  lemma CountRetired(retired: set<nat>, i: nat, be: nat, e: nat)
    requires i < be == Min(BlockEnd(i), e) && retired !! Interval(i, be)
    ensures var n := i / BLOCK_SIZE;
      |(retired + Interval(i, be)) * RangeOf(n)| == |retired * RangeOf(n)| + be - i <= BLOCK_SIZE
  {
    var n := i / BLOCK_SIZE;
    IntervalInRange(i, be, e);
    assert (retired + Interval(i, be)) * RangeOf(n) == retired * RangeOf(n) + Interval(i, be);
    Sets.SubsetSize(retired * RangeOf(n) + Interval(i, be), RangeOf(n));
  }

  /** The counter of a block counts its retired indices, so reaching the block size means all of them. */
  lemma EmptyBlock(s: State, c: nat)
    requires DataInv(s) && ConsEnabled(s, c) && s.cons[c].CEmpty?
    ensures s.cons[c].b < |s.blocks| && BlockOk(ConsStep(s, c), s.cons[c].b)
  {
    var s' := ConsStep(s, c);
    var pc := s.cons[c];
    var n := pc.i / BLOCK_SIZE;
    HeldBlock(s, c);
    assert HolderOk(s, c) && BlockOk(s, pc.b);
    CountRetired(s.prods[pc.p].retired, pc.i, pc.be, pc.e);
    EmptySlotsStay(s, c);
    assert LiveBlock(s', pc.b, pc.p, n);
  }

  lemma EmptySlotsStay(s: State, c: nat)
    requires DataInv(s) && ConsEnabled(s, c) && s.cons[c].CEmpty? && s.cons[c].b < |s.blocks| && s.cons[c].p < |s.prods|
    ensures forall i :: Expected(ConsStep(s, c).prods[s.cons[c].p], i) == Expected(s.prods[s.cons[c].p], i)
  {
  }

  /** A block leaves the index only when every index in it has been retired, so no holder refers to it. */
  lemma UnlinkKeepsData(s: State, c: nat)
    requires DataInv(s) && ConsEnabled(s, c) && s.cons[c].CUnlink?
    ensures DataInv(ConsStep(s, c))
  {
    var s' := ConsStep(s, c);
    var pc := s.cons[c];
    assert HolderOk(s, c) && BlockOk(s, pc.b);
    FullCountIsWholeRange(s.prods[pc.p].retired, pc.n);
    UnlinkProds(s, c);
    UnlinkHolders(s, c);
    forall b: nat | b < |s'.blocks| ensures BlockOk(s', b) {
      if b == pc.b { ClosedBlockIsBare(s, c); } else { OtherBlock(s, s', pc.p, pc.n, pc.b, c, b); }
    }
    assert Shaped(s');
  }

  lemma UnlinkProds(s: State, c: nat)
    requires DataInv(s) && ConsEnabled(s, c) && s.cons[c].CUnlink? && RangeOf(s.cons[c].n) <= s.prods[s.cons[c].p].retired
    ensures forall p :: 0 <= p < |s.prods| ==> ProdOk(ConsStep(s, c), p)
    ensures forall p, n :: 0 <= p < |s.prods| && 0 <= n < |s.prods[p].index| ==> EntryOk(ConsStep(s, c), p, n)
    ensures forall p, i :: 0 <= p < |s.prods| && 0 <= i < |s.prods[p].claimer| ==> ClaimOk(ConsStep(s, c), p, i)
  {
    var s' := ConsStep(s, c);
    var pc := s.cons[c];
    assert HolderOk(s, c);
    forall p: nat | p < |s.prods| ensures ProdOk(s', p) {
      assert ProdOk(s, p);
      if p == pc.p {
        assert pc.n * BLOCK_SIZE + BLOCK_SIZE - 1 in RangeOf(pc.n);
        assert pc.n < s.prods[p].tail / BLOCK_SIZE;
      }
    }
    forall p: nat, n: nat | p < |s.prods| && n < |s.prods[p].index| ensures EntryOk(s', p, n) { assert EntryOk(s, p, n); }
    forall p: nat, i: nat | p < |s.prods| && i < |s.prods[p].claimer| ensures ClaimOk(s', p, i) { assert ClaimOk(s, p, i); }
  }

  lemma UnlinkHolders(s: State, c: nat)
    requires DataInv(s) && ConsEnabled(s, c) && s.cons[c].CUnlink? && RangeOf(s.cons[c].n) <= s.prods[s.cons[c].p].retired
    ensures forall d :: 0 <= d < |s.cons| ==> HolderOk(ConsStep(s, c), d)
  {
    var s' := ConsStep(s, c);
    assert HolderOk(s, c);
    assert HolderOk(s', c);
    forall d: nat | d < |s.cons| ensures HolderOk(s', d) {
      assert HolderOk(s, d);
      if s.cons[d].CMove? || s.cons[d].CEmpty? { HeldBlock(s, d); }
    }
  }

  lemma ClosedBlockIsBare(s: State, c: nat)
    requires DataInv(s) && ConsEnabled(s, c) && s.cons[c].CUnlink? && RangeOf(s.cons[c].n) <= s.prods[s.cons[c].p].retired
    ensures s.cons[c].b < |s.blocks| && NoElements(s.blocks[s.cons[c].b])
  {
    var pc := s.cons[c];
    assert HolderOk(s, c) && BlockOk(s, pc.b) && ProdOk(s, pc.p);
    forall k: nat | k < BLOCK_SIZE ensures s.blocks[pc.b].slots[k] == None {
      assert pc.n * BLOCK_SIZE + k in RangeOf(pc.n);
    }
    assert s.blocks[pc.b].slots == EmptySlots();
  }

  lemma FreeKeepsData(s: State, c: nat)
    requires DataInv(s) && ConsEnabled(s, c) && s.cons[c].CFree?
    ensures DataInv(ConsStep(s, c))
  {
    var s' := ConsStep(s, c);
    assert HolderOk(s, c) && BlockOk(s, s.cons[c].b);
    forall p: nat | p < |s'.prods| ensures ProdOk(s', p) { assert ProdOk(s, p); }
    forall p: nat, n: nat | p < |s'.prods| && n < |s'.prods[p].index| ensures EntryOk(s', p, n) { assert EntryOk(s, p, n); }
    forall p: nat, i: nat | p < |s'.prods| && i < |s'.prods[p].claimer| ensures ClaimOk(s', p, i) { assert ClaimOk(s, p, i); }
    forall d: nat | d < |s'.cons| ensures HolderOk(s', d) { assert HolderOk(s, d); }
    FreeBlocks(s, c);
  }

  lemma FreeBlocks(s: State, c: nat)
    requires DataInv(s) && ConsEnabled(s, c) && s.cons[c].CFree?
    ensures var s' := ConsStep(s, c); |s'.blocks| == |s.blocks| && forall b :: 0 <= b < |s'.blocks| ==> BlockOk(s', b)
  {
    var s' := ConsStep(s, c);
    assert HolderOk(s, c) && BlockOk(s, s.cons[c].b);
    forall b: nat | b < |s'.blocks| ensures BlockOk(s', b) {
      assert BlockOk(s, b);
      var loc := s.blocks[b].loc;
      if loc.Owned? || loc.Closing? { LiveFrame(s, s', b, loc.p, loc.n); }
    }
  }

  lemma ConsStepKeepsData(s: State, c: nat)
    requires DataInv(s) && CounterInv(s) && ConsEnabled(s, c)
    ensures DataInv(ConsStep(s, c))
  {
    assert ConsOk(s, c);
    var pc := s.cons[c];
    if pc.CClaim? {
      assert CountersOk(s, pc.p);
      CommittedMember(s.cons, c, pc.p, s.prods[pc.p].gmy);
      ClaimKeepsData(s, c);
    } else if pc.CEntry? {
      EntryKeepsData(s, c);
    } else if pc.CMove? {
      MoveKeepsData(s, c);
    } else if pc.CEmpty? {
      EmptyKeepsData(s, c);
    } else if pc.CUnlink? {
      UnlinkKeepsData(s, c);
    } else if pc.CFree? {
      FreeKeepsData(s, c);
    } else {
      QuietStepKeepsData(s, ConsStep(s, c), c);
    }
  }

  // ---------- steps of a producer ----------

  /** A step of producer `p`: it may change blocks no other party has, append to its index, and move. */
  ghost predicate ProdTouches(s: State, s': State, p: nat) {
    && p < |s.prods| && |s'.prods| == |s.prods| && s'.prods == s.prods[p := s'.prods[p]] && s'.cons == s.cons
    && s'.prods[p].(opt := 0, over := 0, gmy := 0, hw := 0, index := [], tailBlock := None, pc := PIdle, tail := 0, hist := [])
       == s.prods[p].(opt := 0, over := 0, gmy := 0, hw := 0, index := [], tailBlock := None, pc := PIdle, tail := 0, hist := [])
    && s.prods[p].index <= s'.prods[p].index
    && Shaped(s') && |s.blocks| <= |s'.blocks|
    && (forall b :: 0 <= b < |s.blocks| ==>
          var loc := s.blocks[b].loc;
          && ((loc.Handed? && loc.p != p) || loc.Closing? || loc.Releasing? ==> s'.blocks[b] == s.blocks[b])
          && (loc.Owned? ==> s'.blocks[b].loc == loc))
  }

  lemma ProdTouchKeepsConsumers(s: State, s': State, p: nat)
    requires DataInv(s) && ProdTouches(s, s', p)
    ensures forall q, i :: 0 <= q < |s'.prods| && 0 <= i < |s'.prods[q].claimer| ==> ClaimOk(s', q, i)
    ensures forall d :: 0 <= d < |s'.cons| ==> HolderOk(s', d)
    ensures forall q, n :: 0 <= q < |s'.prods| && 0 <= n < |s.prods[q].index| ==> EntryOk(s', q, n)
    ensures forall q :: 0 <= q < |s'.prods| && q != p ==> ProdOk(s', q)
  {
    forall q: nat, i: nat | q < |s'.prods| && i < |s'.prods[q].claimer| ensures ClaimOk(s', q, i) { assert ClaimOk(s, q, i); }
    forall d: nat | d < |s'.cons| ensures HolderOk(s', d) {
      assert HolderOk(s, d);
      if s.cons[d].CMove? || s.cons[d].CEmpty? { HeldBlock(s, d); }
    }
    forall q: nat, n: nat | q < |s'.prods| && n < |s.prods[q].index| ensures EntryOk(s', q, n) {
      assert EntryOk(s, q, n);
    }
    forall q: nat | q < |s'.prods| && q != p ensures ProdOk(s', q) { assert ProdOk(s, q); }
  }

  /** A block the step does not change, whose range the step does not write to. */
  lemma ProdTouchKeepsBlock(s: State, s': State, p: nat, b: nat)
    requires DataInv(s) && ProdTouches(s, s', p) && b < |s.blocks| && s'.blocks[b] == s.blocks[b]
    requires s'.poolSize == s.poolSize && s.poolNext <= s'.poolNext
    requires s.blocks[b].loc.InPool? ==> s'.poolNext <= b
    requires s.blocks[b].loc != Handed(p)
    requires s.blocks[b].loc.Owned? || s.blocks[b].loc.Closing? ==>
               var n := s.blocks[b].loc.n;
               s.blocks[b].loc.p == p ==> forall i :: i in RangeOf(n) ==> Expected(s'.prods[p], i) == Expected(s.prods[p], i)
    ensures BlockOk(s', b)
  {
    assert BlockOk(s, b);
    var loc := s.blocks[b].loc;
    if loc.Owned? || loc.Closing? { LiveFrame(s, s', b, loc.p, loc.n); }
  }

  /** A producer's move that changes nothing but its program point. */
  lemma ProdMoveKeepsData(s: State, s': State, p: nat)
    requires DataInv(s) && ProdTouches(s, s', p) && s'.blocks == s.blocks && s'.prods[p] == s.prods[p].(pc := s'.prods[p].pc)
    requires s'.poolSize == s.poolSize && s.poolNext <= s'.poolNext && (s'.poolNext == s.poolNext || s.poolNext >= s.poolSize)
    requires !s.prods[p].pc.PReset? && !s.prods[p].pc.PInstall? && !s.prods[p].pc.PPublish? && !s'.prods[p].pc.PPublish?
    requires ProdOk(s', p)
    ensures DataInv(s')
  {
    ProdTouchKeepsConsumers(s, s', p);
    forall b: nat | b < |s'.blocks| ensures BlockOk(s', b) {
      assert BlockOk(s, b);
      ProdTouchKeepsBlock(s, s', p, b);
    }
  }

  /** The fullness test in true counters: passing it keeps the whole new block within half a turn. */
  lemma CheckIsExact(head: nat, tail: nat)
    requires head <= tail && tail - head < HALF
    ensures Full(head, tail) <==> tail + BLOCK_SIZE - head >= HALF
  {
    CircularLessThanWindow(head, tail + BLOCK_SIZE - head);
  }

  lemma EnqueueKeepsData(s: State, p: nat, x: Item)
    requires DataInv(s) && p < |s.prods| && s.prods[p].pc.PIdle?
    ensures DataInv(CallEnqueue(s, p, x))
  {
    assert ProdOk(s, p);
    ProdMoveKeepsData(s, CallEnqueue(s, p, x), p);
  }

  lemma CheckKeepsData(s: State, p: nat, ch: Choice)
    requires DataInv(s) && ProdEnabled(s, p, ch)
    requires s.prods[p].pc.PCheck? || s.prods[p].pc.PPoolLoad?
    ensures DataInv(ProdStep(s, p, ch))
  {
    assert ProdOk(s, p);
    CheckIsExact(s.prods[p].head, s.prods[p].tail);
    ProdMoveKeepsData(s, ProdStep(s, p, ch), p);
  }

  /** A block that nobody has reaches the producer. */
  lemma ReceiveKeepsData(s: State, s0: State, p: nat, x: Item, b: nat)
    requires DataInv(s) && p < |s.prods| && s0.prods == s.prods && s0.cons == s.cons && s0.poolSize == s.poolSize
    requires s.poolNext <= s0.poolNext && b < |s0.blocks|
    requires s.prods[p].pc.PPoolTake? || s.prods[p].pc.PFree? || s.prods[p].pc.PCreate?
    requires s0.blocks == s.blocks || (s0.blocks == s.blocks + [Block(0, EmptySlots(), Free)] && b == |s.blocks|)
    requires (s0.blocks[b].loc.Free? && s0.poolNext == s.poolNext && !(s.poolNext <= b < s.poolSize)) ||
             (s0.blocks[b].loc.InPool? && b == s.poolNext && s0.poolNext == b + 1)
    ensures DataInv(Receive(s0, p, x, b))
  {
    var s' := Receive(s0, p, x, b);
    assert ProdOk(s, p);
    assert b < |s.blocks| ==> BlockOk(s, b);
    assert ProdTouches(s, s', p);
    ProdTouchKeepsConsumers(s, s', p);
    forall d: nat | d < |s'.blocks| ensures BlockOk(s', d) {
      if d != b {
        assert BlockOk(s, d);
        ProdTouchKeepsBlock(s, s', p, d);
      }
    }
  }

  lemma RequisitionKeepsData(s: State, p: nat, ch: Choice)
    requires DataInv(s) && ProdEnabled(s, p, ch)
    requires s.prods[p].pc.PPoolTake? || s.prods[p].pc.PFree? || s.prods[p].pc.PCreate?
    ensures DataInv(ProdStep(s, p, ch))
  {
    var s' := ProdStep(s, p, ch);
    assert ProdOk(s, p);
    match s.prods[p].pc
    case PPoolTake(x) =>
      if s.poolNext < s.poolSize {
        assert BlockOk(s, s.poolNext);
        ReceiveKeepsData(s, s.(poolNext := s.poolNext + 1), p, x, s.poolNext);
      } else {
        ProdMoveKeepsData(s, s', p);
      }
    case PFree(x) =>
      if ch.Gets? { ReceiveKeepsData(s, s, p, x, ch.b); } else { ProdMoveKeepsData(s, s', p); }
    case PCreate(x) =>
      if ch.Fails? {
        ProdMoveKeepsData(s, s', p);
      } else {
        ReceiveKeepsData(s, s.(blocks := s.blocks + [Block(0, EmptySlots(), Free)]), p, x, |s.blocks|);
      }
  }

  lemma ResetKeepsData(s: State, p: nat, ch: Choice)
    requires DataInv(s) && ProdEnabled(s, p, ch) && s.prods[p].pc.PReset?
    ensures DataInv(ProdStep(s, p, ch))
  {
    var s' := ProdStep(s, p, ch);
    var b := s.prods[p].pc.b;
    assert ProdOk(s, p) && BlockOk(s, b);
    ProdTouchKeepsConsumers(s, s', p);
    forall d: nat | d < |s'.blocks| ensures BlockOk(s', d) {
      assert BlockOk(s, d);
      if d != b { ProdTouchKeepsBlock(s, s', p, d); }
    }
  }

  /** The new block covers a range none of whose indices is published, taken or retired. */
  lemma InstallKeepsData(s: State, p: nat, ch: Choice)
    requires DataInv(s) && ProdEnabled(s, p, ch) && s.prods[p].pc.PInstall?
    ensures DataInv(ProdStep(s, p, ch))
  {
    assert ProdOk(s, p);
    InstallTouches(s, p, ch);
    ProdTouchKeepsConsumers(s, ProdStep(s, p, ch), p);
    InstalledBlock(s, p, ch);
    InstallBlocks(s, p, ch);
  }

  lemma InstallTouches(s: State, p: nat, ch: Choice)
    requires DataInv(s) && ProdEnabled(s, p, ch) && s.prods[p].pc.PInstall?
    ensures var s' := ProdStep(s, p, ch); ProdTouches(s, s', p) && ProdOk(s', p)
  {
    var s' := ProdStep(s, p, ch);
    var b := s.prods[p].pc.b;
    assert ProdOk(s, p) && BlockOk(s, b);
  }

  lemma InstallBlocks(s: State, p: nat, ch: Choice)
    requires DataInv(s) && ProdEnabled(s, p, ch) && s.prods[p].pc.PInstall?
    ensures var s' := ProdStep(s, p, ch);
      |s'.blocks| == |s.blocks| && forall d :: 0 <= d < |s'.blocks| && d != s.prods[p].pc.b ==> BlockOk(s', d)
  {
    var s' := ProdStep(s, p, ch);
    assert ProdOk(s, p);
    forall d: nat | d < |s'.blocks| && d != s.prods[p].pc.b ensures BlockOk(s', d) {
      assert BlockOk(s, d);
      ProdTouchKeepsBlock(s, s', p, d);
    }
  }

  lemma InstalledBlock(s: State, p: nat, ch: Choice)
    requires DataInv(s) && ProdEnabled(s, p, ch) && s.prods[p].pc.PInstall?
    ensures var s' := ProdStep(s, p, ch); var b, n := s.prods[p].pc.b, |s.prods[p].index|;
      p < |s'.prods| && n < |s'.prods[p].index| && EntryOk(s', p, n) && b < |s'.blocks| && BlockOk(s', b)
  {
    var s' := ProdStep(s, p, ch);
    var b, n := s.prods[p].pc.b, |s.prods[p].index|;
    assert ProdOk(s, p) && BlockOk(s, b);
    assert EntryOk(s', p, n);
    assert s'.prods[p].retired * RangeOf(n) == {};
    assert LiveBlock(s', b, p, n);
  }

  /** The element goes into a slot that holds none. */
  lemma WriteKeepsData(s: State, p: nat, ch: Choice)
    requires DataInv(s) && ProdEnabled(s, p, ch) && s.prods[p].pc.PWrite?
    ensures s.blocks[s.prods[p].tailBlock.value].slots[s.prods[p].tail % BLOCK_SIZE] == None
    ensures DataInv(ProdStep(s, p, ch))
  {
    var s' := ProdStep(s, p, ch);
    var pr := s.prods[p];
    var b, n := pr.tailBlock.value, pr.tail / BLOCK_SIZE;
    TailBlockIsOwned(s, p);
    ProdTouchKeepsConsumers(s, s', p);
    assert s.blocks[b].slots[pr.tail % BLOCK_SIZE] == Expected(pr, n * BLOCK_SIZE + pr.tail % BLOCK_SIZE);
    forall d: nat | d < |s'.blocks| ensures BlockOk(s', d) {
      assert BlockOk(s, d);
      if d != b {
        WriteElsewhere(s, p, ch, d);
      } else {
        WriteHere(s, p, ch);
      }
    }
  }

  /** The block under the tail is the producer's, with a slot not yet retired. */
  lemma TailBlockIsOwned(s: State, p: nat)
    requires DataInv(s) && p < |s.prods| && Started(s.prods[p])
    ensures ProdOk(s, p) && s.prods[p].tailBlock.Some? && s.prods[p].tailBlock.value < |s.blocks|
    ensures s.blocks[s.prods[p].tailBlock.value].loc == Owned(p, s.prods[p].tail / BLOCK_SIZE)
    ensures LiveBlock(s, s.prods[p].tailBlock.value, p, s.prods[p].tail / BLOCK_SIZE)
  {
    var pr := s.prods[p];
    var n := pr.tail / BLOCK_SIZE;
    assert ProdOk(s, p) && EntryOk(s, p, n) && BlockOk(s, pr.tailBlock.value);
    assert pr.tail in RangeOf(n) && pr.tail !in pr.retired;
    if s.blocks[pr.tailBlock.value].loc.Closing? {
      FullCountIsWholeRange(pr.retired, n);
    }
  }

  lemma WriteElsewhere(s: State, p: nat, ch: Choice, d: nat)
    requires DataInv(s) && ProdEnabled(s, p, ch) && s.prods[p].pc.PWrite?
    requires d < |s.blocks| && d != s.prods[p].tailBlock.value
    ensures BlockOk(ProdStep(s, p, ch), d)
  {
    var n := s.prods[p].tail / BLOCK_SIZE;
    TailBlockIsOwned(s, p);
    assert BlockOk(s, d);
    var loc := s.blocks[d].loc;
    if (loc.Owned? || loc.Closing?) && loc.p == p {
      assert loc.n != n;
      RangesDisjoint(loc.n, n);
      assert s.prods[p].tail in RangeOf(n);
    }
    ProdTouchKeepsBlock(s, ProdStep(s, p, ch), p, d);
  }

  lemma WriteHere(s: State, p: nat, ch: Choice)
    requires DataInv(s) && ProdEnabled(s, p, ch) && s.prods[p].pc.PWrite?
    ensures BlockOk(ProdStep(s, p, ch), s.prods[p].tailBlock.value)
  {
    var s' := ProdStep(s, p, ch);
    var b, n := s.prods[p].tailBlock.value, s.prods[p].tail / BLOCK_SIZE;
    TailBlockIsOwned(s, p);
    assert BlockOk(s, b);
    forall k: nat | k < BLOCK_SIZE ensures s'.blocks[b].slots[k] == Expected(s'.prods[p], n * BLOCK_SIZE + k) {
      assert s.blocks[b].slots[k] == Expected(s.prods[p], n * BLOCK_SIZE + k);
    }
    assert LiveBlock(s', b, p, n);
  }

  lemma PublishKeepsData(s: State, p: nat, ch: Choice)
    requires DataInv(s) && ProdEnabled(s, p, ch) && s.prods[p].pc.PPublish?
    ensures DataInv(ProdStep(s, p, ch))
  {
    var s' := ProdStep(s, p, ch);
    ProdTouchKeepsConsumers(s, s', p);
    PublishKeepsProd(s, p, ch);
    forall d: nat | d < |s'.blocks| ensures BlockOk(s', d) { PublishKeepsBlock(s, p, ch, d); }
  }

  /** The element that is published was expected in its slot before. */
  lemma PublishKeepsProd(s: State, p: nat, ch: Choice)
    requires DataInv(s) && ProdEnabled(s, p, ch) && s.prods[p].pc.PPublish?
    ensures var s' := ProdStep(s, p, ch);
      ProdOk(s', p) && forall i :: Expected(s'.prods[p], i) == Expected(s.prods[p], i)
  {
    TailBlockIsOwned(s, p);
  }

  lemma PublishKeepsBlock(s: State, p: nat, ch: Choice, d: nat)
    requires DataInv(s) && ProdEnabled(s, p, ch) && s.prods[p].pc.PPublish? && d < |s.blocks|
    ensures BlockOk(ProdStep(s, p, ch), d)
  {
    PublishKeepsProd(s, p, ch);
    assert BlockOk(s, d);
    ProdTouchKeepsBlock(s, ProdStep(s, p, ch), p, d);
  }

  lemma ProdStepKeepsData(s: State, p: nat, ch: Choice)
    requires DataInv(s) && ProdEnabled(s, p, ch)
    ensures DataInv(ProdStep(s, p, ch))
  {
    var pc := s.prods[p].pc;
    if pc.PCheck? || pc.PPoolLoad? {
      CheckKeepsData(s, p, ch);
    } else if pc.PReset? {
      ResetKeepsData(s, p, ch);
    } else if pc.PInstall? {
      InstallKeepsData(s, p, ch);
    } else if pc.PWrite? {
      WriteKeepsData(s, p, ch);
    } else if pc.PPublish? {
      PublishKeepsData(s, p, ch);
    } else {
      RequisitionKeepsData(s, p, ch);
    }
  }
}
