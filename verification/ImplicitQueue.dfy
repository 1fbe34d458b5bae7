/**
 The token-less path of ConcurrentQueue (ext/MoodyCamel/concurrentqueue.h) as a transition system: any
 number of implicit producers, each enqueued to by its own thread, any number of consumers that mix
 `dequeue` and `dequeue_bulk` freely over all producers, and the block pools they share.

 Each load, store or fetch_add of a shared word is one step. `dequeue` is the case `max == 1` of
 `dequeue_bulk`: the two test, reserve, claim and retire by the same arithmetic. The free list and the
 block index enter by what modules FreeList and BlockIndex prove of them: a free block is handed to one
 taker, and a lookup finds the entry of a live block. Counters are unbounded here; the producer's fullness
 test is the modular one of the code (see Words).

 Auxiliary fields, written and never read by steps: `hist` (items in index order), `claimer` (who claimed
 each index), `taken` and `retired` (indices moved out of, and counted off, their block), `gmy` and `hw`
 (reservation and limit of the granted claim that reserved last), and the log `out`. Of `loc`, which says who has
 a block, steps read only whether the block is in the free list, which is what stands for the list.
 */
module ImplicitQueue {
  import opened Options
  import opened Slots
  import opened Words

  /** Program points of a producer inside `enqueue`. */
  datatype ProdPC =
    | PIdle
    | PCheck(x: Item)                 // load headIndex, test for fullness
    | PPoolLoad(x: Item)              // load initialBlockPoolIndex
    | PPoolTake(x: Item)              // initialBlockPoolIndex.fetch_add(1)
    | PFree(x: Item)                  // freeList.try_get()
    | PCreate(x: Item)                // create<Block>()
    | PReset(x: Item, b: nat)         // reset_empty
    | PInstall(x: Item, b: nat)       // store the block in its index entry, and in tailBlock
    | PWrite(x: Item)                 // construct the element
    | PPublish(x: Item)               // store tailIndex

  /** Program points of a consumer inside `dequeue` or `dequeue_bulk` of producer `p`. */
  datatype ConsPC =
    | CIdle
    | CTail(p: nat, max: nat)                                      // load tailIndex
    | COver(p: nat, max: nat, tail: nat)                           // load dequeueOvercommit
    | COpt(p: nat, max: nat, tail: nat, over: nat)                 // load dequeueOptimisticCount and test
    | CReserve(p: nat, over: nat, k: nat)                          // dequeueOptimisticCount.fetch_add(k)
    | CRecheck(p: nat, over: nat, k: nat, my: nat)                 // load tailIndex and decide
    | CGiveBack(p: nat, k: nat, a: nat)                            // dequeueOvercommit.fetch_add(k - a)
    | CClaim(p: nat, a: nat)                                       // headIndex.fetch_add(a)
    | CRefund(p: nat, k: nat)                                      // dequeueOvercommit.fetch_add(k), fail
    | CEntry(p: nat, i: nat, e: nat)                               // load the index entry's block
    | CMove(p: nat, i: nat, j: nat, be: nat, e: nat, b: nat)       // move element j out and destroy it
    | CEmpty(p: nat, i: nat, be: nat, e: nat, b: nat)              // set_many_empty(i, be - i)
    | CUnlink(p: nat, n: nat, be: nat, e: nat, b: nat)             // store null in the index entry
    | CFree(p: nat, be: nat, e: nat, b: nat)                       // add_block_to_free_list

  datatype Prod = Prod(
    tail: nat, head: nat, opt: nat, over: nat,
    index: seq<Option<nat>>, tailBlock: Option<nat>, pc: ProdPC,
    hist: seq<Item>, claimer: seq<nat>, taken: set<nat>, retired: set<nat>, gmy: int, hw: int)

  /** Who has a block. `Free` is the free list: a step of `try_get` may yield any of these blocks (module FreeList).
      Where a block is otherwise can be seen from producers, consumers and the pool's index (OnePlace in module
      ImplicitQueueRuns). */
  datatype Loc =
    | InPool
    | Free
    | Handed(p: nat)                  // requisitioned, not yet in the index
    | Owned(p: nat, n: nat)           // block number n of producer p
    | Closing(p: nat, n: nat, c: nat) // counted empty by consumer c
    | Releasing(c: nat)               // out of the index, on its way to the free list

  datatype Block = Block(done: nat, slots: seq<Option<Item>>, loc: Loc)

  datatype Delivery = Delivery(c: nat, p: nat, i: nat, x: Item)

  datatype State = State(
    prods: seq<Prod>, cons: seq<ConsPC>, blocks: seq<Block>, poolNext: nat, poolSize: nat, out: seq<Delivery>)

  // ---------- sizes: what the steps need to be well defined ----------

  predicate Shaped(s: State) {
    && s.poolSize <= |s.blocks|
    && (forall b :: 0 <= b < |s.blocks| ==> |s.blocks[b].slots| == BLOCK_SIZE)
  }

  // ---------- producers ----------

  function SetProd(s: State, p: nat, pr: Prod): State
    requires p < |s.prods|
  {
    s.(prods := s.prods[p := pr])
  }

  function SetBlock(s: State, b: nat, bl: Block): State
    requires b < |s.blocks|
  {
    s.(blocks := s.blocks[b := bl])
  }

  /** The fullness test of `enqueue` at a block boundary, on the words of the two counters. */
  predicate Full(head: nat, tail: nat) {
    !CircularLessThan(head % WORD, (tail + BLOCK_SIZE) % WORD)
  }

  /** What the environment decides: which free block `try_get` yields, if any, and whether allocation works. */
  datatype Choice = Fails | Gets(b: nat) | Works

  /** A block from one of the pools reaches producer `p`. */
  function Receive(s: State, p: nat, x: Item, b: nat): State
    requires p < |s.prods| && b < |s.blocks|
  {
    SetProd(SetBlock(s, b, s.blocks[b].(loc := Handed(p))), p, s.prods[p].(pc := PReset(x, b)))
  }

  predicate ProdEnabled(s: State, p: nat, ch: Choice) {
    && p < |s.prods|
    && Shaped(s)
    && match s.prods[p].pc
       case PIdle => false
       case PFree(_) => ch.Gets? ==> ch.b < |s.blocks| && s.blocks[ch.b].loc.Free?
       case PReset(_, b) => b < |s.blocks|
       case PInstall(_, b) => b < |s.blocks|
       case PWrite(_) => s.prods[p].tailBlock.Some? && s.prods[p].tailBlock.value < |s.blocks|
       case _ => true
  }

  function ProdStep(s: State, p: nat, ch: Choice): State
    requires ProdEnabled(s, p, ch)
  {
    var pr := s.prods[p];
    match pr.pc
    case PCheck(x) =>
      // the entry is inserted in the block index here; that can fail for want of memory
      SetProd(s, p, pr.(pc := if Full(pr.head, pr.tail) || ch.Fails? then PIdle else PPoolLoad(x)))
    case PPoolLoad(x) => SetProd(s, p, pr.(pc := if s.poolNext >= s.poolSize then PFree(x) else PPoolTake(x)))
    case PPoolTake(x) =>
      var s' := s.(poolNext := s.poolNext + 1);
      if s.poolNext < s.poolSize then Receive(s', p, x, s.poolNext) else SetProd(s', p, pr.(pc := PFree(x)))
    case PFree(x) => if ch.Gets? then Receive(s, p, x, ch.b) else SetProd(s, p, pr.(pc := PCreate(x)))
    case PCreate(x) =>
      if ch.Fails? then SetProd(s, p, pr.(pc := PIdle))
      else Receive(s.(blocks := s.blocks + [Block(0, EmptySlots(), Free)]), p, x, |s.blocks|)
    case PReset(x, b) => SetProd(SetBlock(s, b, s.blocks[b].(done := 0)), p, pr.(pc := PInstall(x, b)))
    case PInstall(x, b) =>
      SetProd(SetBlock(s, b, s.blocks[b].(loc := Owned(p, |pr.index|))), p,
              pr.(pc := PWrite(x), index := pr.index + [Some(b)], tailBlock := Some(b)))
    case PWrite(x) =>
      var bl := s.blocks[pr.tailBlock.value];
      SetProd(SetBlock(s, pr.tailBlock.value, bl.(slots := bl.slots[pr.tail % BLOCK_SIZE := Some(x)])), p,
              pr.(pc := PPublish(x)))
    case PPublish(x) => SetProd(s, p, pr.(pc := PIdle, tail := pr.tail + 1, hist := pr.hist + [x]))
  }

  function CallEnqueue(s: State, p: nat, x: Item): State
    requires p < |s.prods|
  {
    var pr := s.prods[p];
    SetProd(s, p, pr.(pc := if pr.tail % BLOCK_SIZE == 0 then PCheck(x) else PWrite(x)))
  }

  // ---------- consumers ----------

  function Goto(s: State, c: nat, pc: ConsPC): State
    requires c < |s.cons|
  {
    s.(cons := s.cons[c := pc])
  }

  /** The end of the block that holds index `i`. */
  function BlockEnd(i: nat): nat {
    i / BLOCK_SIZE * BLOCK_SIZE + BLOCK_SIZE
  }

  /** After block-wise retirement up to `i`: go on with the next block, or return. */
  function Continue(p: nat, i: nat, e: nat): ConsPC {
    if i < e then CEntry(p, i, e) else CIdle
  }

  function Interval(lo: nat, hi: nat): (r: set<nat>)
    ensures forall i: nat :: i in r <==> lo <= i < hi
    ensures |r| == if lo < hi then hi - lo else 0
    decreases hi - lo
  {
    if lo >= hi then {} else {lo} + Interval(lo + 1, hi)
  }

  function Min(a: int, b: int): int {
    if a < b then a else b
  }

  predicate ConsEnabled(s: State, c: nat) {
    && c < |s.cons|
    && Shaped(s)
    && !s.cons[c].CIdle?
    && s.cons[c].p < |s.prods|
    && match s.cons[c]
       case CEntry(p, i, _) => i / BLOCK_SIZE < |s.prods[p].index| && s.prods[p].index[i / BLOCK_SIZE].Some?
       case CMove(_, i, j, be, e, b) =>
         b < |s.blocks| && i <= j < be <= e && s.blocks[b].slots[j % BLOCK_SIZE].Some?
       case CEmpty(_, _, _, _, b) => b < |s.blocks|
       case CUnlink(p, n, _, _, b) => b < |s.blocks| && n < |s.prods[p].index|
       case CFree(_, _, _, b) => b < |s.blocks|
       case CGiveBack(_, k, a) => a <= k
       case _ => true
  }

  function ConsStep(s: State, c: nat): State
    requires ConsEnabled(s, c)
  {
    var pr := s.prods[s.cons[c].p];
    match s.cons[c]
    case CTail(p, max) => Goto(s, c, COver(p, max, pr.tail))
    case COver(p, max, tail) => Goto(s, c, COpt(p, max, tail, pr.over))
    case COpt(p, max, tail, over) =>
      var desired := tail - (pr.opt - over);
      Goto(s, c, if desired > 0 && max > 0 then CReserve(p, over, Min(desired, max)) else CIdle)
    case CReserve(p, over, k) =>
      SetProd(Goto(s, c, CRecheck(p, over, k, pr.opt)), p, pr.(opt := pr.opt + k))
    case CRecheck(p, over, k, my) =>
      var actual := pr.tail - (my - over);
      if actual <= 0 then Goto(s, c, CRefund(p, k))
      else
        var a := Min(k, actual);
        SetProd(Goto(s, c, if a < k then CGiveBack(p, k, a) else CClaim(p, a)), p,
                if my > pr.gmy then pr.(gmy := my, hw := my - over + a) else pr)
    case CGiveBack(p, k, a) => SetProd(Goto(s, c, CClaim(p, a)), p, pr.(over := pr.over + k - a))
    case CClaim(p, a) =>
      SetProd(Goto(s, c, CEntry(p, pr.head, pr.head + a)), p,
              pr.(head := pr.head + a, claimer := pr.claimer + seq(a, _ => c)))
    case CRefund(p, k) => SetProd(Goto(s, c, CIdle), p, pr.(over := pr.over + k))
    case CEntry(p, i, e) => Goto(s, c, CMove(p, i, i, Min(BlockEnd(i), e), e, pr.index[i / BLOCK_SIZE].value))
    case CMove(p, i, j, be, e, b) =>
      var bl := s.blocks[b];
      var x := bl.slots[j % BLOCK_SIZE].value;
      SetProd(SetBlock(Goto(s, c, if j + 1 < be then CMove(p, i, j + 1, be, e, b) else CEmpty(p, i, be, e, b)),
                       b, bl.(slots := bl.slots[j % BLOCK_SIZE := None])), p,
              pr.(taken := pr.taken + {j})).(out := s.out + [Delivery(c, p, j, x)])
    case CEmpty(p, i, be, e, b) =>
      var done := s.blocks[b].done + (if be > i then be - i else 0);
      var full := done == BLOCK_SIZE;
      SetProd(SetBlock(Goto(s, c, if full then CUnlink(p, i / BLOCK_SIZE, be, e, b) else Continue(p, be, e)), b,
                       s.blocks[b].(done := done,
                                    loc := if full then Closing(p, i / BLOCK_SIZE, c) else s.blocks[b].loc)), p,
              pr.(retired := pr.retired + Interval(i, be)))
    case CUnlink(p, n, be, e, b) =>
      SetProd(SetBlock(Goto(s, c, CFree(p, be, e, b)), b, s.blocks[b].(loc := Releasing(c))), p,
              pr.(index := pr.index[n := None]))
    case CFree(p, be, e, b) => SetBlock(Goto(s, c, Continue(p, be, e)), b, s.blocks[b].(loc := Free))
  }

  // ---------- runs ----------

  datatype Action =
    | Enqueue(p: nat, x: Item)
    | Dequeue(c: nat, p: nat, max: nat)
    | ProdMove(p: nat, ch: Choice)
    | ConsMove(c: nat)

  predicate Enabled(s: State, a: Action) {
    match a
    case Enqueue(p, _) => p < |s.prods| && s.prods[p].pc.PIdle?
    case Dequeue(c, p, max) => c < |s.cons| && p < |s.prods| && s.cons[c].CIdle? && max > 0
    case ProdMove(p, ch) => ProdEnabled(s, p, ch)
    case ConsMove(c) => ConsEnabled(s, c)
  }

  function Apply(s: State, a: Action): State
    requires Enabled(s, a)
  {
    match a
    case Enqueue(p, x) => CallEnqueue(s, p, x)
    case Dequeue(c, p, max) => Goto(s, c, CTail(p, max))
    case ProdMove(p, ch) => ProdStep(s, p, ch)
    case ConsMove(c) => ConsStep(s, c)
  }

  const NewProd: Prod := Prod(0, 0, 0, 0, [], None, PIdle, [], [], {}, {}, -1, 0)

  /** A fresh queue: empty producers, idle consumers, all blocks in the initial pool. */
  predicate Init(s: State) {
    && s.poolNext == 0 && s.poolSize == |s.blocks| && s.out == []
    && (forall p :: 0 <= p < |s.prods| ==> s.prods[p] == NewProd)
    && (forall c :: 0 <= c < |s.cons| ==> s.cons[c].CIdle?)
    && (forall b :: 0 <= b < |s.blocks| ==> s.blocks[b] == Block(0, EmptySlots(), InPool))
  }

  ghost predicate Reaches(s0: State, run: seq<Action>, s: State)
    decreases |run|
  {
    if run == [] then Init(s0) && s == s0
    else
      var last := |run| - 1;
      exists m :: Reaches(s0, run[..last], m) && Enabled(m, run[last]) && s == Apply(m, run[last])
  }
}
