/**
 ReaderWriterQueue (ext/MoodyCamel/readerwriterqueue.h) as a transition system: one producer thread in
 `inner_enqueue`, one consumer thread in `try_dequeue`, `pop` or `peek`, one access to a shared variable a
 step. Each side owns its half of the variables (producer: `tailBlock`, `tail`, `localFront`, `next`;
 consumer: `frontBlock`, `front`, `localTail`), so only reads of the other side's half can be stale.

 A block of size n is a circular buffer; its index arithmetic `(i + 1) & sizeMask` is `Next` below, since
 n is a power of two in every run (BlockSizes in module SpscQueueRuns, MaskWraps in module Words). `live` (blocks
 from the front to the tail), `idle` (the rest of the ring), `put`, `got` and `log` are auxiliary: steps write them
 and never read them.
 */
module SpscQueue {
  import opened Modular

  const MAX_BLOCK_SIZE: nat := 512

  type Item = nat

  datatype Block = Block(front: nat, tail: nat, localFront: nat, localTail: nat, next: nat, data: seq<Item>)

  datatype Kind = Dequeue | Pop | Peek

  datatype ProdPC =
    | PIdle
    | PFront(x: Item, can: bool)              // load tailBlock->front into localFront
    | PStore(x: Item)                         // construct the element in the tail block
    | PTail(x: Item)                          // store tailBlock->tail
    | PNext(x: Item, can: bool)               // load tailBlock->next
    | PCompare(x: Item, can: bool, n: nat)    // load frontBlock and compare
    | PNextFront(x: Item, n: nat)             // load n->front into n->localFront, evaluate the assertion
    | PNextStore(x: Item, n: nat)             // construct the element in block n
    | PNextTail(x: Item, n: nat)              // store n->tail
    | PAlloc(x: Item)                         // make_block, fill it while it is private
    | PLink(x: Item, n: nat)                  // store tailBlock->next = n
    | PSwitch(x: Item, n: nat)                // store tailBlock = n

  datatype ConsPC =
    | CIdle
    | CTail(k: Kind)                          // load frontBlock->tail into localTail
    | CTailBlock(k: Kind, empty: bool)        // load tailBlock and compare; `empty` is auxiliary
    | CTailAgain(k: Kind)                     // load frontBlock->tail into localTail again
    | CNext(k: Kind)                          // load frontBlock->next
    | CNextTail(k: Kind, n: nat)              // load n->tail (into n->localTail), evaluate the assertion
    | CAdvance(k: Kind, n: nat)               // store frontBlock = n
    | CRead(k: Kind)                          // read the front element
    | CPeekNext(n: nat)                       // peek: read the front element of block n
    | CFront(k: Kind, x: Item)                // store frontBlock->front

  /** What consumer operations returned: an element, with its place in the stream, or nothing, with whether
      the queue was empty when the operation loaded the tail of the front block. */
  datatype Answer = Took(i: nat, x: Item) | Saw(i: nat, x: Item) | Nothing(empty: bool)

  datatype State = State(
    blocks: seq<Block>, frontBlock: nat, tailBlock: nat, largest: nat, prod: ProdPC, cons: ConsPC,
    live: seq<nat>, idle: seq<nat>, put: seq<Item>, got: seq<Item>, log: seq<Answer>)

  // ---------- index arithmetic of one block ----------

  function Next(i: nat, size: nat): nat
    requires i < size
  {
    if i + 1 == size then 0 else i + 1
  }

  function Used(front: nat, tail: nat, size: nat): nat
    requires front < size && tail < size
  {
    if front <= tail then tail - front else tail + size - front
  }

  predicate InBounds(b: Block) {
    && 2 <= |b.data| && b.front < |b.data| && b.tail < |b.data| && b.localFront < |b.data| && b.localTail < |b.data|
  }

  function Size(b: Block): nat { |b.data| }

  function Count(b: Block): nat
    requires InBounds(b)
  {
    Used(b.front, b.tail, Size(b))
  }

  /** The elements of a block, oldest first. */
  function Segment(b: Block): seq<Item>
    requires InBounds(b)
  {
    if b.front <= b.tail then b.data[b.front..b.tail] else b.data[b.front..] + b.data[..b.tail]
  }

  // ---------- the code ----------

  predicate Shaped(s: State) {
    && s.frontBlock < |s.blocks| && s.tailBlock < |s.blocks|
    && (forall b :: 0 <= b < |s.blocks| ==> InBounds(s.blocks[b]) && s.blocks[b].next < |s.blocks|)
  }

  function Set(s: State, b: nat, bl: Block): State
    requires b < |s.blocks|
  {
    s.(blocks := s.blocks[b := bl])
  }

  /** `enqueue` (may allocate) and `try_enqueue` (may not) up to the first shared access. */
  function CallEnqueue(s: State, x: Item, can: bool): State
    requires Shaped(s)
  {
    var tb := s.blocks[s.tailBlock];
    s.(prod := if Next(tb.tail, Size(tb)) != tb.localFront then PStore(x) else PFront(x, can))
  }

  function NewBlockSize(largest: nat): nat {
    if largest >= MAX_BLOCK_SIZE then largest else largest * 2
  }

  predicate ProdEnabled(s: State) {
    && Shaped(s)
    && match s.prod
       case PIdle => false
       case PCompare(_, _, n) => n < |s.blocks|
       case PNextFront(_, n) => n < |s.blocks|
       case PNextStore(_, n) => n < |s.blocks|
       case PNextTail(_, n) => n < |s.blocks|
       case PLink(_, n) => n < |s.blocks|
       case PSwitch(_, n) => n < |s.blocks|
       case PAlloc(_) => 1 <= s.largest
       case _ => true
  }

  /** `works` says whether an allocation, if there is one, succeeds. */
  function ProdStep(s: State, works: bool): State
    requires ProdEnabled(s)
  {
    var t := s.tailBlock;
    var tb := s.blocks[t];
    match s.prod
    case PFront(x, can) =>
      Set(s, t, tb.(localFront := tb.front)).(
        prod := if Next(tb.tail, Size(tb)) != tb.front then PStore(x) else PNext(x, can))
    case PStore(x) => Set(s, t, tb.(data := tb.data[tb.tail := x])).(prod := PTail(x))
    case PTail(x) => Set(s, t, tb.(tail := Next(tb.tail, Size(tb)))).(prod := PIdle, put := s.put + [x])
    case PNext(x, can) => s.(prod := PCompare(x, can, tb.next))
    case PCompare(x, can, n) =>
      s.(prod := if n != s.frontBlock then PNextFront(x, n) else if can then PAlloc(x) else PIdle)
    case PNextFront(x, n) =>
      Set(s, n, s.blocks[n].(localFront := s.blocks[n].front)).(prod := PNextStore(x, n))
    case PNextStore(x, n) =>
      var nb := s.blocks[n];
      Set(s, n, nb.(data := nb.data[nb.tail := x])).(prod := PNextTail(x, n))
    case PNextTail(x, n) =>
      var nb := s.blocks[n];
      Set(s, n, nb.(tail := Next(nb.tail, Size(nb)))).(prod := PSwitch(x, n))
    case PAlloc(x) =>
      if !works then s.(prod := PIdle)
      else
        var size := NewBlockSize(s.largest);
        s.(blocks := s.blocks + [Block(0, 1, 0, 1, tb.next, [x] + seq(size - 1, _ => 0))],
           largest := size, prod := PLink(x, |s.blocks|))
    case PLink(x, n) => Set(s, t, tb.(next := n)).(prod := PSwitch(x, n), idle := [n] + s.idle)
    case PSwitch(x, n) =>
      s.(tailBlock := n, prod := PIdle, put := s.put + [x], live := s.live + [n],
         idle := if s.idle == [] then [] else s.idle[1..])
  }

  /** `try_dequeue`, `pop` or `peek` up to the first shared access. */
  function CallTake(s: State, k: Kind): State
    requires Shaped(s)
  {
    var fb := s.blocks[s.frontBlock];
    s.(cons := if fb.front != fb.localTail then CRead(k) else CTail(k))
  }

  predicate ConsEnabled(s: State) {
    && Shaped(s)
    && match s.cons
       case CIdle => false
       case CNextTail(_, n) => n < |s.blocks|
       case CAdvance(_, n) => n < |s.blocks|
       case CPeekNext(n) => n < |s.blocks|
       case _ => true
  }

  function ConsStep(s: State): State
    requires ConsEnabled(s)
  {
    var f := s.frontBlock;
    var fb := s.blocks[f];
    match s.cons
    case CTail(k) =>
      Set(s, f, fb.(localTail := fb.tail)).(
        cons := if fb.front != fb.tail then CRead(k) else CTailBlock(k, s.put == s.got))
    case CTailBlock(k, empty) =>
      if f != s.tailBlock then s.(cons := CTailAgain(k)) else s.(cons := CIdle, log := s.log + [Nothing(empty)])
    case CTailAgain(k) =>
      Set(s, f, fb.(localTail := fb.tail)).(cons := if fb.front != fb.tail then CRead(k) else CNext(k))
    case CNext(k) => s.(cons := CNextTail(k, fb.next))
    case CNextTail(k, n) =>
      if k == Peek then s.(cons := CPeekNext(n))
      else Set(s, n, s.blocks[n].(localTail := s.blocks[n].tail)).(cons := CAdvance(k, n))
    case CAdvance(k, n) =>
      s.(frontBlock := n, cons := CRead(k), live := if s.live == [] then [] else s.live[1..], idle := s.idle + [f])
    case CRead(k) =>
      if k == Peek then s.(cons := CIdle, log := s.log + [Saw(|s.got|, fb.data[fb.front])])
      else s.(cons := CFront(k, fb.data[fb.front]))
    case CPeekNext(n) => s.(cons := CIdle, log := s.log + [Saw(|s.got|, s.blocks[n].data[s.blocks[n].front])])
    case CFront(k, x) =>
      Set(s, f, fb.(front := Next(fb.front, Size(fb)))).(
        cons := CIdle, got := s.got + [x], log := s.log + [Took(|s.got|, x)])
  }

  datatype Action = Enqueue(x: Item, can: bool) | Take(k: Kind) | ProdMove(works: bool) | ConsMove

  predicate Enabled(s: State, a: Action) {
    match a
    case Enqueue(_, _) => Shaped(s) && s.prod.PIdle?
    case Take(_) => Shaped(s) && s.cons.CIdle?
    case ProdMove(_) => ProdEnabled(s)
    case ConsMove => ConsEnabled(s)
  }

  function Apply(s: State, a: Action): State
    requires Enabled(s, a)
  {
    match a
    case Enqueue(x, can) => CallEnqueue(s, x, can)
    case Take(k) => CallTake(s, k)
    case ProdMove(works) => ProdStep(s, works)
    case ConsMove => ConsStep(s)
  }

  // ---------- the constructor ----------

  function InitialBlockCount(maxSize: nat): nat {
    if CeilPow2(maxSize + 1) > MAX_BLOCK_SIZE * 2
    then (maxSize + MAX_BLOCK_SIZE * 2 - 3) / (MAX_BLOCK_SIZE - 1)
    else 1
  }

  function InitialBlockSize(maxSize: nat): nat {
    if CeilPow2(maxSize + 1) > MAX_BLOCK_SIZE * 2 then MAX_BLOCK_SIZE else CeilPow2(maxSize + 1)
  }

  /** A ring of equal empty blocks, linked in a circle, front and tail at the first. */
  predicate Init(s: State, maxSize: nat) {
    var k := InitialBlockCount(maxSize);
    && 0 < maxSize
    && |s.blocks| == k && s.frontBlock == 0 && s.tailBlock == 0 && s.largest == InitialBlockSize(maxSize)
    && (forall b :: 0 <= b < k ==>
          && s.blocks[b].front == s.blocks[b].tail == s.blocks[b].localFront == s.blocks[b].localTail == 0
          && s.blocks[b].next == (if b + 1 == k then 0 else b + 1) && |s.blocks[b].data| == InitialBlockSize(maxSize))
    && s.prod.PIdle? && s.cons.CIdle? && s.put == [] && s.got == [] && s.log == []
    && s.live == [0] && |s.idle| == k - 1 && (forall i :: 0 <= i < k - 1 ==> s.idle[i] == i + 1)
  }

  ghost predicate Reaches(s0: State, maxSize: nat, run: seq<Action>, s: State)
    decreases |run|
  {
    if run == [] then Init(s0, maxSize) && s == s0
    else
      var last := |run| - 1;
      exists m :: Reaches(s0, maxSize, run[..last], m) && Enabled(m, run[last]) && s == Apply(m, run[last])
  }
}
