/**
 ReaderWriterQueue: in every interleaving the sequence taken out is a prefix of the sequence put in, both
 assertions hold, an empty answer is right, and construction with `maxSize` guarantees that much room.
 */
module SpscQueueProof {
  import opened Sets
  import opened SpscQueue

  // ---------- the elements of a run of blocks ----------

  function Content(blocks: seq<Block>, live: seq<nat>): seq<Item>
    requires forall i :: 0 <= i < |live| ==> live[i] < |blocks| && InBounds(blocks[live[i]])
  {
    if live == [] then [] else Segment(blocks[live[0]]) + Content(blocks, live[1..])
  }

  ghost predicate Fits(blocks: seq<Block>, live: seq<nat>) {
    forall i :: 0 <= i < |live| ==> live[i] < |blocks| && InBounds(blocks[live[i]])
  }

  lemma SegmentLength(b: Block)
    requires InBounds(b)
    ensures |Segment(b)| == Count(b) < Size(b)
  {
  }

  lemma SegmentPush(b: Block, x: Item)
    requires InBounds(b) && Count(b) < Size(b) - 1 && b.data[b.tail] == x
    ensures InBounds(b.(tail := Next(b.tail, Size(b))))
    ensures Segment(b.(tail := Next(b.tail, Size(b)))) == Segment(b) + [x]
  {
    var c := b.(tail := Next(b.tail, Size(b)));
    if b.front <= b.tail && b.tail + 1 < Size(b) {
      assert b.data[b.front..b.tail + 1] == b.data[b.front..b.tail] + [x];
    } else if b.front <= b.tail {
      assert b.data[b.front..] == b.data[b.front..b.tail] + [x];
      assert b.data[..0] == [];
    } else {
      assert b.data[..b.tail + 1] == b.data[..b.tail] + [x];
    }
  }

  lemma SegmentPop(b: Block)
    requires InBounds(b) && 0 < Count(b)
    ensures InBounds(b.(front := Next(b.front, Size(b)))) && Segment(b) != [] && Segment(b)[0] == b.data[b.front]
    ensures Segment(b.(front := Next(b.front, Size(b)))) == Segment(b)[1..]
  {
    var c := b.(front := Next(b.front, Size(b)));
    SegmentLength(b);
    SegmentLength(c);
    if b.front > b.tail && b.front + 1 == Size(b) {
      assert b.data[b.front..] == [b.data[b.front]];
    }
  }

  /** Storing at the tail index of a block that is not full leaves its elements alone. */
  lemma SegmentStore(b: Block, x: Item)
    requires InBounds(b)
    ensures InBounds(b.(data := b.data[b.tail := x])) && Segment(b.(data := b.data[b.tail := x])) == Segment(b)
  {
    var c := b.(data := b.data[b.tail := x]);
    SegmentLength(b);
    SegmentLength(c);
    assert forall i :: 0 <= i < |Segment(b)| ==> Segment(c)[i] == Segment(b)[i];
  }

  lemma {:induction false} ContentFrame(blocks: seq<Block>, blocks': seq<Block>, live: seq<nat>)
    requires Fits(blocks, live) && Fits(blocks', live)
    requires forall i :: 0 <= i < |live| ==> Segment(blocks'[live[i]]) == Segment(blocks[live[i]])
    ensures Content(blocks', live) == Content(blocks, live)
  {
    if live != [] {
      assert forall i :: 0 <= i < |live[1..]| ==> live[1..][i] == live[i + 1];
      ContentFrame(blocks, blocks', live[1..]);
    }
  }

  lemma {:induction false} ContentSnoc(blocks: seq<Block>, live: seq<nat>, n: nat)
    requires Fits(blocks, live) && n < |blocks| && InBounds(blocks[n])
    ensures Content(blocks, live + [n]) == Content(blocks, live) + Segment(blocks[n])
  {
    if live == [] {
      assert (live + [n])[1..] == [];
    } else {
      assert (live + [n])[1..] == live[1..] + [n];
      assert forall i :: 0 <= i < |live[1..]| ==> live[1..][i] == live[i + 1];
      ContentSnoc(blocks, live[1..], n);
    }
  }

  lemma ContentStep(blocks: seq<Block>, live: seq<nat>)
    requires Fits(blocks, live) && live != []
    ensures Fits(blocks, live[1..])
    ensures |Content(blocks, live)| == Count(blocks[live[0]]) + |Content(blocks, live[1..])|
  {
    SegmentLength(blocks[live[0]]);
    assert forall i :: 0 <= i < |live[1..]| ==> live[1..][i] == live[i + 1];
  }

  function Sum(ns: seq<nat>): nat {
    if ns == [] then 0 else ns[0] + Sum(ns[1..])
  }

  lemma {:induction false} SumAtLeast(ns: seq<nat>, k: nat)
    requires forall i :: 0 <= i < |ns| ==> ns[i] >= k
    ensures Sum(ns) >= |ns| * k
    decreases |ns|
  {
    if ns != [] {
      SumAtLeast(ns[1..], k);
      assert |ns| * k == (|ns| - 1) * k + k;
    }
  }

  /** How many elements each block holds. */
  function Counts(blocks: seq<Block>, live: seq<nat>): (r: seq<nat>)
    requires forall i :: 0 <= i < |live| ==> live[i] < |blocks| && InBounds(blocks[live[i]])
    ensures |r| == |live| && forall i :: 0 <= i < |live| ==> r[i] == Count(blocks[live[i]])
  {
    seq(|live|, i requires 0 <= i < |live| => Count(blocks[live[i]]))
  }

  lemma CountsRest(blocks: seq<Block>, live: seq<nat>)
    requires Fits(blocks, live) && live != []
    ensures Fits(blocks, live[1..]) && Counts(blocks, live)[1..] == Counts(blocks, live[1..])
  {
    assert forall i :: 0 <= i < |live[1..]| ==> live[1..][i] == live[i + 1];
  }

  lemma {:induction false} ContentLength(blocks: seq<Block>, live: seq<nat>)
    requires Fits(blocks, live)
    ensures |Content(blocks, live)| == Sum(Counts(blocks, live))
    decreases |live|
  {
    if live != [] {
      CountsRest(blocks, live);
      ContentStep(blocks, live);
      ContentLength(blocks, live[1..]);
    }
  }

  lemma ContentAtLeast(blocks: seq<Block>, live: seq<nat>, k: nat)
    requires Fits(blocks, live) && forall i :: 0 <= i < |live| ==> Count(blocks[live[i]]) >= k
    ensures |Content(blocks, live)| >= |live| * k
  {
    ContentLength(blocks, live);
    SumAtLeast(Counts(blocks, live), k);
  }

  // ---------- the invariant ----------

  predicate Within(xs: seq<nat>, n: nat) {
    forall i :: 0 <= i < |xs| ==> xs[i] < n
  }

  predicate Apart(xs: seq<nat>, ys: seq<nat>) {
    forall i, j :: 0 <= i < |xs| && 0 <= j < |ys| ==> xs[i] != ys[j]
  }

  /** Each block of `xs` links to the next, and the last to `last`. */
  ghost predicate Linked(blocks: seq<Block>, xs: seq<nat>, last: nat)
    requires Within(xs, |blocks|)
  {
    && (forall i, j :: 0 <= i < j < |xs| && j == i + 1 ==> blocks[xs[i]].next == xs[j])
    && (xs != [] ==> blocks[xs[|xs| - 1]].next == last)
  }

  /** The blocks form one ring: the live ones from front to tail, then the idle ones back to the front. */
  ghost predicate RingOk(s: State) {
    && Shaped(s) && 1 <= s.largest
    && s.live != [] && s.live[0] == s.frontBlock && s.live[|s.live| - 1] == s.tailBlock
    && Within(s.live, |s.blocks|) && Within(s.idle, |s.blocks|)
    && Distinct(s.live) && Distinct(s.idle) && Apart(s.live, s.idle)
    && Linked(s.blocks, s.live, if s.idle == [] then s.frontBlock else s.idle[0])
    && Linked(s.blocks, s.idle, s.frontBlock)
  }

  predicate InSwitch(pc: ProdPC) {
    pc.PCompare? || pc.PNextFront? || pc.PNextStore? || pc.PNextTail? || pc.PAlloc? || pc.PLink? || pc.PSwitch? || pc.PNext?
  }

  /** How many elements the consumer's copy of the tail shows. */
  function Claimed(b: Block): nat
    requires InBounds(b)
  {
    Used(b.front, b.localTail, Size(b))
  }

  /** How many elements the producer's copy of the front shows. */
  function Occupied(b: Block): nat
    requires InBounds(b)
  {
    Used(b.localFront, b.tail, Size(b))
  }

  predicate IsFull(b: Block)
    requires InBounds(b)
  {
    Count(b) == Size(b) - 1
  }

  /** How full the blocks are, and how stale the private copies may be. */
  ghost predicate FillOk(s: State)
    requires RingOk(s)
  {
    && (forall i :: 0 < i < |s.live| ==> Count(s.blocks[s.live[i]]) > 0)
    && (forall i :: 0 < i < |s.live| - 1 ==> IsFull(s.blocks[s.live[i]]))
    && (InSwitch(s.prod) && |s.live| > 1 ==> IsFull(s.blocks[s.tailBlock]))
    && (forall i :: 0 <= i < |s.idle| ==> (i == 0 && s.prod.PSwitch?) || Count(s.blocks[s.idle[i]]) == 0)
    && Claimed(s.blocks[s.frontBlock]) <= Count(s.blocks[s.frontBlock])
    && Count(s.blocks[s.tailBlock]) <= Occupied(s.blocks[s.tailBlock])
  }

  ghost predicate ProdOk(s: State)
    requires RingOk(s)
  {
    var tb := s.blocks[s.tailBlock];
    match s.prod
    case PStore(_) => Occupied(tb) < Size(tb) - 1
    case PTail(x) => Occupied(tb) < Size(tb) - 1 && tb.data[tb.tail] == x
    case PCompare(_, _, n) => n == tb.next
    case PNextFront(_, n) => s.idle != [] && s.idle[0] == n
    case PNextStore(_, n) => s.idle != [] && s.idle[0] == n && s.blocks[n].localFront == s.blocks[n].front
    case PNextTail(x, n) =>
      && s.idle != [] && s.idle[0] == n && s.blocks[n].localFront == s.blocks[n].front
      && s.blocks[n].data[s.blocks[n].tail] == x
    case PLink(x, n) =>
      n < |s.blocks| && n !in s.live && n !in s.idle && s.blocks[n].next == tb.next && FreshBlock(s.blocks[n], x)
    case PSwitch(x, n) =>
      && s.idle != [] && s.idle[0] == n && Segment(s.blocks[n]) == [x]
      && s.blocks[n].localFront == s.blocks[n].front
    case _ => true
  }

  predicate FreshBlock(b: Block, x: Item) {
    InBounds(b) && b.front == 0 && b.tail == 1 && b.localFront == 0 && b.data[0] == x
  }

  ghost predicate ConsOk(s: State)
    requires RingOk(s)
  {
    var fb := s.blocks[s.frontBlock];
    match s.cons
    case CTailBlock(_, empty) => |s.live| == 1 ==> empty
    case CTailAgain(_) => |s.live| > 1
    case CNext(_) => |s.live| > 1 && Count(fb) == 0
    case CNextTail(_, n) => |s.live| > 1 && Count(fb) == 0 && n == s.live[1]
    case CPeekNext(n) => |s.live| > 1 && Count(fb) == 0 && n == s.live[1]
    case CAdvance(_, n) =>
      && |s.live| > 1 && Count(fb) == 0 && n == s.live[1]
      && 0 < Claimed(s.blocks[n]) <= Count(s.blocks[n])
    case CRead(_) => 0 < Claimed(fb) <= Count(fb)
    case CFront(_, x) => 0 < Claimed(fb) <= Count(fb) && x == fb.data[fb.front]
    case _ => true
  }

  ghost predicate LogOk(s: State) {
    && |s.got| <= |s.put|
    && forall k :: 0 <= k < |s.log| ==>
         match s.log[k]
         case Took(i, x) => i < |s.got| && s.put[i] == x
         case Saw(i, x) => i < |s.put| && s.put[i] == x
         case Nothing(empty) => empty
  }

  ghost predicate Inv(s: State) {
    && RingOk(s) && FillOk(s) && ProdOk(s) && ConsOk(s) && LogOk(s)
    && s.put == s.got + Content(s.blocks, s.live)
  }

  /** Blocks in `live` and `idle`, and the ring they form, after one block changed but not its link. */
  lemma SetKeepsRing(s: State, s': State, b: nat)
    requires RingOk(s) && b < |s.blocks| && |s'.blocks| == |s.blocks|
    requires s'.blocks == s.blocks[b := s'.blocks[b]] && s'.live == s.live && s'.idle == s.idle
    requires s'.frontBlock == s.frontBlock && s'.tailBlock == s.tailBlock && s'.largest == s.largest
    requires InBounds(s'.blocks[b]) && s'.blocks[b].next == s.blocks[b].next
    ensures RingOk(s') && Fits(s'.blocks, s'.live)
  {
    assert forall i :: 0 <= i < |s'.blocks| ==> InBounds(s'.blocks[i]) && s'.blocks[i].next == s.blocks[i].next;
    SameLinks(s.blocks, s'.blocks, s.live, if s.idle == [] then s.frontBlock else s.idle[0]);
    SameLinks(s.blocks, s'.blocks, s.idle, s.frontBlock);
  }

  lemma SameLinks(blocks: seq<Block>, blocks': seq<Block>, xs: seq<nat>, last: nat)
    requires Within(xs, |blocks|) && Linked(blocks, xs, last) && |blocks| <= |blocks'|
    requires forall i :: 0 <= i < |xs| ==> blocks'[xs[i]].next == blocks[xs[i]].next
    ensures Linked(blocks', xs, last)
  {
  }

  /** A change of one block that leaves its front, its tail and its elements as they were. */
  predicate SameElements(a: Block, b: Block) {
    && InBounds(a) && InBounds(b) && a.next == b.next && a.front == b.front && a.tail == b.tail
    && Size(a) == Size(b) && Segment(a) == Segment(b)
  }

  lemma SetKeepsContent(s: State, s': State, b: nat)
    requires Inv(s) && b < |s.blocks| && |s'.blocks| == |s.blocks|
    requires s'.blocks == s.blocks[b := s'.blocks[b]] && s'.live == s.live && s'.idle == s.idle
    requires s'.frontBlock == s.frontBlock && s'.tailBlock == s.tailBlock && s'.largest == s.largest
    requires s'.put == s.put && s'.got == s.got && SameElements(s.blocks[b], s'.blocks[b])
    ensures RingOk(s') && s'.put == s'.got + Content(s'.blocks, s'.live)
    ensures forall i :: 0 <= i < |s.blocks| ==> Count(s'.blocks[i]) == Count(s.blocks[i])
  {
    SetKeepsRing(s, s', b);
    assert forall i :: 0 <= i < |s.blocks| ==> SameElements(s.blocks[i], s'.blocks[i]);
    ContentFrame(s.blocks, s'.blocks, s.live);
  }

  lemma SetKeepsFill(s: State, s': State, b: nat)
    requires RingOk(s) && FillOk(s) && RingOk(s') && b < |s.blocks| && |s'.blocks| == |s.blocks|
    requires s'.live == s.live && s'.idle == s.idle
    requires s'.frontBlock == s.frontBlock && s'.tailBlock == s.tailBlock
    requires forall i :: 0 <= i < |s.blocks| ==>
               Count(s'.blocks[i]) == Count(s.blocks[i]) && Size(s'.blocks[i]) == Size(s.blocks[i])
    requires Claimed(s'.blocks[s.frontBlock]) <= Count(s'.blocks[s.frontBlock])
    requires Count(s'.blocks[s.tailBlock]) <= Occupied(s'.blocks[s.tailBlock])
    requires InSwitch(s'.prod) ==> InSwitch(s.prod) || IsFull(s'.blocks[s.tailBlock])
    requires s'.prod.PSwitch? == s.prod.PSwitch?
    ensures FillOk(s')
  {
  }

  // ---------- the producer ----------

  lemma ProdFrontKeeps(s: State, works: bool)
    requires Inv(s) && ProdEnabled(s) && s.prod.PFront?
    ensures Inv(ProdStep(s, works))
  {
    var s' := ProdStep(s, works);
    SetKeepsContent(s, s', s.tailBlock);
    SetKeepsFill(s, s', s.tailBlock);
    ConsSees(s, s', s.tailBlock);
  }

  /** The consumer's facts speak of elements and of its own variables only. */
  lemma ConsSees(s: State, s': State, b: nat)
    requires RingOk(s) && ConsOk(s) && RingOk(s') && |s'.blocks| == |s.blocks| && s'.cons == s.cons
    requires s'.live == s.live && s'.frontBlock == s.frontBlock && b < |s.blocks|
    requires s'.blocks == s.blocks[b := s'.blocks[b]]
    requires s'.blocks[b].front == s.blocks[b].front && s'.blocks[b].localTail == s.blocks[b].localTail
    requires Size(s'.blocks[b]) == Size(s.blocks[b])
    requires Count(s.blocks[b]) <= Count(s'.blocks[b])
    requires b == s.frontBlock && |s.live| > 1 ==> Count(s'.blocks[b]) == Count(s.blocks[b])
    requires Count(s.blocks[b]) > 0 ==> s'.blocks[b].data[s.blocks[b].front] == s.blocks[b].data[s.blocks[b].front]
    ensures ConsOk(s')
  {
  }

  /** The producer moves on without changing a block. */
  lemma ProdMoveKeeps(s: State, pc: ProdPC)
    requires Inv(s) && !s.prod.PSwitch?
    requires InSwitch(pc) ==> InSwitch(s.prod)
    requires ProdOk(s.(prod := pc))
    ensures Inv(s.(prod := pc))
  {
    assert RingOk(s.(prod := pc));
  }

  lemma ProdCompareKeeps(s: State, works: bool)
    requires Inv(s) && ProdEnabled(s) && (s.prod.PNext? || s.prod.PCompare?)
    ensures Inv(ProdStep(s, works))
  {
    ProdMoveKeeps(s, ProdStep(s, works).prod);
  }

  lemma ProdStoreKeeps(s: State, works: bool)
    requires Inv(s) && ProdEnabled(s) && s.prod.PStore?
    ensures Inv(ProdStep(s, works))
  {
    var s' := ProdStep(s, works);
    SegmentStore(s.blocks[s.tailBlock], s.prod.x);
    SetKeepsContent(s, s', s.tailBlock);
    SetKeepsFill(s, s', s.tailBlock);
    ConsSees(s, s', s.tailBlock);
  }

  /** The store of the tail index is where the element enters the queue. */
  lemma PushRing(s: State)
    requires Inv(s) && ProdEnabled(s) && s.prod.PTail?
    ensures var s' := ProdStep(s, true);
      RingOk(s') && Fits(s'.blocks, s'.live) && Segment(s'.blocks[s.tailBlock]) == Segment(s.blocks[s.tailBlock]) + [s.prod.x]
  {
    SegmentPush(s.blocks[s.tailBlock], s.prod.x);
    SetKeepsRing(s, ProdStep(s, true), s.tailBlock);
  }

  lemma PushConsumer(s: State, s': State)
    requires Inv(s) && ProdEnabled(s) && s.prod.PTail? && s' == ProdStep(s, true) && RingOk(s')
    ensures ConsOk(s')
  {
    PushCounts(s.blocks[s.tailBlock]);
    ConsSees(s, s', s.tailBlock);
  }

  lemma PushStream(s: State, s': State)
    requires RingOk(s) && RingOk(s') && s.prod.PTail? && Pushed(s, s') && Fits(s'.blocks, s'.live)
    requires s.put == s.got + Content(s.blocks, s.live)
    requires Segment(s'.blocks[s.tailBlock]) == Segment(s.blocks[s.tailBlock]) + [s.prod.x]
    ensures s'.put == s'.got + Content(s'.blocks, s'.live)
  {
    PushContent(s, s');
  }

  lemma PushLog(s: State, s': State)
    requires Inv(s) && ProdEnabled(s) && s.prod.PTail? && s' == ProdStep(s, true) && RingOk(s') && Fits(s'.blocks, s'.live)
    requires Segment(s'.blocks[s.tailBlock]) == Segment(s.blocks[s.tailBlock]) + [s.prod.x]
    ensures LogOk(s') && s'.put == s'.got + Content(s'.blocks, s'.live)
  {
    PushStream(s, s');
  }

  lemma ProdTailKeeps(s: State, works: bool)
    requires Inv(s) && ProdEnabled(s) && s.prod.PTail?
    ensures Inv(ProdStep(s, works))
  {
    var s' := ProdStep(s, true);
    PushRing(s);
    PushFill(s, s');
    PushConsumer(s, s');
    PushLog(s, s');
  }

  lemma PushCounts(b: Block)
    requires InBounds(b) && Count(b) < Size(b) - 1
    ensures InBounds(b.(tail := Next(b.tail, Size(b)))) && Count(b.(tail := Next(b.tail, Size(b)))) == Count(b) + 1
    ensures Count(b) <= Occupied(b) < Size(b) - 1 ==> Occupied(b.(tail := Next(b.tail, Size(b)))) == Occupied(b) + 1
  {
  }

  lemma PushContent(s: State, s': State)
    requires RingOk(s) && RingOk(s') && |s'.blocks| == |s.blocks| && s'.live == s.live && s'.tailBlock == s.tailBlock
    requires s'.blocks == s.blocks[s.tailBlock := s'.blocks[s.tailBlock]]
    ensures exists pre :: Fits(s.blocks, pre)
              && Content(s.blocks, s.live) == Content(s.blocks, pre) + Segment(s.blocks[s.tailBlock])
              && Content(s'.blocks, s.live) == Content(s.blocks, pre) + Segment(s'.blocks[s.tailBlock])
  {
    var pre := s.live[..|s.live| - 1];
    assert s.live == pre + [s.tailBlock];
    assert Fits(s.blocks, pre) && Fits(s'.blocks, pre);
    ContentSnoc(s.blocks, pre, s.tailBlock);
    ContentSnoc(s'.blocks, pre, s.tailBlock);
    ContentFrame(s.blocks, s'.blocks, pre);
  }

  /** The step: the tail index of the tail block moves on. */
  predicate Pushed(s: State, s': State)
    requires RingOk(s) && s.prod.PTail?
  {
    var tb := s.blocks[s.tailBlock];
    s' == s.(blocks := s.blocks[s.tailBlock := tb.(tail := Next(tb.tail, Size(tb)))], prod := PIdle,
             put := s.put + [s.prod.x])
  }

  lemma PushFill(s: State, s': State)
    requires RingOk(s) && FillOk(s) && ProdOk(s) && s.prod.PTail? && RingOk(s') && Pushed(s, s')
    ensures FillOk(s')
  {
    var t := s.tailBlock;
    PushCounts(s.blocks[t]);
    assert s.live[|s.live| - 1] == t;
    forall i | 0 < i < |s.live| ensures Count(s'.blocks[s.live[i]]) > 0 {}
    forall i | 0 < i < |s.live| - 1 ensures IsFull(s'.blocks[s.live[i]]) {}
    forall i | 0 <= i < |s.idle| ensures Count(s'.blocks[s.idle[i]]) == 0 {}
    assert Claimed(s'.blocks[s.frontBlock]) == Claimed(s.blocks[s.frontBlock]);
  }

  /** A block of the idle part is none of the live ones. */
  lemma IdleNext(s: State)
    requires Inv(s) && s.idle != []
    ensures s.idle[0] < |s.blocks| && s.idle[0] != s.frontBlock && s.idle[0] != s.tailBlock
    ensures s.idle[0] !in s.live && s.idle[0] !in s.idle[1..]
  {
  }

  /** A step on the first idle block, which the consumer cannot reach. */
  lemma SetIdleKeeps(s: State, s': State)
    requires Inv(s) && s.idle != [] && |s'.blocks| == |s.blocks|
    requires s' == s.(blocks := s.blocks[s.idle[0] := s'.blocks[s.idle[0]]], prod := s'.prod)
    requires InBounds(s'.blocks[s.idle[0]]) && s'.blocks[s.idle[0]].next == s.blocks[s.idle[0]].next
    requires InSwitch(s.prod) && !s.prod.PSwitch?
    requires s'.prod.PSwitch? || Count(s'.blocks[s.idle[0]]) == 0
    requires RingOk(s') ==> ProdOk(s')
    ensures Inv(s')
  {
    var n := s.idle[0];
    IdleNext(s);
    SetKeepsRing(s, s', n);
    assert Fits(s.blocks, s.live) && Fits(s'.blocks, s.live);
    ContentFrame(s.blocks, s'.blocks, s.live);
    SetIdleFill(s, s');
    SetIdleCons(s, s');
  }

  lemma SetIdleCons(s: State, s': State)
    requires RingOk(s) && ConsOk(s) && RingOk(s') && s.idle != [] && |s'.blocks| == |s.blocks|
    requires s' == s.(blocks := s.blocks[s.idle[0] := s'.blocks[s.idle[0]]], prod := s'.prod)
    ensures ConsOk(s')
  {
    assert |s.live| > 1 ==> s.live[1] != s.idle[0];
    assert s.live[0] != s.idle[0];
  }

  lemma SetIdleFill(s: State, s': State)
    requires RingOk(s) && FillOk(s) && RingOk(s') && s.idle != [] && |s'.blocks| == |s.blocks|
    requires s' == s.(blocks := s.blocks[s.idle[0] := s'.blocks[s.idle[0]]], prod := s'.prod)
    requires InSwitch(s.prod) && !s.prod.PSwitch?
    requires s'.prod.PSwitch? || Count(s'.blocks[s.idle[0]]) == 0
    ensures FillOk(s')
  {
    assert forall i :: 0 <= i < |s.live| ==> s.live[i] != s.idle[0];
    assert s.live[|s.live| - 1] == s.tailBlock;
  }

  lemma ProdNextKeeps(s: State, works: bool)
    requires Inv(s) && ProdEnabled(s) && (s.prod.PNextFront? || s.prod.PNextStore? || s.prod.PNextTail?)
    ensures Inv(ProdStep(s, works))
  {
    var s' := ProdStep(s, works);
    var n := s.prod.n;
    assert Count(s.blocks[n]) == 0;
    if s.prod.PNextTail? {
      SegmentPush(s.blocks[n], s.prod.x);
      SegmentLength(s.blocks[n]);
      assert Segment(s'.blocks[n]) == [s.prod.x];
    }
    SetIdleKeeps(s, s');
  }

  /** The new block is private until it is linked. */
  lemma ProdAllocKeeps(s: State, works: bool)
    requires Inv(s) && ProdEnabled(s) && s.prod.PAlloc?
    ensures Inv(ProdStep(s, works))
  {
    var s' := ProdStep(s, works);
    if works {
      AllocIs(s, s');
    AllocRing(s, s');
      ContentFrame(s.blocks, s'.blocks, s.live);
      AllocRest(s, s');
      AllocFresh(s, s');
    } else {
      ProdMoveKeeps(s, PIdle);
    }
  }

  /** A block has been added, which no other links to. */
  predicate Alloced(s: State, s': State)
    requires Shaped(s)
  {
    && |s'.blocks| == |s.blocks| + 1 && s'.blocks[..|s.blocks|] == s.blocks && InBounds(s'.blocks[|s.blocks|])
    && s'.blocks[|s.blocks|].next < |s.blocks|
    && s'.live == s.live && s'.idle == s.idle && s'.frontBlock == s.frontBlock && s'.tailBlock == s.tailBlock
    && s.largest <= s'.largest
  }

  lemma AllocIs(s: State, s': State)
    requires Shaped(s) && 1 <= s.largest && ProdEnabled(s) && s.prod.PAlloc? && s' == ProdStep(s, true)
    ensures Alloced(s, s')
  {
    assert s'.blocks[..|s.blocks|] == s.blocks;
  }

  lemma AllocRing(s: State, s': State)
    requires RingOk(s) && Alloced(s, s')
    ensures RingOk(s') && Fits(s'.blocks, s.live)
  {
    forall b | 0 <= b < |s.blocks| ensures s'.blocks[b] == s.blocks[b] { assert s'.blocks[..|s.blocks|][b] == s.blocks[b]; }
    SameLinks(s.blocks, s'.blocks, s.live, if s.idle == [] then s.frontBlock else s.idle[0]);
    SameLinks(s.blocks, s'.blocks, s.idle, s.frontBlock);
  }

  lemma AllocRest(s: State, s': State)
    requires Inv(s) && ProdEnabled(s) && s.prod.PAlloc? && s' == ProdStep(s, true) && RingOk(s')
    ensures FillOk(s') && ConsOk(s')
  {
    assert forall b :: 0 <= b < |s.blocks| ==> s'.blocks[b] == s.blocks[b];
  }

  lemma AllocFresh(s: State, s': State)
    requires Inv(s) && ProdEnabled(s) && s.prod.PAlloc? && s' == ProdStep(s, true) && RingOk(s')
    ensures ProdOk(s')
  {
    assert s'.blocks[s.tailBlock] == s.blocks[s.tailBlock];
  }

  lemma ProdLinkKeeps(s: State, works: bool)
    requires Inv(s) && ProdEnabled(s) && s.prod.PLink?
    ensures Inv(ProdStep(s, works))
  {
    var s' := ProdStep(s, works);
    LinkRing(s, s');
    LinkContent(s, s');
    LinkProducer(s, s');
    LinkFill(s, s');
    LinkConsumer(s, s');
  }

  lemma LinkContent(s: State, s': State)
    requires RingOk(s) && RingOk(s') && s.prod.PLink? && s'.live == s.live
    requires s'.blocks == s.blocks[s.tailBlock := s.blocks[s.tailBlock].(next := s.prod.n)]
    ensures Content(s'.blocks, s.live) == Content(s.blocks, s.live)
  {
    assert Fits(s.blocks, s.live) && Fits(s'.blocks, s.live);
    ContentFrame(s.blocks, s'.blocks, s.live);
  }

  lemma LinkProducer(s: State, s': State)
    requires Inv(s) && ProdEnabled(s) && s.prod.PLink? && s' == ProdStep(s, true) && RingOk(s')
    ensures ProdOk(s')
  {
    assert s'.blocks[s.prod.n] == s.blocks[s.prod.n];
    assert Segment(s'.blocks[s.prod.n]) == [s.prod.x];
  }

  /** A new block goes between the last live block and the first idle one. */
  lemma LinkInsert(blocks: seq<Block>, blocks': seq<Block>, live: seq<nat>, idle: seq<nat>, front: nat, n: nat)
    requires Within(live, |blocks|) && Within(idle, |blocks|) && n < |blocks| && |blocks'| == |blocks| && live != []
    requires Distinct(live) && Distinct(idle) && Apart(live, idle) && n !in live && n !in idle
    requires var after := if idle == [] then front else idle[0];
      Linked(blocks, live, after) && Linked(blocks, idle, front) && blocks[n].next == after
    requires var last := live[|live| - 1];
      (forall b :: 0 <= b < |blocks| && b != last ==> blocks'[b].next == blocks[b].next) && blocks'[last].next == n
    ensures Within([n] + idle, |blocks'|) && Distinct([n] + idle) && Apart(live, [n] + idle)
    ensures Linked(blocks', live, n) && Linked(blocks', [n] + idle, front)
  {
  }

  lemma LinkRing(s: State, s': State)
    requires RingOk(s) && ProdEnabled(s) && ProdOk(s) && s.prod.PLink? && s' == ProdStep(s, true)
    ensures RingOk(s')
  {
    LinkInsert(s.blocks, s'.blocks, s.live, s.idle, s.frontBlock, s.prod.n);
  }

  lemma LinkFill(s: State, s': State)
    requires RingOk(s) && FillOk(s) && s.prod.PLink? && RingOk(s')
    requires s' == s.(blocks := s.blocks[s.tailBlock := s.blocks[s.tailBlock].(next := s.prod.n)],
                      prod := PSwitch(s.prod.x, s.prod.n), idle := [s.prod.n] + s.idle)
    ensures FillOk(s')
  {
    forall i | 0 < i < |s.live| ensures Count(s'.blocks[s.live[i]]) > 0 {}
    forall i | 0 < i < |s.live| - 1 ensures IsFull(s'.blocks[s.live[i]]) {}
    forall i | 0 < i < |s'.idle| ensures Count(s'.blocks[s'.idle[i]]) == 0 {
      assert s'.idle[i] == s.idle[i - 1];
    }
  }

  lemma LinkConsumer(s: State, s': State)
    requires Inv(s) && ProdEnabled(s) && s.prod.PLink? && s' == ProdStep(s, true) && RingOk(s')
    ensures ConsOk(s')
  {
    assert forall b :: 0 <= b < |s.blocks| ==> s'.blocks[b] == s.blocks[b].(next := s'.blocks[b].next);
  }

  /** The store of the tail block is where an element in a new block enters the queue. */
  lemma ProdSwitchKeeps(s: State, works: bool)
    requires Inv(s) && ProdEnabled(s) && s.prod.PSwitch?
    ensures Inv(ProdStep(s, works))
  {
    var s' := ProdStep(s, works);
    SwitchRing(s, s');
    ContentSnoc(s.blocks, s.live, s.prod.n);
    SwitchFill(s, s');
    SwitchCons(s, s');
  }

  /** The first idle block becomes the last live one. */
  lemma MoveToLive(blocks: seq<Block>, live: seq<nat>, idle: seq<nat>, front: nat)
    requires Within(live, |blocks|) && Within(idle, |blocks|) && live != [] && idle != []
    requires Distinct(live) && Distinct(idle) && Apart(live, idle)
    requires Linked(blocks, live, idle[0]) && Linked(blocks, idle, front)
    ensures Within(live + [idle[0]], |blocks|) && Within(idle[1..], |blocks|)
    ensures Distinct(live + [idle[0]]) && Distinct(idle[1..]) && Apart(live + [idle[0]], idle[1..])
    ensures Linked(blocks, live + [idle[0]], if idle[1..] == [] then front else idle[1..][0])
    ensures Linked(blocks, idle[1..], front)
  {
  }

  lemma SwitchRing(s: State, s': State)
    requires RingOk(s) && ProdEnabled(s) && ProdOk(s) && s.prod.PSwitch? && s' == ProdStep(s, true)
    ensures RingOk(s')
  {
    MoveToLive(s.blocks, s.live, s.idle, s.frontBlock);
  }

  predicate Switched(s: State, s': State)
    requires s.prod.PSwitch? && s.idle != []
  {
    s' == s.(tailBlock := s.prod.n, prod := PIdle, put := s.put + [s.prod.x], live := s.live + [s.prod.n],
             idle := s.idle[1..])
  }

  lemma SwitchFill(s: State, s': State)
    requires RingOk(s) && FillOk(s) && ProdOk(s) && s.prod.PSwitch? && Switched(s, s') && RingOk(s')
    ensures FillOk(s')
  {
    SegmentLength(s.blocks[s.prod.n]);
    assert s.live[|s.live| - 1] == s.tailBlock;
    assert forall i :: 0 <= i < |s'.idle| ==> s'.idle[i] == s.idle[i + 1];
  }

  lemma SwitchCons(s: State, s': State)
    requires RingOk(s) && ProdOk(s) && ConsOk(s) && s.prod.PSwitch? && Switched(s, s') && RingOk(s')
    ensures ConsOk(s')
  {
    assert |s.live| > 1 ==> s'.live[1] == s.live[1];
  }

  lemma EnqueueKeeps(s: State, x: Item, can: bool)
    requires Inv(s) && s.prod.PIdle?
    ensures Inv(CallEnqueue(s, x, can))
  {
    ProdMoveKeeps(s, CallEnqueue(s, x, can).prod);
  }

  lemma ProdStepKeeps(s: State, works: bool)
    requires Inv(s) && ProdEnabled(s)
    ensures Inv(ProdStep(s, works))
  {
    if s.prod.PFront? {
      ProdFrontKeeps(s, works);
    } else if s.prod.PNext? || s.prod.PCompare? {
      ProdCompareKeeps(s, works);
    } else if s.prod.PStore? {
      ProdStoreKeeps(s, works);
    } else if s.prod.PTail? {
      ProdTailKeeps(s, works);
    } else if s.prod.PAlloc? {
      ProdAllocKeeps(s, works);
    } else if s.prod.PLink? {
      ProdLinkKeeps(s, works);
    } else if s.prod.PSwitch? {
      ProdSwitchKeeps(s, works);
    } else {
      ProdNextKeeps(s, works);
    }
  }

  // ---------- the consumer ----------

  /** The producer's facts speak of its own variables, of free slots, and of idle blocks only. */
  lemma ProdSees(s: State, s': State, b: nat)
    requires RingOk(s) && ProdOk(s) && RingOk(s') && |s'.blocks| == |s.blocks| && s'.prod == s.prod
    requires s'.live == s.live && s'.idle == s.idle && s'.tailBlock == s.tailBlock && b < |s.blocks| && b !in s.idle
    requires s'.blocks == s.blocks[b := s'.blocks[b]]
    requires s'.blocks[b].tail == s.blocks[b].tail && s'.blocks[b].localFront == s.blocks[b].localFront
    requires s'.blocks[b].next == s.blocks[b].next && s'.blocks[b].data == s.blocks[b].data
    requires s.prod.PLink? ==> s.prod.n != b
    ensures ProdOk(s')
  {
  }

  lemma LiveMember(s: State, i: nat)
    requires Inv(s) && i < |s.live|
    ensures s.live[i] < |s.blocks| && s.live[i] in s.live && s.live[i] !in s.idle
    ensures s.prod.PLink? ==> s.prod.n != s.live[i]
  {
    assert s.live[i] in s.live;
  }

  /** A load of the tail of a live block into the consumer's copy. */
  lemma ConsLoadKeeps(s: State, s': State, i: nat)
    requires Inv(s) && i < |s.live| && i <= 1
    requires s' == Set(s, s.live[i], s.blocks[s.live[i]].(localTail := s.blocks[s.live[i]].tail)).(cons := s'.cons)
    requires RingOk(s') ==> ConsOk(s')
    ensures Inv(s')
  {
    var b := s.live[i];
    LiveMember(s, i);
    assert SameElements(s.blocks[b], s'.blocks[b]);
    SetKeepsContent(s, s', b);
    SetKeepsFill(s, s', b);
    ProdSees(s, s', b);
  }

  /** With one live block, an empty front block is an empty queue. */
  lemma OneBlock(s: State)
    requires RingOk(s) && s.put == s.got + Content(s.blocks, s.live) && |s.live| == 1
    ensures Count(s.blocks[s.frontBlock]) == 0 ==> s.put == s.got
  {
    assert s.live == [s.frontBlock] && s.live[1..] == [];
    assert Content(s.blocks, s.live) == Segment(s.blocks[s.frontBlock]) + Content(s.blocks, s.live[1..]);
    SegmentLength(s.blocks[s.frontBlock]);
  }

  lemma ConsTailKeeps(s: State)
    requires Inv(s) && ConsEnabled(s) && (s.cons.CTail? || s.cons.CTailAgain?)
    ensures Inv(ConsStep(s))
  {
    if |s.live| == 1 { OneBlock(s); }
    ConsLoadKeeps(s, ConsStep(s), 0);
  }

  lemma ConsNextTailKeeps(s: State)
    requires Inv(s) && ConsEnabled(s) && s.cons.CNextTail? && s.cons.k != Peek
    ensures Inv(ConsStep(s))
  {
    ConsLoadKeeps(s, ConsStep(s), 1);
  }

  /** The consumer moves on without changing a block. */
  lemma ConsMoveKeeps(s: State, pc: ConsPC, log: seq<Answer>)
    requires Inv(s) && ConsOk(s.(cons := pc)) && LogOk(s.(log := log))
    ensures Inv(s.(cons := pc, log := log))
  {
    assert RingOk(s.(cons := pc, log := log));
  }

  /** A front block that is empty is not the tail block once the tail block has been seen elsewhere, and the
      block after it holds the oldest element. */
  lemma ConsLookKeeps(s: State)
    requires Inv(s) && ConsEnabled(s)
    requires s.cons.CTailBlock? || s.cons.CNext? || (s.cons.CNextTail? && s.cons.k == Peek)
    ensures Inv(ConsStep(s))
  {
    var s' := ConsStep(s);
    if s.cons.CTailBlock? && s.frontBlock == s.tailBlock {
      assert |s.live| == 1;
    }
    ConsMoveKeeps(s, s'.cons, s'.log);
  }

  lemma FrontElement(s: State)
    requires Inv(s) && Count(s.blocks[s.frontBlock]) > 0
    ensures |s.got| < |s.put| && s.put[|s.got|] == s.blocks[s.frontBlock].data[s.blocks[s.frontBlock].front]
  {
    SegmentPop(s.blocks[s.frontBlock]);
  }

  lemma SecondElement(s: State)
    requires Inv(s) && |s.live| > 1 && Count(s.blocks[s.frontBlock]) == 0
    ensures |s.got| < |s.put| && s.put[|s.got|] == s.blocks[s.live[1]].data[s.blocks[s.live[1]].front]
  {
    SegmentLength(s.blocks[s.frontBlock]);
    SegmentPop(s.blocks[s.live[1]]);
    var rest := s.live[1..];
    assert forall i :: 0 <= i < |rest| ==> rest[i] == s.live[i + 1];
    assert Content(s.blocks, s.live) == Segment(s.blocks[s.frontBlock]) + Content(s.blocks, rest);
    assert Content(s.blocks, rest) == Segment(s.blocks[s.live[1]]) + Content(s.blocks, rest[1..]);
  }

  lemma ConsReadKeeps(s: State)
    requires Inv(s) && ConsEnabled(s) && (s.cons.CRead? || s.cons.CPeekNext?)
    ensures Inv(ConsStep(s))
  {
    if s.cons.CRead? { FrontElement(s); } else { SecondElement(s); }
    ConsMoveKeeps(s, ConsStep(s).cons, ConsStep(s).log);
  }

  lemma ConsAdvanceKeeps(s: State)
    requires Inv(s) && ConsEnabled(s) && s.cons.CAdvance?
    ensures Inv(ConsStep(s))
  {
    var s' := ConsStep(s);
    AdvanceRing(s, s');
    SegmentLength(s.blocks[s.frontBlock]);
    assert Content(s.blocks, s.live) == Content(s.blocks, s'.live);
    AdvanceFill(s, s');
    AdvanceProd(s, s');
  }

  /** The front block becomes the last idle one. */
  lemma MoveToIdle(blocks: seq<Block>, live: seq<nat>, idle: seq<nat>)
    requires Within(live, |blocks|) && Within(idle, |blocks|) && |live| > 1
    requires Distinct(live) && Distinct(idle) && Apart(live, idle)
    requires Linked(blocks, live, if idle == [] then live[0] else idle[0]) && Linked(blocks, idle, live[0])
    ensures Within(live[1..], |blocks|) && Within(idle + [live[0]], |blocks|)
    ensures Distinct(live[1..]) && Distinct(idle + [live[0]]) && Apart(live[1..], idle + [live[0]])
    ensures Linked(blocks, live[1..], (idle + [live[0]])[0])
    ensures Linked(blocks, idle + [live[0]], live[1])
  {
  }

  lemma AdvanceRing(s: State, s': State)
    requires RingOk(s) && ConsEnabled(s) && ConsOk(s) && s.cons.CAdvance? && s' == ConsStep(s)
    ensures RingOk(s')
  {
    MoveToIdle(s.blocks, s.live, s.idle);
  }

  lemma AdvanceFill(s: State, s': State)
    requires Inv(s) && ConsEnabled(s) && s.cons.CAdvance? && s' == ConsStep(s) && RingOk(s')
    ensures FillOk(s')
  {
    forall i | 0 < i < |s'.live| ensures Count(s'.blocks[s'.live[i]]) > 0 { assert s'.live[i] == s.live[i + 1]; }
    forall i | 0 < i < |s'.live| - 1 ensures IsFull(s'.blocks[s'.live[i]]) { assert s'.live[i] == s.live[i + 1]; }
    forall i | 0 <= i < |s'.idle| ensures (i == 0 && s'.prod.PSwitch?) || Count(s'.blocks[s'.idle[i]]) == 0 {
      if i < |s.idle| { assert s'.idle[i] == s.idle[i]; } else { assert s'.idle[i] == s.frontBlock; }
    }
  }

  lemma AdvanceProd(s: State, s': State)
    requires Inv(s) && ConsEnabled(s) && s.cons.CAdvance? && s' == ConsStep(s) && RingOk(s')
    ensures ProdOk(s')
  {
    assert s.idle != [] ==> s'.idle[0] == s.idle[0];
    if s.prod.PLink? {
      LiveMember(s, 0);
      assert forall n :: n in s'.live ==> n in s.live;
    }
  }

  /** The store of the front index is where the element leaves the queue. */
  lemma ConsFrontKeeps(s: State)
    requires Inv(s) && ConsEnabled(s) && s.cons.CFront?
    ensures Inv(ConsStep(s))
  {
    var s' := ConsStep(s);
    FrontRing(s, s');
    FrontFill(s, s');
    FrontStream(s, s');
  }

  lemma FrontRing(s: State, s': State)
    requires Inv(s) && ConsEnabled(s) && s.cons.CFront? && s' == ConsStep(s)
    ensures RingOk(s') && ProdOk(s')
  {
    LiveMember(s, 0);
    SetKeepsRing(s, s', s.frontBlock);
    ProdSees(s, s', s.frontBlock);
  }

  lemma FrontStream(s: State, s': State)
    requires Inv(s) && ConsEnabled(s) && s.cons.CFront? && s' == ConsStep(s) && RingOk(s')
    ensures s'.put == s'.got + Content(s'.blocks, s'.live) && LogOk(s')
  {
    FrontElement(s);
    FrontContent(s, s');
    MoveOver(s.put, s.got, Content(s.blocks, s.live), s.cons.x);
    FrontLog(s, s');
  }

  lemma MoveOver(put: seq<Item>, got: seq<Item>, c: seq<Item>, x: Item)
    requires put == got + c && c != [] && put[|got|] == x
    ensures put == got + [x] + c[1..]
  {
    assert c == [x] + c[1..];
  }

  lemma FrontLog(s: State, s': State)
    requires LogOk(s) && ConsEnabled(s) && s.cons.CFront? && s' == ConsStep(s)
    requires |s.got| < |s.put| && s.put[|s.got|] == s.cons.x
    ensures LogOk(s')
  {
  }

  lemma FrontContent(s: State, s': State)
    requires RingOk(s) && ConsEnabled(s) && ConsOk(s) && s.cons.CFront? && s' == ConsStep(s) && RingOk(s')
    ensures Content(s.blocks, s.live) != [] && Content(s'.blocks, s.live) == Content(s.blocks, s.live)[1..]
  {
    var f := s.frontBlock;
    SegmentPop(s.blocks[f]);
    var rest := s.live[1..];
    RestUntouched(s, s', rest);
    assert Content(s.blocks, s.live) == Segment(s.blocks[f]) + Content(s.blocks, rest);
    assert Content(s'.blocks, s.live) == Segment(s'.blocks[f]) + Content(s'.blocks, rest);
    TailOfConcat(Segment(s.blocks[f]), Content(s.blocks, rest));
  }

  lemma TailOfConcat(a: seq<Item>, b: seq<Item>)
    requires a != []
    ensures (a + b)[1..] == a[1..] + b
  {
  }

  lemma RestUntouched(s: State, s': State, rest: seq<nat>)
    requires RingOk(s) && RingOk(s') && rest == s.live[1..] && |s'.blocks| == |s.blocks|
    requires forall b :: 0 <= b < |s.blocks| && b != s.frontBlock ==> s'.blocks[b] == s.blocks[b]
    ensures Fits(s.blocks, rest) && Fits(s'.blocks, rest) && Content(s'.blocks, rest) == Content(s.blocks, rest)
  {
    assert forall i :: 0 <= i < |rest| ==> rest[i] == s.live[i + 1];
    assert Fits(s.blocks, rest) && Fits(s'.blocks, rest);
    ContentFrame(s.blocks, s'.blocks, rest);
  }

  lemma PopCounts(b: Block)
    requires InBounds(b) && 0 < Count(b)
    ensures InBounds(b.(front := Next(b.front, Size(b)))) && Count(b.(front := Next(b.front, Size(b)))) == Count(b) - 1
    ensures 0 < Claimed(b) ==> Claimed(b.(front := Next(b.front, Size(b)))) == Claimed(b) - 1
  {
  }

  /** The step: the front index of the front block moves on. */
  predicate Popped(s: State, s': State)
    requires RingOk(s)
  {
    var fb := s.blocks[s.frontBlock];
    && s'.blocks == s.blocks[s.frontBlock := fb.(front := Next(fb.front, Size(fb)))] && s'.prod == s.prod
    && s'.live == s.live && s'.idle == s.idle && s'.frontBlock == s.frontBlock && s'.tailBlock == s.tailBlock
  }

  lemma FrontFill(s: State, s': State)
    requires RingOk(s) && FillOk(s) && ConsOk(s) && s.cons.CFront? && Popped(s, s') && RingOk(s')
    ensures FillOk(s')
  {
    assert s.live[|s.live| - 1] == s.tailBlock;
    FrontOthers(s, s');
    FrontCopies(s, s');
  }

  /** The private copies stay within what the front block holds. */
  lemma FrontCopies(s: State, s': State)
    requires RingOk(s) && FillOk(s) && ConsOk(s) && s.cons.CFront? && Popped(s, s') && RingOk(s')
    ensures Claimed(s'.blocks[s.frontBlock]) <= Count(s'.blocks[s.frontBlock])
    ensures Count(s'.blocks[s.tailBlock]) <= Occupied(s'.blocks[s.tailBlock])
  {
    PopCounts(s.blocks[s.frontBlock]);
  }

  lemma FrontOthers(s: State, s': State)
    requires RingOk(s) && Popped(s, s')
    ensures forall i :: 0 < i < |s.live| ==> s.live[i] < |s.blocks| && s'.blocks[s.live[i]] == s.blocks[s.live[i]]
    ensures forall i :: 0 <= i < |s.idle| ==> s.idle[i] < |s.blocks| && s'.blocks[s.idle[i]] == s.blocks[s.idle[i]]
  {
  }

  lemma TakeKeeps(s: State, k: Kind)
    requires Inv(s) && s.cons.CIdle?
    ensures Inv(CallTake(s, k))
  {
    ConsMoveKeeps(s, CallTake(s, k).cons, s.log);
  }

  lemma ConsStepKeeps(s: State)
    requires Inv(s) && ConsEnabled(s)
    ensures Inv(ConsStep(s))
  {
    if s.cons.CTail? || s.cons.CTailAgain? {
      ConsTailKeeps(s);
    } else if s.cons.CNextTail? && s.cons.k != Peek {
      ConsNextTailKeeps(s);
    } else if s.cons.CRead? || s.cons.CPeekNext? {
      ConsReadKeeps(s);
    } else if s.cons.CAdvance? {
      ConsAdvanceKeeps(s);
    } else if s.cons.CFront? {
      ConsFrontKeeps(s);
    } else {
      ConsLookKeeps(s);
    }
  }
}
