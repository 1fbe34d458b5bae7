/**
 `enqueue_bulk` of an implicit producer (ext/MoodyCamel/concurrentqueue.h, lines 2533-2680): all blocks are
 acquired first, one per block boundary in the new range, then the elements are written. If the index or the
 pool gives out midway, everything acquired is given back.

 Indices are 64-bit words. Of the block index only what module BlockIndex shows it to be is kept: `index`, from
 the numbers of blocks to blocks, always accessed with the base of that number; `indexTail`, its logical tail;
 and `indexRoom`, how many insertions it can take before an allocation fails. `free` is what requisition_block
 can give, next one first. `hist` and `headCount` are auxiliary: all items ever enqueued, and the unbounded head.
 Consumers do not run in between: what they do meanwhile only concerns blocks that are already published
 (modules ImplicitQueueRuns and BlockIndexRuns).
 */
module BulkEnqueue {
  import opened Options
  import opened Slots
  import opened Sets
  import opened Modular
  import opened Words
  import opened BlockIndex

  /** Blocks by their numbers, the `next` fields of blocks, and the slots of blocks. */
  type Index = map<nat, nat>
  type Links = map<nat, Option<nat>>
  type Memory = map<nat, seq<Option<Item>>>

  /** How many blocks `count` elements from index `start` on begin. */
  function Boundaries(start: nat, count: nat): nat {
    (start + count - 1) / BLOCK_SIZE - (start - 1) / BLOCK_SIZE
  }

  /** It is one per multiple of the block size in the range. */
  lemma {:induction false} BoundaryCount(start: nat, count: nat)
    ensures Boundaries(start, count) == |set i | start <= i < start + count && i % BLOCK_SIZE == 0|
    decreases count
  {
    var all := set i | start <= i < start + count && i % BLOCK_SIZE == 0;
    if count == 0 {
      assert all == {};
    } else {
      BoundaryCount(start, count - 1);
      var last := start + count - 1;
      var rest := set i | start <= i < start + (count - 1) && i % BLOCK_SIZE == 0;
      if last % BLOCK_SIZE == 0 {
        assert all == rest + {last};
      } else {
        assert all == rest;
      }
    }
  }

  /** Number of the first block begun at or after `start`. */
  function FirstNew(start: nat): nat {
    (start - 1) / BLOCK_SIZE + 1
  }

  /** `currentTailIndex += BLOCK_SIZE` */
  function NextBase(w: nat): nat {
    (w + BLOCK_SIZE) % WORD
  }

  lemma NextKey(n: int)
    ensures NextBase(KeyOf(n)) == KeyOf(n + 1)
  {
    ModCongruent(BLOCK_SIZE * n, WORD);
    var q := BLOCK_SIZE * n / WORD;
    var x := KeyOf(n) + BLOCK_SIZE;
    SameRemainder(BLOCK_SIZE * (n + 1), WORD, q + x / WORD, x % WORD);
  }

  lemma WordSum(x: int, y: int)
    ensures (x % WORD + y) % WORD == (x + y) % WORD
  {
    var z := x % WORD + y;
    SameRemainder(x + y, WORD, x / WORD + z / WORD, z % WORD);
  }

  /** `blockBaseDiff`, wrapping subtractions included, is the block size times the number of boundaries. */
  lemma BaseDiff(start: nat, count: nat)
    requires count < HALF
    ensures BaseOf((start % WORD - 1) % WORD) == KeyOf(FirstNew(start) - 1)
    ensures (BaseOf((start % WORD + count - 1) % WORD) - BaseOf((start % WORD - 1) % WORD)) % WORD
         == BLOCK_SIZE * Boundaries(start, count)
  {
    WordSum(start, -1);
    WordSum(start, count - 1);
    BaseIsKey(start - 1);
    BaseIsKey(start + count - 1);
    var a, b := (start + count - 1) / BLOCK_SIZE, (start - 1) / BLOCK_SIZE;
    ModSub(BLOCK_SIZE * a, BLOCK_SIZE * b);
    assert BLOCK_SIZE * a - BLOCK_SIZE * b == BLOCK_SIZE * (a - b);
    ModSmall(BLOCK_SIZE * (a - b));
  }

  // ---------- the producer's state ----------

  /** Blocks with unclaimed elements, or room for the next one, are those numbered from the head's up to the tail's. */
  predicate Live(head: nat, tail: nat, n: int) {
    head / BLOCK_SIZE <= n && BLOCK_SIZE * n < tail
  }

  /** The index has the live blocks, each once, and perhaps older ones: consumers have claimed every element of
      those, and some of them still have to move elements out or to release the block. */
  ghost predicate IndexOk(index: Index, head: nat, tail: nat) {
    && (forall n: nat :: Live(head, tail, n) ==> n in index)
    && (forall n: nat :: n in index ==> BLOCK_SIZE * n < tail)
    && (forall m, n :: m in index && n in index && m != n ==> index[m] != index[n])
  }

  /** Blocks of the index and free blocks are there, and are different ones. */
  predicate BlocksOk(index: Index, slots: Memory, free: seq<nat>) {
    && (forall n :: n in index ==> index[n] in slots && index[n] !in free)
    && (forall b :: b in free ==> b in slots)
    && Sized(slots)
    && Distinct(free)
  }

  /** Element `j` is in slot `j % BLOCK_SIZE` of block `j / BLOCK_SIZE`. */
  predicate Holds(index: Index, slots: Memory, j: nat, x: Item) {
    HoldsAt(index, slots, j / BLOCK_SIZE, j % BLOCK_SIZE, x)
  }

  predicate HoldsAt(index: Index, slots: Memory, n: nat, r: nat, x: Item) {
    n in index && index[n] in slots && |slots[index[n]]| == BLOCK_SIZE && r < BLOCK_SIZE && slots[index[n]][r] == Some(x)
  }

  predicate HoldAll(index: Index, slots: Memory, hist: seq<Item>, lo: nat, hi: nat) {
    forall j :: lo <= j < hi && j < |hist| ==> Holds(index, slots, j, hist[j])
  }

  predicate Sized(slots: Memory) {
    forall b :: b in slots ==> |slots[b]| == BLOCK_SIZE
  }

  /** Every element below index `tail` that was in its place, claimed or not, still is. */
  ghost predicate StillHolds(index0: Index, slots0: Memory, index: Index, slots: Memory, tail: nat) {
    forall j: nat, x :: j < tail && Holds(index0, slots0, j, x) ==> Holds(index, slots, j, x)
  }

  lemma HeldOn(index0: Index, slots0: Memory, index: Index, slots: Memory, hist: seq<Item>, lo: nat)
    requires StillHolds(index0, slots0, index, slots, |hist|) && HoldAll(index0, slots0, hist, lo, |hist|)
    ensures HoldAll(index, slots, hist, lo, |hist|)
  {
    forall j | lo <= j < |hist| ensures Holds(index, slots, j, hist[j]) {
      assert Holds(index0, slots0, j, hist[j]);
    }
  }

  /** The items behind index `tail`. */
  predicate HoldNew(index: Index, slots: Memory, tail: nat, items: seq<Item>) {
    forall i: nat :: i < |items| ==> Holds(index, slots, tail + i, items[i])
  }

  /** What a bulk of `count` elements needs: index and pool have a block for every boundary, and the last new
      block passes the fullness test. */
  predicate Fits(head: nat, tail: nat, count: nat, room: nat, pool: nat) {
    var n := Boundaries(tail, count);
    n <= room && n <= pool && (n > 0 ==> BLOCK_SIZE * (FirstNew(tail) + n) - head < HALF)
  }

  /** `index` is `index0` and block `bs[n - first]` for the numbers `n` from `lo` up to `hi`. */
  ghost predicate Extended(index0: Index, index: Index, first: nat, lo: nat, hi: nat, bs: seq<nat>) {
    && first <= lo <= hi <= first + |bs|
    && (forall n :: n in index0 ==> n in index && index[n] == index0[n])
    && (forall n: nat :: lo <= n < hi ==> n in index && n !in index0 && index[n] == bs[n - first])
    && (forall n :: n in index ==> n in index0 || lo <= n < hi)
  }

  lemma ExtendedMore(index0: Index, index: Index, first: nat, bs: seq<nat>, b: nat)
    requires Extended(index0, index, first, first, first + |bs|, bs) && first + |bs| !in index0
    ensures Extended(index0, index[first + |bs| := b], first, first, first + |bs| + 1, bs + [b])
  {
  }

  lemma ExtendedLess(index0: Index, index: Index, first: nat, lo: nat, hi: nat, bs: seq<nat>)
    requires Extended(index0, index, first, lo, hi, bs) && lo < hi
    ensures Extended(index0, index - {lo}, first, lo + 1, hi, bs)
  {
  }

  lemma ExtendedNot(index0: Index, index: Index, first: nat, hi: nat, bs: seq<nat>)
    requires Extended(index0, index, first, hi, hi, bs)
    ensures index == index0
  {
  }

  function First(bs: seq<nat>): Option<nat> {
    if bs == [] then None else Some(bs[0])
  }

  /** The blocks are linked in this order by their `next` fields, the last to none. */
  predicate Chained(next: Links, bs: seq<nat>) {
    bs == [] || (bs[0] in next && next[bs[0]] == First(bs[1..]) && Chained(next, bs[1..]))
  }

  lemma {:induction false} ChainedElsewhere(next: Links, bs: seq<nat>, b: nat, o: Option<nat>)
    requires Chained(next, bs) && b !in bs
    ensures Chained(next[b := o], bs)
    decreases |bs|
  {
    if bs != [] { ChainedElsewhere(next, bs[1..], b, o); }
  }

  lemma {:induction false} ChainedMore(next: Links, bs: seq<nat>, b: nat)
    requires Chained(next, bs) && b !in bs && bs != [] && Distinct(bs)
    ensures Chained(next[b := None][bs[|bs| - 1] := Some(b)], bs + [b])
    decreases |bs|
  {
    var last := bs[|bs| - 1];
    var next' := next[b := None][last := Some(b)];
    assert (bs + [b])[1..] == bs[1..] + [b];
    if |bs| == 1 {
      assert [b][1..] == [];
    } else {
      assert bs[1..][|bs[1..]| - 1] == last;
      ChainedMore(next, bs[1..], b);
    }
  }

  function Last(bs: seq<nat>, start: Option<nat>): Option<nat> {
    if bs == [] then start else Some(bs[|bs| - 1])
  }

  /** Blocks outside the pool have kept their elements. */
  predicate SameSlots(slots0: Memory, slots: Memory, free0: seq<nat>) {
    && slots.Keys == slots0.Keys
    && forall b :: b in slots ==> if b in free0 then |slots[b]| == BLOCK_SIZE else slots[b] == slots0[b]
  }

  /** The new blocks have been reset, the others are as they were. */
  predicate Reset(slots0: Memory, slots: Memory, bs: seq<nat>) {
    && slots.Keys == slots0.Keys
    && forall b :: b in slots ==> slots[b] == if b in bs then EmptySlots() else slots0[b]
  }

  /** The fullness test, on the words of the counters. */
  lemma FullMeans(head: nat, n: int)
    requires BLOCK_SIZE * (n + 1) > head && BLOCK_SIZE * (n + 1) - head < WORD
    ensures CircularLessThan(head % WORD, NextBase(KeyOf(n))) <==> BLOCK_SIZE * (n + 1) - head < HALF
  {
    NextKey(n);
    CircularLessThanWindow(head, BLOCK_SIZE * (n + 1) - head);
  }

  /** The links after one more block has been chained behind the tail block, or behind nothing. */
  function LinkedNext(next: Links, tail: Option<nat>, b: nat, chained: bool): Links
    requires chained ==> tail.Some?
  {
    if chained then next[b := None][tail.value := Some(b)] else next[b := None]
  }

  /** The block that was being filled leads on to the first new one. */
  predicate LinkedTo(next: Links, start: Option<nat>, bs: seq<nat>, midBlock: bool) {
    midBlock && bs != [] ==> start.Some? && start.value in next && next[start.value] == Some(bs[0])
  }

  lemma LinksGrow(next: Links, bs: seq<nat>, start: Option<nat>, b: nat, midBlock: bool)
    requires Chained(next, bs) && Distinct(bs) && b !in bs && LinkedTo(next, start, bs, midBlock)
    requires midBlock ==> start.Some? && start.value != b && start.value !in bs
    ensures var next' := LinkedNext(next, Last(bs, start), b, midBlock || bs != []);
      Chained(next', bs + [b]) && LinkedTo(next', start, bs + [b], midBlock)
  {
    if bs == [] {
      assert [] + [b] == [b] && [b][1..] == [];
    } else {
      ChainedMore(next, bs, b);
    }
  }

  lemma ResetMore(slots0: Memory, slots: Memory, bs: seq<nat>, b: nat)
    requires Reset(slots0, slots, bs) && b in slots0
    ensures Reset(slots0, slots[b := EmptySlots()], bs + [b])
  {
  }

  lemma TakenMore(free0: seq<nat>, bs: seq<nat>)
    requires |bs| < |free0| && bs == free0[..|bs|] && Distinct(free0)
    ensures var b := free0[|bs|];
      bs + [b] == free0[..|bs| + 1] && free0[|bs|..][0] == b && free0[|bs|..][1..] == free0[|bs| + 1..] && b !in bs && Distinct(bs)
  {
  }

  /** What taking the blocks `bs` has made of memory: `index0`, `slots0`, `free0` before; `f` is the number of the
      first, `start` the tail block before. */
  ghost predicate Taken(bs: seq<nat>, f: nat, index0: Index, index: Index, slots0: Memory,
                        slots: Memory, free0: seq<nat>, free: seq<nat>) {
    && |bs| <= |free0| && bs == free0[..|bs|] && free == free0[|bs|..]
    && Reset(slots0, slots, bs) && Extended(index0, index, f, f, f + |bs|, bs)
  }

  lemma TakenOneMore(bs: seq<nat>, b: nat, f: nat, index0: Index, index: Index, index': Index, slots0: Memory,
                     slots: Memory, slots': Memory, free0: seq<nat>, free: seq<nat>)
    requires Taken(bs, f, index0, index, slots0, slots, free0, [b] + free) && Distinct(free0)
    requires f + |bs| !in index0 && b in slots0
    requires index' == index[f + |bs| := b] && slots' == slots[b := EmptySlots()]
    ensures Taken(bs + [b], f, index0, index', slots0, slots', free0, free)
  {
    assert free0[|bs|..][0] == b && free0[|bs|..][1..] == free;
    TakenMore(free0, bs);
    ExtendedMore(index0, index, f, bs, b);
    ResetMore(slots0, slots, bs, b);
  }

  lemma NotYetTaken(bs: seq<nat>, b: nat, free0: seq<nat>, free: seq<nat>)
    requires |bs| <= |free0| && bs == free0[..|bs|] && [b] + free == free0[|bs|..] && Distinct(free0)
    ensures b !in bs && Distinct(bs) && b in free0
  {
    assert free0[|bs|..][0] == b;
    TakenMore(free0, bs);
  }

  lemma AboutNext(index0: Index, head: nat, tail: nat, count: nat, k: nat, room: nat, pool: nat)
    requires IndexOk(index0, head, tail) && head <= tail < head + HALF && count <= HALF - BLOCK_SIZE
    requires k < Boundaries(tail, count) && k <= room && k <= pool
    ensures var passes := CircularLessThan(head % WORD, NextBase(KeyOf(FirstNew(tail) + k)));
      && FirstNew(tail) + k !in index0
      && (passes ==> BLOCK_SIZE * (FirstNew(tail) + k + 1) - head < HALF)
      && (!(passes && room > k && pool > k) ==> !Fits(head, tail, count, room, pool))
  {
    FullMeans(head, FirstNew(tail) + k);
  }

  lemma SameOffset(tail: nat)
    ensures (tail % WORD) % BLOCK_SIZE == tail % BLOCK_SIZE
  {
    var q, w := tail / WORD, tail % WORD;
    assert WORD == HALF_KEYS * BLOCK_SIZE;
    assert tail == q * WORD + w;
    SameRemainder(tail, BLOCK_SIZE, q * HALF_KEYS + w / BLOCK_SIZE, w % BLOCK_SIZE);
  }

  lemma SlotsKept(slots0: Memory, slots: Memory, free0: seq<nat>, bs: seq<nat>)
    requires Reset(slots0, slots, bs) && |bs| <= |free0| && bs == free0[..|bs|]
    requires Sized(slots0)
    ensures SameSlots(slots0, slots, free0)
  {
  }

  lemma {:induction false} DistinctCounts(xs: seq<nat>)
    ensures Distinct(xs) <==> forall x: nat :: multiset(xs)[x] <= 1
    decreases |xs|
  {
    if xs != [] {
      DistinctCounts(xs[1..]);
      assert xs == [xs[0]] + xs[1..];
      if Distinct(xs) {
        assert xs[0] !in xs[1..];
      } else if Distinct(xs[1..]) {
        assert xs[0] in xs[1..];
        assert multiset(xs)[xs[0]] > 1;
      } else {
        var x: nat :| multiset(xs[1..])[x] > 1;
        assert multiset(xs)[x] > 1;
      }
    }
  }

  /** Giving blocks back in another order leaves a pool as good as before. */
  lemma PoolKept(free0: seq<nat>, free: seq<nat>)
    requires multiset(free) == multiset(free0) && Distinct(free0)
    ensures Distinct(free) && forall b :: b in free <==> b in free0
  {
    DistinctCounts(free0);
    DistinctCounts(free);
    forall b ensures b in free <==> b in free0 {
      assert b in free <==> b in multiset(free);
      assert b in free0 <==> b in multiset(free0);
    }
  }

  // ---------- writing the elements ----------

  /** The blocks `ws` can be walked by their links. */
  predicate Path(next: Links, ws: seq<nat>) {
    |ws| <= 1 || (ws[0] in next && next[ws[0]] == Some(ws[1]) && Path(next, ws[1..]))
  }

  lemma {:induction false} ChainIsPath(next: Links, bs: seq<nat>)
    requires Chained(next, bs)
    ensures Path(next, bs)
    decreases |bs|
  {
    if |bs| > 1 { ChainIsPath(next, bs[1..]); }
  }

  /** Position `32 * q + r` is slot `r` of `ws[q]`: from `off` on it holds the first `n` items, elsewhere what it
      held before. */
  predicate Written(slots0: Memory, slots: Memory, ws: seq<nat>, off: nat, items: seq<Item>, n: nat)
    requires n <= |items|
  {
    && slots.Keys == slots0.Keys
    && (forall b :: b in slots && b !in ws ==> slots[b] == slots0[b])
    && forall q :: 0 <= q < |ws| ==> ws[q] in slots && BlockWritten(slots0[ws[q]], slots[ws[q]], BLOCK_SIZE * q, off, items, n)
  }

  predicate BlockWritten(before: seq<Option<Item>>, now: seq<Option<Item>>, at: int, off: nat, items: seq<Item>, n: nat)
    requires n <= |items|
  {
    && |now| == |before| == BLOCK_SIZE
    && forall r :: 0 <= r < BLOCK_SIZE ==>
         now[r] == if off <= at + r < off + n then Some(items[at + r - off]) else before[r]
  }

  lemma WrittenMore(slots0: Memory, slots: Memory, ws: seq<nat>, off: nat, items: seq<Item>,
                    n: nat, q: nat, r: nat)
    requires n < |items| && Written(slots0, slots, ws, off, items, n) && Distinct(ws)
    requires q < |ws| && r < BLOCK_SIZE && BLOCK_SIZE * q + r == off + n
    ensures Written(slots0, slots[ws[q] := slots[ws[q]][r := Some(items[n])]], ws, off, items, n + 1)
  {
    var slots' := slots[ws[q] := slots[ws[q]][r := Some(items[n])]];
    forall p | 0 <= p < |ws| ensures ws[p] in slots' && BlockWritten(slots0[ws[p]], slots'[ws[p]], BLOCK_SIZE * p, off, items, n + 1) {
      assert BlockWritten(slots0[ws[p]], slots[ws[p]], BLOCK_SIZE * p, off, items, n);
    }
  }

  /** The blocks to write to: the one being filled, if there is one, and the new ones. */
  function Blocks(start: Option<nat>, bs: seq<nat>, midBlock: bool): seq<nat>
    requires midBlock ==> start.Some?
  {
    if midBlock then [start.value] + bs else bs
  }

  /** Elements in blocks outside the pool are not affected by what happens to the pool's. */
  lemma StillHeld(index: Index, slots0: Memory, slots: Memory, free0: seq<nat>, tail: nat)
    requires SameSlots(slots0, slots, free0) && forall n :: n in index ==> index[n] !in free0
    ensures StillHolds(index, slots0, index, slots, tail)
  {
  }

  lemma BulkCovers(tail: nat, count: nat, start: Option<nat>, bs: seq<nat>)
    requires |bs| == Boundaries(tail, count) && (tail % BLOCK_SIZE != 0 ==> start.Some?)
    ensures Covers(Blocks(start, bs, tail % BLOCK_SIZE != 0), tail % BLOCK_SIZE, count)
  {
  }

  lemma BulkPath(next: Links, start: Option<nat>, bs: seq<nat>, midBlock: bool)
    requires Chained(next, bs) && LinkedTo(next, start, bs, midBlock) && (midBlock ==> start.Some?)
    ensures Path(next, Blocks(start, bs, midBlock))
  {
    ChainIsPath(next, bs);
    if midBlock { assert ([start.value] + bs)[1..] == bs; }
  }

  /** The index after a successful bulk has exactly the live blocks again. */
  lemma BulkIndex(index0: Index, index: Index, head: nat, tail: nat, count: nat, bs: seq<nat>)
    requires IndexOk(index0, head, tail) && head <= tail && |bs| == Boundaries(tail, count) && Distinct(bs)
    requires Extended(index0, index, FirstNew(tail), FirstNew(tail), FirstNew(tail) + |bs|, bs)
    requires forall n :: n in index0 ==> index0[n] !in bs
    ensures IndexOk(index, head, tail + count)
  {
  }

  lemma BulkBlocks(index0: Index, index: Index, slots0: Memory, slots: Memory,
                   free0: seq<nat>, f: nat, bs: seq<nat>)
    requires BlocksOk(index0, slots0, free0) && Extended(index0, index, f, f, f + |bs|, bs)
    requires |bs| <= |free0| && bs == free0[..|bs|] && slots.Keys == slots0.Keys && Sized(slots)
    ensures BlocksOk(index, slots, free0[|bs|..])
  {
    forall n | n in index ensures index[n] in slots && index[n] !in free0[|bs|..] {
      if n !in index0 { assert index[n] == free0[n - f]; }
    }
  }

  /** Element `i` after `tail`: its block and slot, counted from the block of `tail`. */
  lemma Split(tail: nat, i: nat)
    ensures var off := tail % BLOCK_SIZE;
      && (tail + i) / BLOCK_SIZE == tail / BLOCK_SIZE + (off + i) / BLOCK_SIZE
      && (tail + i) % BLOCK_SIZE == (off + i) % BLOCK_SIZE
      && off + i == BLOCK_SIZE * ((off + i) / BLOCK_SIZE) + (off + i) % BLOCK_SIZE
  {
  }

  lemma FirstNewIs(tail: nat)
    ensures FirstNew(tail) == if tail % BLOCK_SIZE == 0 then tail / BLOCK_SIZE else tail / BLOCK_SIZE + 1
  {
  }

  /** The setting of a bulk that has its blocks: before it, `index0` and `slots0`. */
  ghost predicate Setting(index0: Index, index: Index, slots0: Memory, slots1: Memory,
                          head: nat, tail: nat, count: nat, start: Option<nat>, bs: seq<nat>) {
    && IndexOk(index0, head, tail) && head <= tail < head + HALF
    && |bs| == Boundaries(tail, count) && Extended(index0, index, FirstNew(tail), FirstNew(tail), FirstNew(tail) + |bs|, bs)
    && Reset(slots0, slots1, bs) && Distinct(bs) && (forall n :: n in index0 ==> index0[n] !in bs)
    && (tail % BLOCK_SIZE != 0 ==> tail / BLOCK_SIZE in index0 && start == Some(index0[tail / BLOCK_SIZE]))
  }

  /** The index has the blocks `ws` for the numbers from `n` on. */
  predicate Indexed(index: Index, n: nat, ws: seq<nat>) {
    forall q, m :: 0 <= q < |ws| && m == n + q ==> m in index && index[m] == ws[q]
  }

  lemma BlocksIndexed(index0: Index, index: Index, tail: nat, start: Option<nat>, bs: seq<nat>)
    requires Extended(index0, index, FirstNew(tail), FirstNew(tail), FirstNew(tail) + |bs|, bs)
    requires tail % BLOCK_SIZE != 0 ==> tail / BLOCK_SIZE in index && start == Some(index[tail / BLOCK_SIZE])
    ensures Indexed(index, tail / BLOCK_SIZE, Blocks(start, bs, tail % BLOCK_SIZE != 0))
  {
    FirstNewIs(tail);
  }

  lemma OldHeld(index0: Index, index: Index, slots0: Memory, slots1: Memory,
                slots: Memory, head: nat, tail: nat, start: Option<nat>, bs: seq<nat>, items: seq<Item>, j: nat, x: Item)
    requires Setting(index0, index, slots0, slots1, head, tail, |items|, start, bs)
    requires Written(slots1, slots, Blocks(start, bs, tail % BLOCK_SIZE != 0), tail % BLOCK_SIZE, items, |items|)
    requires j < tail && Holds(index0, slots0, j, x)
    ensures Holds(index, slots, j, x)
  {
    var b := index0[j / BLOCK_SIZE];
    var ws := Blocks(start, bs, tail % BLOCK_SIZE != 0);
    if b in ws {
      assert tail % BLOCK_SIZE != 0 && b == start.value == ws[0] && j / BLOCK_SIZE == tail / BLOCK_SIZE;
      assert BlockWritten(slots1[b], slots[b], BLOCK_SIZE * 0, tail % BLOCK_SIZE, items, |items|);
    }
  }

  lemma NewHeld(index: Index, slots1: Memory, slots: Memory, tail: nat, ws: seq<nat>,
                items: seq<Item>, i: nat)
    requires Indexed(index, tail / BLOCK_SIZE, ws) && Covers(ws, tail % BLOCK_SIZE, |items|) && i < |items|
    requires Written(slots1, slots, ws, tail % BLOCK_SIZE, items, |items|)
    ensures Holds(index, slots, tail + i, items[i])
  {
    var off := tail % BLOCK_SIZE;
    var q, r := (off + i) / BLOCK_SIZE, (off + i) % BLOCK_SIZE;
    Split(tail, i);
    WrittenAt(slots1, slots, ws, off, items, i, q, r);
    assert HoldsAt(index, slots, tail / BLOCK_SIZE + q, r, items[i]);
  }

  lemma WrittenAt(slots1: Memory, slots: Memory, ws: seq<nat>, off: nat, items: seq<Item>, i: nat,
                  q: nat, r: nat)
    requires Written(slots1, slots, ws, off, items, |items|) && i < |items| && off + i == BLOCK_SIZE * q + r && r < BLOCK_SIZE && q < |ws|
    ensures ws[q] in slots && |slots[ws[q]]| == BLOCK_SIZE && slots[ws[q]][r] == Some(items[i])
  {
    assert BlockWritten(slots1[ws[q]], slots[ws[q]], BLOCK_SIZE * q, off, items, |items|);
  }

  lemma AllNewHeld(index: Index, slots1: Memory, slots: Memory, tail: nat, ws: seq<nat>, items: seq<Item>)
    requires Indexed(index, tail / BLOCK_SIZE, ws) && Covers(ws, tail % BLOCK_SIZE, |items|)
    requires Written(slots1, slots, ws, tail % BLOCK_SIZE, items, |items|)
    ensures HoldNew(index, slots, tail, items)
  {
    forall i: nat | i < |items| ensures Holds(index, slots, tail + i, items[i]) {
      NewHeld(index, slots1, slots, tail, ws, items, i);
    }
  }

  lemma AllOldHeld(index0: Index, index: Index, slots0: Memory, slots1: Memory,
                   slots: Memory, head: nat, tail: nat, start: Option<nat>, bs: seq<nat>, items: seq<Item>)
    requires Setting(index0, index, slots0, slots1, head, tail, |items|, start, bs)
    requires Written(slots1, slots, Blocks(start, bs, tail % BLOCK_SIZE != 0), tail % BLOCK_SIZE, items, |items|)
    ensures StillHolds(index0, slots0, index, slots, tail)
  {
    forall j: nat, x | j < tail && Holds(index0, slots0, j, x) ensures Holds(index, slots, j, x) {
      OldHeld(index0, index, slots0, slots1, slots, head, tail, start, bs, items, j, x);
    }
  }

  lemma HoldBoth(index: Index, slots: Memory, hist: seq<Item>, head: nat, items: seq<Item>)
    requires HoldAll(index, slots, hist, head, |hist|) && HoldNew(index, slots, |hist|, items)
    ensures HoldAll(index, slots, hist + items, head, |hist| + |items|)
  {
    forall j | head <= j < |hist| + |items| ensures Holds(index, slots, j, (hist + items)[j]) {
      if j >= |hist| {
        var i: nat := j - |hist|;
        assert Holds(index, slots, |hist| + i, items[i]);
      }
    }
  }

  lemma BulkHolds(index0: Index, index: Index, slots0: Memory, slots1: Memory,
                  slots: Memory, head: nat, hist: seq<Item>, start: Option<nat>, bs: seq<nat>,
                  items: seq<Item>)
    requires Setting(index0, index, slots0, slots1, head, |hist|, |items|, start, bs)
    requires Written(slots1, slots, Blocks(start, bs, |hist| % BLOCK_SIZE != 0), |hist| % BLOCK_SIZE, items, |items|)
    requires HoldAll(index0, slots0, hist, head, |hist|)
    ensures HoldAll(index, slots, hist + items, head, |hist| + |items|)
    ensures StillHolds(index0, slots0, index, slots, |hist|)
  {
    AllOldHeld(index0, index, slots0, slots1, slots, head, |hist|, start, bs, items);
    HeldOn(index0, slots0, index, slots, hist, head);
    BlocksIndexed(index0, index, |hist|, start, bs);
    BulkCovers(|hist|, |items|, start, bs);
    AllNewHeld(index, slots1, slots, |hist|, Blocks(start, bs, |hist| % BLOCK_SIZE != 0), items);
    HoldBoth(index, slots, hist, head, items);
  }

  /** What the writing loops need to know of the blocks: `ws` are those that are written to, linked in this order,
      from the tail block at the start of the bulk, if there is room in it, or the first new one, to the last. */
  predicate Writable(next: Links, slots: Memory, ws: seq<nat>, first: Option<nat>, start: Option<nat>, end: Option<nat>,
                     tail: nat, count: nat) {
    && Distinct(ws) && Path(next, ws) && Covers(ws, tail % BLOCK_SIZE, count)
    && (forall q :: 0 <= q < |ws| ==> ws[q] in slots && |slots[ws[q]]| == BLOCK_SIZE)
    && (if ws == [] then first == None && end == start
        else end == Some(ws[|ws| - 1]) && Some(ws[0]) == if tail % BLOCK_SIZE != 0 then start else first)
  }

  lemma Prepare(slots: Memory, next: Links, tail: nat, count: nat, start: Option<nat>, bs: seq<nat>)
    requires |bs| == Boundaries(tail, count) && Distinct(bs)
    requires tail % BLOCK_SIZE != 0 ==> start.Some? && start.value !in bs
    requires Chained(next, bs) && LinkedTo(next, start, bs, tail % BLOCK_SIZE != 0) && Sized(slots)
    requires forall b :: b in Blocks(start, bs, tail % BLOCK_SIZE != 0) ==> b in slots
    ensures Writable(next, slots, Blocks(start, bs, tail % BLOCK_SIZE != 0), First(bs), start, Last(bs, start), tail, count)
  {
    BulkCovers(tail, count, start, bs);
    BulkPath(next, start, bs, tail % BLOCK_SIZE != 0);
    BlocksDiffer(bs, start, tail % BLOCK_SIZE != 0);
  }

  lemma AfterWriting(index0: Index, index: Index, slots0: Memory, slots1: Memory,
                     slots: Memory, head: nat, hist: seq<Item>, start: Option<nat>, bs: seq<nat>, items: seq<Item>)
    requires Setting(index0, index, slots0, slots1, head, |hist|, |items|, start, bs)
    requires Written(slots1, slots, Blocks(start, bs, |hist| % BLOCK_SIZE != 0), |hist| % BLOCK_SIZE, items, |items|)
    requires HoldAll(index0, slots0, hist, head, |hist|) && Sized(slots1)
    ensures HoldAll(index, slots, hist + items, head, |hist + items|)
    ensures StillHolds(index0, slots0, index, slots, |hist|)
    ensures slots.Keys == slots1.Keys && Sized(slots)
  {
    BulkHolds(index0, index, slots0, slots1, slots, head, hist, start, bs, items);
    WrittenSizes(slots1, slots, Blocks(start, bs, |hist| % BLOCK_SIZE != 0), |hist| % BLOCK_SIZE, items);
  }

  /** The block of the next element, if it is in the middle of one, is the last one written to. */
  lemma BulkTail(index: Index, tail: nat, count: nat, start: Option<nat>, bs: seq<nat>)
    requires tail % BLOCK_SIZE != 0 ==> start.Some?
    requires Indexed(index, tail / BLOCK_SIZE, Blocks(start, bs, tail % BLOCK_SIZE != 0))
    requires |bs| == Boundaries(tail, count) && (tail + count) % BLOCK_SIZE != 0
    ensures var n := (tail + count) / BLOCK_SIZE; n in index && Last(bs, start) == Some(index[n])
  {
    var ws := Blocks(start, bs, tail % BLOCK_SIZE != 0);
    BulkCovers(tail, count, start, bs);
    LastBlock(ws, tail, count);
    var last := ws[|ws| - 1];
    assert tail / BLOCK_SIZE + (|ws| - 1) in index && index[tail / BLOCK_SIZE + (|ws| - 1)] == last;
  }

  lemma LastBlock(ws: seq<nat>, tail: nat, count: nat)
    requires Covers(ws, tail % BLOCK_SIZE, count) && (tail + count) % BLOCK_SIZE != 0 && (count == 0 ==> ws != [])
    ensures ws != [] && (tail + count) / BLOCK_SIZE == tail / BLOCK_SIZE + (|ws| - 1)
  {
    Split(tail, count);
  }

  lemma BlocksDiffer(bs: seq<nat>, start: Option<nat>, midBlock: bool)
    requires Distinct(bs) && (midBlock ==> start.Some? && start.value !in bs)
    ensures Distinct(Blocks(start, bs, midBlock))
  {
  }

  lemma WrittenSizes(slots0: Memory, slots: Memory, ws: seq<nat>, off: nat, items: seq<Item>)
    requires Written(slots0, slots, ws, off, items, |items|) && Sized(slots0)
    ensures slots.Keys == slots0.Keys && Sized(slots)
  {
    forall b | b in slots ensures |slots[b]| == BLOCK_SIZE {
      if b in ws {
        var q :| 0 <= q < |ws| && ws[q] == b;
        assert BlockWritten(slots0[ws[q]], slots[ws[q]], BLOCK_SIZE * q, off, items, |items|);
      }
    }
  }

  class Producer {
    var tailIndex: int
    var headIndex: int
    var tailBlock: Option<nat>
    ghost var index: Index
    var indexTail: int
    var indexRoom: nat
    var next: Links
    var slots: Memory
    var free: seq<nat>
    ghost var hist: seq<Item>
    ghost var headCount: nat

    ghost predicate Valid()
      reads this
    {
      && tailIndex == |hist| % WORD && headIndex == headCount % WORD
      && headCount <= |hist| && BLOCK_SIZE * FirstNew(|hist|) - headCount < HALF
      && IndexOk(index, headCount, |hist|)
      && BlocksOk(index, slots, free)
      && HoldAll(index, slots, hist, headCount, |hist|)
      && (|hist| % BLOCK_SIZE != 0 ==> |hist| / BLOCK_SIZE in index && tailBlock == Some(index[|hist| / BLOCK_SIZE]))
    }

    /** A new producer: nothing enqueued, no block of its own, an empty index; `pool` are the blocks it may be given. */
    constructor (pool: seq<nat>, room: nat)
      requires Distinct(pool)
      ensures Valid() && hist == [] && headCount == 0 && tailBlock == None && free == pool && indexRoom == room
      ensures tailIndex == 0 && headIndex == 0 && index == map[] && indexTail == -1
    {
      tailIndex, headIndex, tailBlock := 0, 0, None;
      index, indexTail, indexRoom := map[], -1, room;
      next := map b | b in pool :: None;
      slots := map b | b in pool :: EmptySlots();
      free, hist, headCount := pool, [], 0;
    }

    /** insert_block_index_entry */
    method InsertEntry() returns (ok: bool)
      modifies this`indexRoom, this`indexTail
      ensures ok == (old(indexRoom) > 0)
      ensures indexRoom == (if ok then old(indexRoom) - 1 else old(indexRoom))
      ensures indexTail == (if ok then old(indexTail) + 1 else old(indexTail))
    {
      ok := indexRoom > 0;
      if ok {
        indexRoom := indexRoom - 1;
        indexTail := indexTail + 1;
      }
    }

    /** rewind_block_index_tail, and null in the entry */
    method RewindEntry()
      modifies this`indexRoom, this`indexTail
      ensures indexRoom == old(indexRoom) + 1 && indexTail == old(indexTail) - 1
    {
      indexRoom := indexRoom + 1;
      indexTail := indexTail - 1;
    }

    /** requisition_block */
    method Requisition() returns (b: Option<nat>)
      modifies this`free
      ensures old(free) == [] ==> b == None && free == []
      ensures old(free) != [] ==> b == Some(old(free)[0]) && free == old(free)[1..]
    {
      if |free| == 0 {
        b := None;
      } else {
        b := Some(free[0]);
        free := free[1..];
      }
    }
  
    /** `(startTailIndex - 1) & ~(BLOCK_SIZE - 1)` */
    method LastBase() returns (w: nat)
      requires tailIndex == |hist| % WORD
      ensures w == KeyOf(FirstNew(|hist|) - 1)
    {
      BaseDiff(|hist|, 0);
      w := BaseOf((tailIndex - 1) % WORD);
    }

    /** A store to the value of the entry for base `base`, that of block number `n`. */
    method SetEntry(base: nat, ghost n: nat, b: nat)
      requires base == KeyOf(n)
      modifies this`index
      ensures index == old(index)[n := b]
    {
      index := index[n := b];
    }

    method ClearEntry(base: nat, ghost n: nat)
      requires base == KeyOf(n)
      modifies this`index
      ensures index == old(index) - {n}
    {
      index := index - {n};
    }

    method Advance(base: nat, ghost n: int) returns (after: nat)
      requires base == KeyOf(n)
      ensures after == KeyOf(n + 1)
    {
      NextKey(n);
      after := NextBase(base);
    }

    /** Undoing the insertions: takes the new blocks out of the index, following the chain from `first`. */
    method Unlink(first: Option<nat>, base: nat, ghost f: nat, ghost bs: seq<nat>, ghost index0: Index)
      requires Chained(next, bs) && first == First(bs) && base == KeyOf(f - 1)
      requires Extended(index0, index, f, f, f + |bs|, bs)
      modifies this`index, this`indexTail, this`indexRoom
      ensures index == index0 && indexTail == old(indexTail) - |bs| && indexRoom == old(indexRoom) + |bs|
    {
      var current := base;
      var block := first;
      ghost var n, rest := f, bs;
      while block.Some?
        invariant f <= n && n + |rest| == f + |bs| && block == First(rest) && Chained(next, rest) && current == KeyOf(n - 1)
        invariant Extended(index0, index, f, n, f + |bs|, bs)
        invariant indexTail == old(indexTail) - (n - f) && indexRoom == old(indexRoom) + (n - f)
        decreases |rest|
      {
        current := Advance(current, n - 1);
        ExtendedLess(index0, index, f, n, f + |bs|, bs);
        ClearEntry(current, n);
        RewindEntry();
        block := next[block.value];
        n, rest := n + 1, rest[1..];
      }
      ExtendedNot(index0, index, f, f + |bs|, bs);
    }

    /** add_blocks_to_free_list */
    method GiveBack(first: Option<nat>, ghost bs: seq<nat>)
      requires Chained(next, bs) && first == First(bs)
      modifies this`free
      ensures multiset(free) == multiset(bs) + multiset(old(free))
    {
      var block := first;
      ghost var done, rest := [], bs;
      while block.Some?
        invariant done + rest == bs && block == First(rest) && Chained(next, rest)
        invariant multiset(free) == multiset(done) + multiset(old(free))
        decreases |rest|
      {
        free := [block.value] + free;
        done, rest := done + [rest[0]], rest[1..];
        block := next[block.value];
      }
      assert done == bs;
    }

    /** `blockBaseDiff` */
    method BlockBaseDiff(count: nat) returns (diff: int)
      requires tailIndex == |hist| % WORD && count < HALF
      ensures diff == BLOCK_SIZE * Boundaries(|hist|, count)
    {
      BaseDiff(|hist|, count);
      diff := (BaseOf((tailIndex + count - 1) % WORD) - BaseOf((tailIndex - 1) % WORD)) % WORD;
    }

    /** One attempt: the fullness test, the index entry, the block. A failure leaves nothing behind. */
    method TakeBlock(base: nat) returns (b: Option<nat>)
      requires base < WORD && 0 <= headIndex < WORD
      modifies this`indexRoom, this`indexTail, this`free
      ensures b.Some? <==> CircularLessThan(headIndex, NextBase(base)) && old(indexRoom) > 0 && old(free) != []
      ensures b.Some? ==> b.value == old(free)[0] && free == old(free)[1..]
      ensures b.Some? ==> indexRoom == old(indexRoom) - 1 && indexTail == old(indexTail) + 1
      ensures b.None? ==> free == old(free) && indexRoom == old(indexRoom) && indexTail == old(indexTail)
    {
      b := None;
      var inserted := false;
      var full := !CircularLessThan(headIndex, NextBase(base));
      if !full {
        inserted := InsertEntry();
        if inserted {
          b := Requisition();
          if b.None? {
            RewindEntry();
          }
        }
      }
    }

    /** A block that was taken: reset, indexed, chained behind the tail block. */
    method LinkBlock(base: nat, ghost n: nat, b: nat, chained: bool)
      requires base == KeyOf(n) && b in slots && (chained ==> tailBlock.Some?)
      modifies this`index, this`slots, this`next, this`tailBlock
      ensures slots == old(slots)[b := EmptySlots()] && index == old(index)[n := b] && tailBlock == Some(b)
      ensures next == LinkedNext(old(next), old(tailBlock), b, chained)
    {
      slots := slots[b := EmptySlots()];
      next := next[b := None];
      SetEntry(base, n, b);
      if chained {
        next := next[tailBlock.value := Some(b)];
      }
      tailBlock := Some(b);
    }

    /** `bs` have been taken so far: what has changed since `index0`, `slots0`, `free0`, with `start` the tail block
        then, `room` the room left in the index and `at` its logical tail. */
    ghost predicate Taking(bs: seq<nat>, index0: Index, slots0: Memory, free0: seq<nat>, start: Option<nat>,
                           room: nat, at: int)
      reads this
    {
      && Taken(bs, FirstNew(|hist|), index0, index, slots0, slots, free0, free)
      && Chained(next, bs) && LinkedTo(next, start, bs, tailIndex % BLOCK_SIZE != 0) && tailBlock == Last(bs, start)
      && indexTail == at + |bs| && |bs| <= room && indexRoom == room - |bs|
    }

    /** The block `b` that was taken from the pool becomes the next of the new ones. */
    method LinkTaken(base: nat, b: nat, first: Option<nat>, ghost bs: seq<nat>, ghost index0: Index,
                     ghost slots0: Memory, ghost free0: seq<nat>, ghost start: Option<nat>)
      requires Taken(bs, FirstNew(|hist|), index0, index, slots0, slots, free0, [b] + free) && Distinct(free0)
      requires base == KeyOf(FirstNew(|hist|) + |bs|) && FirstNew(|hist|) + |bs| !in index0 && b in slots0
      requires Chained(next, bs) && LinkedTo(next, start, bs, tailIndex % BLOCK_SIZE != 0)
      requires tailBlock == Last(bs, start) && first == First(bs)
      requires tailIndex % BLOCK_SIZE != 0 ==> start.Some? && start.value !in free0
      modifies this`tailBlock, this`index, this`next, this`slots
      ensures Taken(bs + [b], FirstNew(|hist|), index0, index, slots0, slots, free0, free)
      ensures Chained(next, bs + [b]) && LinkedTo(next, start, bs + [b], tailIndex % BLOCK_SIZE != 0)
      ensures tailBlock == Some(b)
    {
      ghost var f, index1, slots1 := FirstNew(|hist|), index, slots;
      NotYetTaken(bs, b, free0, free);
      LinksGrow(next, bs, start, b, tailIndex % BLOCK_SIZE != 0);
      LinkBlock(base, f + |bs|, b, tailIndex % BLOCK_SIZE != 0 || first.Some?);
      TakenOneMore(bs, b, f, index0, index1, index, slots0, slots1, slots, free0, free);
    }

    /** One turn of the acquisition loop. */
    method TakeNext(base: nat, first: Option<nat>, ghost bs: seq<nat>, ghost index0: Index,
                    ghost slots0: Memory, ghost free0: seq<nat>, ghost start: Option<nat>, ghost room: nat,
                    ghost at: int)
      returns (b: Option<nat>)
      requires Taking(bs, index0, slots0, free0, start, room, at) && first == First(bs) && Distinct(free0)
      requires base == KeyOf(FirstNew(|hist|) + |bs|) && 0 <= headIndex < WORD
      requires FirstNew(|hist|) + |bs| !in index0
      requires forall c :: c in free0 ==> c in slots0
      requires tailIndex % BLOCK_SIZE != 0 ==> start.Some? && start.value !in free0
      modifies this`tailBlock, this`index, this`indexTail, this`indexRoom, this`next, this`slots, this`free
      ensures b.Some? <==> CircularLessThan(headIndex, NextBase(base)) && room > |bs| && |free0| > |bs|
      ensures b.Some? ==> Taking(bs + [b.value], index0, slots0, free0, start, room, at)
      ensures b.None? ==> Taking(bs, index0, slots0, free0, start, room, at)
    {
      ghost var free1 := free;
      b := TakeBlock(base);
      if b.Some? {
        assert free1 == [b.value] + free && b.value == free0[|bs|];
        LinkTaken(base, b.value, first, bs, index0, slots0, free0, start);
      }
    }

    /** What a failed attempt leads to. */
    method Undo(first: Option<nat>, start: Option<nat>, ghost bs: seq<nat>, ghost index0: Index,
                ghost slots0: Memory, ghost free0: seq<nat>, ghost room: nat, ghost at: int)
      requires tailIndex == |hist| % WORD && Taking(bs, index0, slots0, free0, start, room, at) && first == First(bs)
      modifies this`tailBlock, this`index, this`indexTail, this`indexRoom, this`free
      ensures index == index0 && indexTail == at && indexRoom == room && tailBlock == start
      ensures multiset(free) == multiset(free0)
    {
      var base := LastBase();
      Unlink(first, base, FirstNew(|hist|), bs, index0);
      GiveBack(first, bs);
      assert free0 == bs + free0[|bs|..];
      tailBlock := start;
    }

    /** What does not change while blocks are taken. */
    ghost predicate Ready(count: nat, index0: Index, slots0: Memory, free0: seq<nat>, start: Option<nat>)
      reads this
    {
      && tailIndex == |hist| % WORD && headIndex == headCount % WORD
      && headCount <= |hist| < headCount + HALF && count <= HALF - BLOCK_SIZE
      && IndexOk(index0, headCount, |hist|) && Distinct(free0) && (forall c :: c in free0 ==> c in slots0)
      && (tailIndex % BLOCK_SIZE != 0 ==> start.Some? && start.value !in free0)
    }

    method TryNext(current: nat, first: Option<nat>, ghost count: nat, ghost bs: seq<nat>, ghost index0: Index,
                   ghost slots0: Memory, ghost free0: seq<nat>, ghost start: Option<nat>, ghost room: nat,
                   ghost at: int)
      returns (base: nat, b: Option<nat>)
      requires Ready(count, index0, slots0, free0, start) && Taking(bs, index0, slots0, free0, start, room, at)
      requires first == First(bs) && |bs| < Boundaries(|hist|, count) && current == KeyOf(FirstNew(|hist|) + |bs| - 1)
      modifies this`tailBlock, this`index, this`indexTail, this`indexRoom, this`next, this`slots, this`free
      ensures Ready(count, index0, slots0, free0, start) && base == KeyOf(FirstNew(|hist|) + |bs|)
      ensures b.Some? ==> Taking(bs + [b.value], index0, slots0, free0, start, room, at)
      ensures b.Some? ==> BLOCK_SIZE * (FirstNew(|hist|) + |bs| + 1) - headCount < HALF
      ensures b.None? ==> Taking(bs, index0, slots0, free0, start, room, at)
      ensures b.None? ==> !Fits(headCount, |hist|, count, room, |free0|)
    {
      base := Advance(current, FirstNew(|hist|) + |bs| - 1);
      AboutNext(index0, headCount, |hist|, count, |bs|, room, |free0|);
      b := TakeNext(base, first, bs, index0, slots0, free0, start, room, at);
    }

    lemma GetReady(count: nat)
      requires Valid() && count <= HALF - BLOCK_SIZE
      ensures Ready(count, index, slots, free, tailBlock)
      ensures Taking([], index, slots, free, tailBlock, indexRoom, indexTail)
    {
      SameOffset(|hist|);
    }

    /** The acquisition loop, up to the first failure. */
    method TakeAll(ghost count: nat, blockBaseDiff: int, ghost index0: Index, ghost slots0: Memory,
                   ghost free0: seq<nat>, ghost start: Option<nat>, ghost room: nat, ghost at: int)
      returns (ok: bool, first: Option<nat>, ghost bs: seq<nat>)
      requires Ready(count, index0, slots0, free0, start) && Taking([], index0, slots0, free0, start, room, at)
      requires blockBaseDiff == BLOCK_SIZE * Boundaries(|hist|, count)
      modifies this`tailBlock, this`index, this`indexTail, this`indexRoom, this`next, this`slots, this`free
      ensures Taking(bs, index0, slots0, free0, start, room, at) && first == First(bs)
      ensures ok ==> |bs| == Boundaries(|hist|, count)
      ensures ok && bs != [] ==> BLOCK_SIZE * (FirstNew(|hist|) + |bs|) - headCount < HALF
      ensures !ok ==> !Fits(headCount, |hist|, count, room, |free0|)
    {
      ghost var f, n := FirstNew(|hist|), Boundaries(|hist|, count);
      first, bs := None, [];
      var diff := blockBaseDiff;
      var current := LastBase();
      while diff > 0
        invariant |bs| <= n && diff == BLOCK_SIZE * (n - |bs|) && current == KeyOf(f + |bs| - 1) && first == First(bs)
        invariant bs != [] ==> BLOCK_SIZE * (f + |bs|) - headCount < HALF
        invariant Ready(count, index0, slots0, free0, start)
        invariant Taking(bs, index0, slots0, free0, start, room, at)
        decreases diff
      {
        diff := diff - BLOCK_SIZE;
        var b;
        current, b := TryNext(current, first, count, bs, index0, slots0, free0, start, room, at);
        if b.None? {
          ok := false;
          return;
        }
        if first.None? {
          first := b;
        }
        bs := bs + [b.value];
      }
      ok := true;
    }

    /** All the blocks the bulk needs, one for every boundary, or nothing. */
    method Acquire(count: nat) returns (ok: bool, first: Option<nat>, ghost bs: seq<nat>)
      requires Valid() && count <= HALF - BLOCK_SIZE
      modifies this`tailBlock, this`index, this`indexTail, this`indexRoom, this`next, this`slots, this`free
      ensures ok == Fits(headCount, |hist|, count, old(indexRoom), |old(free)|)
      ensures ok ==> |bs| == Boundaries(|hist|, count) && first == First(bs)
      ensures ok ==> Taking(bs, old(index), old(slots), old(free), old(tailBlock), old(indexRoom), old(indexTail))
      ensures !ok ==> index == old(index) && indexTail == old(indexTail) && indexRoom == old(indexRoom)
      ensures !ok ==> tailBlock == old(tailBlock) && multiset(free) == multiset(old(free))
      ensures !ok ==> SameSlots(old(slots), slots, old(free))
    {
      var start := tailBlock;
      ghost var index0, slots0, free0, room, at := index, slots, free, indexRoom, indexTail;
      var diff := BlockBaseDiff(count);
      GetReady(count);
      ok, first, bs := TakeAll(count, diff, index0, slots0, free0, start, room, at);
      if !ok {
        SlotsKept(slots0, slots, free0, bs);
        Undo(first, start, bs, index0, slots0, free0, room, at);
      }
    }

    /** The inner loop: elements up to `stop` go into one block. */
    method FillBlock(items: seq<Item>, from: nat, start: int, stop: int, b: Option<nat>, ghost upto: nat, ghost q: nat,
                     ghost ws: seq<nat>, ghost off: nat, ghost slots0: Memory, ghost tail: nat)
      returns (i: nat)
      requires start == (tail + from) % WORD && stop == (tail + upto) % WORD
      requires from <= upto <= |items| < HALF && off == tail % BLOCK_SIZE && Distinct(ws)
      requires Written(slots0, slots, ws, off, items, from)
      requires from < upto ==> q < |ws| && b == Some(ws[q]) && BLOCK_SIZE * q <= off + from && off + upto <= BLOCK_SIZE * (q + 1)
      modifies this`slots
      ensures i == upto && Written(slots0, slots, ws, off, items, upto)
    {
      var current := start;
      i := from;
      WordsEqual(tail, i, upto);
      while current != stop
        invariant from <= i <= upto && current == (tail + i) % WORD && (current == stop <==> i == upto)
        invariant Written(slots0, slots, ws, off, items, i)
        decreases upto - i
      {
        ghost var r := off + i - BLOCK_SIZE * q;
        SlotOf(tail, i, q);
        WrittenMore(slots0, slots, ws, off, items, i, q, r);
        slots := slots[b.value := slots[b.value][current % BLOCK_SIZE := Some(items[i])]];
        WordSum(tail + i, 1);
        current := (current + 1) % WORD;
        i := i + 1;
        WordsEqual(tail, i, upto);
      }
    }

    /** One turn of the outer loop: the block `ws[q]` is filled up, or the bulk ends in it. */
    method WriteBlock(items: seq<Item>, from: nat, newTail: int, ghost q: nat, ghost ws: seq<nat>, ghost slots0: Memory)
      returns (i: nat)
      requires tailIndex == |hist| % WORD && |items| <= HALF - BLOCK_SIZE && newTail == (|hist| + |items|) % WORD
      requires Distinct(ws) && Covers(ws, |hist| % BLOCK_SIZE, |items|) && from <= |items|
      requires from == if q == 0 then 0 else BLOCK_SIZE * q - |hist| % BLOCK_SIZE
      requires if ws == [] then q == 0 else q < |ws| && tailBlock == Some(ws[q])
      requires Written(slots0, slots, ws, |hist| % BLOCK_SIZE, items, from)
      modifies this`slots
      ensures i == FilledUpto(|hist| % BLOCK_SIZE, q, |items|) <= |items|
      ensures Written(slots0, slots, ws, |hist| % BLOCK_SIZE, items, i)
    {
      var current := (tailIndex + from) % WORD;
      WordSum(|hist|, from);
      StopIs(|hist|, from, q, |items|);
      var stop := NextBase(BaseOf(current));
      if CircularLessThan(newTail, stop) {
        stop := newTail;
      }
      i := FillBlock(items, from, current, stop, tailBlock, FilledUpto(|hist| % BLOCK_SIZE, q, |items|), q, ws,
                     |hist| % BLOCK_SIZE, slots0, |hist|);
    }

    /** The outer loop: block after block along the links, up to the last one acquired. */
    method WriteItems(items: seq<Item>, end: Option<nat>, ghost ws: seq<nat>)
      requires tailIndex == |hist| % WORD && |items| <= HALF - BLOCK_SIZE
      requires Distinct(ws) && Path(next, ws) && forall q :: 0 <= q < |ws| ==> ws[q] in slots && |slots[ws[q]]| == BLOCK_SIZE
      requires Covers(ws, |hist| % BLOCK_SIZE, |items|)
      requires if ws == [] then tailBlock == end else tailBlock == Some(ws[0]) && end == Some(ws[|ws| - 1])
      modifies this`slots, this`tailBlock
      ensures Written(old(slots), slots, ws, |hist| % BLOCK_SIZE, items, |items|) && tailBlock == end
    {
      ghost var slots0, off := slots, |hist| % BLOCK_SIZE;
      ghost var q, rest := 0, ws;
      var i := 0;
      var newTail := (tailIndex + |items|) % WORD;
      WordSum(|hist|, |items|);
      var finished := false;
      while !finished
        invariant q + |rest| == |ws| && rest == ws[q..] && (rest != [] || ws == []) && Path(next, rest)
        invariant tailBlock == if ws == [] then end else Some(rest[0])
        invariant !finished ==> i == (if q == 0 then 0 else BLOCK_SIZE * q - off) <= |items|
        invariant finished ==> i == |items| && tailBlock == end
        invariant Written(slots0, slots, ws, off, items, i)
        decreases if finished then 0 else 1, |rest|
      {
        if q < |ws| { AtEnd(ws, q, off, |items|); }
        i := WriteBlock(items, i, newTail, q, ws, slots0);
        if tailBlock == end {
          finished := true;
        } else {
          tailBlock := next[tailBlock.value];
          q, rest := q + 1, rest[1..];
        }
      }
    }

    /** Writing begins in the block that was the last one, if there is room in it, otherwise in the first new one. */
    method WriteFrom(items: seq<Item>, first: Option<nat>, start: Option<nat>, ghost ws: seq<nat>)
      requires tailIndex == |hist| % WORD && |items| <= HALF - BLOCK_SIZE
      requires Writable(next, slots, ws, first, start, tailBlock, |hist|, |items|)
      modifies this`slots, this`tailBlock
      ensures Written(old(slots), slots, ws, |hist| % BLOCK_SIZE, items, |items|) && tailBlock == old(tailBlock)
    {
      SameOffset(|hist|);
      var end := tailBlock;
      tailBlock := start;
      if tailIndex % BLOCK_SIZE == 0 && first.Some? {
        tailBlock := first;
      }
      WriteItems(items, end, ws);
    }

    /** The new tail index. */
    method Publish(items: seq<Item>)
      requires tailIndex == |hist| % WORD
      modifies this`tailIndex, this`hist
      ensures hist == old(hist) + items && tailIndex == |hist| % WORD
    {
      WordSum(|hist|, |items|);
      tailIndex := (tailIndex + |items|) % WORD;
      hist := hist + items;
    }

    /** Writes the elements, then publishes the new tail index. */
    method WriteBulk(items: seq<Item>, first: Option<nat>, start: Option<nat>, ghost bs: seq<nat>, ghost index0: Index,
                     ghost slots0: Memory)
      requires tailIndex == |hist| % WORD && |items| <= HALF - BLOCK_SIZE && first == First(bs) && tailBlock == Last(bs, start)
      requires Setting(index0, index, slots0, slots, headCount, |hist|, |items|, start, bs) && Sized(slots)
      requires Writable(next, slots, Blocks(start, bs, |hist| % BLOCK_SIZE != 0), first, start, tailBlock, |hist|, |items|)
      requires HoldAll(index0, slots0, hist, headCount, |hist|)
      modifies this`slots, this`tailBlock, this`tailIndex, this`hist
      ensures hist == old(hist) + items && tailIndex == |hist| % WORD && tailBlock == old(tailBlock)
      ensures HoldAll(index, slots, hist, headCount, |hist|)
      ensures StillHolds(index0, slots0, index, slots, |old(hist)|)
      ensures slots.Keys == old(slots).Keys && Sized(slots)
    {
      ghost var hist1, index1, slots1 := hist, index, slots;
      WriteFrom(items, first, start, Blocks(start, bs, |hist1| % BLOCK_SIZE != 0));
      AfterWriting(index0, index1, slots0, slots1, slots, headCount, hist1, start, bs, items);
      Publish(items);
    }

    /** The second half of a bulk. */
    method Commit(items: seq<Item>, first: Option<nat>, start: Option<nat>, ghost bs: seq<nat>, ghost index0: Index,
                  ghost slots0: Memory)
      requires tailIndex == |hist| % WORD && |items| <= HALF - BLOCK_SIZE && first == First(bs) && tailBlock == Last(bs, start)
      requires Setting(index0, index, slots0, slots, headCount, |hist|, |items|, start, bs) && Sized(slots)
      requires Chained(next, bs) && LinkedTo(next, start, bs, |hist| % BLOCK_SIZE != 0)
      requires forall b :: b in Blocks(start, bs, |hist| % BLOCK_SIZE != 0) ==> b in slots
      requires HoldAll(index0, slots0, hist, headCount, |hist|)
      modifies this`slots, this`tailBlock, this`tailIndex, this`hist
      ensures hist == old(hist) + items && tailIndex == |hist| % WORD && tailBlock == old(tailBlock)
      ensures HoldAll(index, slots, hist, headCount, |hist|)
      ensures StillHolds(index0, slots0, index, slots, |old(hist)|)
      ensures slots.Keys == old(slots).Keys && Sized(slots)
    {
      Prepare(slots, next, |hist|, |items|, start, bs);
      WriteBulk(items, first, start, bs, index0, slots0);
    }

    /** What Acquire starts from, as far as it is needed afterwards. */
    ghost predicate Began(index0: Index, slots0: Memory, free0: seq<nat>, start: Option<nat>)
      reads this
    {
      && tailIndex == |hist| % WORD && headIndex == headCount % WORD
      && headCount <= |hist| && BLOCK_SIZE * FirstNew(|hist|) - headCount < HALF
      && IndexOk(index0, headCount, |hist|) && BlocksOk(index0, slots0, free0)
      && HoldAll(index0, slots0, hist, headCount, |hist|)
      && (|hist| % BLOCK_SIZE != 0 ==> |hist| / BLOCK_SIZE in index0 && start == Some(index0[|hist| / BLOCK_SIZE]))
    }

    /** What Acquire has made of a valid state is the setting of Commit. */
    lemma AcquiredFacts(count: nat, index0: Index, slots0: Memory, free0: seq<nat>, start: Option<nat>,
                        bs: seq<nat>, room: nat, at: int)
      requires Began(index0, slots0, free0, start)
      requires |bs| == Boundaries(|hist|, count) && Taking(bs, index0, slots0, free0, start, room, at)
      ensures Setting(index0, index, slots0, slots, headCount, |hist|, count, start, bs) && Sized(slots)
      ensures Chained(next, bs) && LinkedTo(next, start, bs, |hist| % BLOCK_SIZE != 0)
      ensures forall b :: b in Blocks(start, bs, |hist| % BLOCK_SIZE != 0) ==> b in slots
    {
      SameOffset(|hist|);
    }

    /** A bulk that was undone. */
    lemma Failed(slots0: Memory, free0: seq<nat>)
      requires Began(index, slots0, free0, tailBlock)
      requires SameSlots(slots0, slots, free0) && multiset(free) == multiset(free0)
      ensures Valid() && StillHolds(index, slots0, index, slots, |hist|)
    {
      Unchanged(index, slots0, slots, free0, free, hist, headCount);
    }

    /** A bulk that was written. */
    lemma NowValid(tail: nat, count: nat, start: Option<nat>, bs: seq<nat>, index0: Index, slots0: Memory, free0: seq<nat>)
      requires |hist| == tail + count && tailIndex == |hist| % WORD && headIndex == headCount % WORD && headCount <= tail
      requires HoldAll(index, slots, hist, headCount, |hist|) && tailBlock == Last(bs, start)
      requires IndexOk(index0, headCount, tail) && BlocksOk(index0, slots0, free0)
      requires |bs| == Boundaries(tail, count) && Extended(index0, index, FirstNew(tail), FirstNew(tail), FirstNew(tail) + |bs|, bs)
      requires |bs| <= |free0| && bs == free0[..|bs|] && free == free0[|bs|..] && slots.Keys == slots0.Keys && Sized(slots)
      requires BLOCK_SIZE * FirstNew(tail) - headCount < HALF
      requires bs != [] ==> BLOCK_SIZE * (FirstNew(tail) + |bs|) - headCount < HALF
      requires tail % BLOCK_SIZE != 0 ==> tail / BLOCK_SIZE in index0 && start == Some(index0[tail / BLOCK_SIZE])
      ensures Valid()
    {
      AfterBulk(index0, index, slots0, slots, free0, headCount, tail, count, bs);
      TailFacts(index0, index, tail, count, start, bs);
      StillBelow(headCount, tail, count);
    }

    /** A bulk that has its blocks. */
    method Finish(items: seq<Item>, first: Option<nat>, start: Option<nat>, ghost bs: seq<nat>, ghost index0: Index,
                  ghost slots0: Memory, ghost free0: seq<nat>, ghost room: nat, ghost at: int)
      requires Began(index0, slots0, free0, start) && |items| <= HALF - BLOCK_SIZE && first == First(bs)
      requires Taking(bs, index0, slots0, free0, start, room, at) && |bs| == Boundaries(|hist|, |items|)
      requires bs != [] ==> BLOCK_SIZE * (FirstNew(|hist|) + |bs|) - headCount < HALF
      modifies this`slots, this`tailBlock, this`tailIndex, this`hist
      ensures Valid() && hist == old(hist) + items && StillHolds(index0, slots0, index, slots, |old(hist)|)
    {
      ghost var tail := |hist|;
      AcquiredFacts(|items|, index0, slots0, free0, start, bs, room, at);
      Commit(items, first, start, bs, index0, slots0);
      NowValid(tail, |items|, start, bs, index0, slots0, free0);
    }

    /** enqueue_bulk: all the items, in order, or nothing at all. It succeeds exactly when index and pool have a
        block for every boundary in the new range and the last one passes the fullness test; on failure tail index,
        tail block, index and its logical tail are as before, and every block is back in the pool. */
    method EnqueueBulk(items: seq<Item>) returns (ok: bool)
      requires Valid() && |items| <= HALF - BLOCK_SIZE
      modifies this
      ensures Valid() && headCount == old(headCount) && StillHolds(old(index), old(slots), index, slots, |old(hist)|)
      ensures ok == Fits(headCount, |old(hist)|, |items|, old(indexRoom), |old(free)|)
      ensures ok ==> hist == old(hist) + items && free == old(free)[Boundaries(|old(hist)|, |items|)..]
      ensures ok ==> Extended(old(index), index, FirstNew(|old(hist)|), FirstNew(|old(hist)|),
                              FirstNew(|old(hist)|) + Boundaries(|old(hist)|, |items|),
                              old(free)[..Boundaries(|old(hist)|, |items|)])
      ensures ok ==> indexTail == old(indexTail) + Boundaries(|old(hist)|, |items|)
      ensures !ok ==> hist == old(hist) && tailIndex == old(tailIndex) && tailBlock == old(tailBlock)
      ensures !ok ==> index == old(index) && indexTail == old(indexTail) && indexRoom == old(indexRoom)
      ensures !ok ==> multiset(free) == multiset(old(free))
    {
      ghost var index0, slots0, free0, room, at := index, slots, free, indexRoom, indexTail;
      var start := tailBlock;
      assert Began(index0, slots0, free0, start);
      ghost var bs;
      var first;
      ok, first, bs := Acquire(|items|);
      if ok {
        Finish(items, first, start, bs, index0, slots0, free0, room, at);
      } else {
        Failed(slots0, free0);
      }
    }
  }

  lemma Unchanged(index: Index, slots0: Memory, slots: Memory, free0: seq<nat>,
                  free: seq<nat>, hist: seq<Item>, head: nat)
    requires BlocksOk(index, slots0, free0) && HoldAll(index, slots0, hist, head, |hist|)
    requires SameSlots(slots0, slots, free0) && multiset(free) == multiset(free0)
    ensures BlocksOk(index, slots, free) && HoldAll(index, slots, hist, head, |hist|)
    ensures StillHolds(index, slots0, index, slots, |hist|)
  {
    PoolKept(free0, free);
    StillHeld(index, slots0, slots, free0, |hist|);
    HeldOn(index, slots0, index, slots, hist, head);
  }

  lemma AfterBulk(index0: Index, index: Index, slots0: Memory, slots: Memory,
                  free0: seq<nat>, head: nat, tail: nat, count: nat, bs: seq<nat>)
    requires IndexOk(index0, head, tail) && BlocksOk(index0, slots0, free0) && head <= tail
    requires |bs| == Boundaries(tail, count) && Extended(index0, index, FirstNew(tail), FirstNew(tail), FirstNew(tail) + |bs|, bs)
    requires |bs| <= |free0| && bs == free0[..|bs|] && slots.Keys == slots0.Keys && Sized(slots)
    ensures IndexOk(index, head, tail + count) && BlocksOk(index, slots, free0[|bs|..])
  {
    BulkIndex(index0, index, head, tail, count, bs);
    BulkBlocks(index0, index, slots0, slots, free0, FirstNew(tail), bs);
  }

  lemma StillBelow(head: nat, tail: nat, count: nat)
    requires BLOCK_SIZE * FirstNew(tail) - head < HALF
    requires Boundaries(tail, count) > 0 ==> BLOCK_SIZE * (FirstNew(tail) + Boundaries(tail, count)) - head < HALF
    ensures BLOCK_SIZE * FirstNew(tail + count) - head < HALF
  {
  }

  lemma TailFacts(index0: Index, index: Index, tail: nat, count: nat, start: Option<nat>, bs: seq<nat>)
    requires |bs| == Boundaries(tail, count) && Extended(index0, index, FirstNew(tail), FirstNew(tail), FirstNew(tail) + |bs|, bs)
    requires tail % BLOCK_SIZE != 0 ==> tail / BLOCK_SIZE in index0 && start == Some(index0[tail / BLOCK_SIZE])
    ensures (tail + count) % BLOCK_SIZE != 0 ==>
              (tail + count) / BLOCK_SIZE in index && Last(bs, start) == Some(index[(tail + count) / BLOCK_SIZE])
  {
    if (tail + count) % BLOCK_SIZE != 0 {
      BlocksIndexed(index0, index, tail, start, bs);
      BulkTail(index, tail, count, start, bs);
    }
  }

  /** The blocks that `count` elements from slot `off` of the first one on take up. */
  predicate Covers(ws: seq<nat>, off: nat, count: nat) {
    if count == 0 then |ws| <= 1 && off < BLOCK_SIZE else BLOCK_SIZE * (|ws| - 1) < off + count <= BLOCK_SIZE * |ws| && off < BLOCK_SIZE
  }

  /** Where the elements for the `q`-th block end. */
  function FilledUpto(off: nat, q: nat, count: nat): int {
    if off + count < BLOCK_SIZE * (q + 1) then count else BLOCK_SIZE * (q + 1) - off
  }

  /** Only the block that completes the bulk is the last one. */
  lemma AtEnd(ws: seq<nat>, q: nat, off: nat, count: nat)
    requires Covers(ws, off, count) && Distinct(ws) && q < |ws|
    ensures ws[q] == ws[|ws| - 1] <==> q == |ws| - 1
    ensures FilledUpto(off, q, count) == if q == |ws| - 1 then count else BLOCK_SIZE * (q + 1) - off
    ensures q < |ws| - 1 ==> BLOCK_SIZE * (q + 1) - off <= count
  {
  }

  lemma StopIs(tail: nat, i: nat, q: nat, count: nat)
    requires BLOCK_SIZE * q <= tail % BLOCK_SIZE + i < BLOCK_SIZE * (q + 1) && i <= count <= HALF - BLOCK_SIZE
    ensures var stop := NextBase(BaseOf((tail + i) % WORD));
      && 0 <= stop < WORD
      && (if CircularLessThan((tail + count) % WORD, stop) then (tail + count) % WORD else stop)
         == (tail + FilledUpto(tail % BLOCK_SIZE, q, count)) % WORD
  {
    BaseIsKey(tail + i);
    var n := (tail + i) / BLOCK_SIZE;
    assert n == tail / BLOCK_SIZE + q;
    NextKey(n);
    assert BLOCK_SIZE * (n + 1) == tail + BLOCK_SIZE * (q + 1) - tail % BLOCK_SIZE;
    CircularLessThanIsOrder(tail + count, BLOCK_SIZE * (n + 1));
  }

  /** The slot of an index, `index & (BLOCK_SIZE - 1)`. */
  lemma SlotOf(tail: nat, i: nat, q: nat)
    requires BLOCK_SIZE * q <= tail % BLOCK_SIZE + i < BLOCK_SIZE * (q + 1)
    ensures ((tail + i) % WORD) % BLOCK_SIZE == tail % BLOCK_SIZE + i - BLOCK_SIZE * q
  {
    SameOffset(tail + i);
    SameRemainder(tail + i, BLOCK_SIZE, tail / BLOCK_SIZE + q, tail % BLOCK_SIZE + i - BLOCK_SIZE * q);
  }

  lemma WordsEqual(tail: nat, i: nat, j: nat)
    requires i <= j < HALF
    ensures (tail + i) % WORD == (tail + j) % WORD <==> i == j
  {
    if (tail + i) % WORD == (tail + j) % WORD {
      ModCongruent(tail + i, WORD);
      ModCongruent(tail + j, WORD);
      Sym(tail + j, (tail + j) % WORD, WORD);
      Trans(tail + i, (tail + i) % WORD, tail + j, WORD);
      Close(tail + i, tail + j, WORD);
    }
  }
}
