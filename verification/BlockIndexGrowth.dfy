/**
 `new_block_index` (ext/MoodyCamel/concurrentqueue.h, lines 2862-2904) on arrays: the loop that copies the old
 ring, oldest entry first, and the loop that adds the new entries, proved against BlockIndex.Grown.
 */
module BlockIndexGrowth {
  import opened Modular
  import opened BlockIndex
  import opened BlockIndexProof

  lemma WalkAround(tail: nat, c: nat, i: nat)
    requires tail < c && i < c
    ensures (tail + 1 + i) % c == ((if i == 0 then tail else (tail + i) % c) + 1) % c
    ensures (tail + 1 + i) % c == tail <==> i == c - 1
  {
    if i > 0 {
      ModCongruent(tail + i, c);
      var x := (tail + i) % c;
      var q := (tail + i) / c;
      SameRemainder(tail + 1 + i, c, q + (x + 1) / c, (x + 1) % c) by { Distribute(q, (x + 1) / c, c); }
    }
    if i == c - 1 {
      SameRemainder(tail + 1 + i, c, 1, tail);
    } else if tail + 1 + i < c {
      SameRemainder(tail + 1 + i, c, 0, tail + 1 + i);
    } else {
      SameRemainder(tail + 1 + i, c, 1, tail + 1 + i - c);
    }
  }

  /** `index` of the new header, and its tail. `entries` is the number of the first new entry. */
  method NewBlockIndex(prev: array<nat>, prevTail: nat, entries: nat) returns (index: array<nat>, tail: nat)
    requires prevTail < prev.Length
    requires RingShaped(Ring(prevTail, prev[..], 0), entries)
    ensures fresh(index) && index[..] == Grown(Ring(prevTail, prev[..], 0), entries, 0).index
    ensures tail == Grown(Ring(prevTail, prev[..], 0), entries, 0).tail
  {
    var capacity := prev.Length;
    index := new nat[2 * capacity];
    var prevPos, i := prevTail, 0;
    var wrapped := false;
    while !wrapped
      invariant 0 <= i <= capacity && (wrapped <==> i == capacity)
      invariant prevPos == if i == 0 then prevTail else (prevTail + i) % capacity
      invariant forall j :: 0 <= j < i ==> index[j] == prev[(prevTail + 1 + j) % capacity]
      decreases capacity - i
    {
      WalkAround(prevTail, capacity, i);
      prevPos := (prevPos + 1) % capacity;
      index[i] := prev[prevPos];
      i := i + 1;
      wrapped := prevPos == prevTail;
    }
    var k := 0;
    while k < capacity
      invariant 0 <= k <= capacity
      invariant forall j :: 0 <= j < capacity ==> index[j] == prev[(prevTail + 1 + j) % capacity]
      invariant forall j :: capacity <= j < capacity + k ==> index[j] == entries + j - capacity
    {
      index[capacity + k] := entries + k;
      k := k + 1;
    }
    SmallMod(capacity - 1, 2 * capacity);
    tail := (capacity - 1) % (2 * capacity);
  }
}
