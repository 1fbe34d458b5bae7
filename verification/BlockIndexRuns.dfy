/**
 The block index over whole runs: a lookup that overlaps insertions, rewinds and any number of growths ends at
 the entry of its own block, and an undone bulk leaves the index as it was.
 */
module BlockIndexRuns {
  import opened Options
  import opened Modular
  import opened Words
  import opened BlockIndex
  import opened BlockIndexProof

  /** A consumer that has finished its lookup holds the entry whose key is the base of its block and whose value
      is that block (the assertion at line 2858), for as long as it is at work on it. */
  lemma LookupFindsBlock(s0: State, run: seq<Action>, s: State, c: nat)
    requires Reaches(s0, run, s) && c < |s.readers| && s.readers[c].RFound?
    ensures var pc := s.readers[c];
      && pc.n in s.slot && pc.e == s.slot[pc.n].entry && pc.e < |s.entries|
      && s.entries[pc.e].key == KeyOf(pc.n) && s.entries[pc.e].value == Some(s.slot[pc.n].block)
  {
    ReachableInv(s0, run, s);
    FoundIsOwn(s, c);
  }

  /** The key a lookup reads at the tail is never the invalid one (the assertion at line 2853). */
  lemma TailBaseIsValid(s0: State, run: seq<Action>, s: State, c: nat)
    requires Reaches(s0, run, s) && c < |s.readers| && s.readers[c].RIndex?
    ensures s.readers[c].key != INVALID_BLOCK_BASE
  {
    ReachableInv(s0, run, s);
    assert ReaderAt(s.entries, s.rings, s.readers[c]);
    KeyNotInvalid(s.readers[c].m.value);
  }

  /** The producer's own lookups while it undoes a bulk meet the same two assertions. */
  lemma OwnLookupFindsBlock(s0: State, run: seq<Action>, s: State)
    requires Reaches(s0, run, s) && Enabled(s, RollLookup)
    ensures var r := Current(s); s.entries[r.index[r.tail]].key != INVALID_BLOCK_BASE
    ensures var x := s.entries[OwnEntry(s, s.prod.m)]; x.key == KeyOf(s.prod.m) && x.value.Some?
  {
    ReachableInv(s0, run, s);
    OwnLookup(s);
  }

  /** After a growth the entry chosen has never been used (the assertion at line 2825). */
  lemma GrownEntryIsUnused(s0: State, run: seq<Action>, s: State)
    requires Reaches(s0, run, s) && Enabled(s, Grow(true))
    ensures var g := Apply(s, Grow(true)); g.prod.PKey? && g.entries[g.prod.e].key == INVALID_BLOCK_BASE
  {
    GrownNext(s);
  }

  /** A new key never lands on the entry of a live block. */
  lemma NothingOverwritten(s0: State, run: seq<Action>, s: State, n: nat)
    requires Reaches(s0, run, s) && Enabled(s, StoreKey) && n in s.slot
    ensures s.slot[n].entry != s.prod.e
  {
    ReachableInv(s0, run, s);
    assert SlotOk(s.entries, s.rings, s.slot[n], n);
  }

  /** Two live blocks never share an entry. */
  lemma EntriesAreDistinct(s0: State, run: seq<Action>, s: State, n: nat, m: nat)
    requires Reaches(s0, run, s) && n in s.slot && m in s.slot && n != m
    ensures s.slot[n].entry != s.slot[m].entry
  {
    ReachableInv(s0, run, s);
    assert SlotOk(s.entries, s.rings, s.slot[n], n) && SlotOk(s.entries, s.rings, s.slot[m], m);
  }

  lemma IdleFacts(s: State)
    requires Inv(s) && s.prod.PIdle?
    ensures var r := Current(s); r.tail == Pos(r.first, |r.index|, s.count - 1)
    ensures forall n: nat :: s.published <= n ==> (n in s.slot <==> n < s.count)
    ensures forall e :: 0 <= e < |s.entries| && s.entries[e].value.Some? ==>
              s.entries[e].num.Some? && s.entries[e].num.value in s.slot && s.slot[s.entries[e].num.value].entry == e
  {
    InvShaped(s);
    TailIsPos(Current(s), s.count);
  }

  /** While it inserts nothing, the producer's tail is at the last block inserted, every block from the last
      Publish on is in the index and none beyond, and every entry that holds a block is that block's own. */
  lemma IndexIsExact(s0: State, run: seq<Action>, s: State)
    requires Reaches(s0, run, s) && s.prod.PIdle?
    ensures var r := Current(s); r.tail == Pos(r.first, |r.index|, s.count - 1)
    ensures forall n: nat :: s.published <= n ==> (n in s.slot <==> n < s.count)
    ensures forall e :: 0 <= e < |s.entries| && s.entries[e].value.Some? ==>
              s.entries[e].num.Some? && s.entries[e].num.value in s.slot && s.slot[s.entries[e].num.value].entry == e
  {
    ReachableInv(s0, run, s);
    IdleFacts(s);
  }

  lemma LastRoll(s: State)
    requires Inv(s) && Enabled(s, RollTail) && s.prod.m + 1 == s.prod.top
    ensures var t := Apply(s, RollTail); t.prod.PIdle? && t.count == t.published && t.slot == s.slot
  {
  }

  lemma IdleAtPublish(s: State)
    requires Inv(s) && s.prod.PIdle? && s.count == s.published
    ensures var r := Current(s); r.tail == Pos(r.first, |r.index|, s.published - 1)
    ensures forall n :: n in s.slot ==> n < s.published
    ensures forall e :: 0 <= e < |s.entries| && s.entries[e].value.Some? ==>
              s.entries[e].num.Some? && s.entries[e].num.value < s.published
  {
    IdleFacts(s);
  }

  /** An undone bulk: when the last rewind is done, the count and the logical tail are back where the last
      Publish left them, no block of the bulk is in the index, and no entry holds one. */
  lemma RollRestores(s0: State, run: seq<Action>, s: State, t: State)
    requires Reaches(s0, run, s) && Enabled(s, RollTail) && s.prod.m + 1 == s.prod.top && t == Apply(s, RollTail)
    ensures t.prod.PIdle? && t.count == t.published
    ensures t.rings != [] && Current(t).index != []
    ensures Current(t).tail == Pos(Current(t).first, |Current(t).index|, t.published - 1)
    ensures forall n :: n in t.slot ==> n < t.published
    ensures forall e :: 0 <= e < |t.entries| && t.entries[e].value.Some? ==>
              t.entries[e].num.Some? && t.entries[e].num.value < t.published
  {
    ReachableInv(s0, run, s);
    LastRoll(s);
    RollTailKeeps(s);
    InvShaped(t);
    IdleAtPublish(t);
  }

  lemma BackAndForth(r: Ring, count: nat)
    requires TailOk(r, count) && r.tail < |r.index|
    ensures PrevPos(r.(tail := NextPos(r))) == r.tail
  {
    TailIsPos(r, count);
    PosIsTail(r, NextPos(r), count + 1);
    TailIsPos(r.(tail := NextPos(r)), count + 1);
  }

  lemma RewindUndoes(s: State)
    requires Enabled(s, StoreTail) && Enabled(Apply(s, StoreTail), Rewind)
    requires TailOk(Current(s), s.count) && s.prod.t == NextPos(Current(s))
    ensures var t := Apply(Apply(s, StoreTail), Rewind);
      t.count == s.count && t.rings == s.rings && t.entries == s.entries && t.slot == s.slot
  {
    BackAndForth(Current(s), s.count);
  }

  /** A single insertion that is rewound leaves rings, entries and count as they were before the tail moved. */
  lemma RewindRestores(s0: State, run: seq<Action>, s: State)
    requires Reaches(s0, run, s) && Enabled(s, StoreTail) && Enabled(Apply(s, StoreTail), Rewind)
    ensures var t := Apply(Apply(s, StoreTail), Rewind);
      t.count == s.count && t.rings == s.rings && t.entries == s.entries && t.slot == s.slot
  {
    ReachableInv(s0, run, s);
    RewindUndoes(s);
  }
}
