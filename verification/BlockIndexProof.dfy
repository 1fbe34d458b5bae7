/**
 What every step of the block index keeps. The heart of it: in every ring ever built, the number of the block
 an entry was last used for fits the position of the entry modulo the capacity of that ring. So a tail and a
 key read at different times, and in a ring that has since been replaced, still lead to the right place.
 */
module BlockIndexProof {
  import opened Options
  import opened Modular
  import opened Words
  import opened BlockIndex

  // ---------- the invariant ----------

  predicate Injective(xs: seq<nat>) {
    forall p, q :: 0 <= p < q < |xs| ==> xs[p] != xs[q]
  }

  predicate RingOk(r: Ring, log: nat, entries: nat) {
    |r.index| == Pow2(log) && RingShaped(r, entries) && Injective(r.index)
  }

  predicate RingsOk(rings: seq<Ring>, entries: nat) {
    && rings != [] && |rings| + INITIAL_LOG <= 60
    && forall h :: 0 <= h < |rings| ==> RingOk(rings[h], h + INITIAL_LOG, entries)
  }

  predicate EntryOk(x: Entry) {
    if x.num.None? then x == Unused else x.key == KeyOf(x.num.value)
  }

  /** The entry at position `p` fits there. */
  predicate Fits(entries: seq<Entry>, r: Ring, p: nat)
    requires RingShaped(r, |entries|) && p < |r.index|
  {
    entries[r.index[p]].num.Some? ==> Congruent(entries[r.index[p]].num.value, r.first + p, |r.index|)
  }

  predicate Aligned(entries: seq<Entry>, r: Ring)
    requires RingShaped(r, |entries|)
  {
    forall p :: 0 <= p < |r.index| ==> Fits(entries, r, p)
  }

  /** Every entry of the ring has been used. */
  predicate FullyUsed(entries: seq<Entry>, r: Ring)
    requires RingShaped(r, |entries|)
  {
    forall p :: 0 <= p < |r.index| ==> entries[r.index[p]].num.Some?
  }

  predicate EntriesOk(entries: seq<Entry>, rings: seq<Ring>) {
    && RingsOk(rings, |entries|)
    && (forall e :: 0 <= e < |entries| ==> EntryOk(entries[e]))
    && (forall h :: 0 <= h < |rings| ==> Aligned(entries, rings[h]))
    && (forall h :: 0 <= h < |rings| - 1 ==> FullyUsed(entries, rings[h]))
  }

  /** The oldest block whose entry has not been used again. */
  function Low(r: Ring, high: nat): int {
    if high - |r.index| > r.first then high - |r.index| else r.first
  }

  /** The number of the block its entry holds, at the position that belongs to `c`. */
  function NumAt(entries: seq<Entry>, r: Ring, c: int): Option<nat>
    requires RingShaped(r, |entries|)
  {
    entries[r.index[Pos(r.first, |r.index|, c)]].num
  }

  /** The current ring holds exactly the last blocks, up to its capacity; the rest of it is unused. */
  predicate Window(entries: seq<Entry>, r: Ring, high: nat)
    requires RingShaped(r, |entries|)
  {
    && r.first <= high
    && (forall c :: Low(r, high) <= c < high ==> NumAt(entries, r, c) == Some(c))
    && (forall c :: high <= c < r.first + |r.index| ==> NumAt(entries, r, c).None?)
  }

  predicate TailOk(r: Ring, count: nat) {
    r.index != [] && Congruent(r.first + r.tail, count - 1, |r.index|)
  }

  /** The entry of a live block holds it, and stands at its position in every ring since it was inserted. */
  predicate SlotOk(entries: seq<Entry>, rings: seq<Ring>, x: Slot, n: nat)
    requires RingsOk(rings, |entries|)
  {
    && x.entry < |entries| && x.born < |rings|
    && entries[x.entry].num == Some(n) && entries[x.entry].value == Some(x.block)
    && forall h :: x.born <= h < |rings| ==> Stands(rings[h], x.entry, n)
  }

  predicate Stands(r: Ring, e: nat, n: nat) {
    r.index != [] && r.index[Pos(r.first, |r.index|, n)] == e
  }

  predicate SlotsOk(entries: seq<Entry>, rings: seq<Ring>, slot: map<nat, Slot>)
    requires RingsOk(rings, |entries|)
  {
    && (forall n :: n in slot ==> SlotOk(entries, rings, slot[n], n))
    && (forall e :: 0 <= e < |entries| && entries[e].value.Some? ==>
          entries[e].num.Some? && entries[e].num.value in slot && slot[entries[e].num.value].entry == e)
  }

  predicate SlotRange(slot: map<nat, Slot>, low: int, high: nat) {
    forall n :: n in slot ==> low <= n < high
  }

  /** The blocks inserted since the last Publish are those numbered `lo` up to `hi`. */
  ghost predicate Unpublished(slot: map<nat, Slot>, published: nat, lo: nat, hi: nat) {
    forall n: nat :: published <= n ==> (n in slot <==> lo <= n < hi)
  }

  /** The numbers of the blocks inserted and not published, from the first up to the one after the last. */
  function FirstUnpublished(prod: ProdPC, published: nat): nat {
    match prod
    case PRoll(m, _) => m
    case PRollNull(m, _, _) => m
    case PRollTail(m, _) => m + 1
    case _ => published
  }

  function EndUnpublished(prod: ProdPC, count: nat): nat {
    match prod
    case PHave(_) => if count > 0 then count - 1 else 0
    case PRoll(_, top) => top
    case PRollNull(_, top, _) => top
    case PRollTail(_, top) => top
    case _ => count
  }

  /** Where the producer stands: `low` is the oldest number its ring holds. */
  predicate ProdAt(prod: ProdPC, r: Ring, low: int, count: nat, high: nat, published: nat, entries: seq<Entry>, slot: map<nat, Slot>)
    requires RingShaped(r, |entries|)
  {
    match prod
    case PIdle => low <= count <= high && published <= count
    case PGrow => low <= count == high && published <= count && r.first + |r.index| <= count
    case PKey(t, e) =>
      low <= count <= high && published <= count && t == NextPos(r) && e == r.index[t] && entries[e].value.None?
    case PTail(t, e) =>
      && low <= count < high && published <= count && t == NextPos(r) && e == r.index[t]
      && entries[e].value.None? && entries[e].num == Some(count)
    case PHave(e) =>
      && low < count <= high && published < count
      && e < |entries| && Stands(r, e, count - 1) && entries[e].value.None? && entries[e].num == Some(count - 1)
    case PUndo(e) => low <= count <= high && published <= count && e < |entries| && entries[e].value.None?
    case PRoll(m, top) => Rolling(low, count, high, published, m, top)
    case PRollNull(m, top, e) => Rolling(low, count, high, published, m, top) && m in slot && slot[m].entry == e < |entries|
    case PRollTail(m, top) => Rolling(low, count, high, published, m, top)
  }

  predicate Rolling(low: int, count: nat, high: nat, published: nat, m: nat, top: nat) {
    low <= published <= m < top <= high && count == top - (m - published)
  }

  ghost predicate ProdOk(s: State)
    requires s.rings != [] && RingShaped(Current(s), |s.entries|)
  {
    && ProdAt(s.prod, Current(s), Low(Current(s), s.high), s.count, s.high, s.published, s.entries, s.slot)
    && Unpublished(s.slot, s.published, FirstUnpublished(s.prod, s.published), EndUnpublished(s.prod, s.count))
  }

  /** Where a consumer stands in its lookup. */
  predicate ReaderAt(entries: seq<Entry>, rings: seq<Ring>, pc: ReadPC)
    requires RingsOk(rings, |entries|)
  {
    match pc
    case RIdle => true
    case RTail(i, last, h) => h < |rings| && i / BLOCK_SIZE <= last
    case RKey(i, last, h, t) =>
      && h < |rings| && t < |rings[h].index| && i / BLOCK_SIZE <= last
      && entries[rings[h].index[t]].num.Some?
    case RIndex(i, last, h, t, key, m) =>
      && h < |rings| && t < |rings[h].index| && i / BLOCK_SIZE <= last
      && m.Some? && key == KeyOf(m.value) && Congruent(m.value, rings[h].first + t, |rings[h].index|)
    case RFound(n, last, h, idx, e) =>
      && h < |rings| && n <= last && idx == Pos(rings[h].first, |rings[h].index|, n) && e == rings[h].index[idx]
    case RNext(n, last, h, idx) => h < |rings| && n <= last && idx == Pos(rings[h].first, |rings[h].index|, n)
  }

  /** The ring a consumer works in. */
  function RingOf(pc: ReadPC): nat {
    match pc
    case RIdle => 0
    case RTail(_, _, h) => h
    case RKey(_, _, h, _) => h
    case RIndex(_, _, h, _, _, _) => h
    case RFound(_, _, h, _, _) => h
    case RNext(_, _, h, _) => h
  }

  /** The blocks a consumer needs are live and were inserted no later than its ring was built. */
  ghost predicate Served(slot: map<nat, Slot>, published: nat, pc: ReadPC) {
    forall n: nat :: Needs(pc, n) ==> n in slot && n < published && slot[n].born <= RingOf(pc)
  }

  ghost predicate ReadersOk(s: State)
    requires RingsOk(s.rings, |s.entries|)
  {
    forall c :: 0 <= c < |s.readers| ==>
      ReaderAt(s.entries, s.rings, s.readers[c]) && Served(s.slot, s.published, s.readers[c])
  }

  ghost predicate Inv(s: State) {
    && EntriesOk(s.entries, s.rings)
    && Window(s.entries, Current(s), s.high) && TailOk(Current(s), s.count)
    && SlotsOk(s.entries, s.rings, s.slot) && SlotRange(s.slot, Low(Current(s), s.high), s.high)
    && ProdOk(s)
    && ReadersOk(s)
  }

  // ---------- positions ----------

  lemma PosFits(first: int, c: nat, n: int)
    requires c > 0
    ensures Congruent(n, first + Pos(first, c, n), c)
  {
    ModCongruent(n - first, c);
    assert n - first - Pos(first, c, n) == n - (first + Pos(first, c, n));
  }

  lemma PosOf(first: int, c: nat, n: int, p: nat)
    requires c > 0 && p < c && Congruent(n, first + p, c)
    ensures p == Pos(first, c, n)
  {
    PosFits(first, c, n);
    Sym(n, first + p, c);
    Trans(first + p, n, first + Pos(first, c, n), c);
    Close(first + p, first + Pos(first, c, n), c);
  }

  lemma PosDistinct(first: int, c: nat, a: int, b: int)
    requires c > 0 && a - b < c && b - a < c && a != b
    ensures Pos(first, c, a) != Pos(first, c, b)
  {
    if Pos(first, c, a) == Pos(first, c, b) {
      PosFits(first, c, a);
      PosFits(first, c, b);
      var x := first + Pos(first, c, a);
      Sym(b, x, c);
      Trans(a, x, b, c);
      Close(a, b, c);
    }
  }

  /** One step further in the ring. */
  lemma PosNext(first: int, c: nat, n: int)
    requires c > 0
    ensures (Pos(first, c, n) + 1) % c == Pos(first, c, n + 1)
    ensures (Pos(first, c, n) - 1) % c == Pos(first, c, n - 1)
  {
    var p := Pos(first, c, n);
    ModCongruent(p + 1, c);
    ModCongruent(p - 1, c);
    PosFits(first, c, n);
    assert Congruent(n + 1, first + p + 1, c);
    assert Congruent(n - 1, first + p - 1, c);
    assert Congruent(first + p + 1, first + (p + 1) % c, c);
    assert Congruent(first + p - 1, first + (p - 1) % c, c);
    Trans(n + 1, first + p + 1, first + (p + 1) % c, c);
    Trans(n - 1, first + p - 1, first + (p - 1) % c, c);
    PosOf(first, c, n + 1, (p + 1) % c);
    PosOf(first, c, n - 1, (p - 1) % c);
  }

  lemma TailIsPos(r: Ring, count: nat)
    requires TailOk(r, count) && r.tail < |r.index|
    ensures r.tail == Pos(r.first, |r.index|, count - 1)
    ensures NextPos(r) == Pos(r.first, |r.index|, count)
    ensures PrevPos(r) == Pos(r.first, |r.index|, count - 2)
  {
    Sym(r.first + r.tail, count - 1, |r.index|);
    PosOf(r.first, |r.index|, count - 1, r.tail);
    PosNext(r.first, |r.index|, count - 1);
  }

  lemma PosIsTail(r: Ring, t: nat, count: nat)
    requires r.index != [] && t == Pos(r.first, |r.index|, count - 1)
    ensures TailOk(r.(tail := t), count)
  {
    PosFits(r.first, |r.index|, count - 1);
    Sym(count - 1, r.first + t, |r.index|);
  }

  /** Every position belongs to exactly one number of any stretch as long as the ring. */
  lemma Covered(first: int, c: nat, low: int, p: nat) returns (n: int)
    requires p < c
    ensures low <= n < low + c && Pos(first, c, n) == p
  {
    n := low + (first + p - low) % c;
    ModCongruent(first + p - low, c);
    assert Congruent(first + p, n, c) by { assert first + p - n == (first + p - low) - (first + p - low) % c; }
    Sym(first + p, n, c);
    PosOf(first, c, n, p);
  }

  // ---------- frames ----------

  /** Rings once built keep their entries; new ones may follow. */
  predicate RingsKept(rings: seq<Ring>, rings': seq<Ring>) {
    && |rings| <= |rings'|
    && forall h :: 0 <= h < |rings| ==> rings'[h].index == rings[h].index && rings'[h].first == rings[h].first
  }

  /** Used entries stay used. */
  predicate NumsKept(entries: seq<Entry>, entries': seq<Entry>) {
    && |entries| <= |entries'|
    && forall e :: 0 <= e < |entries| && entries[e].num.Some? ==> entries'[e].num.Some?
  }

  /** The numbers are the same. */
  predicate SameNums(entries: seq<Entry>, entries': seq<Entry>) {
    |entries| == |entries'| && forall e :: 0 <= e < |entries| ==> entries'[e].num == entries[e].num
  }

  lemma ReaderKept(s: State, s': State, pc: ReadPC)
    requires RingsOk(s.rings, |s.entries|) && RingsOk(s'.rings, |s'.entries|)
    requires RingsKept(s.rings, s'.rings) && NumsKept(s.entries, s'.entries)
    requires ReaderAt(s.entries, s.rings, pc)
    ensures ReaderAt(s'.entries, s'.rings, pc)
  {
    if !pc.RIdle? {
      var h := RingOf(pc);
      assert s'.rings[h].index == s.rings[h].index;
      assert RingOk(s.rings[h], h + INITIAL_LOG, |s.entries|);
    }
  }

  /** Slots that consumers rely on only come. */
  predicate SlotsKept(slot: map<nat, Slot>, slot': map<nat, Slot>) {
    forall n :: n in slot ==> n in slot' && slot'[n] == slot[n]
  }

  lemma ReadersKept(s: State, s': State)
    requires RingsOk(s.rings, |s.entries|) && RingsOk(s'.rings, |s'.entries|)
    requires RingsKept(s.rings, s'.rings) && NumsKept(s.entries, s'.entries)
    requires SlotsKept(s.slot, s'.slot) && s.published <= s'.published && s'.readers == s.readers
    requires ReadersOk(s)
    ensures ReadersOk(s')
  {
    forall c | 0 <= c < |s.readers|
      ensures ReaderAt(s'.entries, s'.rings, s.readers[c]) && Served(s'.slot, s'.published, s.readers[c])
    {
      ReaderKept(s, s', s.readers[c]);
    }
  }

  lemma NumsSame(entries: seq<Entry>, entries': seq<Entry>, rings: seq<Ring>, high: nat)
    requires EntriesOk(entries, rings) && SameNums(entries, entries')
    requires forall e :: 0 <= e < |entries'| ==> EntryOk(entries'[e])
    requires Window(entries, rings[|rings| - 1], high)
    ensures EntriesOk(entries', rings) && Window(entries', rings[|rings| - 1], high)
  {
    forall h | 0 <= h < |rings| ensures Aligned(entries', rings[h]) {
      var r := rings[h];
      assert RingOk(r, h + INITIAL_LOG, |entries|);
      forall p | 0 <= p < |r.index| ensures Fits(entries', r, p) { assert Fits(entries, r, p); }
    }
    forall h | 0 <= h < |rings| - 1 ensures FullyUsed(entries', rings[h]) {
      assert FullyUsed(entries, rings[h]) && RingOk(rings[h], h + INITIAL_LOG, |entries|);
    }
    var r := rings[|rings| - 1];
    assert RingOk(r, |rings| - 1 + INITIAL_LOG, |entries|);
    forall c | Low(r, high) <= c < high ensures NumAt(entries', r, c) == Some(c) {
      assert NumAt(entries, r, c) == Some(c);
    }
    forall c | high <= c < r.first + |r.index| ensures NumAt(entries', r, c).None? {
      assert NumAt(entries, r, c).None?;
    }
  }

  lemma TailMoves(entries: seq<Entry>, rings: seq<Ring>, rings': seq<Ring>, slot: map<nat, Slot>, high: nat, t: nat)
    requires EntriesOk(entries, rings) && Window(entries, rings[|rings| - 1], high) && SlotsOk(entries, rings, slot)
    requires t < |rings[|rings| - 1].index|
    requires rings' == rings[|rings| - 1 := rings[|rings| - 1].(tail := t)]
    ensures EntriesOk(entries, rings') && Window(entries, rings'[|rings'| - 1], high) && SlotsOk(entries, rings', slot)
    ensures RingsKept(rings, rings')
  {
    forall h | 0 <= h < |rings'| ensures RingOk(rings'[h], h + INITIAL_LOG, |entries|) {
      assert RingOk(rings[h], h + INITIAL_LOG, |entries|);
    }
    forall h | 0 <= h < |rings'| ensures Aligned(entries, rings'[h]) {
      assert Aligned(entries, rings[h]);
      forall p | 0 <= p < |rings[h].index| ensures Fits(entries, rings'[h], p) { assert Fits(entries, rings[h], p); }
    }
    var r, r' := rings[|rings| - 1], rings'[|rings| - 1];
    forall c | Low(r', high) <= c < high ensures NumAt(entries, r', c) == Some(c) {
      assert NumAt(entries, r, c) == Some(c);
    }
    forall c | high <= c < r'.first + |r'.index| ensures NumAt(entries, r', c).None? {
      assert NumAt(entries, r, c).None?;
    }
    forall n | n in slot ensures SlotOk(entries, rings', slot[n], n) {
      assert SlotOk(entries, rings, slot[n], n);
      forall h | slot[n].born <= h < |rings'| ensures Stands(rings'[h], slot[n].entry, n) {
        assert Stands(rings[h], slot[n].entry, n);
      }
    }
  }

  // ---------- the producer ----------

  lemma KeyNotInvalid(n: nat)
    ensures KeyOf(n) != INVALID_BLOCK_BASE
  {
    var q := (BLOCK_SIZE * n) / WORD;
    assert BLOCK_SIZE * n == q * WORD + KeyOf(n);
    assert KeyOf(n) == BLOCK_SIZE * (n - q * HALF_KEYS);
  }

  /** An older block at the position of the next one: the ring is full. */
  lemma NoRoom(entries: seq<Entry>, r: Ring, high: nat, count: nat, m: nat)
    requires RingShaped(r, |entries|) && Window(entries, r, high) && Low(r, high) <= count <= high
    requires NumAt(entries, r, count) == Some(m) && m < count
    ensures count == high && r.first + |r.index| <= count
  {
  }

  lemma InsertKeeps(s: State)
    requires Inv(s) && Enabled(s, Insert)
    ensures Inv(Apply(s, Insert))
  {
    var s' := Apply(s, Insert);
    var r := Current(s);
    TailIsPos(r, s.count);
    var e := r.index[NextPos(r)];
    assert EntryOk(s.entries[e]);
    if s.entries[e].num.Some? { KeyNotInvalid(s.entries[e].num.value); }
    if s'.prod.PGrow? {
      var m := s.entries[e].num.value;
      assert m in s.slot && m < s.count;
      NoRoom(s.entries, r, s.high, s.count, m);
    }
    ReadersKept(s, s');
  }

  lemma OnlyPosition(entries: seq<Entry>, r: Ring, e: nat, p: nat)
    requires RingShaped(r, |entries|) && Injective(r.index) && p < |r.index| && r.index[p] == e
    ensures forall q :: 0 <= q < |r.index| && r.index[q] == e ==> q == p
  {
  }

  /** Storing the key of block `n` in the entry at its position keeps all rings aligned, old ones too. */
  lemma KeyStored(entries: seq<Entry>, rings: seq<Ring>, high: nat, n: nat, e: nat, x: Entry)
    requires EntriesOk(entries, rings)
    requires var r := rings[|rings| - 1];
      Window(entries, r, high) && Low(r, high) <= n <= high && Stands(r, e, n) && e < |entries|
    requires x == Entry(KeyOf(n), entries[e].value, Some(n))
    ensures EntriesOk(entries[e := x], rings)
  {
    var entries' := entries[e := x];
    var k := rings[|rings| - 1];
    var p := Pos(k.first, |k.index|, n);
    assert RingOk(k, |rings| - 1 + INITIAL_LOG, |entries|);
    PosFits(k.first, |k.index|, n);
    OnlyPosition(entries, k, e, p);
    forall h | 0 <= h < |rings| ensures Aligned(entries', rings[h]) {
      var r := rings[h];
      assert RingOk(r, h + INITIAL_LOG, |entries|) && Aligned(entries, r);
      forall q | 0 <= q < |r.index| ensures Fits(entries', r, q) {
        assert Fits(entries, r, q);
        if r.index[q] == e {
          if h < |rings| - 1 {
            assert FullyUsed(entries, r);
            assert Fits(entries, k, p);
            OldRingFits(entries[e].num.value, n, r.first + q, k.first + p, h + INITIAL_LOG, |rings| - 1 + INITIAL_LOG);
          }
        }
      }
    }
    forall h | 0 <= h < |rings| - 1 ensures FullyUsed(entries', rings[h]) {
      assert FullyUsed(entries, rings[h]) && RingOk(rings[h], h + INITIAL_LOG, |entries|);
    }
  }

  lemma OldRingFits(m: nat, n: nat, earlier: int, now: int, i: nat, j: nat)
    requires i <= j && Congruent(m, earlier, Pow2(i)) && Congruent(m, now, Pow2(j)) && Congruent(n, now, Pow2(j))
    ensures Congruent(n, earlier, Pow2(i))
  {
    Sym(m, now, Pow2(j));
    Trans(n, now, m, Pow2(j));
    Pow2Divides(i, j);
    Coarser(n, m, Pow2(i), Pow2(j));
    Trans(n, m, earlier, Pow2(i));
  }

  lemma WindowMoves(entries: seq<Entry>, r: Ring, high: nat, n: nat, e: nat, x: Entry)
    requires RingShaped(r, |entries|) && Injective(r.index) && Window(entries, r, high)
    requires Low(r, high) <= n <= high && Stands(r, e, n) && e < |entries| && x.num == Some(n)
    ensures Window(entries[e := x], r, if high > n then high else n + 1)
  {
    var entries' := entries[e := x];
    var high' := if high > n then high else n + 1;
    var c := |r.index|;
    forall i | Low(r, high') <= i < high' ensures NumAt(entries', r, i) == Some(i) {
      if i != n {
        PosDistinct(r.first, c, i, n);
        assert NumAt(entries, r, i) == Some(i);
      }
    }
    forall i | high' <= i < r.first + c ensures NumAt(entries', r, i).None? {
      PosDistinct(r.first, c, i, n);
      assert NumAt(entries, r, i).None?;
    }
  }

  lemma SlotsKeyStored(entries: seq<Entry>, rings: seq<Ring>, slot: map<nat, Slot>, e: nat, x: Entry)
    requires RingsOk(rings, |entries|) && SlotsOk(entries, rings, slot)
    requires e < |entries| && entries[e].value.None? && x.value.None?
    ensures SlotsOk(entries[e := x], rings, slot)
  {
    forall n | n in slot ensures SlotOk(entries[e := x], rings, slot[n], n) {
      assert SlotOk(entries, rings, slot[n], n);
    }
  }

  lemma RangeMoves(entries: seq<Entry>, rings: seq<Ring>, slot: map<nat, Slot>, high: nat, n: nat, e: nat)
    requires EntriesOk(entries, rings) && SlotsOk(entries, rings, slot)
    requires var r := rings[|rings| - 1];
      && Window(entries, r, high) && SlotRange(slot, Low(r, high), high) && Low(r, high) <= n <= high
      && Stands(r, e, n) && e < |entries| && entries[e].value.None?
    ensures var high' := if high > n then high else n + 1;
      SlotRange(slot, Low(rings[|rings| - 1], high'), high')
  {
    var r := rings[|rings| - 1];
    if n == high {
      var c := |r.index|;
      forall m | m in slot ensures Low(r, n + 1) <= m < n + 1 {
        assert SlotOk(entries, rings, slot[m], m);
        assert Stands(r, slot[m].entry, m);
        if m == n - c {
          PosFits(r.first, c, n);
          FromQuotient(m, n, c, -1);
          Trans(m, n, r.first + Pos(r.first, c, n), c);
          PosOf(r.first, c, m, Pos(r.first, c, n));
        }
      }
    }
  }

  /** Everything about memory after the key of block `n` has been stored. */
  lemma Keyed(entries: seq<Entry>, rings: seq<Ring>, slot: map<nat, Slot>, high: nat, n: nat, e: nat, x: Entry)
    requires EntriesOk(entries, rings) && SlotsOk(entries, rings, slot) && x == Entry(KeyOf(n), None, Some(n))
    requires var r := rings[|rings| - 1];
      && Window(entries, r, high) && SlotRange(slot, Low(r, high), high) && Low(r, high) <= n <= high
      && Stands(r, e, n) && e < |entries| && entries[e].value.None?
    ensures var r := rings[|rings| - 1]; var entries' := entries[e := x]; var high' := if high > n then high else n + 1;
      && EntriesOk(entries', rings) && SlotsOk(entries', rings, slot) && NumsKept(entries, entries')
      && Window(entries', r, high') && SlotRange(slot, Low(r, high'), high')
  {
    assert RingOk(rings[|rings| - 1], |rings| - 1 + INITIAL_LOG, |entries|);
    KeyStored(entries, rings, high, n, e, x);
    WindowMoves(entries, rings[|rings| - 1], high, n, e, x);
    SlotsKeyStored(entries, rings, slot, e, x);
    RangeMoves(entries, rings, slot, high, n, e);
  }

  lemma StoreKeyIs(s: State, s': State)
    requires Enabled(s, StoreKey) && s' == Apply(s, StoreKey) && s.entries[s.prod.e].value.None?
    ensures s'.entries == s.entries[s.prod.e := Entry(KeyOf(s.count), None, Some(s.count))]
    ensures s' == s.(entries := s'.entries, prod := PTail(s.prod.t, s.prod.e), high := if s.high > s.count then s.high else s.count + 1)
  {
  }

  lemma StoreKeyReaders(s: State)
    requires Inv(s) && Enabled(s, StoreKey)
    requires RingsOk(s.rings, |s.entries|) && NumsKept(s.entries, Apply(s, StoreKey).entries)
    ensures ReadersOk(Apply(s, StoreKey))
  {
    ReadersKept(s, Apply(s, StoreKey));
  }

  lemma StoreKeyKeeps(s: State)
    requires Inv(s) && Enabled(s, StoreKey)
    ensures Inv(Apply(s, StoreKey))
  {
    StoreKeyIs(s, Apply(s, StoreKey));
    TailIsPos(Current(s), s.count);
    Keyed(s.entries, s.rings, s.slot, s.high, s.count, s.prod.e, Entry(KeyOf(s.count), None, Some(s.count)));
    StoreKeyReaders(s);
  }

  lemma StoreTailKeeps(s: State)
    requires Inv(s) && Enabled(s, StoreTail)
    ensures Inv(Apply(s, StoreTail))
  {
    var s' := Apply(s, StoreTail);
    var r := Current(s);
    TailIsPos(r, s.count);
    PosIsTail(r, s.prod.t, s.count + 1);
    TailMoves(s.entries, s.rings, s'.rings, s.slot, s.high, s.prod.t);
    ReadersKept(s, s');
  }

  /** Storing a value changes no number. */
  lemma ValueStored(entries: seq<Entry>, rings: seq<Ring>, high: nat, e: nat, v: Option<nat>)
    requires EntriesOk(entries, rings) && Window(entries, rings[|rings| - 1], high)
    requires e < |entries| && (v.Some? ==> entries[e].num.Some?)
    ensures var entries' := entries[e := entries[e].(value := v)];
      && EntriesOk(entries', rings) && Window(entries', rings[|rings| - 1], high)
      && SameNums(entries, entries') && NumsKept(entries, entries')
  {
    var entries' := entries[e := entries[e].(value := v)];
    forall i | 0 <= i < |entries'| ensures EntryOk(entries'[i]) { assert EntryOk(entries[i]); }
    NumsSame(entries, entries', rings, high);
  }

  lemma SlotAdded(entries: seq<Entry>, rings: seq<Ring>, slot: map<nat, Slot>, e: nat, n: nat, b: nat)
    requires RingsOk(rings, |entries|) && SlotsOk(entries, rings, slot) && n !in slot
    requires e < |entries| && entries[e].num == Some(n) && Stands(rings[|rings| - 1], e, n)
    ensures SlotsOk(entries[e := entries[e].(value := Some(b))], rings, slot[n := Slot(e, |rings| - 1, b)])
  {
    var entries', slot' := entries[e := entries[e].(value := Some(b))], slot[n := Slot(e, |rings| - 1, b)];
    forall m | m in slot' ensures SlotOk(entries', rings, slot'[m], m) {
      if m != n { assert SlotOk(entries, rings, slot[m], m); }
    }
  }

  /** Everything about memory after a block has been stored in its entry. */
  lemma Filled(entries: seq<Entry>, rings: seq<Ring>, slot: map<nat, Slot>, high: nat, e: nat, n: nat, b: nat)
    requires EntriesOk(entries, rings) && Window(entries, rings[|rings| - 1], high)
    requires SlotsOk(entries, rings, slot) && n !in slot
    requires e < |entries| && entries[e].num == Some(n) && Stands(rings[|rings| - 1], e, n)
    ensures var entries' := entries[e := entries[e].(value := Some(b))];
      && EntriesOk(entries', rings) && Window(entries', rings[|rings| - 1], high) && NumsKept(entries, entries')
      && SlotsOk(entries', rings, slot[n := Slot(e, |rings| - 1, b)])
  {
    ValueStored(entries, rings, high, e, Some(b));
    SlotAdded(entries, rings, slot, e, n, b);
  }

  lemma SetBlockIs(s: State, b: nat, s': State)
    requires Enabled(s, SetBlock(b)) && s' == Apply(s, SetBlock(b)) && s.count > 0
    ensures s' == s.(entries := s.entries[s.prod.e := s.entries[s.prod.e].(value := Some(b))], prod := PIdle,
                     slot := s.slot[s.count - 1 := Slot(s.prod.e, |s.rings| - 1, b)])
  {
  }

  lemma SetBlockProd(s: State, b: nat)
    requires Inv(s) && Enabled(s, SetBlock(b))
    ensures ProdOk(Apply(s, SetBlock(b)))
  {
    assert Unpublished(Apply(s, SetBlock(b)).slot, s.published, s.published, s.count);
  }

  lemma SetBlockReaders(s: State, b: nat)
    requires Inv(s) && Enabled(s, SetBlock(b)) && NumsKept(s.entries, Apply(s, SetBlock(b)).entries)
    ensures ReadersOk(Apply(s, SetBlock(b)))
  {
    assert s.count - 1 !in s.slot;
    ReadersKept(s, Apply(s, SetBlock(b)));
  }

  lemma SetBlockKeeps(s: State, b: nat)
    requires Inv(s) && Enabled(s, SetBlock(b))
    ensures Inv(Apply(s, SetBlock(b)))
  {
    assert s.count - 1 !in s.slot;
    SetBlockIs(s, b, Apply(s, SetBlock(b)));
    Filled(s.entries, s.rings, s.slot, s.high, s.prod.e, s.count - 1, b);
    SetBlockProd(s, b);
    assert SlotRange(Apply(s, SetBlock(b)).slot, Low(Current(s), s.high), s.high);
    SetBlockReaders(s, b);
  }

  lemma RewindTail(s: State)
    requires Inv(s) && Enabled(s, Rewind)
    ensures var r := Current(s); PrevPos(r) < |r.index| && TailOk(r.(tail := PrevPos(r)), s.count - 1)
  {
    TailIsPos(Current(s), s.count);
    PosIsTail(Current(s), PrevPos(Current(s)), s.count - 1);
  }

  lemma RewindKeeps(s: State)
    requires Inv(s) && Enabled(s, Rewind)
    ensures Inv(Apply(s, Rewind))
  {
    var s' := Apply(s, Rewind);
    RewindTail(s);
    TailMoves(s.entries, s.rings, s'.rings, s.slot, s.high, PrevPos(Current(s)));
    ReadersKept(s, s');
  }

  lemma NullKeeps(s: State, a: Action)
    requires Inv(s) && Enabled(s, a) && a.StoreNull?
    ensures Inv(Apply(s, a))
  {
    assert Apply(s, a).entries == s.entries;
    ReadersKept(s, Apply(s, a));
  }

  lemma PublishKeeps(s: State, a: Action)
    requires Inv(s) && Enabled(s, a) && a.Publish?
    ensures Inv(Apply(s, a))
  {
    ReadersKept(s, Apply(s, a));
  }

  lemma RollKeeps(s: State, a: Action)
    requires Inv(s) && Enabled(s, a) && a.Roll?
    ensures Inv(Apply(s, a))
  {
    assert s.published in s.slot;
    ReadersKept(s, Apply(s, a));
  }

  lemma SimpleKeeps(s: State, a: Action)
    requires Inv(s) && Enabled(s, a) && (a.StoreNull? || a.Publish? || a.Roll?)
    ensures Inv(Apply(s, a))
  {
    if a.StoreNull? {
      NullKeeps(s, a);
    } else if a.Publish? {
      PublishKeeps(s, a);
    } else {
      RollKeeps(s, a);
    }
  }

  // ---------- lookups ----------

  /** A lookup in ring `h` from any used tail entry ends at the position of its block. */
  lemma LookupRight(s: State, h: nat, i: nat, t: nat, key: int, m: nat)
    requires RingsOk(s.rings, |s.entries|) && h < |s.rings| && t < |s.rings[h].index|
    requires key == KeyOf(m) && Congruent(m, s.rings[h].first + t, |s.rings[h].index|)
    ensures var r := s.rings[h]; var p := Pos(r.first, |r.index|, i / BLOCK_SIZE);
      Position(t, Offset(BaseOf(i % WORD), key), |r.index|) == p && EntryOf(r, t, key, i) == r.index[p]
  {
    assert RingOk(s.rings[h], h + INITIAL_LOG, |s.entries|);
    LookupPosition(i, m, t, s.rings[h].first, h + INITIAL_LOG);
  }

  /** While some block up to the tail is live, the tail entry has been used. */
  lemma TailUsed(s: State)
    requires EntriesOk(s.entries, s.rings) && Window(s.entries, Current(s), s.high) && TailOk(Current(s), s.count)
    requires Low(Current(s), s.high) < s.count <= s.high
    ensures var r := Current(s); s.entries[r.index[r.tail]].num == Some(s.count - 1)
  {
    var r := Current(s);
    TailIsPos(r, s.count);
    assert NumAt(s.entries, r, s.count - 1) == Some(s.count - 1);
  }

  lemma OwnLookup(s: State)
    requires Inv(s) && Shaped(s) && s.prod.PRoll?
    ensures s.prod.m in s.slot && OwnEntry(s, s.prod.m) == s.slot[s.prod.m].entry
    ensures var r := Current(s); s.entries[r.index[r.tail]].key != INVALID_BLOCK_BASE
    ensures var x := s.entries[OwnEntry(s, s.prod.m)]; x.key == KeyOf(s.prod.m) && x.value.Some?
  {
    var r, m := Current(s), s.prod.m;
    TailUsed(s);
    var x := s.entries[r.index[r.tail]];
    KeyNotInvalid(x.num.value);
    assert EntryOk(x) && Aligned(s.entries, r) && Fits(s.entries, r, r.tail);
    LookupRight(s, |s.rings| - 1, m * BLOCK_SIZE, r.tail, x.key, x.num.value);
    assert m * BLOCK_SIZE / BLOCK_SIZE == m;
    assert SlotOk(s.entries, s.rings, s.slot[m], m);
    assert Stands(r, s.slot[m].entry, m);
    assert EntryOk(s.entries[s.slot[m].entry]);
  }

  // ---------- undoing a bulk ----------

  lemma SlotGone(entries: seq<Entry>, rings: seq<Ring>, slot: map<nat, Slot>, e: nat, n: nat)
    requires RingsOk(rings, |entries|) && SlotsOk(entries, rings, slot) && n in slot && slot[n].entry == e
    ensures e < |entries| && SlotsOk(entries[e := entries[e].(value := None)], rings, slot - {n})
  {
    assert SlotOk(entries, rings, slot[n], n);
    var entries', slot' := entries[e := entries[e].(value := None)], slot - {n};
    forall m | m in slot' ensures SlotOk(entries', rings, slot'[m], m) {
      assert SlotOk(entries, rings, slot[m], m);
    }
    forall i | 0 <= i < |entries'| && entries'[i].value.Some?
      ensures entries'[i].num.Some? && entries'[i].num.value in slot' && slot'[entries'[i].num.value].entry == i
    {
      assert i != e && entries'[i] == entries[i];
    }
  }

  lemma ServedWithout(slot: map<nat, Slot>, published: nat, n: nat, pc: ReadPC)
    requires Served(slot, published, pc) && !Needs(pc, n)
    ensures Served(slot - {n}, published, pc)
  {
  }

  /** Everything about memory after null has been stored in the entry of a live block. */
  lemma Emptied(entries: seq<Entry>, rings: seq<Ring>, slot: map<nat, Slot>, high: nat, e: nat, n: nat)
    requires EntriesOk(entries, rings) && Window(entries, rings[|rings| - 1], high)
    requires SlotsOk(entries, rings, slot) && n in slot && slot[n].entry == e < |entries|
    ensures var entries' := entries[e := entries[e].(value := None)];
      && EntriesOk(entries', rings) && Window(entries', rings[|rings| - 1], high) && NumsKept(entries, entries')
      && SlotsOk(entries', rings, slot - {n})
  {
    ValueStored(entries, rings, high, e, None);
    SlotGone(entries, rings, slot, e, n);
  }

  lemma RollNullReaders(s: State)
    requires Inv(s) && Enabled(s, RollNull) && NumsKept(s.entries, Apply(s, RollNull).entries)
    ensures ReadersOk(Apply(s, RollNull))
  {
    var s' := Apply(s, RollNull);
    forall c | 0 <= c < |s.readers|
      ensures ReaderAt(s'.entries, s'.rings, s.readers[c]) && Served(s'.slot, s'.published, s.readers[c])
    {
      ReaderKept(s, s', s.readers[c]);
      ServedWithout(s.slot, s.published, s.prod.m, s.readers[c]);
    }
  }

  lemma RollNullIs(s: State, s': State)
    requires Enabled(s, RollNull) && s' == Apply(s, RollNull)
    ensures s' == s.(entries := s.entries[s.prod.e := s.entries[s.prod.e].(value := None)], prod := PRollTail(s.prod.m, s.prod.top),
                     slot := s.slot - {s.prod.m})
  {
  }

  lemma RollNullProd(s: State)
    requires Inv(s) && Enabled(s, RollNull)
    ensures ProdOk(Apply(s, RollNull))
  {
    assert Unpublished(s.slot - {s.prod.m}, s.published, s.prod.m + 1, s.prod.top);
  }

  lemma RollNullKeeps(s: State)
    requires Inv(s) && Enabled(s, RollNull)
    ensures Inv(Apply(s, RollNull))
  {
    RollNullIs(s, Apply(s, RollNull));
    Emptied(s.entries, s.rings, s.slot, s.high, s.prod.e, s.prod.m);
    RollNullReaders(s);
    RollNullProd(s);
    assert SlotRange(s.slot - {s.prod.m}, Low(Current(s), s.high), s.high);
  }

  lemma RollLookupKeeps(s: State)
    requires Inv(s) && Enabled(s, RollLookup)
    ensures Inv(Apply(s, RollLookup))
  {
    OwnLookup(s);
    assert SlotOk(s.entries, s.rings, s.slot[s.prod.m], s.prod.m);
    ReadersKept(s, Apply(s, RollLookup));
  }

  lemma RollTailKeeps(s: State)
    requires Inv(s) && Enabled(s, RollTail)
    ensures Inv(Apply(s, RollTail))
  {
    var s' := Apply(s, RollTail);
    var r := Current(s);
    TailIsPos(r, s.count);
    PosIsTail(r, PrevPos(r), s.count - 1);
    TailMoves(s.entries, s.rings, s'.rings, s.slot, s.high, PrevPos(r));
    ReadersKept(s, s');
  }

  // ---------- consumers ----------

  lemma TailLoaded(s: State, pc: ReadPC)
    requires Inv(s) && Shaped(s) && pc.RTail? && ReaderAt(s.entries, s.rings, pc) && Served(s.slot, s.published, pc)
    ensures var r := s.rings[pc.h]; s.entries[r.index[r.tail]].num.Some?
  {
    if pc.h < |s.rings| - 1 {
      assert FullyUsed(s.entries, s.rings[pc.h]);
    } else {
      assert Needs(pc, pc.i / BLOCK_SIZE);
      TailUsed(s);
    }
  }

  lemma LoadKeepsReader(s: State, pc: ReadPC)
    requires Inv(s) && Shaped(s) && ReaderShaped(pc, s.rings, |s.entries|)
    requires pc.RTail? || pc.RKey? || pc.RIndex?
    requires ReaderAt(s.entries, s.rings, pc) && Served(s.slot, s.published, pc)
    ensures ReaderAt(s.entries, s.rings, ReadStep(s, pc)) && Served(s.slot, s.published, ReadStep(s, pc))
  {
    var r := s.rings[pc.h];
    if pc.RTail? {
      TailLoaded(s, pc);
    } else if pc.RKey? {
      assert Aligned(s.entries, r) && Fits(s.entries, r, pc.t);
      assert EntryOk(s.entries[r.index[pc.t]]);
    } else {
      LookupRight(s, pc.h, pc.i, pc.t, pc.key, pc.m.value);
    }
    ServedSame(s.slot, s.published, pc, ReadStep(s, pc));
  }

  /** The same blocks needed, in the same ring. */
  lemma ServedSame(slot: map<nat, Slot>, published: nat, pc: ReadPC, pc': ReadPC)
    requires Served(slot, published, pc) && RingOf(pc') == RingOf(pc)
    requires forall n: nat :: Needs(pc', n) ==> Needs(pc, n)
    ensures Served(slot, published, pc')
  {
  }

  lemma OneReader(s: State, c: nat, pc: ReadPC)
    requires Inv(s) && c < |s.readers|
    requires ReaderAt(s.entries, s.rings, pc) && Served(s.slot, s.published, pc)
    ensures Inv(SetReader(s, c, pc))
  {
  }

  lemma BeginServed(s: State, i: nat, last: nat)
    requires Inv(s) && last < s.published && forall n :: i / BLOCK_SIZE <= n <= last ==> n in s.slot
    ensures Served(s.slot, s.published, RTail(i, last, |s.rings| - 1))
  {
    var pc := RTail(i, last, |s.rings| - 1);
    forall n: nat | Needs(pc, n) ensures n in s.slot && n < s.published && s.slot[n].born <= RingOf(pc) {
      assert SlotOk(s.entries, s.rings, s.slot[n], n);
    }
  }

  lemma BeginKeeps(s: State, c: nat, i: nat, last: nat)
    requires Inv(s) && Enabled(s, Begin(c, i, last))
    ensures Inv(Apply(s, Begin(c, i, last)))
  {
    BeginServed(s, i, last);
    OneReader(s, c, RTail(i, last, |s.rings| - 1));
  }

  lemma NextKeeps(s: State, c: nat)
    requires Inv(s) && Enabled(s, Next(c))
    ensures Inv(Apply(s, Next(c)))
  {
    var pc := s.readers[c];
    assert ReaderAt(s.entries, s.rings, pc) && Served(s.slot, s.published, pc);
    var r := s.rings[pc.h];
    PosNext(r.first, |r.index|, pc.n);
    if pc.n < pc.last { ServedSame(s.slot, s.published, pc, NextBlock(s, pc)); }
    OneReader(s, c, NextBlock(s, pc));
  }

  lemma LoadKeeps(s: State, c: nat)
    requires Inv(s) && Enabled(s, Load(c))
    ensures Inv(Apply(s, Load(c)))
  {
    var pc := s.readers[c];
    assert ReaderAt(s.entries, s.rings, pc) && Served(s.slot, s.published, pc);
    LoadKeepsReader(s, pc);
    OneReader(s, c, ReadStep(s, pc));
  }

  lemma LeaveKeeps(s: State, c: nat)
    requires Inv(s) && Enabled(s, Leave(c))
    ensures Inv(Apply(s, Leave(c)))
  {
    var pc := s.readers[c];
    assert ReaderAt(s.entries, s.rings, pc) && Served(s.slot, s.published, pc);
    ServedSame(s.slot, s.published, pc, RNext(pc.n, pc.last, pc.h, pc.idx));
    OneReader(s, c, RNext(pc.n, pc.last, pc.h, pc.idx));
  }

  /** A consumer at work on a block has the entry of that block. */
  lemma FoundIsOwn(s: State, c: nat)
    requires Inv(s) && c < |s.readers| && s.readers[c].RFound?
    ensures var pc := s.readers[c];
      && pc.n in s.slot && pc.n < s.published && s.slot[pc.n].entry == pc.e < |s.entries|
      && s.entries[pc.e] == Entry(KeyOf(pc.n), Some(s.slot[pc.n].block), Some(pc.n))
  {
    var pc := s.readers[c];
    assert ReaderAt(s.entries, s.rings, pc) && Served(s.slot, s.published, pc);
    assert Needs(pc, pc.n);
    assert SlotOk(s.entries, s.rings, s.slot[pc.n], pc.n);
    assert Stands(s.rings[pc.h], s.slot[pc.n].entry, pc.n);
    assert EntryOk(s.entries[pc.e]);
  }

  lemma ReleaseReaders(s: State, c: nat)
    requires Inv(s) && Enabled(s, Release(c))
    requires RingsOk(s.rings, |s.entries|) && NumsKept(s.entries, Apply(s, Release(c)).entries)
    ensures ReadersOk(Apply(s, Release(c)))
  {
    var s' := Apply(s, Release(c));
    var pc := s.readers[c];
    var pc' := RNext(pc.n, pc.last, pc.h, pc.idx);
    ServedSame(s.slot, s.published, pc, pc');
    forall d | 0 <= d < |s.readers|
      ensures ReaderAt(s'.entries, s'.rings, s'.readers[d]) && Served(s'.slot, s'.published, s'.readers[d])
    {
      assert ReaderAt(s.entries, s.rings, s.readers[d]) && Served(s.slot, s.published, s.readers[d]);
      ReaderKept(s, s', s'.readers[d]);
      ServedWithout(s.slot, s.published, pc.n, s'.readers[d]);
    }
  }

  lemma UnpublishedKept(slot: map<nat, Slot>, published: nat, lo: nat, hi: nat, n: nat)
    requires n < published && Unpublished(slot, published, lo, hi)
    ensures Unpublished(slot - {n}, published, lo, hi)
  {
  }

  lemma ProdAtKept(prod: ProdPC, r: Ring, low: int, count: nat, high: nat, published: nat, entries: seq<Entry>, slot: map<nat, Slot>,
                   e: nat, n: nat)
    requires RingShaped(r, |entries|) && ProdAt(prod, r, low, count, high, published, entries, slot)
    requires e < |entries| && n < published
    ensures ProdAt(prod, r, low, count, high, published, entries[e := entries[e].(value := None)], slot - {n})
  {
  }

  lemma ReleaseIs(s: State, c: nat, s': State)
    requires Enabled(s, Release(c)) && s' == Apply(s, Release(c))
    ensures var pc := s.readers[c];
      s' == s.(entries := s.entries[pc.e := s.entries[pc.e].(value := None)], slot := s.slot - {pc.n}, readers := s'.readers)
  {
  }

  lemma ReleaseProd(s: State, c: nat)
    requires Inv(s) && Enabled(s, Release(c))
    ensures ProdOk(Apply(s, Release(c)))
  {
    FoundIsOwn(s, c);
    ReleaseIs(s, c, Apply(s, Release(c)));
    var pc := s.readers[c];
    ProdAtKept(s.prod, Current(s), Low(Current(s), s.high), s.count, s.high, s.published, s.entries, s.slot, pc.e, pc.n);
    UnpublishedKept(s.slot, s.published, FirstUnpublished(s.prod, s.published), EndUnpublished(s.prod, s.count), pc.n);
  }

  lemma ReleaseKeeps(s: State, c: nat)
    requires Inv(s) && Enabled(s, Release(c))
    ensures Inv(Apply(s, Release(c)))
  {
    FoundIsOwn(s, c);
    Emptied(s.entries, s.rings, s.slot, s.high, s.readers[c].e, s.readers[c].n);
    ReleaseReaders(s, c);
    ReleaseProd(s, c);
    assert SlotRange(s.slot - {s.readers[c].n}, Low(Current(s), s.high), s.high);
  }

  // ---------- growth ----------

  /** The ring is full: its entries hold the last `|r.index|` blocks before `n`. */
  predicate Full(entries: seq<Entry>, r: Ring, n: nat) {
    && RingShaped(r, |entries|) && Injective(r.index) && TailOk(r, n)
    && Window(entries, r, n) && r.first + |r.index| <= n
  }

  lemma SmallMod(x: int, c: nat)
    requires 0 <= x < c
    ensures x % c == x
  {
    SameRemainder(x, c, 0, x);
  }

  /** The copying loop takes the entries in the order of their blocks. */
  lemma OldEntry(entries: seq<Entry>, r: Ring, n: nat, i: nat)
    requires Full(entries, r, n) && i < |r.index|
    ensures var c := |r.index|; var g := Grown(r, |entries|, n);
      && (r.tail + 1 + i) % c == Pos(r.first, c, n - c + i)
      && g.index[i] == r.index[Pos(r.first, c, n - c + i)]
      && entries[g.index[i]].num == Some(n - c + i)
  {
    var c := |r.index|;
    var x := r.tail + 1 + i;
    ModCongruent(x, c);
    assert Congruent(r.first + x, r.first + x % c, c);
    assert Congruent(r.first + x, n + i, c);
    FromQuotient(n + i, n - c + i, c, 1);
    Trans(r.first + x, n + i, n - c + i, c);
    Sym(r.first + x, n - c + i, c);
    Trans(n - c + i, r.first + x, r.first + x % c, c);
    PosOf(r.first, c, n - c + i, x % c);
    assert NumAt(entries, r, n - c + i) == Some(n - c + i);
  }

  /** Where the old ring has the entry of a block, the grown ring has it at its own position for it. */
  lemma OldStands(entries: seq<Entry>, r: Ring, n: nat, m: nat)
    requires Full(entries, r, n) && n - |r.index| <= m < n
    ensures var g := Grown(r, |entries|, n);
      && Pos(g.first, |g.index|, m) == m - (n - |r.index|)
      && Stands(g, r.index[Pos(r.first, |r.index|, m)], m)
  {
    OldEntry(entries, r, n, m - (n - |r.index|));
    SmallMod(m - (n - |r.index|), 2 * |r.index|);
  }

  lemma GrownInjective(entries: seq<Entry>, r: Ring, n: nat)
    requires Full(entries, r, n)
    ensures Injective(Grown(r, |entries|, n).index)
  {
    var c, g := |r.index|, Grown(r, |entries|, n);
    forall p, q | 0 <= p < q < 2 * c ensures g.index[p] != g.index[q] {
      if p < c { OldEntry(entries, r, n, p); }
      if q < c { OldEntry(entries, r, n, q); }
    }
  }

  lemma GrownWindow(entries: seq<Entry>, entries': seq<Entry>, r: Ring, n: nat)
    requires Full(entries, r, n) && entries' == entries + seq(|r.index|, _ => Unused)
    ensures var g := Grown(r, |entries|, n);
      RingShaped(g, |entries'|) && Aligned(entries', g) && Window(entries', g, n) && TailOk(g, n)
  {
    var c, g := |r.index|, Grown(r, |entries|, n);
    forall p | 0 <= p < 2 * c ensures g.index[p] < |entries'| && Fits(entries', g, p) {
      if p < c {
        OldEntry(entries, r, n, p);
        SmallMod(0, 2 * c);
      }
    }
    forall i | n - c <= i < n ensures NumAt(entries', g, i) == Some(i) {
      OldEntry(entries, r, n, i - (n - c));
      SmallMod(i - (n - c), 2 * c);
    }
    forall i | n <= i < g.first + 2 * c ensures NumAt(entries', g, i).None? {
      SmallMod(i - (n - c), 2 * c);
    }
    SmallMod(0, 2 * c);
  }

  lemma GrownRings(entries: seq<Entry>, entries': seq<Entry>, rings: seq<Ring>, n: nat)
    requires EntriesOk(entries, rings) && Full(entries, rings[|rings| - 1], n) && |rings| + INITIAL_LOG <= 59
    requires entries' == entries + seq(|rings[|rings| - 1].index|, _ => Unused)
    ensures EntriesOk(entries', rings + [Grown(rings[|rings| - 1], |entries|, n)])
  {
    var r := rings[|rings| - 1];
    var g := Grown(r, |entries|, n);
    var rings' := rings + [g];
    GrownInjective(entries, r, n);
    GrownWindow(entries, entries', r, n);
    forall h | 0 <= h < |rings'| ensures RingOk(rings'[h], h + INITIAL_LOG, |entries'|) && Aligned(entries', rings'[h]) {
      if h < |rings| {
        assert RingOk(rings[h], h + INITIAL_LOG, |entries|) && Aligned(entries, rings[h]);
        forall p | 0 <= p < |rings[h].index| ensures Fits(entries', rings[h], p) { assert Fits(entries, rings[h], p); }
      } else {
        assert RingOk(r, |rings| - 1 + INITIAL_LOG, |entries|);
      }
    }
    forall h | 0 <= h < |rings'| - 1 ensures FullyUsed(entries', rings'[h]) {
      assert RingOk(rings[h], h + INITIAL_LOG, |entries|);
      if h < |rings| - 1 { assert FullyUsed(entries, rings[h]); } else { OldFullyUsed(entries, r, n); }
    }
  }

  lemma OldFullyUsed(entries: seq<Entry>, r: Ring, n: nat)
    requires Full(entries, r, n)
    ensures FullyUsed(entries, r)
  {
    forall p | 0 <= p < |r.index| ensures entries[r.index[p]].num.Some? {
      var m := Covered(r.first, |r.index|, n - |r.index|, p);
      assert NumAt(entries, r, m) == Some(m);
    }
  }

  lemma GrownSlots(entries: seq<Entry>, entries': seq<Entry>, rings: seq<Ring>, slot: map<nat, Slot>, n: nat)
    requires EntriesOk(entries, rings) && Full(entries, rings[|rings| - 1], n) && SlotsOk(entries, rings, slot)
    requires SlotRange(slot, n - |rings[|rings| - 1].index|, n)
    requires entries' == entries + seq(|rings[|rings| - 1].index|, _ => Unused)
    requires RingsOk(rings + [Grown(rings[|rings| - 1], |entries|, n)], |entries'|)
    ensures SlotsOk(entries', rings + [Grown(rings[|rings| - 1], |entries|, n)], slot)
  {
    var r := rings[|rings| - 1];
    var rings' := rings + [Grown(r, |entries|, n)];
    forall m | m in slot ensures SlotOk(entries', rings', slot[m], m) {
      assert SlotOk(entries, rings, slot[m], m);
      OldStands(entries, r, n, m);
      forall h | slot[m].born <= h < |rings'| ensures Stands(rings'[h], slot[m].entry, m) {
        if h < |rings| {
          assert Stands(rings[h], slot[m].entry, m);
        } else {
          assert Stands(r, slot[m].entry, m);
        }
      }
    }
  }

  lemma GrownKeeps(s: State)
    requires Inv(s) && Enabled(s, Grow(true))
    ensures Inv(Apply(s, Grow(true)))
  {
    var s' := Apply(s, Grow(true));
    var r := Current(s);
    assert RingOk(r, |s.rings| - 1 + INITIAL_LOG, |s.entries|);
    assert Full(s.entries, r, s.count);
    GrownRings(s.entries, s'.entries, s.rings, s.count);
    GrownWindow(s.entries, s'.entries, r, s.count);
    GrownSlots(s.entries, s'.entries, s.rings, s.slot, s.count);
    GrownNext(s);
    ReadersKept(s, s');
  }

  /** The entry after the tail of a grown ring has never been used. */
  lemma GrownNext(s: State)
    requires Shaped(s)
    ensures var g := GrowRing(s); var r := Current(g); var t := NextPos(r);
      t == |Current(s).index| && r.index[t] == |s.entries| && g.entries[r.index[t]] == Unused
  {
    SmallMod(|Current(s).index|, 2 * |Current(s).index|);
  }

  lemma GrowKeeps(s: State, ok: bool)
    requires Inv(s) && Enabled(s, Grow(ok))
    ensures Inv(Apply(s, Grow(ok)))
  {
    if ok { GrownKeeps(s); } else { ReadersKept(s, Apply(s, Grow(ok))); }
  }

  // ---------- every run ----------

  lemma InitInv(s: State)
    requires Init(s)
    ensures Inv(s)
  {
    var c := Pow2(INITIAL_LOG);
    var r := s.rings[0];
    assert RingOk(r, 0 + INITIAL_LOG, |s.entries|);
    assert Aligned(s.entries, r) by {
      forall p | 0 <= p < |r.index| ensures Fits(s.entries, r, p) {}
    }
    FromQuotient(r.first + r.tail, -1, c, 1);
    forall i | 0 <= i < c ensures NumAt(s.entries, r, i).None? {}
  }

  lemma InvShaped(s: State)
    requires Inv(s)
    ensures Shaped(s)
  {
    forall h | 0 <= h < |s.rings| ensures RingShaped(s.rings[h], |s.entries|) {
      assert RingOk(s.rings[h], h + INITIAL_LOG, |s.entries|);
    }
    forall c | 0 <= c < |s.readers| ensures ReaderShaped(s.readers[c], s.rings, |s.entries|) {
      assert ReaderAt(s.entries, s.rings, s.readers[c]);
    }
  }

  lemma ActionKeepsInv(s: State, a: Action)
    requires Inv(s) && Enabled(s, a)
    ensures Inv(Apply(s, a))
  {
    match a
    case Insert => InsertKeeps(s);
    case Grow(ok) => GrowKeeps(s, ok);
    case StoreKey => StoreKeyKeeps(s);
    case StoreTail => StoreTailKeeps(s);
    case SetBlock(b) => SetBlockKeeps(s, b);
    case Rewind => RewindKeeps(s);
    case StoreNull => SimpleKeeps(s, a);
    case Publish => SimpleKeeps(s, a);
    case Roll => SimpleKeeps(s, a);
    case RollLookup => RollLookupKeeps(s);
    case RollNull => RollNullKeeps(s);
    case RollTail => RollTailKeeps(s);
    case Begin(c, i, last) => BeginKeeps(s, c, i, last);
    case Load(c) => LoadKeeps(s, c);
    case Release(c) => ReleaseKeeps(s, c);
    case Leave(c) => LeaveKeeps(s, c);
    case Next(c) => NextKeeps(s, c);
  }

  lemma {:induction false} ReachableInv(s0: State, run: seq<Action>, s: State)
    requires Reaches(s0, run, s)
    ensures Inv(s)
    decreases |run|
  {
    if run == [] {
      InitInv(s);
    } else {
      var last := |run| - 1;
      var m :| Reaches(s0, run[..last], m) && Enabled(m, run[last]) && s == Apply(m, run[last]);
      ReachableInv(s0, run[..last], m);
      ActionKeepsInv(m, run[last]);
    }
  }
}
