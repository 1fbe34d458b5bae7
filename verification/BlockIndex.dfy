/**
 The block index of an implicit producer (ext/MoodyCamel/concurrentqueue.h, lines 2785-2919): a ring of
 entries that maps block bases to blocks, written by the producer while consumers look blocks up.

 The producer inserts an entry per block, rewinds the last insertion when no block can be had, and grows by
 building a ring of twice the size that shares all old entries; consumers may hold on to an old ring, read a
 tail and a key that have since moved on, and still have to reach the entry of their block. Every load and
 store of a shared word is a step; what only the producer writes may be read by it together.

 Keys are 64-bit words. `capacity` is a power of two, so `& (capacity - 1)` is remainder by it. Auxiliary
 fields, never read by steps except to say which lookups are made: `num` of an entry (the number of the block
 whose base is its key), `first` of a ring (the number of the block at its position 0 when it was built), and
 `count`, `high`, `published`, `slot`.
 */
module BlockIndex {
  import opened Options
  import opened Modular
  import opened Words

  const INVALID_BLOCK_BASE: int := 1
  const INITIAL_LOG: nat := 5

  datatype Entry = Entry(key: int, value: Option<nat>, num: Option<nat>)

  /** A BlockIndexHeader: `index` holds entry numbers. */
  datatype Ring = Ring(tail: nat, index: seq<nat>, first: nat)

  /** The entry of a live block, the ring it was inserted in, and the block. */
  datatype Slot = Slot(entry: nat, born: nat, block: nat)

  datatype ProdPC =
    | PIdle
    | PGrow                               // no room: new_block_index
    | PKey(t: nat, e: nat)                // store the key
    | PTail(t: nat, e: nat)               // store the tail
    | PHave(e: nat)                       // inserted; the entry's value is still null
    | PUndo(e: nat)                       // tail rewound; store null in the value
    | PRoll(m: nat, top: nat)             // undoing a bulk: look up the entry of block m
    | PRollNull(m: nat, top: nat, e: nat) // store null in its value
    | PRollTail(m: nat, top: nat)         // rewind the tail

  /** A consumer that has claimed indices from `i` to somewhere in block `last`. */
  datatype ReadPC =
    | RIdle
    | RTail(i: nat, last: nat, h: nat)                              // ring loaded; load its tail
    | RKey(i: nat, last: nat, h: nat, t: nat)                       // load the key of the tail entry
    | RIndex(i: nat, last: nat, h: nat, t: nat, key: int, m: Option<nat>) // load the ring's entry
    | RFound(n: nat, last: nat, h: nat, idx: nat, e: nat)           // at work on block n through entry e
    | RNext(n: nat, last: nat, h: nat, idx: nat)                    // done with block n; on to the next

  datatype State = State(
    entries: seq<Entry>, rings: seq<Ring>, prod: ProdPC, readers: seq<ReadPC>,
    count: nat, high: nat, published: nat, slot: map<nat, Slot>)

  // ---------- the arithmetic of a lookup ----------

  /** The key of block number `n`: its base index as a word. */
  function KeyOf(n: int): nat {
    (BLOCK_SIZE * n) % WORD
  }

  /** `index & ~(BLOCK_SIZE - 1)` */
  function BaseOf(index: int): int {
    index - index % BLOCK_SIZE
  }

  /** The signed difference divided by an unsigned BLOCK_SIZE is an unsigned division. */
  function Offset(base: int, tailBase: int): int {
    ((base - tailBase) % WORD) / BLOCK_SIZE
  }

  /** `(tail + offset) & (capacity - 1)` on words. */
  function Position(tail: nat, offset: int, capacity: nat): int
    requires capacity > 0
  {
    ((tail + offset) % WORD) % capacity
  }

  /** Where the block with number `n` stands in a ring. */
  function Pos(first: int, capacity: nat, n: int): (p: nat)
    requires capacity > 0
    ensures p < capacity
  {
    (n - first) % capacity
  }

  const HALF_KEYS: int := 0x800_0000_0000_0000

  lemma KeysPow2()
    ensures Pow2(59) == HALF_KEYS && Pow2(64) == WORD == BLOCK_SIZE * HALF_KEYS
  {
    Pow2OfWord();
  }

  lemma BaseIsKey(i: int)
    ensures BaseOf(i % WORD) == KeyOf(i / BLOCK_SIZE)
  {
    var w, q := i % WORD, i / WORD;
    assert i == q * WORD + w;
    assert WORD == HALF_KEYS * BLOCK_SIZE;
    SameRemainder(i, BLOCK_SIZE, q * HALF_KEYS + w / BLOCK_SIZE, w % BLOCK_SIZE);
    SameRemainder(BLOCK_SIZE * (i / BLOCK_SIZE), WORD, q, BaseOf(w));
  }

  /** The distance of two keys, divided by the block size, is the distance of their numbers modulo 2^59. */
  lemma OffsetIsDistance(n: nat, m: nat)
    ensures Offset(KeyOf(n), KeyOf(m)) == (n - m) % HALF_KEYS
  {
    ModSub(BLOCK_SIZE * n, BLOCK_SIZE * m);
    var d := n - m;
    var q, r := d / HALF_KEYS, d % HALF_KEYS;
    assert d == q * HALF_KEYS + r;
    SameRemainder(BLOCK_SIZE * d, WORD, q, BLOCK_SIZE * r);
  }

  /** Whatever tail a lookup starts from, in whatever ring, as long as the number of the key it reads there
      fits the position it reads it at: it ends at the position of its own block. */
  lemma LookupPosition(i: nat, m: nat, t: nat, first: int, log: nat)
    requires log <= 59 && t < Pow2(log) && Congruent(m, first + t, Pow2(log))
    ensures Position(t, Offset(BaseOf(i % WORD), KeyOf(m)), Pow2(log)) == Pos(first, Pow2(log), i / BLOCK_SIZE)
  {
    var c, n := Pow2(log), i / BLOCK_SIZE;
    BaseIsKey(i);
    OffsetIsDistance(n, m);
    KeysPow2();
    Pow2Divides(log, 59);
    var off := (n - m) % HALF_KEYS;
    WordKeepsResidue(t + off, log);
    ModCongruent(n - m, HALF_KEYS);
    Coarser(n - m, off, c, HALF_KEYS);
    Sum(t + off, n - first, m, off, t, first, n, c);
    var x := (t + off) % WORD;
    Trans(x, t + off, n - first, c);
    ModCongruent(x, c);
    ModCongruent(n - first, c);
    Sym(x, x % c, c);
    Trans(x % c, x, n - first, c);
    Trans(x % c, n - first, (n - first) % c, c);
    Close(x % c, (n - first) % c, c);
  }

  lemma Sum(a: int, b: int, m: int, off: int, t: int, first: int, n: int, c: int)
    requires c > 0 && a == t + off && b == n - first
    requires Congruent(n - m, off, c) && Congruent(m, first + t, c)
    ensures Congruent(a, b, c)
  {
    var q := ToQuotient(n - m, off, c);
    var r := ToQuotient(m, first + t, c);
    Distribute(q, r, c);
    Distribute(0, q + r, c);
    FromQuotient(a, b, c, 0 - (q + r));
  }

  lemma WordKeepsResidue(x: int, log: nat)
    requires log <= 59
    ensures Congruent(x % WORD, x, Pow2(log))
  {
    KeysPow2();
    Pow2Divides(log, 64);
    ModCongruent(x, WORD);
    Sym(x, x % WORD, WORD);
    Coarser(x % WORD, x, Pow2(log), WORD);
  }

  // ---------- steps ----------

  predicate RingShaped(r: Ring, entries: nat) {
    && r.tail < |r.index|
    && forall p :: 0 <= p < |r.index| ==> r.index[p] < entries
  }

  predicate ReaderShaped(pc: ReadPC, rings: seq<Ring>, entries: nat) {
    match pc
    case RIdle => true
    case RTail(_, _, h) => h < |rings|
    case RKey(_, _, h, t) => h < |rings| && t < |rings[h].index|
    case RIndex(_, _, h, t, _, _) => h < |rings| && t < |rings[h].index|
    case RFound(_, _, h, idx, e) => h < |rings| && idx < |rings[h].index| && e < entries
    case RNext(_, _, h, idx) => h < |rings| && idx < |rings[h].index|
  }

  /** Everything the code dereferences is there. */
  predicate Shaped(s: State) {
    && s.rings != []
    && (forall h :: 0 <= h < |s.rings| ==> RingShaped(s.rings[h], |s.entries|))
    && (forall c :: 0 <= c < |s.readers| ==> ReaderShaped(s.readers[c], s.rings, |s.entries|))
    && match s.prod
       case PKey(t, e) => t < |Current(s).index| && e < |s.entries|
       case PTail(t, e) => t < |Current(s).index| && e < |s.entries|
       case PHave(e) => e < |s.entries|
       case PUndo(e) => e < |s.entries|
       case PRollNull(_, _, e) => e < |s.entries|
       case _ => true
  }

  /** The ring `blockIndex` points to. */
  function Current(s: State): Ring
    requires s.rings != []
  {
    s.rings[|s.rings| - 1]
  }

  function SetRing(s: State, r: Ring): State
    requires s.rings != []
  {
    s.(rings := s.rings[|s.rings| - 1 := r])
  }

  function SetEntry(s: State, e: nat, x: Entry): State
    requires e < |s.entries|
  {
    s.(entries := s.entries[e := x])
  }

  function NextPos(r: Ring): (p: nat)
    requires r.index != []
    ensures p < |r.index|
  {
    (r.tail + 1) % |r.index|
  }

  function PrevPos(r: Ring): (p: nat)
    requires r.index != []
    ensures p < |r.index|
  {
    (r.tail - 1) % |r.index|
  }

  /** Whether the entry after the tail can take a new block. */
  predicate HasRoom(x: Entry) {
    x.key == INVALID_BLOCK_BASE || x.value.None?
  }

  const Unused: Entry := Entry(INVALID_BLOCK_BASE, None, None)

  /** new_block_index: the old entries, oldest first, then as many new ones. */
  function Grown(r: Ring, entries: nat, n: nat): Ring
    requires RingShaped(r, entries)
  {
    var c := |r.index|;
    Ring(c - 1, seq(2 * c, i requires 0 <= i < 2 * c => if i < c then r.index[(r.tail + 1 + i) % c] else entries + i - c),
         if n >= c then n - c else 0)
  }

  function GrowRing(s: State): State
    requires Shaped(s)
  {
    var r := Current(s);
    s.(entries := s.entries + seq(|r.index|, _ => Unused), rings := s.rings + [Grown(r, |s.entries|, s.count)])
  }

  /** The entry a lookup of index `i` ends at, from the tail position and the key it read. */
  function EntryOf(r: Ring, t: nat, key: int, i: nat): nat
    requires r.index != []
  {
    r.index[Position(t, Offset(BaseOf(i % WORD), key), |r.index|)]
  }

  /** The producer looks up its own block; all it reads, only it writes. */
  function OwnEntry(s: State, m: nat): nat
    requires Shaped(s)
  {
    var r := Current(s);
    EntryOf(r, r.tail, s.entries[r.index[r.tail]].key, m * BLOCK_SIZE)
  }

  datatype Action =
    | Insert                            // insert_block_index_entry: test the entry after the tail
    | Grow(ok: bool)                    // new_block_index, which may fail to allocate
    | StoreKey
    | StoreTail
    | SetBlock(b: nat)                  // the block was requisitioned: store it in the entry
    | Rewind                            // none could be had: rewind_block_index_tail
    | StoreNull
    | Publish                           // store tailIndex: the inserted blocks become visible
    | Roll                              // undo all insertions since the last Publish
    | RollLookup | RollNull | RollTail
    | Begin(c: nat, i: nat, last: nat)  // a consumer with claimed indices loads blockIndex
    | Load(c: nat)
    | Release(c: nat)                   // the block is empty: store null in its entry
    | Leave(c: nat)
    | Next(c: nat)

  /** The blocks a consumer has still to reach or to finish. */
  predicate Needs(pc: ReadPC, n: nat) {
    match pc
    case RIdle => false
    case RTail(i, last, _) => i / BLOCK_SIZE <= n <= last
    case RKey(i, last, _, _) => i / BLOCK_SIZE <= n <= last
    case RIndex(i, last, _, _, _, _) => i / BLOCK_SIZE <= n <= last
    case RFound(m, last, _, _, _) => m <= n <= last
    case RNext(m, last, _, _) => m < n <= last
  }

  /** What a step needs. Grow: memory does not hold a ring of more than 2^59 entries. Begin: the blocks of claimed
      indices are published and not yet released. Release: no one else has claimed elements in the block. The
      last two hold of the queue (module ImplicitQueueRuns). */
  ghost predicate Enabled(s: State, a: Action) {
    && Shaped(s)
    && match a
       case Insert => s.prod.PIdle?
       case Grow(ok) => s.prod.PGrow? && (ok ==> |s.rings| + INITIAL_LOG <= 59)
       case StoreKey => s.prod.PKey?
       case StoreTail => s.prod.PTail?
       case SetBlock(_) => s.prod.PHave?
       case Rewind => s.prod.PHave?
       case StoreNull => s.prod.PUndo?
       case Publish => s.prod.PIdle?
       case Roll => s.prod.PIdle? && s.published < s.count
       case RollLookup => s.prod.PRoll?
       case RollNull => s.prod.PRollNull?
       case RollTail => s.prod.PRollTail?
       case Begin(c, i, last) =>
         && c < |s.readers| && s.readers[c].RIdle? && i / BLOCK_SIZE <= last < s.published
         && forall n :: i / BLOCK_SIZE <= n <= last ==> n in s.slot
       case Load(c) => c < |s.readers| && (s.readers[c].RTail? || s.readers[c].RKey? || s.readers[c].RIndex?)
       case Release(c) =>
         && c < |s.readers| && s.readers[c].RFound?
         && forall d :: 0 <= d < |s.readers| && d != c ==> !Needs(s.readers[d], s.readers[c].n)
       case Leave(c) => c < |s.readers| && s.readers[c].RFound?
       case Next(c) => c < |s.readers| && s.readers[c].RNext?
  }

  function ReadStep(s: State, pc: ReadPC): ReadPC
    requires Shaped(s) && ReaderShaped(pc, s.rings, |s.entries|)
    requires pc.RTail? || pc.RKey? || pc.RIndex?
  {
    match pc
    case RTail(i, last, h) => RKey(i, last, h, s.rings[h].tail)
    case RKey(i, last, h, t) =>
      var x := s.entries[s.rings[h].index[t]];
      RIndex(i, last, h, t, x.key, x.num)
    case RIndex(i, last, h, t, key, _) =>
      var r := s.rings[h];
      RFound(i / BLOCK_SIZE, last, h, Position(t, Offset(BaseOf(i % WORD), key), |r.index|), EntryOf(r, t, key, i))
  }

  function SetReader(s: State, c: nat, pc: ReadPC): State
    requires c < |s.readers|
  {
    s.(readers := s.readers[c := pc])
  }

  function NextBlock(s: State, pc: ReadPC): ReadPC
    requires Shaped(s) && ReaderShaped(pc, s.rings, |s.entries|) && pc.RNext?
  {
    if pc.n >= pc.last then RIdle
    else
      var r := s.rings[pc.h];
      var idx := (pc.idx + 1) % |r.index|;
      RFound(pc.n + 1, pc.last, pc.h, idx, r.index[idx])
  }

  function ProdStep(s: State, a: Action): State
    requires Enabled(s, a) && !(a.Begin? || a.Load? || a.Release? || a.Leave? || a.Next?)
  {
    var r := Current(s);
    match a
    case Insert =>
      var t := NextPos(r);
      s.(prod := if HasRoom(s.entries[r.index[t]]) then PKey(t, r.index[t]) else PGrow)
    case Grow(ok) =>
      if !ok then s.(prod := PIdle)
      else
        var g := GrowRing(s);
        var t := NextPos(Current(g));
        g.(prod := PKey(t, Current(g).index[t]))
    case StoreKey =>
      SetEntry(s, s.prod.e, s.entries[s.prod.e].(key := KeyOf(s.count), num := Some(s.count)))
        .(prod := PTail(s.prod.t, s.prod.e), high := if s.high > s.count then s.high else s.count + 1)
    case StoreTail => SetRing(s, r.(tail := s.prod.t)).(prod := PHave(s.prod.e), count := s.count + 1)
    case SetBlock(b) =>
      SetEntry(s, s.prod.e, s.entries[s.prod.e].(value := Some(b)))
        .(prod := PIdle, slot := if s.count > 0 then s.slot[s.count - 1 := Slot(s.prod.e, |s.rings| - 1, b)] else s.slot)
    case Rewind =>
      SetRing(s, r.(tail := PrevPos(r))).(prod := PUndo(s.prod.e), count := if s.count > 0 then s.count - 1 else 0)
    case StoreNull => SetEntry(s, s.prod.e, s.entries[s.prod.e].(value := None)).(prod := PIdle)
    case Publish => s.(published := s.count)
    case Roll => s.(prod := PRoll(s.published, s.count))
    case RollLookup => s.(prod := PRollNull(s.prod.m, s.prod.top, OwnEntry(s, s.prod.m)))
    case RollNull =>
      SetEntry(s, s.prod.e, s.entries[s.prod.e].(value := None))
        .(prod := PRollTail(s.prod.m, s.prod.top), slot := s.slot - {s.prod.m})
    case RollTail =>
      SetRing(s, r.(tail := PrevPos(r)))
        .(prod := if s.prod.m + 1 < s.prod.top then PRoll(s.prod.m + 1, s.prod.top) else PIdle,
          count := if s.count > 0 then s.count - 1 else 0)
  }

  function ReaderStep(s: State, a: Action): State
    requires Enabled(s, a) && (a.Begin? || a.Load? || a.Release? || a.Leave? || a.Next?)
  {
    match a
    case Begin(c, i, last) => SetReader(s, c, RTail(i, last, |s.rings| - 1))
    case Load(c) => SetReader(s, c, ReadStep(s, s.readers[c]))
    case Release(c) =>
      var pc := s.readers[c];
      SetReader(SetEntry(s, pc.e, s.entries[pc.e].(value := None)), c, RNext(pc.n, pc.last, pc.h, pc.idx))
        .(slot := s.slot - {pc.n})
    case Leave(c) =>
      var pc := s.readers[c];
      SetReader(s, c, RNext(pc.n, pc.last, pc.h, pc.idx))
    case Next(c) => SetReader(s, c, NextBlock(s, s.readers[c]))
  }

  function Apply(s: State, a: Action): State
    requires Enabled(s, a)
  {
    if a.Begin? || a.Load? || a.Release? || a.Leave? || a.Next? then ReaderStep(s, a) else ProdStep(s, a)
  }

  /** A new producer: one ring of unused entries, the tail before its position 0. */
  predicate Init(s: State) {
    && s.entries == seq(Pow2(INITIAL_LOG), _ => Unused)
    && s.rings == [Ring(Pow2(INITIAL_LOG) - 1, seq(Pow2(INITIAL_LOG), p => p), 0)]
    && s.prod == PIdle && s.count == s.high == s.published == 0 && s.slot == map[]
    && forall c :: 0 <= c < |s.readers| ==> s.readers[c].RIdle?
  }

  ghost predicate Reaches(s0: State, run: seq<Action>, s: State)
    decreases |run|
  {
    if run == [] then Init(s0) && s == s0
    else
      var last := |run| - 1;
      exists m :: Reaches(s0, run[..last], m) && Enabled(m, run[last]) && s == Apply(m, run[last])
  }
}
