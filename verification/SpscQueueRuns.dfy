/**
 What every run of ReaderWriterQueue guarantees, from its constructor on.
 */
module SpscQueueRuns {
  import opened Modular
  import opened SpscQueue
  import opened SpscQueueProof

  /** Room: enough blocks, none smaller than the first ones. */
  ghost predicate RoomOk(s: State, maxSize: nat) {
    && InitialBlockSize(maxSize) <= s.largest
    && (forall b :: 0 <= b < |s.blocks| ==> InitialBlockSize(maxSize) <= Size(s.blocks[b]))
    && InitialBlockCount(maxSize) <= |s.live| + |s.idle|
  }

  lemma InitialSizes(maxSize: nat)
    requires 0 < maxSize
    ensures 2 <= InitialBlockSize(maxSize) && 1 <= InitialBlockCount(maxSize)
    ensures InitialBlockCount(maxSize) == 1 ==> InitialBlockSize(maxSize) - 1 >= maxSize
    ensures InitialBlockCount(maxSize) > 1 ==>
              (InitialBlockCount(maxSize) - 1) * (InitialBlockSize(maxSize) - 1) >= maxSize
  {
  }

  lemma InitKeeps(s: State, maxSize: nat)
    requires Init(s, maxSize)
    ensures Inv(s) && RoomOk(s, maxSize)
  {
    InitialSizes(maxSize);
    assert RingOk(s);
    assert Content(s.blocks, s.live) == Segment(s.blocks[0]) + Content(s.blocks, s.live[1..]);
    assert Segment(s.blocks[0]) == [] && s.live[1..] == [];
  }

  lemma ProdKeepsRoom(s: State, works: bool, maxSize: nat)
    requires RoomOk(s, maxSize) && ProdEnabled(s) && (s.prod.PSwitch? ==> s.idle != [])
    ensures RoomOk(ProdStep(s, works), maxSize)
  {
  }

  lemma ConsKeepsRoom(s: State, maxSize: nat)
    requires RoomOk(s, maxSize) && ConsEnabled(s)
    ensures RoomOk(ConsStep(s), maxSize)
  {
  }

  lemma ActionKeeps(s: State, a: Action, maxSize: nat)
    requires Inv(s) && RoomOk(s, maxSize) && Enabled(s, a)
    ensures Inv(Apply(s, a)) && RoomOk(Apply(s, a), maxSize)
  {
    if a.Enqueue? {
      EnqueueKeeps(s, a.x, a.can);
    } else if a.Take? {
      TakeKeeps(s, a.k);
    } else if a.ProdMove? {
      ProdStepKeeps(s, a.works);
      ProdKeepsRoom(s, a.works, maxSize);
    } else {
      ConsStepKeeps(s);
      ConsKeepsRoom(s, maxSize);
    }
  }

  lemma {:induction false} ReachableInv(s0: State, maxSize: nat, run: seq<Action>, s: State)
    requires Reaches(s0, maxSize, run, s)
    ensures Inv(s) && RoomOk(s, maxSize) && 0 < maxSize
    decreases |run|
  {
    if run == [] {
      InitKeeps(s, maxSize);
    } else {
      var last := |run| - 1;
      var m :| Reaches(s0, maxSize, run[..last], m) && Enabled(m, run[last]) && s == Apply(m, run[last]);
      ReachableInv(s0, maxSize, run[..last], m);
      ActionKeeps(m, run[last], maxSize);
    }
  }

  // ---------- the stream ----------

  /** In every interleaving what was taken out is a prefix of what was put in. */
  lemma TakenIsPrefix(s0: State, maxSize: nat, run: seq<Action>, s: State)
    requires Reaches(s0, maxSize, run, s)
    ensures s.got <= s.put
  {
    ReachableInv(s0, maxSize, run, s);
  }

  /** And what is stored, from the front block to the tail block, is exactly the rest. */
  lemma StoredIsRest(s0: State, maxSize: nat, run: seq<Action>, s: State)
    requires Reaches(s0, maxSize, run, s)
    ensures Fits(s.blocks, s.live) && s.live != [] && s.live[0] == s.frontBlock && s.live[|s.live| - 1] == s.tailBlock
    ensures forall i, j :: 0 <= i < j < |s.live| && j == i + 1 ==> s.blocks[s.live[i]].next == s.live[j]
    ensures |s.got| <= |s.put| && Content(s.blocks, s.live) == s.put[|s.got|..]
  {
    ReachableInv(s0, maxSize, run, s);
  }

  /** Answers are right: an element taken or peeked is the one put in at that place, and "nothing" was the
      truth when the operation loaded the tail of the front block. */
  lemma AnswersAreRight(s0: State, maxSize: nat, run: seq<Action>, s: State, k: nat)
    requires Reaches(s0, maxSize, run, s) && k < |s.log|
    ensures match s.log[k]
            case Took(i, x) => i < |s.put| && s.put[i] == x
            case Saw(i, x) => i < |s.put| && s.put[i] == x
            case Nothing(empty) => empty
  {
    ReachableInv(s0, maxSize, run, s);
  }

  /** Both assertions hold in every interleaving: the free block the producer moves to is empty, the block
      the consumer moves to is not. And no step is ever undefined. */
  lemma AssertionsHold(s0: State, maxSize: nat, run: seq<Action>, s: State)
    requires Reaches(s0, maxSize, run, s)
    ensures s.prod.PNextFront? ==> s.prod.n < |s.blocks| && s.blocks[s.prod.n].front == s.blocks[s.prod.n].tail
    ensures s.cons.CNextTail? ==> s.cons.n < |s.blocks| && s.blocks[s.cons.n].front != s.blocks[s.cons.n].tail
    ensures s.cons.CPeekNext? ==> s.cons.n < |s.blocks| && s.blocks[s.cons.n].front != s.blocks[s.cons.n].tail
    ensures !s.prod.PIdle? ==> ProdEnabled(s)
    ensures !s.cons.CIdle? ==> ConsEnabled(s)
  {
    ReachableInv(s0, maxSize, run, s);
  }

  /** Producer and consumer never touch the same slot: the slot the producer is about to fill holds no
      element of the stream. */
  lemma StoreHitsFreeSlot(s0: State, maxSize: nat, run: seq<Action>, s: State, works: bool)
    requires Reaches(s0, maxSize, run, s) && ProdEnabled(s) && (s.prod.PStore? || s.prod.PNextStore?)
    ensures var s' := ProdStep(s, works);
      Fits(s.blocks, s.live) && Fits(s'.blocks, s.live) && Content(s'.blocks, s.live) == Content(s.blocks, s.live)
  {
    ReachableInv(s0, maxSize, run, s);
    ProdStepKeeps(s, works);
    StoreKeepsStream(s, works);
    SameContent(s, ProdStep(s, works));
  }

  lemma StoreKeepsStream(s: State, works: bool)
    requires ProdEnabled(s) && (s.prod.PStore? || s.prod.PNextStore?)
    ensures var s' := ProdStep(s, works); s'.put == s.put && s'.got == s.got && s'.live == s.live
  {
  }

  lemma SameContent(s: State, s': State)
    requires Inv(s) && Inv(s') && s'.put == s.put && s'.got == s.got && s'.live == s.live
    ensures Fits(s.blocks, s.live) && Fits(s'.blocks, s.live) && Content(s'.blocks, s.live) == Content(s.blocks, s.live)
  {
    assert s.put[|s.got|..] == Content(s.blocks, s.live);
  }

  // ---------- block sizes ----------

  /** All sizes are powers of two. */
  ghost predicate SizesOk(s: State) {
    IsPow2(s.largest) && forall b :: 0 <= b < |s.blocks| ==> IsPow2(Size(s.blocks[b]))
  }

  lemma InitialSizeOk(maxSize: nat)
    ensures IsPow2(InitialBlockSize(maxSize)) && IsPow2(MAX_BLOCK_SIZE)
  {
    CeilPow2Is(maxSize + 1, 0);
    assert MAX_BLOCK_SIZE == Pow2(9);
  }

  lemma StepKeepsSizes(s: State, a: Action)
    requires SizesOk(s) && Enabled(s, a)
    ensures SizesOk(Apply(s, a))
  {
    Pow2Doubles(s.largest);
    var t := Apply(s, a);
    forall b | 0 <= b < |t.blocks| ensures IsPow2(Size(t.blocks[b])) {
      if b < |s.blocks| {
        assert Size(t.blocks[b]) == Size(s.blocks[b]);
      } else {
        assert Size(t.blocks[b]) == NewBlockSize(s.largest);
      }
    }
  }

  /** In every run the size of every block is a power of two, so that masking with the size less one wraps an index
      exactly at the end of its block. */
  lemma {:induction false} BlockSizes(s0: State, maxSize: nat, run: seq<Action>, s: State)
    requires Reaches(s0, maxSize, run, s)
    ensures SizesOk(s)
    decreases |run|
  {
    if run == [] {
      InitialSizeOk(maxSize);
    } else {
      var last := |run| - 1;
      var m :| Reaches(s0, maxSize, run[..last], m) && Enabled(m, run[last]) && s == Apply(m, run[last]);
      BlockSizes(s0, maxSize, run[..last], m);
      StepKeepsSizes(m, run[last]);
    }
  }

  // ---------- the capacity guarantee ----------

  /** `k` steps of the producer while the consumer is idle. */
  function ProdAlone(s: State, k: nat): State
    decreases k
  {
    if k == 0 || !ProdEnabled(s) then s else ProdAlone(ProdStep(s, false), k - 1)
  }

  /** When the tail block is full and no block is free, at least `maxSize` elements are stored. */
  lemma FullMeansMaxSize(s: State, maxSize: nat)
    requires Inv(s) && RoomOk(s, maxSize) && 0 < maxSize && s.idle == [] && IsFull(s.blocks[s.tailBlock])
    ensures |s.put| - |s.got| >= maxSize
  {
    var m := InitialBlockSize(maxSize);
    InitialSizes(maxSize);
    StoredAtLeast(s, m);
    if InitialBlockCount(maxSize) > 1 {
      Scale(InitialBlockCount(maxSize) - 1, |s.live| - 1, m - 1);
    } else if |s.live| > 1 {
      Scale(1, |s.live| - 1, m - 1);
    }
  }

  /** Behind the front block every block is full. */
  lemma RestFull(s: State, m: nat, i: nat)
    requires RingOk(s) && FillOk(s) && 2 <= m && IsFull(s.blocks[s.tailBlock]) && 0 < i < |s.live|
    requires m <= Size(s.blocks[s.live[i]])
    ensures Count(s.blocks[s.live[i]]) >= m - 1
  {
    assert i == |s.live| - 1 ==> s.live[i] == s.tailBlock;
  }

  lemma RestAtLeast(blocks: seq<Block>, live: seq<nat>, k: nat)
    requires Fits(blocks, live) && live != [] && forall i :: 0 < i < |live| ==> Count(blocks[live[i]]) >= k
    ensures Fits(blocks, live[1..]) && |Content(blocks, live[1..])| >= (|live| - 1) * k
  {
    var rest := live[1..];
    assert forall i :: 0 <= i < |rest| ==> rest[i] == live[i + 1];
    ContentAtLeast(blocks, rest, k);
  }

  lemma StoredAtLeast(s: State, m: nat)
    requires Inv(s) && 2 <= m && s.idle == [] && IsFull(s.blocks[s.tailBlock])
    requires forall b :: 0 <= b < |s.blocks| ==> m <= Size(s.blocks[b])
    ensures |s.put| - |s.got| >= (|s.live| - 1) * (m - 1)
    ensures |s.live| == 1 ==> |s.put| - |s.got| >= m - 1
  {
    assert Fits(s.blocks, s.live);
    forall i | 0 < i < |s.live| ensures Count(s.blocks[s.live[i]]) >= m - 1 { RestFull(s, m, i); }
    RestAtLeast(s.blocks, s.live, m - 1);
    ContentStep(s.blocks, s.live);
    assert |s.put| == |s.got| + |Content(s.blocks, s.live)|;
  }

  lemma Scale(a: nat, b: nat, k: nat)
    requires a <= b
    ensures a * k <= b * k
  {
  }

  /** `try_enqueue` on a quiescent queue: undisturbed it returns after at most seven steps, and it fails only
      when at least `maxSize` elements are in the queue, whatever happened before. */
  lemma CapacityGuarantee(s0: State, maxSize: nat, run: seq<Action>, s: State, x: Item)
    requires Reaches(s0, maxSize, run, s) && s.prod.PIdle? && s.cons.CIdle?
    ensures Shaped(s)
    ensures var t := ProdAlone(CallEnqueue(s, x, false), 7);
      && t.prod.PIdle?
      && (t.put == s.put + [x] || (t.put == s.put && |s.put| - |s.got| >= maxSize))
  {
    ReachableInv(s0, maxSize, run, s);
    var c := CallEnqueue(s, x, false);
    EnqueueKeeps(s, x, false);
    TryAlone(c, maxSize, x);
  }

  lemma TryAlone(c: State, maxSize: nat, x: Item)
    requires Inv(c) && RoomOk(c, maxSize) && 0 < maxSize && (c.prod == PStore(x) || c.prod == PFront(x, false))
    ensures var t := ProdAlone(c, 7);
      t.prod.PIdle? && (t.put == c.put + [x] || (t.put == c.put && |c.put| - |c.got| >= maxSize))
  {
    if c.prod.PStore? {
      StoreAlone(c, 7);
    } else {
      var s1 := ProdStep(c, false);
      ProdStepKeeps(c, false);
      ProdKeepsRoom(c, false, maxSize);
      if s1.prod.PStore? {
        StoreAlone(s1, 6);
      } else {
        SwitchAlone(s1, maxSize, x);
      }
      assert ProdAlone(c, 7) == ProdAlone(s1, 6);
    }
  }

  lemma StoreAlone(s: State, k: nat)
    requires Inv(s) && s.prod.PStore? && k >= 2
    ensures ProdAlone(s, k).prod.PIdle? && ProdAlone(s, k).put == s.put + [s.prod.x]
  {
    var s1 := ProdStep(s, false);
    ProdStepKeeps(s, false);
    var s2 := ProdStep(s1, false);
    assert ProdAlone(s1, k - 1) == ProdAlone(s2, k - 2) == s2;
  }

  lemma SwitchAlone(s: State, maxSize: nat, x: Item)
    requires Inv(s) && RoomOk(s, maxSize) && 0 < maxSize && s.prod == PNext(x, false) && IsFull(s.blocks[s.tailBlock])
    ensures var t := ProdAlone(s, 6);
      t.prod.PIdle? && (t.put == s.put + [x] || (t.put == s.put && |s.put| - |s.got| >= maxSize))
  {
    var s1 := ProdStep(s, false);
    ProdStepKeeps(s, false);
    var s2 := ProdStep(s1, false);
    ProdStepKeeps(s1, false);
    assert ProdAlone(s, 6) == ProdAlone(s1, 5) == ProdAlone(s2, 4);
    if s2.prod.PIdle? {
      assert s.idle == [];
      FullMeansMaxSize(s, maxSize);
      assert ProdAlone(s2, 4) == s2;
    } else {
      FillNextAlone(s2);
    }
  }

  lemma FillNextAlone(s: State)
    requires Inv(s) && s.prod.PNextFront?
    ensures ProdAlone(s, 4).prod.PIdle? && ProdAlone(s, 4).put == s.put + [s.prod.x]
  {
    var s2 := FillSteps(s, 4);
    var s3 := ProdStep(s2, false);
    ProdStepKeeps(s2, false);
    AloneNext(s2, 2);
    AloneNext(s3, 1);
    assert ProdAlone(ProdStep(s3, false), 0) == ProdStep(s3, false);
  }

  /** The first two steps: the front index is loaded, the element stored. */
  lemma FillSteps(s: State, k: nat) returns (s2: State)
    requires Inv(s) && s.prod.PNextFront? && k >= 2
    ensures Inv(s2) && s2.prod == PNextTail(s.prod.x, s.prod.n) && s2.put == s.put && ProdAlone(s, k) == ProdAlone(s2, k - 2)
  {
    var s1 := ProdStep(s, false);
    ProdStepKeeps(s, false);
    AloneNext(s, k);
    s2 := ProdStep(s1, false);
    ProdStepKeeps(s1, false);
    AloneNext(s1, k - 1);
  }

  lemma AloneNext(s: State, k: nat)
    requires k > 0 && ProdEnabled(s)
    ensures ProdAlone(s, k) == ProdAlone(ProdStep(s, false), k - 1)
  {
  }
}
