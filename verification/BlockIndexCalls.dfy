/**
 What the callers of the block index get: a lookup of an index ends at the block that the producer stored for it, after
 three loads; an insertion that gets its memory and its block adds exactly that block; an undo that is begun ends.
 */
module BlockIndexCalls {
  import opened Options
  import opened Words
  import opened BlockIndex
  import opened BlockIndexProof
  import opened BlockIndexRuns

  /** The state after `run`. */
  ghost function After(s0: State, run: seq<Action>): State
    decreases |run|
  {
    if run == [] then s0
    else
      var last := |run| - 1;
      var m := After(s0, run[..last]);
      if Enabled(m, run[last]) then Apply(m, run[last]) else m
  }

  lemma {:induction false} ReachedIsAfter(s0: State, run: seq<Action>, s: State)
    requires Reaches(s0, run, s)
    ensures s == After(s0, run)
    decreases |run|
  {
    if run != [] {
      var last := |run| - 1;
      var m :| Reaches(s0, run[..last], m) && Enabled(m, run[last]) && s == Apply(m, run[last]);
      ReachedIsAfter(s0, run[..last], m);
    }
  }

  // ---------- the block of a number ----------

  /** The block that the run has last stored for block number `n`: the one just inserted when it was stored. */
  ghost function GivenTo(s0: State, run: seq<Action>, n: nat): Option<nat>
    decreases |run|
  {
    if run == [] then None
    else
      var before, a := run[..|run| - 1], run[|run| - 1];
      if a.SetBlock? && After(s0, before).count == n + 1 then Some(a.b) else GivenTo(s0, before, n)
  }

  lemma SlotStep(s: State, a: Action, n: nat)
    requires Enabled(s, a) && n in Apply(s, a).slot
    ensures if a.SetBlock? && s.count == n + 1 then Apply(s, a).slot[n].block == a.b
            else n in s.slot && Apply(s, a).slot[n] == s.slot[n]
  {
  }

  lemma {:induction false} SlotIsGiven(s0: State, run: seq<Action>, s: State, n: nat)
    requires Reaches(s0, run, s) && n in s.slot
    ensures GivenTo(s0, run, n) == Some(s.slot[n].block)
    decreases |run|
  {
    if run != [] {
      var before, a := run[..|run| - 1], run[|run| - 1];
      var m :| Reaches(s0, before, m) && Enabled(m, a) && s == Apply(m, a);
      ReachedIsAfter(s0, before, m);
      SlotStep(m, a, n);
      if !(a.SetBlock? && m.count == n + 1) { SlotIsGiven(s0, before, m, n); }
    }
  }

  // ---------- the block of a lookup ----------

  /** A consumer's claim: from index `i` to somewhere in block `last`. */
  datatype Claim = Claim(i: nat, last: nat)

  /** The last claim consumer `c` has begun with. */
  function LastClaim(run: seq<Action>, c: nat): Option<Claim>
    decreases |run|
  {
    if run == [] then None
    else
      var before, a := run[..|run| - 1], run[|run| - 1];
      if a.Begin? && a.c == c then Some(Claim(a.i, a.last)) else LastClaim(before, c)
  }

  /** How many blocks it has finished since. */
  function Finished(run: seq<Action>, c: nat): nat
    decreases |run|
  {
    if run == [] then 0
    else
      var before, a := run[..|run| - 1], run[|run| - 1];
      if a.Begin? && a.c == c then 0 else Finished(before, c) + (if a == Next(c) then 1 else 0)
  }

  predicate AtWork(pc: ReadPC, claim: Option<Claim>, done: nat) {
    match pc
    case RIdle => true
    case RTail(i, last, _) => claim == Some(Claim(i, last)) && done == 0 && i / BLOCK_SIZE <= last
    case RKey(i, last, _, _) => claim == Some(Claim(i, last)) && done == 0 && i / BLOCK_SIZE <= last
    case RIndex(i, last, _, _, _, _) => claim == Some(Claim(i, last)) && done == 0 && i / BLOCK_SIZE <= last
    case RFound(n, last, _, _, _) => claim.Some? && claim.value.last == last && n == claim.value.i / BLOCK_SIZE + done <= last
    case RNext(n, last, _, _) => claim.Some? && claim.value.last == last && n == claim.value.i / BLOCK_SIZE + done <= last
  }

  lemma ReaderAtWork(s: State, a: Action, c: nat, run: seq<Action>)
    requires Enabled(s, a) && c < |s.readers| && AtWork(s.readers[c], LastClaim(run, c), Finished(run, c))
    ensures |Apply(s, a).readers| == |s.readers|
    ensures AtWork(Apply(s, a).readers[c], LastClaim(run + [a], c), Finished(run + [a], c))
  {
    assert (run + [a])[..|run + [a]| - 1] == run;
  }

  lemma SameReaders(s: State, a: Action)
    requires Enabled(s, a)
    ensures |Apply(s, a).readers| == |s.readers|
  {
  }

  lemma LastStep(s0: State, run: seq<Action>, s: State) returns (before: seq<Action>, a: Action, m: State)
    requires Reaches(s0, run, s) && run != []
    ensures run == before + [a] && |before| < |run| && Reaches(s0, before, m) && Enabled(m, a) && s == Apply(m, a)
    ensures |m.readers| == |s.readers|
  {
    before, a := run[..|run| - 1], run[|run| - 1];
    m :| Reaches(s0, before, m) && Enabled(m, a) && s == Apply(m, a);
    SameReaders(m, a);
  }

  lemma {:induction false} RunAtWork(s0: State, run: seq<Action>, s: State, c: nat)
    requires Reaches(s0, run, s) && c < |s.readers|
    ensures AtWork(s.readers[c], LastClaim(run, c), Finished(run, c))
    decreases |run|
  {
    if run != [] {
      var before, a, m := LastStep(s0, run, s);
      RunAtWork(s0, before, m, c);
      ReaderAtWork(m, a, c, before);
    }
  }

  /** In every interleaving: a consumer that has claimed indices from `i` on and has finished `k` blocks since holds,
      when its lookup is done, the entry of block number i / BLOCK_SIZE + k, which has the base of that block as its
      key, and as its value the block the producer has stored for this number. */
  lemma LookupFindsGiven(s0: State, run: seq<Action>, s: State, c: nat)
    requires Reaches(s0, run, s) && c < |s.readers| && s.readers[c].RFound?
    ensures var pc, claim := s.readers[c], LastClaim(run, c);
      && claim.Some? && pc.n == claim.value.i / BLOCK_SIZE + Finished(run, c) <= claim.value.last
      && pc.e < |s.entries| && s.entries[pc.e].key == KeyOf(pc.n)
      && s.entries[pc.e].value.Some? && s.entries[pc.e].value == GivenTo(s0, run, pc.n)
  {
    RunAtWork(s0, run, s, c);
    LookupFindsBlock(s0, run, s, c);
    SlotIsGiven(s0, run, s, s.readers[c].n);
  }

  /** Loads that a lookup still makes. */
  function LoadsLeft(pc: ReadPC): nat {
    match pc
    case RTail(_, _, _) => 3
    case RKey(_, _, _, _) => 2
    case RIndex(_, _, _, _, _, _) => 1
    case _ => 0
  }

  /** A lookup is wait-free: whatever the producer does, each load brings it nearer, and the third ends it. */
  lemma LookupTakesThreeLoads(s0: State, run: seq<Action>, s: State, c: nat)
    requires Reaches(s0, run, s) && c < |s.readers| && LoadsLeft(s.readers[c]) > 0
    ensures Enabled(s, Load(c))
    ensures var pc' := Apply(s, Load(c)).readers[c];
      LoadsLeft(pc') == LoadsLeft(s.readers[c]) - 1 && (LoadsLeft(pc') == 0 ==> pc'.RFound?)
  {
    ReachableInv(s0, run, s);
    InvShaped(s);
  }

  // ---------- an insertion and an undo ----------

  lemma NextStep(s0: State, run: seq<Action>, s: State, a: Action) returns (run': seq<Action>, s': State)
    requires Reaches(s0, run, s) && Enabled(s, a)
    ensures run' == run + [a] && s' == Apply(s, a) && Reaches(s0, run', s') && Shaped(s')
  {
    run', s' := run + [a], Apply(s, a);
    assert run'[..|run'| - 1] == run;
    ReachableInv(s0, run', s');
    InvShaped(s');
  }

  /** `t` has block `b` under the next number, and all other blocks of `s`. */
  ghost predicate Inserted(s: State, t: State, b: nat) {
    && t.prod.PIdle? && t.count == s.count + 1 && s.count in t.slot && t.slot[s.count].block == b
    && (forall n :: n in t.slot && n != s.count ==> n in s.slot && t.slot[n] == s.slot[n])
    && (forall n :: n in s.slot && n != s.count ==> n in t.slot)
  }

  lemma StoresIt(s: State, b: nat)
    requires Enabled(s, StoreKey)
    ensures var s1 := Apply(s, StoreKey); s1.prod.PTail? && s1.count == s.count && s1.slot == s.slot
    ensures forall s1 :: Enabled(s1, StoreTail) && s1.count == s.count && s1.slot == s.slot ==>
              var s2 := Apply(s1, StoreTail); s2.prod.PHave? && s2.count == s.count + 1 && s2.slot == s.slot
    ensures forall s2 :: Enabled(s2, SetBlock(b)) && s2.count == s.count + 1 && s2.slot == s.slot ==>
              Inserted(s, Apply(s2, SetBlock(b)), b)
  {
  }

  /** The three steps that put a block into the entry found for it. */
  lemma Stored(s0: State, run: seq<Action>, s: State, b: nat) returns (run': seq<Action>, t: State)
    requires Reaches(s0, run, s) && Shaped(s) && s.prod.PKey?
    ensures run' == run + [StoreKey] + [StoreTail] + [SetBlock(b)] && Reaches(s0, run', t) && Inserted(s, t, b)
  {
    StoresIt(s, b);
    run', t := NextStep(s0, run, s, StoreKey);
    run', t := NextStep(s0, run', t, StoreTail);
    run', t := NextStep(s0, run', t, SetBlock(b));
  }

  /** The actions of an insertion. */
  function Insertion(grows: bool, b: nat): seq<Action> {
    [Insert] + (if grows then [Grow(true)] else []) + [StoreKey] + [StoreTail] + [SetBlock(b)]
  }

  lemma Found(s: State)
    requires Shaped(s) && s.prod.PIdle? && |s.rings| + INITIAL_LOG <= 59
    ensures Enabled(s, Insert)
    ensures var s1 := Apply(s, Insert);
      && s1.count == s.count && s1.slot == s.slot && s1.rings == s.rings && (s1.prod.PKey? || s1.prod.PGrow?)
  {
  }

  lemma Grows(s: State)
    requires Enabled(s, Grow(true))
    ensures var s1 := Apply(s, Grow(true)); s1.count == s.count && s1.slot == s.slot && s1.prod.PKey?
  {
  }

  /** An insertion that gets its memory and its block, whatever lookups are under way: the block is in the index under
      the next number, and all the others are as they were. */
  lemma InsertAdds(s0: State, run: seq<Action>, s: State, b: nat) returns (grows: bool, t: State)
    requires Reaches(s0, run, s) && s.prod.PIdle? && |s.rings| + INITIAL_LOG <= 59
    ensures Reaches(s0, run + Insertion(grows, b), t) && Inserted(s, t, b)
  {
    ReachableInv(s0, run, s);
    InvShaped(s);
    Found(s);
    var run1, s1 := NextStep(s0, run, s, Insert);
    var run2, s2 := run1, s1;
    grows := s1.prod.PGrow?;
    if grows {
      Grows(s1);
      run2, s2 := NextStep(s0, run1, s1, Grow(true));
    }
    run2, t := Stored(s0, run2, s2, b);
    InsertionIs(run, grows, b);
  }

  lemma InsertionIs(run: seq<Action>, grows: bool, b: nat)
    ensures run + Insertion(grows, b)
         == run + [Insert] + (if grows then [Grow(true)] else []) + [StoreKey] + [StoreTail] + [SetBlock(b)]
    ensures run + [Insert] + [] == run + [Insert]
  {
  }

  /** The steps that undo one insertion of a bulk. */
  lemma Undoes(s: State)
    requires Enabled(s, RollLookup)
    ensures var s1 := Apply(s, RollLookup); s1.prod.PRollNull? && SameRoll(s, s1)
    ensures forall s1 :: Enabled(s1, RollNull) && SameRoll(s, s1) ==>
              var s2 := Apply(s1, RollNull); s2.prod.PRollTail? && SameRoll(s, s2)
    ensures forall s2 :: Enabled(s2, RollTail) && SameRoll(s, s2) ==>
              && Apply(s2, RollTail).published == s.published
              && Apply(s2, RollTail).prod == if s.prod.m + 1 < s.prod.top then PRoll(s.prod.m + 1, s.prod.top) else PIdle
  {
  }

  predicate SameRoll(s: State, t: State) {
    && (s.prod.PRoll? || s.prod.PRollNull? || s.prod.PRollTail?) && (t.prod.PRoll? || t.prod.PRollNull? || t.prod.PRollTail?)
    && t.prod.m == s.prod.m && t.prod.top == s.prod.top && t.published == s.published
  }

  lemma OneUndone(s0: State, run: seq<Action>, s: State) returns (run': seq<Action>, t: State)
    requires Reaches(s0, run, s) && Shaped(s) && s.prod.PRoll?
    ensures run' == run + [RollLookup] + [RollNull] + [RollTail] && Reaches(s0, run', t) && Shaped(t)
    ensures t.published == s.published
    ensures t.prod == if s.prod.m + 1 < s.prod.top then PRoll(s.prod.m + 1, s.prod.top) else PIdle
    ensures t.prod.PIdle? && s.prod.m < s.prod.top ==> t.count == t.published
  {
    Undoes(s);
    var s2;
    run', s2 := NextStep(s0, run, s, RollLookup);
    run', s2 := NextStep(s0, run', s2, RollNull);
    ReachableInv(s0, run', s2);
    if s2.prod.m + 1 == s2.prod.top { LastRoll(s2); }
    run', t := NextStep(s0, run', s2, RollTail);
  }

  lemma {:induction false} AllUndone(s0: State, run: seq<Action>, s: State) returns (run': seq<Action>, t: State)
    requires Reaches(s0, run, s) && Shaped(s) && s.prod.PRoll? && s.prod.m < s.prod.top
    ensures run <= run' && |run'| == |run| + 3 * (s.prod.top - s.prod.m) && Reaches(s0, run', t)
    ensures t.prod.PIdle? && t.count == t.published == s.published
    decreases s.prod.top - s.prod.m
  {
    run', t := OneUndone(s0, run, s);
    if !t.prod.PIdle? { run', t := AllUndone(s0, run', t); }
  }

  /** An undo that is begun ends, three steps for each insertion since the last Publish: the count is where the last
      Publish left it, and no block of the bulk is in the index. */
  lemma UndoEnds(s0: State, run: seq<Action>, s: State) returns (run': seq<Action>, t: State)
    requires Reaches(s0, run, s) && Enabled(s, Roll)
    ensures run + [Roll] <= run' && |run'| == |run| + 1 + 3 * (s.count - s.published) && Reaches(s0, run', t)
    ensures t.prod.PIdle? && t.count == t.published == s.published && forall n :: n in t.slot ==> n < s.published
  {
    var s1;
    run', s1 := NextStep(s0, run, s, Roll);
    run', t := AllUndone(s0, run', s1);
    IndexIsExact(s0, run', t);
  }
}
