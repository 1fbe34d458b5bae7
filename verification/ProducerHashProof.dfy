/**
 What every step of the thread-to-producer hash keeps. Keys are only ever added, each reachable from its home
 position over used slots; and since a thread adds its key to a table only while its count is below three
 quarters of the capacity, no table ever gets fuller than that, lazy copies included.
 */
module ProducerHashProof {
  import opened Options
  import opened Modular
  import opened Sets
  import opened ProducerHash

  // ---------- the invariant ----------

  predicate TablesOk(tables: seq<Table>) {
    && tables != []
    && (forall k :: 0 <= k < |tables| ==> Cap(tables[k]) > 0 && Cap(tables[k]) % 4 == 0)
    && (forall k, l :: 0 <= k < l < |tables| ==> Cap(tables[k]) <= Cap(tables[l]))
    && (forall k :: 0 <= k < |tables| ==> tables[k].prev == if k == 0 then None else Some(k - 1))
  }

  /** The `j`-th slot a thread with this hash probes is used, by another thread. */
  predicate Taken(slots: seq<Slot>, hash: nat, t: nat, j: nat)
    requires |slots| > 0
  {
    var key := slots[Probe(hash, j, |slots|)].key;
    key.Some? && key != Some(t)
  }

  /** So are the first `seen`. */
  predicate Visited(slots: seq<Slot>, hash: nat, t: nat, seen: nat)
    requires |slots| > 0
  {
    seen <= |slots| && forall j :: 0 <= j < seen ==> Taken(slots, hash, t, j)
  }

  /** Thread `t` is about to store the value of the key it put in table `k` after `seen` probes. */
  predicate Pending(pc: PC, k: nat, seen: nat) {
    (pc.CopyVal? && pc.main == k && pc.seen == seen) || (pc.InsertVal? && pc.main == k && pc.seen == seen)
  }

  predicate BelowThreeQuarters(num: nat, cap: nat) {
    4 * num < 3 * cap
  }

  /** A used slot: its key is where probing from the thread's hash finds it, and the value is the thread's. */
  predicate KeyOk(slots: seq<Slot>, th: Thread, t: nat, k: nat, i: nat)
    requires i < |slots|
  {
    var x := slots[i];
    && th.own.Some?
    && i == Probe(th.hash, x.dist, |slots|)
    && Visited(slots, th.hash, t, x.dist)
    && BelowThreeQuarters(th.num, |slots|)
    && (x.val == th.own || Pending(th.pc, k, x.dist))
  }

  predicate SlotOk(slots: seq<Slot>, threads: seq<Thread>, k: nat, i: nat)
    requires i < |slots|
  {
    match slots[i].key
    case None => slots[i] == EmptySlot
    case Some(t) => t < |threads| && KeyOk(slots, threads[t], t, k, i)
  }

  predicate SlotsOk(tables: seq<Table>, threads: seq<Thread>) {
    forall k :: 0 <= k < |tables| ==> TableSlotsOk(tables[k].slots, threads, k)
  }

  predicate TableSlotsOk(slots: seq<Slot>, threads: seq<Thread>, k: nat) {
    forall i :: 0 <= i < |slots| ==> SlotOk(slots, threads, k, i)
  }

  predicate Absent(slots: seq<Slot>, t: nat) {
    forall i :: 0 <= i < |slots| ==> slots[i].key != Some(t)
  }

  /** The key of `t` is in no table from number `k` on. */
  predicate AbsentFrom(tables: seq<Table>, t: nat, k: nat) {
    forall l :: k <= l < |tables| ==> Absent(tables[l].slots, t)
  }

  /** Probing table `main` to add a key. */
  predicate Probing(tables: seq<Table>, th: Thread, t: nat, main: nat, seen: nat) {
    && main < |tables| && Cap(tables[main]) > 0
    && Visited(tables[main].slots, th.hash, t, seen)
    && AbsentFrom(tables, t, main)
    && BelowThreeQuarters(th.num, Cap(tables[main]))
  }

  /** The key is stored, the value not yet. */
  predicate Placed(tables: seq<Table>, th: Thread, t: nat, main: nat, seen: nat) {
    && main < |tables| && Cap(tables[main]) > 0
    && var x := tables[main].slots[Probe(th.hash, seen, Cap(tables[main]))];
       x.key == Some(t) && x.dist == seen
  }

  predicate HomeOk(tables: seq<Table>, th: Thread, t: nat) {
    th.own.Some? ==>
      && th.home.0 < |tables| && th.home.1 < Cap(tables[th.home.0])
      && tables[th.home.0].slots[th.home.1].key == Some(t)
  }

  /** Between its fetch_add and the key or the failure. */
  predicate Adding(pc: PC) {
    || pc.Test? || pc.Reload? || pc.Grow? || pc.Clear? || pc.FailCount? || pc.Check? || pc.Wait? || pc.Create?
    || pc.Uncount? || pc.Insert? || pc.InsertCas?
  }

  predicate ThreadOk(tables: seq<Table>, th: Thread, t: nat) {
    && HomeOk(tables, th, t)
    && (Adding(th.pc) ==> th.own.None?)
    && match th.pc
       case Idle => true
       case Search(main, h, seen) =>
         && h <= main < |tables| && Cap(tables[h]) > 0
         && Visited(tables[h].slots, th.hash, t, seen) && AbsentFrom(tables, t, h + 1)
       case Copy(main, seen, v) => th.own.Some? && v == th.own && Probing(tables, th, t, main, seen)
       case CopyCas(main, seen, v) => th.own.Some? && v == th.own && Probing(tables, th, t, main, seen)
       case CopyVal(main, seen, v) => th.own.Some? && v == th.own && Placed(tables, th, t, main, seen)
       case Count(main) => main < |tables| && th.own.None?
       case Test(main, no) => main < |tables| && th.num == no
       case Reload(no) => th.num == no
       case Grow(main, no) => main == |tables| - 1 && th.num == no
       case Clear(main, no) => main < |tables| && th.num == no
       case FailCount => true
       case FailClear => th.own.None?
       case Check(main, no) => main < |tables| && th.num == no
       case Wait(no) => th.num == no
       case Create(main) => main < |tables| && BelowThreeQuarters(th.num, Cap(tables[main]))
       case Uncount => true
       case Insert(main, seen, p) => Probing(tables, th, t, main, seen)
       case InsertCas(main, seen, p) => Probing(tables, th, t, main, seen)
       case InsertVal(main, seen, p) => th.own == Some(p) && Placed(tables, th, t, main, seen)
       case Done(r) => r == th.own
  }

  predicate ThreadsOk(tables: seq<Table>, threads: seq<Thread>) {
    forall t :: 0 <= t < |threads| ==> ThreadOk(tables, threads[t], t)
  }

  /** Counted: added, or on the way. */
  predicate Active(th: Thread) {
    th.own.Some? || Adding(th.pc)
  }

  /** The counted threads, oldest first; the count each of them saw is at least its place in the line. */
  predicate OrderOk(order: seq<nat>, threads: seq<Thread>, count: nat) {
    && count == |order|
    && (forall i :: 0 <= i < |order| ==>
          order[i] < |threads| && Active(threads[order[i]]) && i < threads[order[i]].num)
    && (forall i, j :: 0 <= i < j < |order| ==> order[i] != order[j])
    && (forall t :: 0 <= t < |threads| && Active(threads[t]) ==> t in order)
  }

  /** Holding the resize flag. */
  predicate Holds(pc: PC) {
    pc.Reload? || pc.Grow? || pc.Clear? || pc.FailCount? || pc.FailClear?
  }

  predicate LockOk(flag: bool, holder: Option<nat>, threads: seq<Thread>) {
    && flag == holder.Some? && (holder.Some? ==> holder.value < |threads|)
    && forall t :: 0 <= t < |threads| ==> (Holds(threads[t].pc) <==> holder == Some(t))
  }

  /** The producer a thread has been given or is adding. */
  function ProducerOf(th: Thread): Option<nat> {
    if th.own.Some? then th.own
    else match th.pc
      case Insert(_, _, p) => Some(p)
      case InsertCas(_, _, p) => Some(p)
      case _ => None
  }

  predicate MadeOk(threads: seq<Thread>, made: nat) {
    && (forall t :: 0 <= t < |threads| && ProducerOf(threads[t]).Some? ==> ProducerOf(threads[t]).value < made)
    && forall t, u :: 0 <= t < u < |threads| && ProducerOf(threads[t]).Some? ==>
         ProducerOf(threads[t]) != ProducerOf(threads[u])
  }

  predicate Inv(s: State) {
    && TablesOk(s.tables)
    && SlotsOk(s.tables, s.threads)
    && ThreadsOk(s.tables, s.threads)
    && OrderOk(s.order, s.threads, s.count)
    && LockOk(s.flag, s.holder, s.threads)
    && MadeOk(s.threads, s.made)
  }

  // ---------- how full a table gets ----------

  /** Slots of the table in use. */
  function Used(slots: seq<Slot>): set<nat> {
    set i: nat | i < |slots| && slots[i].key.Some?
  }

  /** The same thread's key is at most once in a table. */
  lemma KeyOnce(slots: seq<Slot>, threads: seq<Thread>, k: nat, i: nat, j: nat)
    requires TableSlotsOk(slots, threads, k) && i < |slots| && j < |slots|
    requires slots[i].key.Some? && slots[i].key == slots[j].key
    ensures i == j
  {
    assert SlotOk(slots, threads, k, i) && SlotOk(slots, threads, k, j);
    var t := slots[i].key.value;
    var d, e := slots[i].dist, slots[j].dist;
    assert d < e ==> Taken(slots, threads[t].hash, t, d);
    assert e < d ==> Taken(slots, threads[t].hash, t, e);
  }

  /** At least a quarter of the slots of every table is free. */
  lemma QuarterFree(slots: seq<Slot>, threads: seq<Thread>, k: nat, order: seq<nat>, count: nat)
    requires TableSlotsOk(slots, threads, k) && OrderOk(order, threads, count)
    requires |slots| > 0 && |slots| % 4 == 0
    ensures 4 * |Used(slots)| < 3 * |slots|
  {
    var used := Used(slots);
    var n := |slots| / 4 * 3 - 1;
    forall i | i in used ensures slots[i].key.value in order {
      assert SlotOk(slots, threads, k, i);
    }
    var f := map i | i in used :: IndexIn(order, slots[i].key.value);
    forall i | i in used ensures f[i] < n {
      assert SlotOk(slots, threads, k, i);
    }
    forall i, j | i in used && j in used && i != j ensures f[i] != f[j] {
      if slots[i].key == slots[j].key { KeyOnce(slots, threads, k, i, j); }
    }
    Pigeonhole(f, n);
    assert f.Keys == used;
  }

  lemma ProbesDistinct(hash: nat, i: nat, j: nat, cap: nat)
    requires i < cap && j < cap && i != j
    ensures Probe(hash, i, cap) != Probe(hash, j, cap)
  {
    if Probe(hash, i, cap) == Probe(hash, j, cap) {
      ModCongruent(hash + i, cap);
      ModCongruent(hash + j, cap);
      Sym(hash + j, (hash + j) % cap, cap);
      Trans(hash + i, (hash + i) % cap, hash + j, cap);
      Close(hash + i, hash + j, cap);
    }
  }

  /** The slots of the first `seen` probes. */
  function ProbedSlots(hash: nat, seen: nat, cap: nat): set<nat>
    requires cap > 0
  {
    if seen == 0 then {} else ProbedSlots(hash, seen - 1, cap) + {Probe(hash, seen - 1, cap)}
  }

  lemma {:induction false} ProbedCount(slots: seq<Slot>, hash: nat, t: nat, seen: nat)
    requires |slots| > 0 && Visited(slots, hash, t, seen)
    ensures |ProbedSlots(hash, seen, |slots|)| == seen
    ensures ProbedSlots(hash, seen, |slots|) <= Used(slots)
    ensures forall i :: i in ProbedSlots(hash, seen, |slots|) ==> exists j: nat :: j < seen && i == Probe(hash, j, |slots|)
    decreases seen
  {
    if seen > 0 {
      var j := seen - 1;
      ProbedCount(slots, hash, t, j);
      assert Taken(slots, hash, t, j);
      assert Probe(hash, j, |slots|) !in ProbedSlots(hash, j, |slots|) by {
        forall l: nat | l < j ensures Probe(hash, l, |slots|) != Probe(hash, j, |slots|) {
          ProbesDistinct(hash, l, j, |slots|);
        }
      }
    }
  }

  /** A probing loop has passed fewer than three quarters of the slots: so it has never gone all the way round,
      and comes to an end. */
  lemma VisitedFew(slots: seq<Slot>, threads: seq<Thread>, k: nat, order: seq<nat>, count: nat, hash: nat, t: nat, seen: nat)
    requires TableSlotsOk(slots, threads, k) && OrderOk(order, threads, count)
    requires |slots| > 0 && |slots| % 4 == 0 && Visited(slots, hash, t, seen)
    ensures 4 * seen < 3 * |slots|
  {
    QuarterFree(slots, threads, k, order, count);
    ProbedCount(slots, hash, t, seen);
    SubsetSize(ProbedSlots(hash, seen, |slots|), Used(slots));
  }

  /** A search that meets an empty slot has shown that the key is not in the table. */
  lemma NotThere(slots: seq<Slot>, threads: seq<Thread>, k: nat, t: nat, seen: nat)
    requires TableSlotsOk(slots, threads, k) && |slots| > 0 && t < |threads|
    requires Visited(slots, threads[t].hash, t, seen) && seen < |slots|
    requires slots[Probe(threads[t].hash, seen, |slots|)].key.None?
    ensures Absent(slots, t)
  {
    forall i | 0 <= i < |slots| ensures slots[i].key != Some(t) {
      assert SlotOk(slots, threads, k, i);
      var d := slots[i].dist;
      assert slots[i].key == Some(t) && d < seen ==> Taken(slots, threads[t].hash, t, d);
      assert slots[i].key == Some(t) && seen < d ==> Taken(slots, threads[t].hash, t, seen);
    }
  }

  // ---------- a step of one thread, part by part ----------

  /** The thread goes on without touching a key or a value. */
  predicate Calm(th: Thread, th': Thread) {
    && th'.hash == th.hash && th'.own == th.own && (th.own.Some? ==> th'.num == th.num)
    && !th.pc.CopyVal? && !th.pc.InsertVal?
  }

  lemma TableSide(slots: seq<Slot>, threads: seq<Thread>, k: nat, t: nat, th: Thread)
    requires TableSlotsOk(slots, threads, k) && t < |threads| && Calm(threads[t], th)
    ensures TableSlotsOk(slots, threads[t := th], k)
  {
    var threads' := threads[t := th];
    forall i | 0 <= i < |slots| ensures SlotOk(slots, threads', k, i) {
      assert SlotOk(slots, threads, k, i);
    }
  }

  lemma SlotsSide(tables: seq<Table>, threads: seq<Thread>, t: nat, th: Thread)
    requires SlotsOk(tables, threads) && t < |threads| && Calm(threads[t], th)
    ensures SlotsOk(tables, threads[t := th])
  {
    forall k | 0 <= k < |tables| ensures TableSlotsOk(tables[k].slots, threads[t := th], k) {
      TableSide(tables[k].slots, threads, k, t, th);
    }
  }

  lemma OrderSide(order: seq<nat>, threads: seq<Thread>, count: nat, t: nat, th: Thread)
    requires OrderOk(order, threads, count) && t < |threads|
    requires Active(threads[t]) == Active(th) && (Active(th) ==> th.num == threads[t].num)
    ensures OrderOk(order, threads[t := th], count)
  {
  }

  lemma LockSide(flag: bool, holder: Option<nat>, threads: seq<Thread>, t: nat, th: Thread)
    requires LockOk(flag, holder, threads) && t < |threads| && Holds(threads[t].pc) == Holds(th.pc)
    ensures LockOk(flag, holder, threads[t := th])
  {
  }

  lemma MadeSide(threads: seq<Thread>, made: nat, t: nat, th: Thread)
    requires MadeOk(threads, made) && t < |threads| && ProducerOf(threads[t]) == ProducerOf(th)
    ensures MadeOk(threads[t := th], made)
  {
  }

  /** A step that only moves thread `t` to another program point. */
  lemma MoveKeeps(s: State, t: nat, pc: PC)
    requires Inv(s) && t < |s.threads|
    requires var th := s.threads[t]; var th' := th.(pc := pc);
      && !th.pc.CopyVal? && !th.pc.InsertVal? && ThreadOk(s.tables, th', t)
      && Active(th) == Active(th') && Holds(th.pc) == Holds(pc) && ProducerOf(th) == ProducerOf(th')
    ensures Inv(Goto(s, t, pc))
  {
    var th := s.threads[t].(pc := pc);
    SlotsSide(s.tables, s.threads, t, th);
    OrderSide(s.order, s.threads, s.count, t, th);
    LockSide(s.flag, s.holder, s.threads, t, th);
    MadeSide(s.threads, s.made, t, th);
  }

  // ---------- probing ----------

  lemma LoopGoesOn(s: State, t: nat, k: nat, seen: nat)
    requires Inv(s) && t < |s.threads| && k < |s.tables| && Cap(s.tables[k]) > 0
    requires Visited(s.tables[k].slots, s.threads[t].hash, t, seen)
    ensures seen < Cap(s.tables[k])
    ensures Taken(s.tables[k].slots, s.threads[t].hash, t, seen) ==>
              Visited(s.tables[k].slots, s.threads[t].hash, t, seen + 1)
  {
    assert TableSlotsOk(s.tables[k].slots, s.threads, k);
    VisitedFew(s.tables[k].slots, s.threads, k, s.order, s.count, s.threads[t].hash, t, seen);
  }

  /** A search that meets an empty slot goes on to the table before, or knows that the key is nowhere. */
  lemma SearchMisses(s: State, t: nat)
    requires Inv(s) && Shaped(s) && t < |s.threads| && s.threads[t].pc.Search?
    requires SlotAt(s, t, s.threads[t].pc.h, s.threads[t].pc.seen).key.None?
    ensures AbsentFrom(s.tables, t, s.threads[t].pc.h)
    ensures s.threads[t].pc.h == 0 ==> s.threads[t].own.None?
  {
    var th := s.threads[t];
    var h, seen := th.pc.h, th.pc.seen;
    assert ThreadOk(s.tables, th, t);
    assert TableSlotsOk(s.tables[h].slots, s.threads, h);
    LoopGoesOn(s, t, h, seen);
    NotThere(s.tables[h].slots, s.threads, h, t, seen);
    if h == 0 { NoHome(s.tables, th, t); }
  }

  lemma SearchStep(s: State, t: nat)
    requires Inv(s) && Shaped(s) && t < |s.threads| && s.threads[t].pc.Search?
    ensures ThreadOk(s.tables, s.threads[t].(pc := Probed(s, t)), t)
  {
    var th := s.threads[t];
    var h, seen := th.pc.h, th.pc.seen;
    assert ThreadOk(s.tables, th, t);
    if SlotAt(s, t, h, seen).key == Some(t) {
      FoundKey(s, t, h, Probe(th.hash, seen, Cap(s.tables[h])));
    } else if SlotAt(s, t, h, seen).key.None? {
      SearchMisses(s, t);
    } else {
      LoopGoesOn(s, t, h, seen);
    }
  }

  lemma FoundKey(s: State, t: nat, h: nat, i: nat)
    requires Inv(s) && t < |s.threads| && s.threads[t].pc.Search? && h == s.threads[t].pc.h
    requires h < |s.tables| && i < Cap(s.tables[h]) && s.tables[h].slots[i].key == Some(t)
    ensures var th := s.threads[t];
      && th.own.Some? && s.tables[h].slots[i].val == th.own
      && (h != th.pc.main ==> Probing(s.tables, th, t, th.pc.main, 0))
  {
    assert TableSlotsOk(s.tables[h].slots, s.threads, h) && SlotOk(s.tables[h].slots, s.threads, h, i);
    assert ThreadOk(s.tables, s.threads[t], t);
    if h < s.threads[t].pc.main { assert Cap(s.tables[h]) <= Cap(s.tables[s.threads[t].pc.main]); }
  }

  /** A key that is in no table was never added. */
  lemma NoHome(tables: seq<Table>, th: Thread, t: nat)
    requires HomeOk(tables, th, t) && AbsentFrom(tables, t, 1) && tables != [] && Absent(tables[0].slots, t)
    ensures th.own.None?
  {
    assert th.own.Some? ==> Absent(tables[th.home.0].slots, t);
  }

  lemma ProbedKeeps(s: State, t: nat)
    requires Inv(s) && Shaped(s) && t < |s.threads|
    requires var pc := s.threads[t].pc; pc.Search? || pc.Copy? || pc.Insert?
    ensures Inv(Goto(s, t, Probed(s, t)))
  {
    var th := s.threads[t];
    assert ThreadOk(s.tables, th, t);
    if th.pc.Search? {
      SearchStep(s, t);
    } else {
      LoopGoesOn(s, t, th.pc.main, th.pc.seen);
      SlotIsAbsent(s.tables, th, t, th.pc.main, th.pc.seen);
    }
    MoveKeeps(s, t, Probed(s, t));
  }

  lemma SlotIsAbsent(tables: seq<Table>, th: Thread, t: nat, main: nat, seen: nat)
    requires Probing(tables, th, t, main, seen)
    ensures tables[main].slots[Probe(th.hash, seen, Cap(tables[main]))].key != Some(t)
  {
    assert Absent(tables[main].slots, t);
  }

  // ---------- adding a key ----------

  /** Only `t` has added keys; used slots keep their keys; tables may have been appended. */
  predicate Extends(tables: seq<Table>, tables': seq<Table>, t: nat) {
    && |tables| <= |tables'|
    && (forall k :: 0 <= k < |tables| ==> SlotsExtend(tables[k].slots, tables'[k].slots, t))
    && forall k :: |tables| <= k < |tables'| ==> NoKeys(tables'[k].slots)
  }

  predicate SlotsExtend(slots: seq<Slot>, slots': seq<Slot>, t: nat) {
    && |slots'| == |slots|
    && forall i :: 0 <= i < |slots| ==>
         if slots[i].key.Some? then slots'[i].key == slots[i].key && slots'[i].dist == slots[i].dist
         else slots'[i].key.None? || slots'[i].key == Some(t)
  }

  predicate NoKeys(slots: seq<Slot>) {
    forall i :: 0 <= i < |slots| ==> slots[i].key.None?
  }

  lemma VisitedKept(slots: seq<Slot>, slots': seq<Slot>, t: nat, hash: nat, u: nat, seen: nat)
    requires SlotsExtend(slots, slots', t) && |slots| > 0 && Visited(slots, hash, u, seen)
    ensures Visited(slots', hash, u, seen)
  {
    forall j | 0 <= j < seen ensures Taken(slots', hash, u, j) {
      assert Taken(slots, hash, u, j);
    }
  }

  lemma AbsentKept(tables: seq<Table>, tables': seq<Table>, t: nat, u: nat, k: nat)
    requires Extends(tables, tables', t) && u != t && AbsentFrom(tables, u, k)
    ensures AbsentFrom(tables', u, k)
  {
    forall l | k <= l < |tables'| ensures Absent(tables'[l].slots, u) {
      if l < |tables| {
        assert SlotsExtend(tables[l].slots, tables'[l].slots, t) && Absent(tables[l].slots, u);
      } else {
        assert NoKeys(tables'[l].slots);
      }
    }
  }

  /** Where the other threads stand is not affected. */
  lemma ThreadKept(tables: seq<Table>, tables': seq<Table>, t: nat, th: Thread, u: nat)
    requires Extends(tables, tables', t) && u != t && ThreadOk(tables, th, u)
    requires th.pc.Grow? ==> |tables'| == |tables|
    ensures ThreadOk(tables', th, u)
  {
    forall k | 0 <= k < |tables| ensures SlotsExtend(tables[k].slots, tables'[k].slots, t) {}
    if th.pc.Search? {
      VisitedKept(tables[th.pc.h].slots, tables'[th.pc.h].slots, t, th.hash, u, th.pc.seen);
      AbsentKept(tables, tables', t, u, th.pc.h + 1);
    } else if th.pc.Copy? || th.pc.CopyCas? || th.pc.Insert? || th.pc.InsertCas? {
      ProbingKept(tables, tables', t, th, u, th.pc.main, th.pc.seen);
    } else if th.pc.CopyVal? || th.pc.InsertVal? {
      PlacedKept(tables, tables', t, th, u, th.pc.main, th.pc.seen);
    }
  }

  lemma ProbingKept(tables: seq<Table>, tables': seq<Table>, t: nat, th: Thread, u: nat, main: nat, seen: nat)
    requires Extends(tables, tables', t) && u != t && Probing(tables, th, u, main, seen)
    ensures Probing(tables', th, u, main, seen)
  {
    VisitedKept(tables[main].slots, tables'[main].slots, t, th.hash, u, seen);
    AbsentKept(tables, tables', t, u, main);
  }

  lemma PlacedKept(tables: seq<Table>, tables': seq<Table>, t: nat, th: Thread, u: nat, main: nat, seen: nat)
    requires Extends(tables, tables', t) && Placed(tables, th, u, main, seen)
    ensures Placed(tables', th, u, main, seen)
  {
    assert SlotsExtend(tables[main].slots, tables'[main].slots, t);
  }

  lemma OthersKept(s: State, tables': seq<Table>, t: nat, th: Thread)
    requires ThreadsOk(s.tables, s.threads) && Extends(s.tables, tables', t) && t < |s.threads|
    requires forall u :: 0 <= u < |s.threads| && u != t && s.threads[u].pc.Grow? ==> |tables'| == |s.tables|
    requires ThreadOk(tables', th, t)
    ensures ThreadsOk(tables', s.threads[t := th])
  {
    var threads' := s.threads[t := th];
    forall u | 0 <= u < |s.threads| ensures ThreadOk(tables', threads'[u], u) {
      if u != t { ThreadKept(s.tables, tables', t, s.threads[u], u); }
    }
  }

  /** What a thread keeps through the store of a key or a value: keys it already has stay right. */
  predicate KeepsKeys(th: Thread, th': Thread) {
    && th'.hash == th.hash && th'.num == th.num && (th.own.Some? ==> th'.own == th.own)
  }

  /** The table the key goes into. */
  lemma KeyAdded(slots: seq<Slot>, threads: seq<Thread>, k: nat, t: nat, th: Thread, seen: nat)
    requires |slots| > 0 && TableSlotsOk(slots, threads, k) && t < |threads| && KeepsKeys(threads[t], th)
    requires Visited(slots, th.hash, t, seen) && seen < |slots| && Absent(slots, t)
    requires slots[Probe(th.hash, seen, |slots|)].key.None?
    requires th.own.Some? && BelowThreeQuarters(th.num, |slots|) && Pending(th.pc, k, seen)
    ensures var slots' := slots[Probe(th.hash, seen, |slots|) := Slot(Some(t), None, seen)];
      SlotsExtend(slots, slots', t) && TableSlotsOk(slots', threads[t := th], k)
  {
    var i := Probe(th.hash, seen, |slots|);
    var slots' := slots[i := Slot(Some(t), None, seen)];
    var threads' := threads[t := th];
    VisitedKept(slots, slots', t, th.hash, t, seen);
    forall j | 0 <= j < |slots| ensures SlotOk(slots', threads', k, j) {
      assert SlotOk(slots, threads, k, j);
      if j != i && slots[j].key.Some? {
        var u := slots[j].key.value;
        VisitedKept(slots, slots', t, threads[u].hash, u, slots[j].dist);
      }
    }
  }

  /** The other tables: `t` may have a key there, with its value. */
  lemma OtherTable(slots: seq<Slot>, threads: seq<Thread>, k: nat, t: nat, th: Thread)
    requires TableSlotsOk(slots, threads, k) && t < |threads| && KeepsKeys(threads[t], th)
    requires forall seen: nat :: !Pending(threads[t].pc, k, seen)
    ensures TableSlotsOk(slots, threads[t := th], k)
  {
    var threads' := threads[t := th];
    forall i | 0 <= i < |slots| ensures SlotOk(slots, threads', k, i) {
      assert SlotOk(slots, threads, k, i);
    }
  }

  /** The successful CAS of a key, in a lazy copy or a first insertion. */
  lemma CasKeeps(s: State, t: nat, th: Thread)
    requires Inv(s) && t < |s.threads|
    requires var pc := s.threads[t].pc; pc.CopyCas? || pc.InsertCas?
    requires var k, seen := s.threads[t].pc.main, s.threads[t].pc.seen;
      && k < |s.tables| && Cap(s.tables[k]) > 0 && KeepsKeys(s.threads[t], th) && th.own.Some? && Pending(th.pc, k, seen)
      && s.tables[k].slots[Probe(th.hash, seen, Cap(s.tables[k]))].key.None?
    ensures var k, seen := s.threads[t].pc.main, s.threads[t].pc.seen;
      var slots' := s.tables[k].slots[Probe(th.hash, seen, Cap(s.tables[k])) := Slot(Some(t), None, seen)];
      var tables' := s.tables[k := s.tables[k].(slots := slots')];
      SlotsOk(tables', s.threads[t := th]) && Extends(s.tables, tables', t) && TablesOk(tables')
  {
    assert ThreadOk(s.tables, s.threads[t], t);
    var k, seen := s.threads[t].pc.main, s.threads[t].pc.seen;
    var slots := s.tables[k].slots;
    var slots' := slots[Probe(th.hash, seen, |slots|) := Slot(Some(t), None, seen)];
    var tables' := s.tables[k := s.tables[k].(slots := slots')];
    LoopGoesOn(s, t, k, seen);
    assert Absent(slots, t);
    KeyAdded(slots, s.threads, k, t, th, seen);
    forall l | 0 <= l < |tables'| ensures TableSlotsOk(tables'[l].slots, s.threads[t := th], l) {
      if l != k { OtherTable(s.tables[l].slots, s.threads, l, t, th); }
    }
  }

  lemma EmptyIsEmpty(s: State, k: nat, i: nat)
    requires Inv(s) && k < |s.tables| && i < Cap(s.tables[k]) && s.tables[k].slots[i].key.None?
    ensures s.tables[k].slots[i] == EmptySlot
  {
    assert TableSlotsOk(s.tables[k].slots, s.threads, k) && SlotOk(s.tables[k].slots, s.threads, k, i);
  }

  lemma AddedKeeps(s: State, tables': seq<Table>, t: nat, th: Thread)
    requires Inv(s) && t < |s.threads| && |tables'| == |s.tables|
    requires TablesOk(tables') && SlotsOk(tables', s.threads[t := th]) && Extends(s.tables, tables', t)
    requires ThreadOk(tables', th, t)
    requires var th0 := s.threads[t];
      Active(th0) && Active(th) && th.num == th0.num && Holds(th0.pc) == Holds(th.pc) && ProducerOf(th0) == ProducerOf(th)
    ensures Inv(s.(tables := tables', threads := s.threads[t := th]))
  {
    OthersKept(s, tables', t, th);
    OrderSide(s.order, s.threads, s.count, t, th);
    LockSide(s.flag, s.holder, s.threads, t, th);
    MadeSide(s.threads, s.made, t, th);
  }

  /** The tables after a key has been stored in slot `i` of table `k`. */
  function WithKey(tables: seq<Table>, k: nat, i: nat, t: nat, seen: nat): seq<Table>
    requires k < |tables| && i < Cap(tables[k])
  {
    tables[k := tables[k].(slots := tables[k].slots[i := Slot(Some(t), None, seen)])]
  }

  lemma NowPlaced(tables: seq<Table>, k: nat, t: nat, seen: nat, th: Thread)
    requires k < |tables| && Cap(tables[k]) > 0
    ensures Placed(WithKey(tables, k, Probe(th.hash, seen, Cap(tables[k])), t, seen), th, t, k, seen)
  {
  }

  lemma HomeKept(tables: seq<Table>, tables': seq<Table>, th: Thread, t: nat)
    requires Extends(tables, tables', t) && HomeOk(tables, th, t)
    ensures HomeOk(tables', th, t)
  {
    if th.own.Some? { assert SlotsExtend(tables[th.home.0].slots, tables'[th.home.0].slots, t); }
  }

  /** The key was taken meanwhile: on to the next slot. */
  lemma CopyFails(s: State, t: nat, k: nat, seen: nat, v: Option<nat>)
    requires Inv(s) && t < |s.threads| && s.threads[t].pc == CopyCas(k, seen, v)
    requires k < |s.tables| && Cap(s.tables[k]) > 0
    requires s.tables[k].slots[Probe(s.threads[t].hash, seen, Cap(s.tables[k]))].key.Some?
    ensures Inv(Goto(s, t, Copy(k, seen + 1, v)))
  {
    var th := s.threads[t];
    assert ThreadOk(s.tables, th, t);
    SlotIsAbsent(s.tables, th, t, k, seen);
    LoopGoesOn(s, t, k, seen);
    MoveKeeps(s, t, Copy(k, seen + 1, v));
  }

  lemma InsertFails(s: State, t: nat, k: nat, seen: nat, p: nat)
    requires Inv(s) && t < |s.threads| && s.threads[t].pc == InsertCas(k, seen, p)
    requires k < |s.tables| && Cap(s.tables[k]) > 0
    requires s.tables[k].slots[Probe(s.threads[t].hash, seen, Cap(s.tables[k]))].key.Some?
    ensures Inv(Goto(s, t, Insert(k, seen + 1, p)))
  {
    var th := s.threads[t];
    assert ThreadOk(s.tables, th, t);
    SlotIsAbsent(s.tables, th, t, k, seen);
    LoopGoesOn(s, t, k, seen);
    MoveKeeps(s, t, Insert(k, seen + 1, p));
  }

  lemma CopySucceeds(s: State, t: nat, k: nat, seen: nat, i: nat, v: Option<nat>)
    requires Inv(s) && t < |s.threads| && s.threads[t].pc == CopyCas(k, seen, v)
    requires k < |s.tables| && Cap(s.tables[k]) > 0 && i == Probe(s.threads[t].hash, seen, Cap(s.tables[k]))
    requires s.tables[k].slots[i].key.None?
    ensures Inv(s.(tables := WithKey(s.tables, k, i, t, seen),
                   threads := s.threads[t := s.threads[t].(pc := CopyVal(k, seen, v))]))
  {
    var th := s.threads[t];
    var th' := th.(pc := CopyVal(k, seen, v));
    assert ThreadOk(s.tables, th, t);
    CasKeeps(s, t, th');
    NowPlaced(s.tables, k, t, seen, th');
    HomeKept(s.tables, WithKey(s.tables, k, i, t, seen), th', t);
    AddedKeeps(s, WithKey(s.tables, k, i, t, seen), t, th');
  }

  lemma InsertSucceeds(s: State, t: nat, k: nat, seen: nat, i: nat, p: nat)
    requires Inv(s) && t < |s.threads| && s.threads[t].pc == InsertCas(k, seen, p)
    requires k < |s.tables| && Cap(s.tables[k]) > 0 && i == Probe(s.threads[t].hash, seen, Cap(s.tables[k]))
    requires s.tables[k].slots[i].key.None?
    ensures Inv(s.(tables := WithKey(s.tables, k, i, t, seen),
                   threads := s.threads[t := s.threads[t].(pc := InsertVal(k, seen, p), own := Some(p), home := (k, i))]))
  {
    var th := s.threads[t];
    var th' := th.(pc := InsertVal(k, seen, p), own := Some(p), home := (k, i));
    assert ThreadOk(s.tables, th, t);
    CasKeeps(s, t, th');
    NowPlaced(s.tables, k, t, seen, th');
    AddedKeeps(s, WithKey(s.tables, k, i, t, seen), t, th');
  }

  lemma CopyStepFails(s: State, t: nat, k: nat, seen: nat, v: Option<nat>)
    requires Shaped(s) && t < |s.threads| && s.threads[t].pc == CopyCas(k, seen, v)
    requires s.tables[k].slots[Probe(s.threads[t].hash, seen, Cap(s.tables[k]))].key.Some?
    ensures Store(s, t) == Goto(s, t, Copy(k, seen + 1, v))
  {
  }

  lemma CopyCasKeeps(s: State, t: nat, k: nat, seen: nat, v: Option<nat>)
    requires Inv(s) && Shaped(s) && t < |s.threads| && s.threads[t].pc == CopyCas(k, seen, v)
    ensures Inv(Store(s, t))
  {
    var i := Probe(s.threads[t].hash, seen, Cap(s.tables[k]));
    if s.tables[k].slots[i].key.Some? {
      CopyStepFails(s, t, k, seen, v);
      CopyFails(s, t, k, seen, v);
    } else {
      EmptyIsEmpty(s, k, i);
      CopySucceeds(s, t, k, seen, i, v);
    }
  }

  lemma InsertStepFails(s: State, t: nat, k: nat, seen: nat, p: nat)
    requires Shaped(s) && t < |s.threads| && s.threads[t].pc == InsertCas(k, seen, p)
    requires s.tables[k].slots[Probe(s.threads[t].hash, seen, Cap(s.tables[k]))].key.Some?
    ensures Store(s, t) == Goto(s, t, Insert(k, seen + 1, p))
  {
  }

  lemma InsertStepSucceeds(s: State, t: nat, k: nat, seen: nat, p: nat, i: nat)
    requires Shaped(s) && t < |s.threads| && s.threads[t].pc == InsertCas(k, seen, p)
    requires i == Probe(s.threads[t].hash, seen, Cap(s.tables[k])) && s.tables[k].slots[i] == EmptySlot
    ensures Store(s, t) ==
            s.(tables := WithKey(s.tables, k, i, t, seen),
               threads := s.threads[t := s.threads[t].(pc := InsertVal(k, seen, p), own := Some(p), home := (k, i))])
  {
  }

  lemma InsertCasKeeps(s: State, t: nat, k: nat, seen: nat, p: nat)
    requires Inv(s) && Shaped(s) && t < |s.threads| && s.threads[t].pc == InsertCas(k, seen, p)
    ensures Inv(Store(s, t))
  {
    var i := Probe(s.threads[t].hash, seen, Cap(s.tables[k]));
    if s.tables[k].slots[i].key.Some? {
      InsertStepFails(s, t, k, seen, p);
      InsertFails(s, t, k, seen, p);
    } else {
      EmptyIsEmpty(s, k, i);
      InsertStepSucceeds(s, t, k, seen, p, i);
      InsertSucceeds(s, t, k, seen, i, p);
    }
  }

  // ---------- storing a value ----------

  lemma ValueSet(slots: seq<Slot>, threads: seq<Thread>, k: nat, t: nat, th: Thread, i: nat)
    requires TableSlotsOk(slots, threads, k) && t < |threads| && i < |slots| && slots[i].key == Some(t)
    requires KeepsKeys(threads[t], th)
    ensures var slots' := slots[i := slots[i].(val := th.own)];
      SlotsExtend(slots, slots', t) && TableSlotsOk(slots', threads[t := th], k)
  {
    var slots' := slots[i := slots[i].(val := th.own)];
    var threads' := threads[t := th];
    forall j | 0 <= j < |slots| ensures SlotOk(slots', threads', k, j) {
      assert SlotOk(slots, threads, k, j) && SlotOk(slots, threads, k, i);
      if slots[j].key.Some? {
        var u := slots[j].key.value;
        VisitedKept(slots, slots', t, threads[u].hash, u, slots[j].dist);
        if u == t { KeyOnce(slots, threads, k, i, j); }
      }
    }
  }

  lemma ValTables(s: State, t: nat, k: nat, i: nat, th: Thread)
    requires Inv(s) && t < |s.threads| && k < |s.tables| && i < Cap(s.tables[k]) && s.tables[k].slots[i].key == Some(t)
    requires KeepsKeys(s.threads[t], th) && forall l: nat, seen: nat :: Pending(s.threads[t].pc, l, seen) ==> l == k
    ensures var slots' := s.tables[k].slots[i := s.tables[k].slots[i].(val := th.own)];
      var tables' := s.tables[k := s.tables[k].(slots := slots')];
      Extends(s.tables, tables', t) && SlotsOk(tables', s.threads[t := th]) && TablesOk(tables')
  {
    var slots := s.tables[k].slots;
    var tables' := s.tables[k := s.tables[k].(slots := slots[i := slots[i].(val := th.own)])];
    assert TableSlotsOk(slots, s.threads, k);
    ValueSet(slots, s.threads, k, t, th, i);
    forall l | 0 <= l < |tables'| ensures TableSlotsOk(tables'[l].slots, s.threads[t := th], l) {
      if l != k { OtherTable(s.tables[l].slots, s.threads, l, t, th); }
    }
  }

  /** The tables after the value of the key in slot `i` of table `k` has been stored. */
  function WithVal(tables: seq<Table>, k: nat, i: nat, val: Option<nat>): seq<Table>
    requires k < |tables| && i < Cap(tables[k])
  {
    var slots := tables[k].slots;
    tables[k := tables[k].(slots := slots[i := slots[i].(val := val)])]
  }

  lemma ValIs(s: State, t: nat)
    requires Inv(s) && Shaped(s) && t < |s.threads| && (s.threads[t].pc.CopyVal? || s.threads[t].pc.InsertVal?)
    ensures var th := s.threads[t]; var k := th.pc.main;
      && k < |s.tables| && Cap(s.tables[k]) > 0
      && var i := Probe(th.hash, th.pc.seen, Cap(s.tables[k]));
      && s.tables[k].slots[i].key == Some(t)
      && Store(s, t) == s.(tables := WithVal(s.tables, k, i, th.own), threads := s.threads[t := th.(pc := Done(th.own))])
  {
    assert ThreadOk(s.tables, s.threads[t], t);
  }

  lemma ValKeeps(s: State, t: nat)
    requires Inv(s) && Shaped(s) && t < |s.threads| && (s.threads[t].pc.CopyVal? || s.threads[t].pc.InsertVal?)
    ensures Inv(Store(s, t))
  {
    var th := s.threads[t];
    var th' := th.(pc := Done(th.own));
    assert ThreadOk(s.tables, th, t);
    ValIs(s, t);
    var k := th.pc.main;
    var i := Probe(th.hash, th.pc.seen, Cap(s.tables[k]));
    ValTables(s, t, k, i, th');
    var tables' := WithVal(s.tables, k, i, th.own);
    HomeKept(s.tables, tables', th', t);
    AddedKeeps(s, tables', t, th');
  }

  // ---------- counting, resizing, creating ----------

  /** The steps that only go on to another program point. */
  lemma LoadIs(s: State, t: nat, ok: bool)
    requires Shaped(s) && t < |s.threads|
    requires var pc := s.threads[t].pc; pc.Idle? || pc.Done? || pc.Reload? || pc.Wait? || (pc.Create? && !ok)
    ensures var s' := Manage(s, t, ok); t < |s'.threads| && s' == Goto(s, t, s'.threads[t].pc)
  {
  }

  lemma LoadsKeep(s: State, t: nat, ok: bool)
    requires Inv(s) && Shaped(s) && t < |s.threads|
    requires var pc := s.threads[t].pc; pc.Idle? || pc.Done? || pc.Reload? || pc.Wait? || (pc.Create? && !ok)
    ensures Inv(Manage(s, t, ok))
  {
    assert ThreadOk(s.tables, s.threads[t], t);
    LoadIs(s, t, ok);
    MoveKeeps(s, t, Manage(s, t, ok).threads[t].pc);
  }

  lemma TestsKeep(s: State, t: nat, ok: bool)
    requires Inv(s) && Shaped(s) && t < |s.threads|
    requires var pc := s.threads[t].pc;
      || pc.Check? || (pc.Grow? && !ok)
      || (pc.Grow? && pc.no < Cap(s.tables[pc.main]) / 2)
      || (pc.Test? && (s.flag || pc.no < Cap(s.tables[pc.main]) / 2))
    ensures Inv(Manage(s, t, ok))
  {
    assert ThreadOk(s.tables, s.threads[t], t);
    assert Cap(s.tables[s.threads[t].pc.main]) % 4 == 0;
    MoveKeeps(s, t, Manage(s, t, ok).threads[t].pc);
  }

  lemma CountKeeps(s: State, t: nat, ok: bool)
    requires Inv(s) && Shaped(s) && t < |s.threads| && s.threads[t].pc.Count?
    ensures Inv(Manage(s, t, ok))
  {
    var th := s.threads[t];
    assert ThreadOk(s.tables, th, t);
    CountedUp(s, t, th.(pc := Test(th.pc.main, s.count + 1), num := s.count + 1));
  }

  lemma CountedUp(s: State, t: nat, th: Thread)
    requires Inv(s) && t < |s.threads| && Calm(s.threads[t], th) && ThreadOk(s.tables, th, t)
    requires !Active(s.threads[t]) && Active(th) && th.num == s.count + 1 && Holds(th.pc) == Holds(s.threads[t].pc)
    requires ProducerOf(th) == ProducerOf(s.threads[t])
    ensures Inv(s.(count := s.count + 1, order := s.order + [t], threads := s.threads[t := th]))
  {
    SlotsSide(s.tables, s.threads, t, th);
    Counted(s.order, s.threads, s.count, t, th);
    LockSide(s.flag, s.holder, s.threads, t, th);
    MadeSide(s.threads, s.made, t, th);
  }

  lemma Counted(order: seq<nat>, threads: seq<Thread>, count: nat, t: nat, th: Thread)
    requires OrderOk(order, threads, count) && t < |threads| && !Active(threads[t]) && Active(th) && th.num == count + 1
    ensures OrderOk(order + [t], threads[t := th], count + 1)
  {
    assert t !in order;
    assert (order + [t])[count] == t;
  }

  /** What is left of a list of distinct elements when one is taken out. */
  lemma WithoutIs(xs: seq<nat>, x: nat)
    requires x in xs && forall i, j :: 0 <= i < j < |xs| ==> xs[i] != xs[j]
    ensures |Without(xs, x)| == |xs| - 1
    ensures forall i :: 0 <= i < |xs| - 1 ==> Without(xs, x)[i] == xs[if i < IndexIn(xs, x) then i else i + 1]
    ensures forall y :: y in xs && y != x ==> y in Without(xs, x)
    ensures x !in Without(xs, x)
    ensures forall i, j :: 0 <= i < j < |xs| - 1 ==> Without(xs, x)[i] != Without(xs, x)[j]
  {
  }

  lemma Uncounted(order: seq<nat>, threads: seq<Thread>, count: nat, t: nat, th: Thread)
    requires OrderOk(order, threads, count) && t < |threads| && Active(threads[t]) && !Active(th)
    ensures count > 0 && OrderOk(Without(order, t), threads[t := th], count - 1)
  {
    WithoutIs(order, t);
    var rest, threads' := Without(order, t), threads[t := th];
    forall i | 0 <= i < |rest|
      ensures rest[i] < |threads'| && Active(threads'[rest[i]]) && i < threads'[rest[i]].num
    {
      PlaceKept(order, threads, count, t, i);
    }
  }

  /** A thread that stays in the line keeps its place or moves up by one. */
  lemma PlaceKept(order: seq<nat>, threads: seq<Thread>, count: nat, t: nat, i: nat)
    requires OrderOk(order, threads, count) && t in order && i < |Without(order, t)|
    ensures var u := Without(order, t)[i]; u != t && u < |threads| && Active(threads[u]) && i < threads[u].num
  {
    WithoutIs(order, t);
    var j := if i < IndexIn(order, t) then i else i + 1;
    assert Without(order, t)[i] == order[j] && order[j] != t;
  }

  lemma CountedDown(s: State, t: nat, th: Thread)
    requires Inv(s) && t < |s.threads| && Calm(s.threads[t], th) && ThreadOk(s.tables, th, t)
    requires Active(s.threads[t]) && !Active(th) && Holds(th.pc) == Holds(s.threads[t].pc)
    requires ProducerOf(th) == ProducerOf(s.threads[t])
    ensures s.count > 0 && Inv(s.(count := s.count - 1, order := Without(s.order, t), threads := s.threads[t := th]))
  {
    SlotsSide(s.tables, s.threads, t, th);
    Uncounted(s.order, s.threads, s.count, t, th);
    LockSide(s.flag, s.holder, s.threads, t, th);
    MadeSide(s.threads, s.made, t, th);
  }

  lemma UncountKeeps(s: State, t: nat, ok: bool)
    requires Inv(s) && Shaped(s) && t < |s.threads| && (s.threads[t].pc.FailCount? || s.threads[t].pc.Uncount?)
    ensures Inv(Manage(s, t, ok))
  {
    var th := s.threads[t];
    assert ThreadOk(s.tables, th, t);
    CountedDown(s, t, th.(pc := if th.pc.FailCount? then FailClear else Done(None)));
  }

  lemma FlagKeeps(s: State, t: nat, th: Thread, holder: Option<nat>)
    requires Inv(s) && t < |s.threads| && Calm(s.threads[t], th) && ThreadOk(s.tables, th, t)
    requires Active(th) == Active(s.threads[t]) && th.num == s.threads[t].num && ProducerOf(th) == ProducerOf(s.threads[t])
    requires LockOk(holder.Some?, holder, s.threads[t := th])
    ensures Inv(s.(threads := s.threads[t := th], flag := holder.Some?, holder := holder))
  {
    SlotsSide(s.tables, s.threads, t, th);
    OrderSide(s.order, s.threads, s.count, t, th);
    MadeSide(s.threads, s.made, t, th);
  }

  lemma LockKeeps(s: State, t: nat, ok: bool)
    requires Inv(s) && Shaped(s) && t < |s.threads|
    requires var pc := s.threads[t].pc; pc.Test? && pc.no >= Cap(s.tables[pc.main]) / 2 && !s.flag
    ensures Inv(Manage(s, t, ok))
  {
    var th := s.threads[t];
    assert ThreadOk(s.tables, th, t);
    FlagKeeps(s, t, th.(pc := Reload(th.pc.no)), Some(t));
  }

  lemma UnlockKeeps(s: State, t: nat, ok: bool)
    requires Inv(s) && Shaped(s) && t < |s.threads| && (s.threads[t].pc.Clear? || s.threads[t].pc.FailClear?)
    ensures Inv(Manage(s, t, ok))
  {
    var th := s.threads[t];
    assert ThreadOk(s.tables, th, t);
    FlagKeeps(s, t, th.(pc := if th.pc.Clear? then Check(th.pc.main, th.pc.no) else Done(None)), None);
  }

  /** A thread without a producer has no key anywhere. */
  lemma NoProducerNoKey(s: State, t: nat)
    requires Inv(s) && t < |s.threads| && s.threads[t].own.None?
    ensures AbsentFrom(s.tables, t, 0)
  {
    forall k | 0 <= k < |s.tables| ensures Absent(s.tables[k].slots, t) {
      assert TableSlotsOk(s.tables[k].slots, s.threads, k);
      forall i | 0 <= i < Cap(s.tables[k]) ensures s.tables[k].slots[i].key != Some(t) {
        assert SlotOk(s.tables[k].slots, s.threads, k, i);
      }
    }
  }

  lemma CreateKeeps(s: State, t: nat)
    requires Inv(s) && Shaped(s) && t < |s.threads| && s.threads[t].pc.Create?
    ensures Inv(Manage(s, t, true))
  {
    var th := s.threads[t];
    assert ThreadOk(s.tables, th, t);
    NoProducerNoKey(s, t);
    var th' := th.(pc := Insert(th.pc.main, 0, s.made));
    SlotsSide(s.tables, s.threads, t, th');
    OrderSide(s.order, s.threads, s.count, t, th');
    LockSide(s.flag, s.holder, s.threads, t, th');
    assert MadeOk(s.threads[t := th'], s.made + 1);
  }

  lemma {:induction false} NewCapacityGrows(cap: nat, no: nat)
    requires cap > 0 && cap % 4 == 0
    ensures var c := NewCapacity(cap, no); cap <= c && c % 4 == 0 && no < c / 2
    decreases if 2 * no + 2 > cap then 2 * no + 2 - cap else 0
  {
    if no >= cap / 2 { NewCapacityGrows(2 * cap, no); }
  }

  lemma Published(s: State, t: nat, th: Thread, main: nat, no: nat)
    requires Inv(s) && Shaped(s) && t < |s.threads| && Calm(s.threads[t], th) && main == |s.tables| - 1
    ensures var tables' := Publish(s, main, no).tables;
      TablesOk(tables') && SlotsOk(tables', s.threads[t := th]) && Extends(s.tables, tables', t)
  {
    assert Cap(s.tables[main]) % 4 == 0;
    NewCapacityGrows(2 * Cap(s.tables[main]), no);
    SlotsSide(s.tables, s.threads, t, th);
    OneMoreTable(s.tables, s.threads[t := th], NewCapacity(2 * Cap(s.tables[main]), no), t);
  }

  lemma OneMoreTable(tables: seq<Table>, threads: seq<Thread>, cap: nat, t: nat)
    requires TablesOk(tables) && SlotsOk(tables, threads)
    requires cap % 4 == 0 && cap >= Cap(tables[|tables| - 1])
    ensures var tables' := tables + [Table(seq(cap, _ => EmptySlot), Some(|tables| - 1))];
      TablesOk(tables') && SlotsOk(tables', threads) && Extends(tables, tables', t)
  {
    var tables' := tables + [Table(seq(cap, _ => EmptySlot), Some(|tables| - 1))];
    forall k | 0 <= k < |tables'| ensures TableSlotsOk(tables'[k].slots, threads, k) {
      if k < |tables| { assert TableSlotsOk(tables[k].slots, threads, k); }
    }
  }

  lemma GrowKeeps(s: State, t: nat)
    requires Inv(s) && Shaped(s) && t < |s.threads| && s.threads[t].pc.Grow?
    requires s.threads[t].pc.no >= Cap(s.tables[s.threads[t].pc.main]) / 2
    ensures Inv(Manage(s, t, true))
  {
    var th := s.threads[t];
    assert ThreadOk(s.tables, th, t);
    var main, no := th.pc.main, th.pc.no;
    var th' := th.(pc := Clear(|s.tables|, no));
    Published(s, t, th', main, no);
    HomeKept(s.tables, Publish(s, main, no).tables, th', t);
    OthersKept(s, Publish(s, main, no).tables, t, th');
    OrderSide(s.order, s.threads, s.count, t, th');
    LockSide(s.flag, s.holder, s.threads, t, th');
    MadeSide(s.threads, s.made, t, th');
  }

  // ---------- every run ----------

  lemma InitInv(s: State)
    requires Init(s)
    ensures Inv(s)
  {
  }

  lemma InvShaped(s: State)
    requires Inv(s)
    ensures Shaped(s)
  {
    forall t | 0 <= t < |s.threads| ensures PCShaped(s.threads[t].pc, s.tables) {
      assert ThreadOk(s.tables, s.threads[t], t);
    }
  }

  lemma ActionKeepsInv(s: State, a: Action)
    requires Inv(s) && Enabled(s, a)
    ensures Inv(Apply(s, a))
  {
    var pc := s.threads[a.t].pc;
    if pc.Search? || pc.Copy? || pc.Insert? {
      ProbedKeeps(s, a.t);
    } else if pc.CopyCas? {
      CopyCasKeeps(s, a.t, pc.main, pc.seen, pc.v);
    } else if pc.InsertCas? {
      InsertCasKeeps(s, a.t, pc.main, pc.seen, pc.p);
    } else if pc.CopyVal? || pc.InsertVal? {
      ValKeeps(s, a.t);
    } else if pc.Count? {
      CountKeeps(s, a.t, a.ok);
    } else if pc.FailCount? || pc.Uncount? {
      UncountKeeps(s, a.t, a.ok);
    } else if pc.Clear? || pc.FailClear? {
      UnlockKeeps(s, a.t, a.ok);
    } else if pc.Test? && pc.no >= Cap(s.tables[pc.main]) / 2 && !s.flag {
      LockKeeps(s, a.t, a.ok);
    } else if pc.Create? && a.ok {
      CreateKeeps(s, a.t);
    } else if pc.Grow? && a.ok && pc.no >= Cap(s.tables[pc.main]) / 2 {
      GrowKeeps(s, a.t);
    } else if pc.Test? || pc.Check? || pc.Grow? {
      TestsKeep(s, a.t, a.ok);
    } else {
      LoadsKeep(s, a.t, a.ok);
    }
  }

  lemma {:induction false} ReachableInv(s0: State, run: seq<Action>, s: State)
    requires Reaches(s0, run, s)
    ensures Inv(s)
    decreases |run|
  {
    if run == [] {
      InitInv(s);
    } else {
      var last := |run| - 1;
      var m :| Reaches(s0, run[..last], m) && Enabled(m, run[last]) && s == Apply(m, run[last]);
      ReachableInv(s0, run[..last], m);
      ActionKeepsInv(m, run[last]);
    }
  }
}