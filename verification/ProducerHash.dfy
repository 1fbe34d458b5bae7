/**
 The hash from threads to implicit producers (ext/MoodyCamel/concurrentqueue.h, lines 3189-3428) as a
 transition system: any number of threads, each load, store, CAS and fetch_add of a shared word one step.
 Memory allocation may fail wherever the code allows for it.

 Thread numbers stand for thread ids, `hash` for their hash values, which may collide in any way. Tables are
 numbered in the order they are published, `prev` is the code's own link. Recycled producers do not occur: an
 implicit producer is given up only by the thread-exit code, which is compiled out (line 200).

 Auxiliary fields, never read by steps: `dist` (how far from its home position a key was put), `own` (the
 producer a thread was given), `home` (where its key was first stored), `num` (its newCount), `order` (the
 threads counted, in order of their fetch_add) and `holder` (who holds the resize flag).
 */
module ProducerHash {
  import opened Options

  const INITIAL_CAPACITY: nat := 32

  datatype Slot = Slot(key: Option<nat>, val: Option<nat>, dist: nat)

  datatype Table = Table(slots: seq<Slot>, prev: Option<nat>)

  /** Program points of get_or_add_implicit_producer. `seen` slots have been probed in the current loop, so the
      index is `hash + seen`, masked. */
  datatype PC =
    | Idle
    | Search(main: nat, h: nat, seen: nat)                    // load a key of table h
    | Copy(main: nat, seen: nat, v: Option<nat>)              // found in an older table: probe the main one
    | CopyCas(main: nat, seen: nat, v: Option<nat>)           // saw an empty key: CAS
    | CopyVal(main: nat, seen: nat, v: Option<nat>)           // store the value
    | Count(main: nat)                                        // not found: count.fetch_add(1)
    | Test(main: nat, no: nat)                                // half full? then test_and_set
    | Reload(no: nat)                                         // flag held: load the main table
    | Grow(main: nat, no: nat)                                // flag held: still half full? then allocate
    | Clear(main: nat, no: nat)                               // clear the flag
    | FailCount                                               // allocation failed: count.fetch_add(-1)
    | FailClear                                               // clear the flag, return null
    | Check(main: nat, no: nat)                               // below three quarters?
    | Wait(no: nat)                                           // load the main table again
    | Create(main: nat)                                       // recycle_or_create_producer
    | Uncount                                                 // that failed: count.fetch_add(-1), return null
    | Insert(main: nat, seen: nat, p: nat)
    | InsertCas(main: nat, seen: nat, p: nat)
    | InsertVal(main: nat, seen: nat, p: nat)
    | Done(r: Option<nat>)

  datatype Thread = Thread(pc: PC, hash: nat, own: Option<nat>, home: (nat, nat), num: nat)

  datatype State = State(
    tables: seq<Table>, flag: bool, count: nat, made: nat, threads: seq<Thread>,
    order: seq<nat>, holder: Option<nat>)

  function Cap(tb: Table): nat {
    |tb.slots|
  }

  /** `index & (capacity - 1)` after `seen` probes. */
  function Probe(hash: nat, seen: nat, cap: nat): (i: nat)
    requires cap > 0
    ensures i < cap
  {
    (hash + seen) % cap
  }

  const EmptySlot: Slot := Slot(None, None, 0)

  /** Doubles the capacity until the count is below half of it. */
  function NewCapacity(cap: nat, no: nat): nat
    requires cap > 0
    decreases if 2 * no + 2 > cap then 2 * no + 2 - cap else 0
  {
    if no >= cap / 2 then NewCapacity(2 * cap, no) else cap
  }

  predicate PCShaped(pc: PC, tables: seq<Table>) {
    match pc
    case Search(main, h, _) => main < |tables| && h < |tables|
    case Copy(main, _, _) => main < |tables|
    case CopyCas(main, _, _) => main < |tables|
    case CopyVal(main, _, _) => main < |tables|
    case Count(main) => main < |tables|
    case Test(main, _) => main < |tables|
    case Grow(main, _) => main < |tables|
    case Clear(main, _) => main < |tables|
    case Check(main, _) => main < |tables|
    case Create(main) => main < |tables|
    case Insert(main, _, _) => main < |tables|
    case InsertCas(main, _, _) => main < |tables|
    case InsertVal(main, _, _) => main < |tables|
    case _ => true
  }

  predicate Shaped(s: State) {
    && s.tables != []
    && (forall k :: 0 <= k < |s.tables| ==>
          Cap(s.tables[k]) > 0 && (s.tables[k].prev.Some? ==> s.tables[k].prev.value < |s.tables|))
    && forall t :: 0 <= t < |s.threads| ==> PCShaped(s.threads[t].pc, s.tables)
  }

  // ---------- steps ----------

  function Goto(s: State, t: nat, pc: PC): State
    requires t < |s.threads|
  {
    s.(threads := s.threads[t := s.threads[t].(pc := pc)])
  }

  function SlotAt(s: State, t: nat, k: nat, seen: nat): Slot
    requires Shaped(s) && t < |s.threads| && k < |s.tables|
  {
    s.tables[k].slots[Probe(s.threads[t].hash, seen, Cap(s.tables[k]))]
  }

  function SetSlot(s: State, t: nat, k: nat, seen: nat, x: Slot): State
    requires Shaped(s) && t < |s.threads| && k < |s.tables|
  {
    var tb := s.tables[k];
    s.(tables := s.tables[k := tb.(slots := tb.slots[Probe(s.threads[t].hash, seen, Cap(tb)) := x])])
  }

  function IndexIn(xs: seq<nat>, x: nat): (i: nat)
    requires x in xs
    ensures i < |xs| && xs[i] == x
  {
    if xs[0] == x then 0 else IndexIn(xs[1..], x) + 1
  }

  function Without(xs: seq<nat>, x: nat): seq<nat> {
    if x in xs then xs[..IndexIn(xs, x)] + xs[IndexIn(xs, x) + 1..] else xs
  }

  function CountDown(s: State, t: nat): State {
    s.(count := if s.count > 0 then s.count - 1 else 0, order := Without(s.order, t))
  }

  function Publish(s: State, main: nat, no: nat): State
    requires main < |s.tables| && Cap(s.tables[main]) > 0
  {
    s.(tables := s.tables + [Table(seq(NewCapacity(2 * Cap(s.tables[main]), no), _ => EmptySlot), Some(main))])
  }

  /** Where a thread goes with the key it probed. */
  function Probed(s: State, t: nat): PC
    requires Shaped(s) && t < |s.threads|
    requires var pc := s.threads[t].pc; pc.Search? || pc.Copy? || pc.Insert?
  {
    var pc := s.threads[t].pc;
    match pc
    case Search(main, h, seen) =>
      var x := SlotAt(s, t, h, seen);
      if x.key == Some(t) then (if h != main then Copy(main, 0, x.val) else Done(x.val))
      else if x.key.None? then
        (if s.tables[h].prev.Some? then Search(main, s.tables[h].prev.value, 0) else Count(main))
      else Search(main, h, seen + 1)
    case Copy(main, seen, v) =>
      if SlotAt(s, t, main, seen).key.None? then CopyCas(main, seen, v) else Copy(main, seen + 1, v)
    case Insert(main, seen, p) =>
      if SlotAt(s, t, main, seen).key.None? then InsertCas(main, seen, p) else Insert(main, seen + 1, p)
  }

  /** The CAS of an empty key to the thread's own, and the store of the value after it. */
  function Store(s: State, t: nat): State
    requires Shaped(s) && t < |s.threads|
    requires var pc := s.threads[t].pc; pc.CopyCas? || pc.InsertCas? || pc.CopyVal? || pc.InsertVal?
  {
    var th := s.threads[t];
    match th.pc
    case CopyCas(main, seen, v) =>
      var x := SlotAt(s, t, main, seen);
      if x.key.None? then Goto(SetSlot(s, t, main, seen, x.(key := Some(t), dist := seen)), t, CopyVal(main, seen, v))
      else Goto(s, t, Copy(main, seen + 1, v))
    case InsertCas(main, seen, p) =>
      var x := SlotAt(s, t, main, seen);
      if x.key.None? then
        SetSlot(s, t, main, seen, x.(key := Some(t), dist := seen))
          .(threads := s.threads[t := th.(pc := InsertVal(main, seen, p), own := Some(p),
                                          home := (main, Probe(th.hash, seen, Cap(s.tables[main]))))])
      else Goto(s, t, Insert(main, seen + 1, p))
    case CopyVal(main, seen, v) => Goto(SetSlot(s, t, main, seen, SlotAt(s, t, main, seen).(val := v)), t, Done(v))
    case InsertVal(main, seen, p) =>
      Goto(SetSlot(s, t, main, seen, SlotAt(s, t, main, seen).(val := Some(p))), t, Done(Some(p)))
  }

  /** Everything else. `ok`: whether an allocation succeeds. */
  function Manage(s: State, t: nat, ok: bool): State
    requires Shaped(s) && t < |s.threads|
  {
    var th := s.threads[t];
    match th.pc
    case Idle => Goto(s, t, Search(|s.tables| - 1, |s.tables| - 1, 0))
    case Done(_) => Goto(s, t, Idle)
    case Count(main) =>
      s.(count := s.count + 1, order := s.order + [t],
         threads := s.threads[t := th.(pc := Test(main, s.count + 1), num := s.count + 1)])
    case Test(main, no) =>
      if no >= Cap(s.tables[main]) / 2 && !s.flag then Goto(s.(flag := true, holder := Some(t)), t, Reload(no))
      else Goto(s, t, Check(main, no))
    case Reload(no) => Goto(s, t, Grow(|s.tables| - 1, no))
    case Grow(main, no) =>
      if no < Cap(s.tables[main]) / 2 then Goto(s, t, Clear(main, no))
      else if !ok then Goto(s, t, FailCount)
      else Goto(Publish(s, main, no), t, Clear(|s.tables|, no))
    case Clear(main, no) => Goto(s.(flag := false, holder := None), t, Check(main, no))
    case FailCount => Goto(CountDown(s, t), t, FailClear)
    case FailClear => Goto(s.(flag := false, holder := None), t, Done(None))
    case Check(main, no) =>
      var c := Cap(s.tables[main]);
      Goto(s, t, if no < c / 2 + c / 4 then Create(main) else Wait(no))
    case Wait(no) => Goto(s, t, Test(|s.tables| - 1, no))
    case Create(main) =>
      if ok then Goto(s.(made := s.made + 1), t, Insert(main, 0, s.made)) else Goto(s, t, Uncount)
    case Uncount => Goto(CountDown(s, t), t, Done(None))
    case _ => s
  }

  datatype Action = Action(t: nat, ok: bool)

  predicate Enabled(s: State, a: Action) {
    Shaped(s) && a.t < |s.threads|
  }

  function Apply(s: State, a: Action): State
    requires Enabled(s, a)
  {
    var pc := s.threads[a.t].pc;
    if pc.Search? || pc.Copy? || pc.Insert? then Goto(s, a.t, Probed(s, a.t))
    else if pc.CopyCas? || pc.InsertCas? || pc.CopyVal? || pc.InsertVal? then Store(s, a.t)
    else Manage(s, a.t, a.ok)
  }

  predicate Init(s: State) {
    && s.tables == [Table(seq(INITIAL_CAPACITY, _ => EmptySlot), None)]
    && !s.flag && s.count == 0 && s.made == 0 && s.order == [] && s.holder == None
    && forall t :: 0 <= t < |s.threads| ==> s.threads[t].pc.Idle? && s.threads[t].own.None?
  }

  ghost predicate Reaches(s0: State, run: seq<Action>, s: State)
    decreases |run|
  {
    if run == [] then Init(s0) && s == s0
    else
      var last := |run| - 1;
      exists m :: Reaches(s0, run[..last], m) && Enabled(m, run[last]) && s == Apply(m, run[last])
  }
}
