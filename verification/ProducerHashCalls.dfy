/**
 What a call of get_or_add_implicit_producer returns: null exactly if an allocation of its own has failed, and
 undisturbed, with memory, a producer.
 */
module ProducerHashCalls {
  import opened Options
  import opened ProducerHash
  import opened ProducerHashProof
  import opened ProducerHashRuns

  // ---------- a call that returns null, in any interleaving ----------

  /** The state after `run`. */
  function After(s0: State, run: seq<Action>): State
    decreases |run|
  {
    if run == [] then s0
    else
      var last := |run| - 1;
      var m := After(s0, run[..last]);
      if Enabled(m, run[last]) then Apply(m, run[last]) else m
  }

  lemma {:induction false} ReachedIsAfter(s0: State, run: seq<Action>, s: State)
    requires Reaches(s0, run, s)
    ensures s == After(s0, run)
    decreases |run|
  {
    if run != [] {
      var last := |run| - 1;
      var m :| Reaches(s0, run[..last], m) && Enabled(m, run[last]) && s == Apply(m, run[last]);
      ReachedIsAfter(s0, run[..last], m);
    }
  }

  /** The next step of the thread allocates: a larger table, or a producer. */
  predicate Allocates(s: State, t: nat) {
    t < |s.threads| &&
    var pc := s.threads[t].pc;
    pc.Create? || (pc.Grow? && pc.main < |s.tables| && pc.no >= Cap(s.tables[pc.main]) / 2)
  }

  /** Among the steps of `t` since it was last outside a call is an allocation that failed. */
  predicate AllocFailed(s0: State, run: seq<Action>, t: nat)
    decreases |run|
  {
    run != [] &&
    var before, a := run[..|run| - 1], run[|run| - 1];
    var m := After(s0, before);
    if a.t == t && t < |m.threads| && m.threads[t].pc.Idle? then false
    else (a.t == t && Allocates(m, t) && !a.ok) || AllocFailed(s0, before, t)
  }

  /** On the way to return null. */
  predicate Doomed(pc: PC) {
    pc.FailCount? || pc.FailClear? || pc.Uncount? || pc == Done(None)
  }

  /** A call that finds its key, here or while it copies it, finds its producer with it. */
  lemma FindsProducer(s: State, t: nat)
    requires Inv(s) && Shaped(s) && t < |s.threads|
    requires var pc := s.threads[t].pc; pc.Search? || pc.Copy? || pc.Insert?
    ensures !Doomed(Probed(s, t))
  {
    var pc := s.threads[t].pc;
    if pc.Search? && SlotAt(s, t, pc.h, pc.seen).key == Some(t) {
      FoundKey(s, t, pc.h, Probe(s.threads[t].hash, pc.seen, Cap(s.tables[pc.h])));
    }
  }

  lemma StoresProducer(s: State, t: nat)
    requires Inv(s) && Shaped(s) && t < |s.threads|
    requires var pc := s.threads[t].pc; pc.CopyCas? || pc.InsertCas? || pc.CopyVal? || pc.InsertVal?
    ensures !Doomed(Store(s, t).threads[t].pc)
  {
    assert ThreadOk(s.tables, s.threads[t], t);
  }

  lemma ManagesToFail(s: State, t: nat, ok: bool)
    requires Shaped(s) && t < |s.threads|
    requires var pc := s.threads[t].pc;
      !pc.Search? && !pc.Copy? && !pc.Insert? && !pc.CopyCas? && !pc.InsertCas? && !pc.CopyVal? && !pc.InsertVal?
    ensures var pc, pc' := s.threads[t].pc, Manage(s, t, ok).threads[t].pc;
      if pc.Idle? then pc'.Search? else if pc.Done? then pc'.Idle?
      else !pc'.Idle? && (Doomed(pc') <==> Doomed(pc) || (Allocates(s, t) && !ok))
  {
  }

  /** Only an allocation that fails sets a call on the way to null. */
  lemma StepDooms(s: State, a: Action)
    requires Inv(s) && Enabled(s, a)
    ensures a.t < |Apply(s, a).threads|
    ensures var pc, pc' := s.threads[a.t].pc, Apply(s, a).threads[a.t].pc;
      if pc.Idle? then pc'.Search? else if pc.Done? then pc'.Idle?
      else !pc'.Idle? && (Doomed(pc') <==> Doomed(pc) || (Allocates(s, a.t) && !a.ok))
  {
    var pc := s.threads[a.t].pc;
    if pc.Search? || pc.Copy? || pc.Insert? {
      FindsProducer(s, a.t);
    } else if pc.CopyCas? || pc.InsertCas? || pc.CopyVal? || pc.InsertVal? {
      StoresProducer(s, a.t);
    } else {
      ManagesToFail(s, a.t, a.ok);
    }
  }

  lemma {:induction false} DoomedIfFailed(s0: State, run: seq<Action>, s: State, t: nat)
    requires Reaches(s0, run, s) && t < |s.threads| && !s.threads[t].pc.Idle?
    ensures Doomed(s.threads[t].pc) <==> AllocFailed(s0, run, t)
    decreases |run|
  {
    if run != [] {
      var last := |run| - 1;
      var a := run[last];
      var m :| Reaches(s0, run[..last], m) && Enabled(m, a) && s == Apply(m, a);
      ReachedIsAfter(s0, run[..last], m);
      ReachableInv(s0, run[..last], m);
      OnlyOneMoves(m, a);
      StepDooms(m, a);
      if a.t != t || (!m.threads[t].pc.Idle? && !m.threads[t].pc.Done?) {
        DoomedIfFailed(s0, run[..last], m, t);
      }
    }
  }

  /** In every run a call returns the producer its thread owns, and null exactly if one of its own allocations has
      failed. */
  lemma CallReturns(s0: State, run: seq<Action>, s: State, t: nat)
    requires Reaches(s0, run, s) && t < |s.threads| && s.threads[t].pc.Done?
    ensures s.threads[t].pc.r == s.threads[t].own
    ensures s.threads[t].pc.r == None <==> AllocFailed(s0, run, t)
  {
    ReturnsOwn(s0, run, s, t);
    DoomedIfFailed(s0, run, s, t);
  }

  /** The table a call works with when it ends. */
  function MainOf(pc: PC): nat
    requires pc.Search? || pc.CopyVal? || pc.InsertVal?
  {
    match pc
    case Search(main, _, _) => main
    case CopyVal(main, _, _) => main
    case InsertVal(main, _, _) => main
  }

  /** Table `k` has a slot with the thread's key and producer `p`. */
  predicate Lists(s: State, k: nat, t: nat, p: nat) {
    k < |s.tables| && exists i :: 0 <= i < Cap(s.tables[k]) && s.tables[k].slots[i].key == Some(t) && s.tables[k].slots[i].val == Some(p)
  }

  /** In every run a call that returns a producer leaves the thread's key with this producer in the table it has taken
      for the main one: a producer found in an older table has been copied. */
  lemma ListedInMain(s0: State, run: seq<Action>, s: State, a: Action, p: nat)
    requires Reaches(s0, run, s) && Enabled(s, a) && Apply(s, a).threads[a.t].pc == Done(Some(p))
    ensures var pc := s.threads[a.t].pc;
      (pc.Search? || pc.CopyVal? || pc.InsertVal?) && Lists(Apply(s, a), MainOf(pc), a.t, p)
  {
    ReachableInv(s0, run, s);
    EndsWhere(s, a);
    if s.threads[a.t].pc.Search? { FoundInMain(s, a.t, p); } else { StoredInMain(s, a.t, p); }
  }

  lemma EndsWhere(s: State, a: Action)
    requires Enabled(s, a) && Apply(s, a).threads[a.t].pc.Done? && Apply(s, a).threads[a.t].pc.r.Some?
    ensures var pc := s.threads[a.t].pc;
      if pc.Search? then Apply(s, a) == Goto(s, a.t, Probed(s, a.t))
      else (pc.CopyVal? || pc.InsertVal?) && Apply(s, a) == Store(s, a.t)
  {
    ManagesNoProducer(s, a.t, a.ok);
  }

  lemma ManagesNoProducer(s: State, t: nat, ok: bool)
    requires Shaped(s) && t < |s.threads|
    ensures Manage(s, t, ok).threads[t].pc.Done? ==> Manage(s, t, ok).threads[t].pc.r.None?
  {
  }

  lemma FoundInMain(s: State, t: nat, p: nat)
    requires Shaped(s) && t < |s.threads| && s.threads[t].pc.Search? && Probed(s, t) == Done(Some(p))
    ensures Lists(s, s.threads[t].pc.main, t, p)
  {
    var pc := s.threads[t].pc;
    var i := Probe(s.threads[t].hash, pc.seen, Cap(s.tables[pc.main]));
    assert s.tables[pc.main].slots[i] == SlotAt(s, t, pc.h, pc.seen);
  }

  lemma StoredInMain(s: State, t: nat, p: nat)
    requires Inv(s) && Shaped(s) && t < |s.threads| && (s.threads[t].pc.CopyVal? || s.threads[t].pc.InsertVal?)
    requires Store(s, t).threads[t].pc == Done(Some(p))
    ensures Lists(Store(s, t), s.threads[t].pc.main, t, p)
  {
    ValIs(s, t);
    var k := s.threads[t].pc.main;
    var i := Probe(s.threads[t].hash, s.threads[t].pc.seen, Cap(s.tables[k]));
    assert Store(s, t).tables[k].slots[i].key == Some(t) && Store(s, t).tables[k].slots[i].val == Some(p);
  }

  // ---------- a call that nobody disturbs ----------

  /** Below three quarters, by the test of the code. */
  predicate Fits(no: nat, cap: nat) {
    no < cap / 2 + cap / 4
  }

  /** The call will add to the table it has, or find its producer, without a larger table. */
  predicate HasRoom(s: State, t: nat)
    requires t < |s.threads|
  {
    var pc := s.threads[t].pc;
    match pc
    case Search(main, _, _) => main < |s.tables| && (s.threads[t].own.Some? || Fits(s.count + 1, Cap(s.tables[main])))
    case Count(main) => main < |s.tables| && Fits(s.count + 1, Cap(s.tables[main]))
    case Test(main, no) => main < |s.tables| && Fits(no, Cap(s.tables[main]))
    case Check(main, no) => main < |s.tables| && Fits(no, Cap(s.tables[main]))
    case _ => !Holds(pc) && !pc.Wait?
  }

  /** Inside a call that need not wait for the resize flag: it is free, or this call holds it, or does not need it. */
  predicate Unhindered(s: State, t: nat) {
    && t < |s.threads|
    && var pc := s.threads[t].pc;
    && (s.flag ==> Holds(pc) || HasRoom(s, t)) && !pc.Idle? && !Doomed(pc) && !pc.Wait?
    && (pc.Clear? ==> pc.main < |s.tables| && pc.no < Cap(s.tables[pc.main]) / 2)
    && (pc.Check? ==> pc.main < |s.tables| && Fits(pc.no, Cap(s.tables[pc.main])))
  }

  /** The parts of a call, the last first. */
  function Stage(pc: PC): nat {
    match pc
    case Search(_, _, _) => 12
    case Count(_) => 11
    case Test(_, _) => 10
    case Reload(_) => 9
    case Grow(_, _) => 8
    case Clear(_, _) => 7
    case Check(_, _) => 6
    case Create(_) => 5
    case Insert(_, _, _) => 4
    case InsertCas(_, _, _) => 4
    case InsertVal(_, _, _) => 3
    case Copy(_, _, _) => 2
    case CopyCas(_, _, _) => 2
    case CopyVal(_, _, _) => 1
    case _ => 0
  }

  /** Within a part: the table of the loop, the slots of it that are left, and the CAS of a slot. */
  function TableLeft(pc: PC): nat {
    if LoopTable(pc).Some? then LoopTable(pc).value else 0
  }

  function SlotsLeft(s: State, pc: PC): nat {
    if LoopTable(pc).Some? && LoopTable(pc).value < |s.tables| && Passed(pc) <= Cap(s.tables[LoopTable(pc).value])
    then Cap(s.tables[LoopTable(pc).value]) - Passed(pc) else 0
  }

  function CasLeft(pc: PC): nat {
    if pc.Copy? || pc.Insert? then 1 else 0
  }

  predicate Nearer(s: State, s': State, t: nat) {
    t < |s.threads| && t < |s'.threads| &&
    var pc, pc' := s.threads[t].pc, s'.threads[t].pc;
    || Stage(pc') < Stage(pc)
    || (Stage(pc') == Stage(pc) && TableLeft(pc') < TableLeft(pc))
    || (Stage(pc') == Stage(pc) && TableLeft(pc') == TableLeft(pc) && SlotsLeft(s', pc') < SlotsLeft(s, pc))
    || (Stage(pc') == Stage(pc) && TableLeft(pc') == TableLeft(pc) && SlotsLeft(s', pc') == SlotsLeft(s, pc)
        && CasLeft(pc') < CasLeft(pc))
  }

  /** Probing and storing leave the flag and the sizes of the tables alone. */
  lemma ProbeKeeps(s: State, t: nat)
    requires Shaped(s) && t < |s.threads|
    requires var pc := s.threads[t].pc;
      pc.Search? || pc.Copy? || pc.Insert? || pc.CopyCas? || pc.InsertCas? || pc.CopyVal? || pc.InsertVal?
    ensures var s', pc, pc' := Apply(s, Action(t, true)), s.threads[t].pc, Apply(s, Action(t, true)).threads[t].pc;
      && s'.flag == s.flag && s'.count == s.count && |s'.tables| == |s.tables|
      && (pc.Search? ==> s'.threads[t].own == s.threads[t].own)
      && (pc.Search? && pc'.Search? ==> pc'.main == pc.main) && (pc.Search? && pc'.Count? ==> pc'.main == pc.main)
      && (pc'.Search? || pc'.Count? ==> pc.Search?) && !pc'.Test?
      && (forall k :: 0 <= k < |s.tables| ==> Cap(s'.tables[k]) == Cap(s.tables[k]))
      && !pc'.Wait? && !pc'.Clear? && !pc'.Check? && !Holds(pc')
      && (LoopTable(pc').None? || (pc.Search? && pc'.Copy?) ==> Stage(pc') < Stage(pc))
      && (LoopTable(pc').Some? && !(pc.Search? && pc'.Copy?) ==> Stage(pc') == Stage(pc))
  {
  }

  lemma ProbeUnhindered(s0: State, run: seq<Action>, s: State, t: nat)
    requires Reaches(s0, run, s) && Unhindered(s, t) && Enabled(s, Action(t, true)) && !s.threads[t].pc.Done?
    requires var pc := s.threads[t].pc; LoopTable(pc).Some? || pc.CopyVal? || pc.InsertVal?
    ensures var s' := Apply(s, Action(t, true)); Unhindered(s', t) && Nearer(s, s', t)
  {
    ReachableInv(s0, run, s);
    ProbeStaysUnhindered(s, t);
    if LoopTable(s.threads[t].pc).Some? { LoopAdvances(s0, run, s, t, true); }
    ProbeIsNearer(s, t);
  }

  lemma ProbeIsNearer(s: State, t: nat)
    requires Shaped(s) && t < |s.threads|
    requires var pc := s.threads[t].pc; LoopTable(pc).Some? || pc.CopyVal? || pc.InsertVal?
    requires var pc, pc' := s.threads[t].pc, Apply(s, Action(t, true)).threads[t].pc;
      LoopTable(pc).Some? ==> LoopTable(pc').None? || (pc.Search? && pc'.Copy?) || Shorter(s, pc, pc')
    ensures Nearer(s, Apply(s, Action(t, true)), t)
  {
    ProbeKeeps(s, t);
  }

  lemma ProbeStaysUnhindered(s: State, t: nat)
    requires Inv(s) && Unhindered(s, t) && Enabled(s, Action(t, true)) && !s.threads[t].pc.Done?
    requires var pc := s.threads[t].pc; LoopTable(pc).Some? || pc.CopyVal? || pc.InsertVal?
    ensures Unhindered(Apply(s, Action(t, true)), t)
  {
    StepDooms(s, Action(t, true));
    ProbeKeeps(s, t);
    if s.threads[t].pc.Search? && Probed(s, t).Count? { CountedHasNone(s, t); }
  }

  lemma CountedHasNone(s: State, t: nat)
    requires Inv(s) && Shaped(s) && t < |s.threads| && s.threads[t].pc.Search? && Probed(s, t).Count?
    ensures s.threads[t].own.None?
  {
    SearchMisses(s, t);
  }

  lemma GrowUnhindered(s: State, t: nat)
    requires Inv(s) && Shaped(s) && Unhindered(s, t) && s.threads[t].pc.Grow?
    ensures var s' := Apply(s, Action(t, true)); Unhindered(s', t) && Nearer(s, s', t)
  {
    if s.threads[t].pc.no >= Cap(s.tables[s.threads[t].pc.main]) / 2 { PublishUnhindered(s, t); }
  }

  lemma PublishUnhindered(s: State, t: nat)
    requires Inv(s) && Shaped(s) && Unhindered(s, t) && s.threads[t].pc.Grow?
    requires s.threads[t].pc.no >= Cap(s.tables[s.threads[t].pc.main]) / 2
    ensures var s' := Apply(s, Action(t, true)); Unhindered(s', t) && Nearer(s, s', t)
  {
    var pc := s.threads[t].pc;
    assert Cap(s.tables[pc.main]) % 4 == 0;
    NewCapacityGrows(2 * Cap(s.tables[pc.main]), pc.no);
    var s' := Goto(Publish(s, pc.main, pc.no), t, Clear(|s.tables|, pc.no));
    assert Apply(s, Action(t, true)) == s' && pc.no < Cap(s'.tables[|s.tables|]) / 2;
  }

  lemma ManageUnhindered(s: State, t: nat)
    requires Shaped(s) && Unhindered(s, t) && Stage(s.threads[t].pc) > 4 && !s.threads[t].pc.Grow? && !s.threads[t].pc.Search?
    ensures var s' := Apply(s, Action(t, true)); Unhindered(s', t) && Nearer(s, s', t)
  {
  }

  /** `n` successful steps of thread `t`. */
  function Steps(t: nat, n: nat): (r: seq<Action>)
    ensures |r| == n && forall i :: 0 <= i < n ==> r[i] == Action(t, true)
  {
    seq(n, _ => Action(t, true))
  }

  lemma StepsNext(run: seq<Action>, t: nat, n: nat)
    ensures run + [Action(t, true)] + Steps(t, n) == run + Steps(t, n + 1)
  {
  }

  lemma NoSteps(run: seq<Action>, t: nat)
    ensures run + Steps(t, 0) == run
  {
  }

  lemma ReachesNext(s0: State, run: seq<Action>, s: State, a: Action)
    requires Reaches(s0, run, s) && Enabled(s, a)
    ensures Reaches(s0, run + [a], Apply(s, a))
  {
    assert (run + [a])[..|run + [a]| - 1] == run;
  }

  lemma StepUnhindered(s0: State, run: seq<Action>, s: State, t: nat) returns (s': State)
    requires Reaches(s0, run, s) && Unhindered(s, t) && !s.threads[t].pc.Done?
    ensures Reaches(s0, run + [Action(t, true)], s') && Unhindered(s', t) && Nearer(s, s', t)
  {
    ReachableInv(s0, run, s);
    InvShaped(s);
    s' := Apply(s, Action(t, true));
    ReachesNext(s0, run, s, Action(t, true));
    var pc := s.threads[t].pc;
    if LoopTable(pc).Some? || pc.CopyVal? || pc.InsertVal? {
      ProbeUnhindered(s0, run, s, t);
    } else if pc.Grow? {
      GrowUnhindered(s, t);
    } else {
      ManageUnhindered(s, t);
    }
  }

  lemma {:induction false} Ends(s0: State, run: seq<Action>, s: State, t: nat) returns (n: nat, s': State)
    requires Reaches(s0, run, s) && Unhindered(s, t)
    ensures Reaches(s0, run + Steps(t, n), s') && t < |s'.threads| && s'.threads[t].pc.Done? && s'.threads[t].pc.r.Some?
    decreases Stage(s.threads[t].pc), TableLeft(s.threads[t].pc), SlotsLeft(s, s.threads[t].pc), CasLeft(s.threads[t].pc)
  {
    if s.threads[t].pc.Done? {
      n, s' := 0, s;
      NoSteps(run, t);
    } else {
      var m := StepUnhindered(s0, run, s, t);
      var run' := run + [Action(t, true)];
      n, s' := Ends(s0, run', m, t);
      StepsNext(run, t, n);
      n := n + 1;
    }
  }

  /** A call has to wait for the thread that holds the resize flag: it has to add its key, and the newest table
      has no room for it below three quarters. */
  predicate MustWait(s: State, t: nat) {
    s.tables != [] && t < |s.threads| && s.flag && s.threads[t].own.None? && !Fits(s.count + 1, Cap(s.tables[|s.tables| - 1]))
  }

  lemma CallBegins(s0: State, run: seq<Action>, s: State, t: nat)
    requires Reaches(s0, run, s) && t < |s.threads| && s.threads[t].pc.Idle?
    ensures Enabled(s, Action(t, true))
    ensures !MustWait(s, t) ==> Unhindered(Apply(s, Action(t, true)), t)
  {
    ReachableInv(s0, run, s);
    InvShaped(s);
    assert ThreadOk(s.tables, s.threads[t], t);
  }

  /** From any reachable state, whatever other calls are halfway, a call that runs undisturbed and gets the memory it
      asks for ends, and returns the thread's own producer, unless it must wait for a resize under way. */
  lemma LoneCall(s0: State, run: seq<Action>, s: State, t: nat) returns (n: nat, s': State, p: nat)
    requires Reaches(s0, run, s) && t < |s.threads| && s.threads[t].pc.Idle? && !MustWait(s, t)
    ensures Reaches(s0, run + Steps(t, n), s')
    ensures t < |s'.threads| && s'.threads[t].pc == Done(Some(p)) && s'.threads[t].own == Some(p)
  {
    CallBegins(s0, run, s, t);
    var a := Action(t, true);
    ReachesNext(s0, run, s, a);
    n, s' := Ends(s0, run + [a], Apply(s, a), t);
    StepsNext(run, t, n);
    n := n + 1;
    ReturnsOwn(s0, run + Steps(t, n), s', t);
    p := s'.threads[t].pc.r.value;
  }

  // ---------- a call that must wait ----------

  /** Going round until the holder of the flag is done. */
  predicate Waiting(s: State, t: nat) {
    && s.tables != [] && t < |s.threads| && s.flag && s.threads[t].own.None?
    && var newest := |s.tables| - 1;
       var cap := Cap(s.tables[newest]);
       match s.threads[t].pc
       case Idle => !Fits(s.count + 1, cap)
       case Search(main, _, _) => main == newest && !Fits(s.count + 1, cap)
       case Count(main) => main == newest && !Fits(s.count + 1, cap)
       case Test(main, no) => main == newest && !Fits(no, cap)
       case Check(main, no) => main == newest && !Fits(no, cap)
       case Wait(no) => !Fits(no, cap)
       case _ => false
  }

  lemma SearchFindsNothing(s: State, t: nat)
    requires Inv(s) && Shaped(s) && t < |s.threads| && s.threads[t].pc.Search? && s.threads[t].own.None?
    ensures Probed(s, t).Search? || Probed(s, t).Count?
    ensures Probed(s, t).main == s.threads[t].pc.main
  {
    var pc := s.threads[t].pc;
    if SlotAt(s, t, pc.h, pc.seen).key == Some(t) {
      FoundKey(s, t, pc.h, Probe(s.threads[t].hash, pc.seen, Cap(s.tables[pc.h])));
    }
  }

  lemma GoesRound(s: State, t: nat)
    requires Inv(s) && Shaped(s) && Waiting(s, t)
    ensures Waiting(Apply(s, Action(t, true)), t)
  {
    if s.threads[t].pc.Search? { SearchFindsNothing(s, t); } else { LoopGoesRound(s, t); }
  }

  lemma LoopGoesRound(s: State, t: nat)
    requires Shaped(s) && Waiting(s, t) && !s.threads[t].pc.Search?
    ensures Waiting(Apply(s, Action(t, true)), t)
  {
  }

  lemma LastOfSteps(run: seq<Action>, t: nat, n: nat)
    requires n > 0
    ensures var all := run + Steps(t, n);
      |all| > 0 && all[|all| - 1] == Action(t, true) && all[..|all| - 1] == run + Steps(t, n - 1)
  {
  }

  lemma LastStep(s0: State, run: seq<Action>, s: State) returns (m: State)
    requires Reaches(s0, run, s) && run != []
    ensures Reaches(s0, run[..|run| - 1], m) && Enabled(m, run[|run| - 1]) && s == Apply(m, run[|run| - 1])
  {
    var last := |run| - 1;
    m :| Reaches(s0, run[..last], m) && Enabled(m, run[last]) && s == Apply(m, run[last]);
  }

  lemma {:induction false} StillWaiting(s0: State, run: seq<Action>, s: State, t: nat, n: nat, s': State)
    requires Reaches(s0, run, s) && Waiting(s, t) && Reaches(s0, run + Steps(t, n), s')
    ensures Waiting(s', t)
    decreases n
  {
    if n == 0 {
      NoSteps(run, t);
      ReachedIsAfter(s0, run, s);
      ReachedIsAfter(s0, run, s');
    } else {
      LastOfSteps(run, t, n);
      var m := LastStep(s0, run + Steps(t, n), s');
      StillWaiting(s0, run, s, t, n - 1, m);
      ReachableInv(s0, run + Steps(t, n - 1), m);
      GoesRound(m, t);
    }
  }

  /** Undisturbed, with memory, the call of `t` returns. */
  ghost predicate ReturnsAlone(s0: State, run: seq<Action>, t: nat) {
    exists n: nat, s' :: Reaches(s0, run + Steps(t, n), s') && t < |s'.threads| && s'.threads[t].pc.Done?
  }

  lemma WaitsForever(s0: State, run: seq<Action>, s: State, t: nat)
    requires Reaches(s0, run, s) && Waiting(s, t)
    ensures !ReturnsAlone(s0, run, t)
  {
    if ReturnsAlone(s0, run, t) {
      var n: nat, s' :| Reaches(s0, run + Steps(t, n), s') && t < |s'.threads| && s'.threads[t].pc.Done?;
      StillWaiting(s0, run, s, t, n, s');
    }
  }

  lemma ReturnsUnlessWaiting(s0: State, run: seq<Action>, s: State, t: nat)
    requires Reaches(s0, run, s) && t < |s.threads| && s.threads[t].pc.Idle? && !MustWait(s, t)
    ensures ReturnsAlone(s0, run, t)
  {
    var n, s', p := LoneCall(s0, run, s, t);
    assert Reaches(s0, run + Steps(t, n), s');
  }

  /** Exactly: a call that runs undisturbed with memory returns if and only if it need not wait for the thread that holds
      the resize flag. */
  lemma LoneCallReturnsExactly(s0: State, run: seq<Action>, s: State, t: nat)
    requires Reaches(s0, run, s) && t < |s.threads| && s.threads[t].pc.Idle?
    ensures ReturnsAlone(s0, run, t) <==> !MustWait(s, t)
  {
    if MustWait(s, t) { WaitsForever(s0, run, s, t); } else { ReturnsUnlessWaiting(s0, run, s, t); }
  }
}
