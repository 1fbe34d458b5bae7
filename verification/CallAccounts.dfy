/**
 The books of the client: every call made is accounted for exactly once, as refused, replied to, timed out,
 dropped by a drain, still pending, or pushed out by an id that came round again.
 */
module CallAccounts {
  import opened CallTable
  import opened CallRuns
  import opened Options
  import opened Sets

  datatype Kind = InMaking | IsPending | IsDue | WasRefused | WasReplied | HasTimedOut | WasForgotten | WasOverwritten

  function KindOfOutcome(o: Outcome): Kind {
    match o
    case NotConnected => WasRefused
    case Replied(_, _) => WasReplied
    case TimedOut => HasTimedOut
  }

  function KindOf(f: Fate): Kind {
    match f
    case Making => InMaking
    case Pending(_, _) => IsPending
    case Due(_) => IsDue
    case Settled(o) => KindOfOutcome(o)
    case Forgotten => WasForgotten
    case Overwritten => WasOverwritten
  }

  function FateKinds(fates: seq<Fate>): (r: seq<Kind>)
    ensures |r| == |fates| && forall c :: 0 <= c < |fates| ==> r[c] == KindOf(fates[c])
  {
    seq(|fates|, c requires 0 <= c < |fates| => KindOf(fates[c]))
  }

  function LogKinds(log: seq<Callback>): (r: seq<Kind>)
    ensures |r| == |log| && forall i :: 0 <= i < |log| ==> r[i] == KindOfOutcome(log[i].outcome)
  {
    seq(|log|, i requires 0 <= i < |log| => KindOfOutcome(log[i].outcome))
  }

  function Count(ks: seq<Kind>, k: Kind): nat {
    if ks == [] then 0 else Count(ks[..|ks| - 1], k) + (if ks[|ks| - 1] == k then 1 else 0)
  }

  function Where(ks: seq<Kind>, k: Kind): set<nat> {
    set i: nat | i < |ks| && ks[i] == k
  }

  lemma {:induction false} CountIsSize(ks: seq<Kind>, k: Kind)
    ensures |Where(ks, k)| == Count(ks, k)
    decreases |ks|
  {
    if ks != [] {
      var last := |ks| - 1;
      CountIsSize(ks[..last], k);
      assert Where(ks, k) == Where(ks[..last], k) + (if ks[last] == k then {last} else {});
    }
  }

  /** Every kind counted is everything counted. */
  lemma {:induction false} KindsCoverAll(ks: seq<Kind>)
    ensures |ks| == Count(ks, InMaking) + Count(ks, IsPending) + Count(ks, IsDue) + Count(ks, WasRefused)
                    + Count(ks, WasReplied) + Count(ks, HasTimedOut) + Count(ks, WasForgotten) + Count(ks, WasOverwritten)
    decreases |ks|
  {
    if ks != [] { KindsCoverAll(ks[..|ks| - 1]); }
  }

  /** Pending calls and entries of the table correspond one to one. */
  lemma PendingIsTable(s: State)
    requires Inv(s)
    ensures Count(FateKinds(s.fates), IsPending) == |s.client.reqmap|
  {
    var reqmap := s.client.reqmap;
    var f := map id | id in reqmap :: reqmap[id].call;
    assert f.Keys == reqmap.Keys;
    ImageSize(f.Keys, f);
    forall c | c in Where(FateKinds(s.fates), IsPending) ensures c in Image(f.Keys, f) {
      assert s.fates[c].id in reqmap;
      assert f[s.fates[c].id] == c;
    }
    assert Where(FateKinds(s.fates), IsPending) == Image(f.Keys, f);
    CountIsSize(FateKinds(s.fates), IsPending);
  }

  /** The calls of the callbacks of one kind. */
  function RunBy(log: seq<Callback>, k: Kind): (f: map<nat, nat>)
    ensures f.Keys == Where(LogKinds(log), k) && forall i :: i in f ==> f[i] == log[i].call
  {
    map i: nat | i < |log| && LogKinds(log)[i] == k :: log[i].call
  }

  lemma RunAreSettled(s: State, k: Kind)
    requires Inv(s) && (k.WasRefused? || k.WasReplied? || k.HasTimedOut?)
    ensures var f := RunBy(s.client.log, k); Where(FateKinds(s.fates), k) == Image(f.Keys, f)
  {
    var f := RunBy(s.client.log, k);
    forall c | c in Where(FateKinds(s.fates), k) ensures c in Image(f.Keys, f) {
      var i :| 0 <= i < |s.client.log| && s.client.log[i] == Callback(c, s.fates[c].o);
      assert f[i] == c;
    }
    forall i | i in f ensures f[i] in Where(FateKinds(s.fates), k) {
      assert s.fates[s.client.log[i].call] == Settled(s.client.log[i].outcome);
    }
  }

  /** Callbacks run, of each kind, are as many as the calls that ended that way. */
  lemma RunIsSettled(s: State, k: Kind)
    requires Inv(s) && (k.WasRefused? || k.WasReplied? || k.HasTimedOut?)
    ensures Count(FateKinds(s.fates), k) == Count(LogKinds(s.client.log), k)
  {
    var f := RunBy(s.client.log, k);
    ImageSize(f.Keys, f);
    RunAreSettled(s, k);
    CountIsSize(FateKinds(s.fates), k);
    CountIsSize(LogKinds(s.client.log), k);
  }

  /** At every moment of every run: calls issued are calls being made, refusals, replies, timeouts and callbacks about
      to run, calls dropped by drains, calls pending in the table, and calls pushed out of it. */
  lemma CallsAccountedFor(s0: State, run: seq<Action>, s: State)
    requires Reaches(s0, run, s)
    ensures var ran, ended := LogKinds(s.client.log), FateKinds(s.fates);
      s.client.calls == Busy(s.callers) + Count(ran, WasRefused) + Count(ran, WasReplied) + Count(ran, HasTimedOut)
                        + |DueNow(s.upd)| + Count(ended, WasForgotten) + |s.client.reqmap| + Count(ended, WasOverwritten)
  {
    ReachableInv(s0, run, s);
    KindsCoverAll(FateKinds(s.fates));
    PendingIsTable(s);
    RunIsSettled(s, WasRefused);
    RunIsSettled(s, WasReplied);
    RunIsSettled(s, HasTimedOut);
    MakingIsBusy(s);
    DueIsHeld(s0, run, s);
  }

  // ---------- calls being made, and callbacks about to run ----------

  /** How many threads are inside Call. */
  function Busy(callers: seq<CallerPC>): nat {
    |BusyThreads(callers)|
  }

  function BusyThreads(callers: seq<CallerPC>): set<nat> {
    set t: nat | t < |callers| && !callers[t].CIdle?
  }

  /** The calls the threads are making. */
  function MadeBy(callers: seq<CallerPC>): (f: map<nat, nat>)
    ensures f.Keys == BusyThreads(callers) && forall t :: t in f ==> f[t] == callers[t].c
  {
    map t: nat | t < |callers| && !callers[t].CIdle? :: callers[t].c
  }

  /** Calls in the making are as many as the threads inside Call. */
  lemma MakingIsBusy(s: State)
    requires Inv(s)
    ensures Count(FateKinds(s.fates), InMaking) == Busy(s.callers)
  {
    var f := MadeBy(s.callers);
    forall t, u | t in f && u in f && t != u ensures f[t] != f[u] {
      assert CallOf(s.callers[t]) == Some(f[t]) && CallOf(s.callers[u]) == Some(f[u]);
    }
    ImageSize(f.Keys, f);
    MakingAreMade(s);
    CountIsSize(FateKinds(s.fates), InMaking);
  }

  lemma MakingAreMade(s: State)
    requires Inv(s)
    ensures var f := MadeBy(s.callers); Where(FateKinds(s.fates), InMaking) == Image(f.Keys, f)
  {
    var f := MadeBy(s.callers);
    forall c | c in Where(FateKinds(s.fates), InMaking) ensures c in Image(f.Keys, f) {
      assert Makes(s.callers, c);
      var t :| 0 <= t < |s.callers| && CallOf(s.callers[t]) == Some(c);
      assert t in f && f[t] == c;
    }
    forall t | t in f ensures f[t] in Where(FateKinds(s.fates), InMaking) {
      assert CallerOk(s.callers[t], s.fates, s.turns) && CallOf(s.callers[t]) == Some(f[t]);
    }
  }

  function HeldBy(due: seq<Callback>): (f: map<nat, nat>)
    ensures f.Keys == Upto(|due|) && forall i :: i in f ==> f[i] == due[i].call
  {
    map i: nat | i < |due| :: due[i].call
  }

  predicate OnlyDue(fates: seq<Fate>, due: seq<Callback>) {
    forall i :: 0 <= i < |due| ==> due[i].call < |fates| && fates[due[i].call].Due?
  }

  lemma DueAreHeld(fates: seq<Fate>, due: seq<Callback>)
    requires AllDue(fates, due) && OnlyDue(fates, due)
    ensures Where(FateKinds(fates), IsDue) == Image(HeldBy(due).Keys, HeldBy(due))
  {
    forall c | c in Where(FateKinds(fates), IsDue) ensures c in Image(HeldBy(due).Keys, HeldBy(due)) {
      assert fates[c].Due?;
      var i :| 0 <= i < |due| && due[i] == Callback(c, fates[c].o);
      assert HeldBy(due)[i] == c;
    }
    forall c | c in Image(HeldBy(due).Keys, HeldBy(due)) ensures c in Where(FateKinds(fates), IsDue) {
      var i :| i in HeldBy(due) && HeldBy(due)[i] == c;
      assert fates[c].Due?;
    }
  }

  /** The callbacks about to run are the ones the update thread holds: there are as many, and they are those of the
      calls that have left the table. */
  lemma DueIsHeld(s0: State, run: seq<Action>, s: State)
    requires Reaches(s0, run, s)
    ensures Count(FateKinds(s.fates), IsDue) == |DueNow(s.upd)|
    ensures forall i :: 0 <= i < |DueNow(s.upd)| ==>
              var cb := DueNow(s.upd)[i]; cb.call < |s.fates| && s.fates[cb.call] == Due(cb.outcome)
  {
    ReachableInv(s0, run, s);
    var f := HeldBy(DueNow(s.upd));
    ImageSize(f.Keys, f);
    DueAreHeld(s.fates, DueNow(s.upd));
    CountIsSize(FateKinds(s.fates), IsDue);
  }
}
