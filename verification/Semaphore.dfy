/**
 spsc_sema::LightweightSemaphore (ext/MoodyCamel/atomicops.h) as a transition system: one waiter, whose
 waits may time out, and one signaller, one atomic access or kernel call a step.

 `signalled` (initial count plus all signals applied) and `taken` (successful waits) are auxiliary.
 */
module Semaphore {

  const SPINS: nat := 10000

  /** `tryWait()`, `wait()` or `wait(timeout)` with a non-negative timeout. */
  datatype WaitKind = Try | Forever | Timed

  datatype WaitPC =
    | WIdle
    | WLook(k: WaitKind)                 // tryWait: load m_count
    | WSpin(left: nat, k: WaitKind)      // spin: load m_count
    | WTake                              // m_count.fetch_add(-1) after a positive count was seen
    | WEnter(k: WaitKind)                // m_count.fetch_add(-1) after spinning in vain
    | WSleep(k: WaitKind)                // m_sema.wait() or m_sema.timed_wait()
    | WRestore                           // repair loop: m_count.fetch_add(1)
    | WRetake                            // repair loop: m_count.fetch_add(-1)
    | WPoll                              // repair loop: m_sema.try_wait()

  datatype SigPC = SIdle | SAdd(n: nat) | SPost

  datatype State = State(count: int, sema: nat, waiter: WaitPC, signaller: SigPC, signalled: int, taken: int)

  function Succeed(s: State): State {
    s.(waiter := WIdle, taken := s.taken + 1)
  }

  predicate WaitEnabled(s: State, timeout: bool) {
    match s.waiter
    case WIdle => false
    case WSleep(k) => if timeout then k == Timed else s.sema > 0
    case _ => true
  }

  function WaitStep(s: State, timeout: bool): State
    requires WaitEnabled(s, timeout)
  {
    match s.waiter
    case WLook(k) => s.(waiter := if s.count > 0 then WTake else if k == Try then WIdle else WSpin(SPINS, k))
    case WSpin(left, k) =>
      s.(waiter := if left == 0 then WEnter(k) else if s.count > 0 then WTake else WSpin(left - 1, k))
    case WTake => Succeed(s.(count := s.count - 1))
    case WEnter(k) =>
      var s' := s.(count := s.count - 1);
      if s.count > 0 then Succeed(s') else s'.(waiter := WSleep(k))
    case WSleep(_) => if timeout then s.(waiter := WRestore) else Succeed(s.(sema := s.sema - 1))
    case WRestore => s.(count := s.count + 1, waiter := if s.count < 0 then WIdle else WRetake)
    case WRetake => s.(count := s.count - 1, waiter := if s.count > 0 then WPoll else WRestore)
    case WPoll => if s.sema > 0 then Succeed(s.(sema := s.sema - 1)) else s.(waiter := WRestore)
  }

  function SignalStep(s: State): State
    requires !s.signaller.SIdle?
  {
    match s.signaller
    case SAdd(n) =>
      s.(count := s.count + n, signalled := s.signalled + n, signaller := if s.count < 0 then SPost else SIdle)
    case SPost => s.(sema := s.sema + 1, signaller := SIdle)
  }

  datatype Action = Wait(k: WaitKind) | Signal(n: nat) | WaitMove(timeout: bool) | SignalMove

  predicate Enabled(s: State, a: Action) {
    match a
    case Wait(_) => s.waiter.WIdle?
    case Signal(_) => s.signaller.SIdle?
    case WaitMove(timeout) => WaitEnabled(s, timeout)
    case SignalMove => !s.signaller.SIdle?
  }

  function Apply(s: State, a: Action): State
    requires Enabled(s, a)
  {
    match a
    case Wait(k) => s.(waiter := WLook(k))
    case Signal(n) => s.(signaller := SAdd(n))
    case WaitMove(timeout) => WaitStep(s, timeout)
    case SignalMove => SignalStep(s)
  }

  predicate Init(s: State, initialCount: nat) {
    s == State(initialCount, 0, WIdle, SIdle, initialCount, 0)
  }

  ghost predicate Reaches(s0: State, initialCount: nat, run: seq<Action>, s: State)
    decreases |run|
  {
    if run == [] then Init(s0, initialCount) && s == s0
    else
      var last := |run| - 1;
      exists m :: Reaches(s0, initialCount, run[..last], m) && Enabled(m, run[last]) && s == Apply(m, run[last])
  }

  /** The signals of a run: how many tokens it offers, and whether each `signal` offers at least one. */
  predicate EverySignalCounts(run: seq<Action>) {
    forall i :: 0 <= i < |run| && run[i].Signal? ==> run[i].n > 0
  }

  // ---------- the invariant ----------

  /** 1 while the waiter has taken a token off the count that it has not been given. */
  function Debt(pc: WaitPC): int {
    if pc.WSleep? || pc.WRestore? || pc.WPoll? then 1 else 0
  }

  /** Kernel posts made or about to be made and not consumed. */
  function Posts(s: State): int {
    s.sema + (if s.signaller.SPost? then 1 else 0)
  }

  predicate Inv(s: State) {
    && s.count == s.signalled - s.taken - Debt(s.waiter)
    && 0 <= s.taken <= s.signalled
    && (s.waiter.WTake? ==> s.count > 0)
    && (if s.waiter.WSleep? || s.waiter.WRestore? || s.waiter.WPoll? || s.waiter.WRetake?
        then Posts(s) == (if s.taken < s.signalled then 1 else 0)
        else Posts(s) == 0)
    && (s.waiter.WRetake? || s.waiter.WPoll? ==> s.taken < s.signalled)
    && (s.signaller.SAdd? ==> s.signaller.n > 0)
  }

  lemma ActionKeepsInv(s: State, a: Action)
    requires Inv(s) && Enabled(s, a) && (a.Signal? ==> a.n > 0)
    ensures Inv(Apply(s, a))
  {
  }

  lemma {:induction false} ReachableInv(s0: State, initialCount: nat, run: seq<Action>, s: State)
    requires Reaches(s0, initialCount, run, s) && EverySignalCounts(run)
    ensures Inv(s)
    decreases |run|
  {
    if run != [] {
      var last := |run| - 1;
      var m :| Reaches(s0, initialCount, run[..last], m) && Enabled(m, run[last]) && s == Apply(m, run[last]);
      ReachableInv(s0, initialCount, run[..last], m);
      ActionKeepsInv(m, run[last]);
    }
  }

  // ---------- what holds of every run ----------

  /** Conservation: no wait succeeds without a token, no token is lost, whatever times out when. With the
      waiter idle the count is exactly the tokens not taken, and no kernel post is left over. */
  lemma TokensConserved(s0: State, initialCount: nat, run: seq<Action>, s: State)
    requires Reaches(s0, initialCount, run, s) && EverySignalCounts(run)
    ensures 0 <= s.taken <= s.signalled
    ensures s.waiter.WIdle? ==> s.count == s.signalled - s.taken && s.sema == 0 && !s.signaller.SPost?
  {
    ReachableInv(s0, initialCount, run, s);
  }

  /** The assertion of `signal`, `oldCount >= -1`, always holds. */
  lemma CountAtLeastMinusOne(s0: State, initialCount: nat, run: seq<Action>, s: State)
    requires Reaches(s0, initialCount, run, s) && EverySignalCounts(run)
    ensures s.count >= -1
  {
    ReachableInv(s0, initialCount, run, s);
  }

  /** A waiter asleep while there is a token has its wake-up posted or about to be. */
  lemma NoLostWakeup(s0: State, initialCount: nat, run: seq<Action>, s: State)
    requires Reaches(s0, initialCount, run, s) && EverySignalCounts(run)
    requires s.waiter.WSleep? && s.taken < s.signalled
    ensures s.sema > 0 || s.signaller.SPost?
  {
    ReachableInv(s0, initialCount, run, s);
  }

  /** How many tokens the calls of `signal` in a run offer. */
  function Offered(run: seq<Action>): nat
    decreases |run|
  {
    if run == [] then 0
    else
      var a := run[|run| - 1];
      Offered(run[..|run| - 1]) + (if a.Signal? then a.n else 0)
  }

  /** Offered by a call of `signal` whose fetch_add is still to come. */
  function Pending(pc: SigPC): nat {
    if pc.SAdd? then pc.n else 0
  }

  lemma StepOffers(s: State, a: Action)
    requires Enabled(s, a)
    ensures var t := Apply(s, a);
      t.signalled + Pending(t.signaller) == s.signalled + Pending(s.signaller) + (if a.Signal? then a.n else 0)
  {
  }

  /** What is counted as signalled is the initial count and what the run has offered, less a call whose fetch_add is
      still to come. */
  lemma {:induction false} SignalledIsOffered(s0: State, initialCount: nat, run: seq<Action>, s: State)
    requires Reaches(s0, initialCount, run, s)
    ensures s.signalled + Pending(s.signaller) == initialCount + Offered(run)
    decreases |run|
  {
    if run != [] {
      var last := |run| - 1;
      var m :| Reaches(s0, initialCount, run[..last], m) && Enabled(m, run[last]) && s == Apply(m, run[last]);
      SignalledIsOffered(s0, initialCount, run[..last], m);
      StepOffers(m, run[last]);
    }
  }

  /** A wait fails only at a moment when every token is taken, and only if it is a try or has timed out. */
  lemma FailsOnlyWithoutToken(s0: State, initialCount: nat, run: seq<Action>, s: State, timeout: bool)
    requires Reaches(s0, initialCount, run, s) && EverySignalCounts(run) && WaitEnabled(s, timeout)
    requires var t := WaitStep(s, timeout); t.waiter.WIdle? && t.taken == s.taken
    ensures s.taken == s.signalled && (s.waiter == WLook(Try) || s.waiter.WRestore?)
  {
    ReachableInv(s0, initialCount, run, s);
  }

  /** Left alone while there is a token and nobody is signalling, a wait of any kind takes it, in two steps. */
  lemma LoneWait(s0: State, initialCount: nat, run: seq<Action>, s: State, k: WaitKind)
    requires Reaches(s0, initialCount, run, s) && EverySignalCounts(run) && s.waiter.WIdle?
    ensures s.taken < s.signalled ==>
              WaiterAlone(Apply(s, Wait(k)), 2) == s.(count := s.count - 1, taken := s.taken + 1)
    ensures s.taken == s.signalled && k == Try ==> WaiterAlone(Apply(s, Wait(k)), 1) == s
  {
    ReachableInv(s0, initialCount, run, s);
    var s1 := Apply(s, Wait(k));
    var s2 := WaitStep(s1, false);
    if s.taken < s.signalled {
      assert WaiterAlone(s1, 2) == WaiterAlone(s2, 1) == WaitStep(s2, false);
    } else if k == Try {
      assert WaiterAlone(s1, 1) == s2;
    }
  }

  predicate Repairing(pc: WaitPC) {
    pc.WRestore? || pc.WRetake? || pc.WPoll?
  }

  /** The waiter's next `k` steps with no step of the signaller between. */
  function WaiterAlone(s: State, k: nat): State
    decreases k
  {
    if k == 0 || !WaitEnabled(s, false) then s else WaiterAlone(WaitStep(s, false), k - 1)
  }

  /** The repair loop ends: as soon as the signaller is not between its fetch_add and its post, three steps
      of the waiter suffice from anywhere in it; it returns false only when there is no token. */
  lemma RepairEnds(s0: State, initialCount: nat, run: seq<Action>, s: State)
    requires Reaches(s0, initialCount, run, s) && EverySignalCounts(run)
    requires Repairing(s.waiter) && !s.signaller.SPost?
    ensures var t := WaiterAlone(s, 3);
      t.waiter.WIdle? && t.taken == (if s.taken < s.signalled then s.taken + 1 else s.taken)
  {
    ReachableInv(s0, initialCount, run, s);
    if s.waiter.WRestore? {
      var s1 := WaitStep(s, false);
      if s1.waiter.WRetake? {
        var s2 := WaitStep(s1, false);
        assert WaiterAlone(s1, 2) == WaiterAlone(s2, 1) == WaitStep(s2, false);
      } else {
        assert WaiterAlone(s1, 2) == s1;
      }
    } else if s.waiter.WRetake? {
      var s1 := WaitStep(s, false);
      var s2 := WaitStep(s1, false);
      assert WaiterAlone(s, 3) == WaiterAlone(s1, 2) == WaiterAlone(s2, 1) == s2;
    } else {
      var s1 := WaitStep(s, false);
      assert WaiterAlone(s, 3) == WaiterAlone(s1, 2) == s1;
    }
  }

  /** The loop goes round again only while the signaller is about to post. */
  lemma RepairLoopsOnlyForPost(s0: State, initialCount: nat, run: seq<Action>, s: State)
    requires Reaches(s0, initialCount, run, s) && EverySignalCounts(run)
    requires s.waiter.WPoll? && WaitStep(s, false).waiter.WRestore?
    ensures s.signaller.SPost?
  {
    ReachableInv(s0, initialCount, run, s);
  }

  // ---------- signal(0) ----------

  /** `signal` accepts a count of 0, and then conservation fails: with a waiter asleep on an empty semaphore
      `signal(0)` wakes it although no token was ever offered, and the count stays at -1 for good. */
  lemma SignalZeroWakesForNothing()
    returns (run: seq<Action>, s: State)
    ensures Reaches(State(0, 0, WIdle, SIdle, 0, 0), 0, run, s)
    ensures s.waiter.WIdle? && s.taken == 1 && s.signalled == 0 && s.count == -1
  {
    var s0 := State(0, 0, WIdle, SIdle, 0, 0);
    run, s := Extend(s0, [], s0, Wait(Forever));
    run, s := Extend(s0, run, s, WaitMove(false));
    assert s == s0.(waiter := WSpin(SPINS, Forever));
    run, s := SpinDown(s0, run, s);
    run, s := Extend(s0, run, s, WaitMove(false));
    run, s := Extend(s0, run, s, WaitMove(false));
    assert s == State(-1, 0, WSleep(Forever), SIdle, 0, 0);
    run, s := WakeForNothing(s0, run, s);
  }

  lemma WakeForNothing(s0: State, run0: seq<Action>, s1: State)
    returns (run: seq<Action>, s: State)
    requires Reaches(s0, 0, run0, s1) && s1 == State(-1, 0, WSleep(Forever), SIdle, 0, 0)
    ensures Reaches(s0, 0, run, s) && s == State(-1, 0, WIdle, SIdle, 0, 1)
  {
    run, s := Extend(s0, run0, s1, Signal(0));
    run, s := Extend(s0, run, s, SignalMove);
    run, s := Extend(s0, run, s, SignalMove);
    assert s == State(-1, 1, WSleep(Forever), SIdle, 0, 0);
    run, s := Extend(s0, run, s, WaitMove(false));
  }

  lemma Extend(s0: State, run: seq<Action>, s: State, a: Action)
    returns (run': seq<Action>, s': State)
    requires Reaches(s0, 0, run, s) && Enabled(s, a)
    ensures Reaches(s0, 0, run', s') && s' == Apply(s, a) && run' == run + [a]
  {
    run', s' := run + [a], Apply(s, a);
    assert run'[..|run' | - 1] == run;
  }

  lemma {:induction false} SpinDown(s0: State, run: seq<Action>, s: State)
    returns (run': seq<Action>, s': State)
    requires Reaches(s0, 0, run, s) && s.waiter.WSpin? && s.count <= 0
    ensures Reaches(s0, 0, run', s') && s' == s.(waiter := WSpin(0, s.waiter.k))
    decreases s.waiter.left
  {
    run', s' := run, s;
    if s.waiter.left > 0 {
      run', s' := Extend(s0, run, s, WaitMove(false));
      run', s' := SpinDown(s0, run', s');
    }
  }

  /** What `TokensConserved` says of one state. */
  predicate Conserved(s: State) {
    && s.taken <= s.signalled
    && (s.waiter.WIdle? ==> s.count == s.signalled - s.taken && s.sema == 0 && !s.signaller.SPost?)
  }

  /** The actions `run` lead from `s` to `t`. */
  predicate Leads(s: State, run: seq<Action>, t: State)
    decreases |run|
  {
    if run == [] then t == s else Enabled(s, run[0]) && Leads(Apply(s, run[0]), run[1..], t)
  }

  lemma {:induction false} LeadsFurther(s: State, run: seq<Action>, t: State, a: Action)
    requires Leads(s, run, t) && Enabled(t, a)
    ensures Leads(s, run + [a], Apply(t, a))
    decreases |run|
  {
    if run == [] {
      assert [a][1..] == [];
    } else {
      assert (run + [a])[1..] == run[1..] + [a];
      LeadsFurther(Apply(s, run[0]), run[1..], t, a);
    }
  }

  lemma {:induction false} LeadsKeepsInv(s: State, run: seq<Action>, t: State)
    requires Inv(s) && Leads(s, run, t) && EverySignalCounts(run)
    ensures Inv(t)
    decreases |run|
  {
    if run != [] {
      assert forall i :: 0 <= i < |run[1..]| ==> run[1..][i] == run[i + 1];
      ActionKeepsInv(s, run[0]);
      LeadsKeepsInv(Apply(s, run[0]), run[1..], t);
    }
  }

  /** How far a waiter that is left alone is from sleeping on an empty semaphore, between two successes. */
  function Distance(pc: WaitPC): nat {
    match pc
    case WSleep(_) => 0
    case WTake => 1
    case WPoll => 1
    case WEnter(_) => 1
    case WRetake => 2
    case WSpin(left, _) => 2 + left
    case WLook(k) => SPINS + (if k == Try then 5 else 3)
    case WIdle => SPINS + 4
    case WRestore => SPINS + 5
  }

  /** The waiter asleep with every token taken. */
  predicate Drained(s: State) {
    s.waiter.WSleep? && s.count == -1 && s.sema == 0 && s.taken == s.signalled
  }

  /** What the waiter does next: it waits without a timeout, whenever it can. */
  function NextMove(s: State): Action {
    if s.waiter.WIdle? then Wait(Forever) else WaitMove(false)
  }

  lemma MoveNearer(s: State)
    requires Inv(s) && s.signaller.SIdle? && !Drained(s)
    ensures Enabled(s, NextMove(s))
    ensures var t := Apply(s, NextMove(s));
      && Inv(t) && t.signaller.SIdle? && t.signalled == s.signalled
      && (t.taken > s.taken || (t.taken == s.taken && Distance(t.waiter) < Distance(s.waiter)))
  {
    ActionKeepsInv(s, NextMove(s));
  }

  /** While a signal of 0 is pending, the waiter alone takes every token and goes to sleep. */
  lemma {:induction false} DrainPending(s: State, pending: State) returns (run: seq<Action>, t: State)
    requires Inv(s) && s.signaller.SIdle? && pending == s.(signaller := SAdd(0))
    ensures Leads(pending, run, t) && EverySignalCounts(run)
    ensures Drained(t) && t.signaller == SAdd(0)
    decreases s.signalled - s.taken, Distance(s.waiter)
  {
    if Drained(s) {
      run, t := [], pending;
    } else {
      var a := NextMove(s);
      MoveNearer(s);
      assert Enabled(pending, a) && Apply(pending, a) == Apply(s, a).(signaller := SAdd(0));
      run, t := DrainPending(Apply(s, a), Apply(pending, a));
      assert ([a] + run)[1..] == run;
      run := [a] + run;
    }
  }

  /** From there the pending signal of 0 posts, and the waiter is woken without a token. */
  lemma SignalZeroBreaks(s: State) returns (run: seq<Action>, t: State)
    requires Inv(s) && s.signaller.SIdle?
    ensures Leads(Apply(s, Signal(0)), run, t) && EverySignalCounts(run) && !Conserved(t)
  {
    var u;
    run, u := DrainPending(s, Apply(s, Signal(0)));
    LeadsFurther(Apply(s, Signal(0)), run, u, SignalMove);
    var posting := Apply(u, SignalMove);
    LeadsFurther(Apply(s, Signal(0)), run + [SignalMove], posting, SignalMove);
    var posted := Apply(posting, SignalMove);
    LeadsFurther(Apply(s, Signal(0)), run + [SignalMove] + [SignalMove], posted, WaitMove(false));
    run, t := run + [SignalMove] + [SignalMove] + [WaitMove(false)], Apply(posted, WaitMove(false));
  }

  /** Every continuation in which later signals offer tokens conserves them. */
  ghost predicate StaysConserved(s: State) {
    forall run, t :: Leads(s, run, t) && EverySignalCounts(run) ==> Conserved(t)
  }

  /** Exactly: whatever state a run has reached, a call of `signal` keeps conservation in every continuation if
      and only if it offers a token. Nothing the count shows at the call helps: before the fetch_add of a
      `signal(0)` the waiter may take every token there is and go to sleep. */
  lemma SignalSafeExactly(s: State, n: nat)
    requires Inv(s) && s.signaller.SIdle?
    ensures StaysConserved(Apply(s, Signal(n))) <==> n > 0
  {
    if n == 0 {
      var run, t := SignalZeroBreaks(s);
    } else {
      ActionKeepsInv(s, Signal(n));
      forall run, t | Leads(Apply(s, Signal(n)), run, t) && EverySignalCounts(run) ensures Conserved(t) {
        LeadsKeepsInv(Apply(s, Signal(n)), run, t);
      }
    }
  }
}
