/**
 What one call on the free list returns: `try_get` comes back without a node only if it has seen the list empty, and
 undisturbed it takes the first node there is; undisturbed, `add` puts its node there.
 */
module FreeListCalls {
  import opened FreeList

  // ---------- a call that returns nothing, in any interleaving ----------

  /** The thread is inside `try_get`. */
  predicate Getting(pc: PC) {
    || pc.GetLoad? || pc.GetRefs? || pc.GetPin? || pc.GetNext? || pc.GetSwing? || pc.GetAssert? || pc.GetDrop?
    || pc.GetUnpin?
    || ((pc.LinkLoad? || pc.LinkNext? || pc.LinkRef? || pc.LinkSwing? || pc.LinkBack?) && pc.ret.ToLoop?)
  }

  /** The accesses that give `try_get` its local `head`. */
  predicate LoadsHead(pc: PC) {
    pc.GetLoad? || pc.GetSwing?
  }

  /** Action `k` of the run is a load of the head by `t`, which finds null. */
  ghost predicate FindsNull(s0: State, run: seq<Action>, t: nat, k: nat) {
    k < |run| && run[k] == DoStep(t) &&
    exists m :: Reaches(s0, run[..k], m) && t < |m.threads| && LoadsHead(m.threads[t]) && m.head == Null
  }

  /** `t` has found the head null since it last called `try_get`. */
  ghost predicate SawEmpty(s0: State, run: seq<Action>, t: nat) {
    exists k: nat :: k < |run| && FindsNull(s0, run, t, k) && DoGet(t) !in run[k..]
  }

  /** The local `head` of the call is null: when it leaves what it is doing, it returns. */
  predicate WillGiveUp(pc: PC) {
    || (pc.GetUnpin? && pc.seen == Null)
    || ((pc.LinkLoad? || pc.LinkNext? || pc.LinkRef? || pc.LinkSwing? || pc.LinkBack?) && pc.ret == ToLoop(Null))
  }

  /** The call returns with this step, and not with a node. */
  predicate GivesUp(pc: PC, pc': PC) {
    Getting(pc) && !pc.GetDrop? && pc'.Idle?
  }

  lemma SawEmptyStays(s0: State, run: seq<Action>, a: Action, t: nat)
    requires SawEmpty(s0, run, t) && a != DoGet(t)
    ensures SawEmpty(s0, run + [a], t)
  {
    var k: nat :| k < |run| && FindsNull(s0, run, t, k) && DoGet(t) !in run[k..];
    var after := run + [a];
    assert after[..k] == run[..k] && after[k..] == run[k..] + [a] && after[k] == run[k];
    assert FindsNull(s0, after, t, k);
  }

  lemma SeesEmpty(s0: State, run: seq<Action>, s: State, t: nat)
    requires Reaches(s0, run, s) && t < |s.threads| && LoadsHead(s.threads[t]) && s.head == Null
    ensures SawEmpty(s0, run + [DoStep(t)], t)
  {
    var k, after := |run|, run + [DoStep(t)];
    assert after[..k] == run && after[k..] == [DoStep(t)];
    assert FindsNull(s0, after, t, k);
  }

  /** Only a load of a null head makes a call give up. */
  lemma StepTurns(s: State, t: nat)
    requires WellFormed(s) && t < |s.threads| && !s.threads[t].Idle?
    ensures var pc, pc' := s.threads[t], Step(s, t).threads[t];
      WillGiveUp(pc') || GivesUp(pc, pc') ==> WillGiveUp(pc) || (LoadsHead(pc) && s.head == Null)
  {
  }

  lemma OthersStay(s: State, a: Action, t: nat)
    requires Enabled(s, a) && t < |s.threads|
    ensures |Apply(s, a).threads| == |s.threads|
    ensures a.t != t ==> Apply(s, a).threads[t] == s.threads[t]
  {
  }

  lemma {:induction false} GivingUpSawEmpty(s0: State, run: seq<Action>, s: State, t: nat)
    requires Reaches(s0, run, s) && t < |s.threads| && WillGiveUp(s.threads[t])
    ensures SawEmpty(s0, run, t)
    decreases |run|
  {
    var last := |run| - 1;
    if run != [] {
      var a := run[last];
      var m :| Reaches(s0, run[..last], m) && Enabled(m, a) && s == Apply(m, a);
      assert run == run[..last] + [a];
      assert t < |m.threads| by { if |m.threads| > 0 { OthersStay(m, a, 0); } }
      OthersStay(m, a, t);
      if a == DoStep(t) {
        StepTurns(m, t);
        if WillGiveUp(m.threads[t]) {
          GivingUpSawEmpty(s0, run[..last], m, t);
          SawEmptyStays(s0, run[..last], a, t);
        } else {
          SeesEmpty(s0, run[..last], m, t);
        }
      } else {
        assert a.t != t;
        GivingUpSawEmpty(s0, run[..last], m, t);
        SawEmptyStays(s0, run[..last], a, t);
      }
    }
  }

  /** In every interleaving a `try_get` that returns without a node has found the head null: one of its own loads,
      since it was called, read null, and at that moment the list was empty. */
  lemma NothingOnlyIfEmpty(s0: State, run: seq<Action>, s: State, t: nat)
    requires Reaches(s0, run, s) && Enabled(s, DoStep(t)) && GivesUp(s.threads[t], Apply(s, DoStep(t)).threads[t])
    ensures SawEmpty(s0, run + [DoStep(t)], t)
  {
    StepTurns(s, t);
    if WillGiveUp(s.threads[t]) {
      GivingUpSawEmpty(s0, run, s, t);
      SawEmptyStays(s0, run, DoStep(t), t);
    } else {
      SeesEmpty(s0, run, s, t);
    }
  }

  // ---------- adds and returns of a run ----------

  /** The state after `run`. */
  function After(s0: State, run: seq<Action>): State
    decreases |run|
  {
    if run == [] then s0
    else
      var last := |run| - 1;
      var m := After(s0, run[..last]);
      if Enabled(m, run[last]) then Apply(m, run[last]) else m
  }

  /** How often the run calls `add` on node `n`. */
  function AddCalls(run: seq<Action>, n: nat): nat
    decreases |run|
  {
    if run == [] then 0
    else
      var a := run[|run| - 1];
      AddCalls(run[..|run| - 1], n) + (if a.DoAdd? && a.n == n then 1 else 0)
  }

  /** The step is the one with which a `try_get` returns node `n`. */
  predicate ReturnsNode(s: State, a: Action, n: nat) {
    a.DoStep? && a.t < |s.threads| && s.threads[a.t] == GetDrop(n)
  }

  /** How often a `try_get` of the run has returned node `n`. */
  function Returns(s0: State, run: seq<Action>, n: nat): nat
    decreases |run|
  {
    if run == [] then 0
    else
      var before := run[..|run| - 1];
      Returns(s0, before, n) + (if ReturnsNode(After(s0, before), run[|run| - 1], n) then 1 else 0)
  }

  lemma StepCounts(s: State, a: Action, n: nat)
    requires Enabled(s, a) && n < |s.adds|
    ensures var s' := Apply(s, a);
      && |s'.adds| == |s'.gets| == |s.adds|
      && s'.adds[n] == s.adds[n] + (if a.DoAdd? && a.n == n then 1 else 0)
      && s'.gets[n] == s.gets[n] + (if ReturnsNode(s, a, n) then 1 else 0)
  {
  }

  lemma {:induction false} CountsOfRun(s0: State, run: seq<Action>, s: State, n: nat)
    requires Reaches(s0, run, s) && n < |s.adds|
    ensures s == After(s0, run) && |s.gets| == |s.adds|
    ensures s.adds[n] == AddCalls(run, n) && s.gets[n] == Returns(s0, run, n)
    decreases |run|
  {
    if run != [] {
      var last := |run| - 1;
      var m :| Reaches(s0, run[..last], m) && Enabled(m, run[last]) && s == Apply(m, run[last]);
      assert |m.adds| == |s.adds| by { if |m.adds| > 0 { StepCounts(m, run[last], 0); } }
      CountsOfRun(s0, run[..last], m, n);
      StepCounts(m, run[last], n);
    }
  }

  /** In every run a node is handed out at most once for each `add`: never more often than it was added, and never
      behind by more than one. */
  lemma HandedOutOncePerAdd(s0: State, run: seq<Action>, s: State, n: nat)
    requires Reaches(s0, run, s) && n < |s.adds|
    ensures Returns(s0, run, n) <= AddCalls(run, n) <= Returns(s0, run, n) + 1
  {
    CountsOfRun(s0, run, s, n);
    AddedAndTaken(s0, run, s, n);
  }

  /** With no operation in flight, the nodes reached from the head are exactly those that the run has added and not
      handed out since. */
  lemma NothingLost(s0: State, run: seq<Action>, s: State, n: nat)
    requires Reaches(s0, run, s) && Quiescent(s) && n < |s.adds|
    ensures HeadChain(s.head, s.next, s.chain) && (n in s.chain <==> AddCalls(run, n) == Returns(s0, run, n) + 1)
  {
    CountsOfRun(s0, run, s, n);
    RestIsListed(s0, run, s);
  }

  // ---------- a call that nobody disturbs ----------

  /** `n` steps of thread `t`, nobody else moving. */
  function Steps(t: nat, n: nat): (r: seq<Action>)
    ensures |r| == n && forall i :: 0 <= i < n ==> r[i] == DoStep(t)
  {
    seq(n, _ => DoStep(t))
  }

  lemma ReachesNext(s0: State, run: seq<Action>, s: State, a: Action)
    requires Reaches(s0, run, s) && Enabled(s, a)
    ensures Reaches(s0, run + [a], Apply(s, a))
  {
    assert (run + [a])[..|run + [a]| - 1] == run;
  }

  lemma StepsNext(run: seq<Action>, t: nat, n: nat)
    ensures run + Steps(t, n) + [DoStep(t)] == run + Steps(t, n + 1)
    ensures run + Steps(t, 0) == run
  {
  }

  lemma OneStep(s0: State, run: seq<Action>, s: State, t: nat, n: nat, m: State)
    requires Reaches(s0, run + Steps(t, n), s) && Enabled(s, DoStep(t)) && m == Apply(s, DoStep(t))
    ensures Reaches(s0, run + Steps(t, n + 1), m)
  {
    ReachesNext(s0, run + Steps(t, n), s, DoStep(t));
    StepsNext(run, t, n);
  }

  /** Thread `t` leads in three steps from the first state through the others to the last. */
  predicate Three(t: nat, a: State, b: State, c: State, d: State) {
    && Enabled(a, DoStep(t)) && b == Apply(a, DoStep(t)) && Enabled(b, DoStep(t)) && c == Apply(b, DoStep(t))
    && Enabled(c, DoStep(t)) && d == Apply(c, DoStep(t))
  }

  lemma ThreeSteps(s0: State, run: seq<Action>, t: nat, n: nat, a: State, b: State, c: State, d: State)
    requires Reaches(s0, run + Steps(t, n), a) && Three(t, a, b, c, d)
    ensures Reaches(s0, run + Steps(t, n + 3), d)
  {
    OneStep(s0, run, a, t, n, b);
    OneStep(s0, run, b, t, n + 1, c);
    OneStep(s0, run, c, t, n + 2, d);
  }

  lemma Called(s0: State, run: seq<Action>, s: State, a: Action, t: nat)
    requires Reaches(s0, run, s) && Enabled(s, a)
    ensures Reaches(s0, run + [a] + Steps(t, 0), Apply(s, a))
  {
    ReachesNext(s0, run, s, a);
    StepsNext(run + [a], t, 0);
  }

  /** The state after thread `t` has taken the first node of the list. */
  function FirstTaken(s: State): State
    requires s.chain != [] && s.chain[0] < |s.refs| == |s.next| == |s.loc| == |s.gets| && s.refs[s.chain[0]] > 0
  {
    var h := s.chain[0];
    s.(head := s.next[h], chain := s.chain[1..], refs := s.refs[h := s.refs[h] - 1], loc := s.loc[h := Out],
       gets := s.gets[h := s.gets[h] + 1])
  }

  /** What the invariant says of the first node of the list. */
  lemma FirstNode(s: State)
    requires Inv(s) && s.chain != []
    ensures var h := s.chain[0]; s.head == At(h) && h < |s.refs| && 0 < s.refs[h] < SHOULD_BE_ON_FREELIST
  {
    var h := s.chain[0];
    assert h in s.chain && NodeOk(s, h);
    PinCountBound(s.threads, h);
  }

  /** The first node `h` pinned, its link still to be read. */
  function Pinned(s: State, t: nat, h: nat): State
    requires Enabled(s, DoGet(t)) && h < |s.refs|
  {
    Goto(s, t, GetNext(h)).(refs := s.refs[h := s.refs[h] + 1])
  }

  /** The node taken off the list, about to be returned. */
  function Taking(s: State, t: nat, h: nat): State
    requires Enabled(s, DoGet(t)) && h < |s.refs| && s.chain != []
  {
    Goto(s, t, GetDrop(h)).(refs := s.refs[h := s.refs[h] + 1], head := s.next[h], loc := s.loc[h := Taken(t)],
                            chain := s.chain[1..])
  }

  lemma PinIs(s: State, t: nat, h: nat) returns (b: State, c: State)
    requires Enabled(s, DoGet(t)) && s.head == At(h) && h < |s.refs| && 0 < s.refs[h] < SHOULD_BE_ON_FREELIST
    ensures Three(t, Apply(s, DoGet(t)), b, c, Pinned(s, t, h))
  {
    b, c := Goto(s, t, GetRefs(h)), Goto(s, t, GetPin(h, s.refs[h]));
    assert Apply(Apply(s, DoGet(t)), DoStep(t)) == b;
    assert Apply(b, DoStep(t)) == c;
    assert Apply(c, DoStep(t)) == Pinned(s, t, h);
  }

  lemma LonePin(s0: State, run: seq<Action>, s: State, t: nat, h: nat)
    requires Reaches(s0, run, s) && Enabled(s, DoGet(t)) && s.head == At(h)
    requires h < |s.refs| && 0 < s.refs[h] < SHOULD_BE_ON_FREELIST
    ensures Reaches(s0, run + [DoGet(t)] + Steps(t, 3), Pinned(s, t, h))
  {
    Called(s0, run, s, DoGet(t), t);
    var b, c := PinIs(s, t, h);
    ThreeSteps(s0, run + [DoGet(t)], t, 0, Apply(s, DoGet(t)), b, c, Pinned(s, t, h));
  }

  lemma TakeIs(s: State, t: nat, h: nat) returns (b: State, c: State)
    requires Enabled(s, DoGet(t)) && s.head == At(h) && h < |s.refs| && s.chain != []
    ensures Three(t, Pinned(s, t, h), b, c, Taking(s, t, h))
  {
    b := Goto(Pinned(s, t, h), t, GetSwing(h, s.next[h]));
    c := Taking(s, t, h).(threads := s.threads[t := GetAssert(h)]);
    assert Apply(Pinned(s, t, h), DoStep(t)) == b;
    assert Apply(b, DoStep(t)) == c;
    assert Apply(c, DoStep(t)) == Taking(s, t, h);
  }

  lemma LoneTake(s0: State, run: seq<Action>, s: State, t: nat, h: nat)
    requires Enabled(s, DoGet(t)) && s.head == At(h) && h < |s.refs| && s.chain != []
    requires Reaches(s0, run + Steps(t, 3), Pinned(s, t, h))
    ensures Reaches(s0, run + Steps(t, 6), Taking(s, t, h))
  {
    var b, c := TakeIs(s, t, h);
    ThreeSteps(s0, run, t, 3, Pinned(s, t, h), b, c, Taking(s, t, h));
  }

  lemma TakenIs(s: State, t: nat)
    requires Enabled(s, DoGet(t)) && s.chain != [] && s.chain[0] < |s.refs|
    requires 0 < s.refs[s.chain[0]] < SHOULD_BE_ON_FREELIST
    ensures var u := Taking(s, t, s.chain[0]); Enabled(u, DoStep(t)) && Apply(u, DoStep(t)) == FirstTaken(s)
  {
    var h := s.chain[0];
    var u := Taking(s, t, h);
    assert Apply(u, DoStep(t)).refs == s.refs[h := s.refs[h] - 1] && Apply(u, DoStep(t)).threads == s.threads;
    assert Apply(u, DoStep(t)).loc == s.loc[h := Out];
  }

  lemma LoneFirst(s0: State, run: seq<Action>, s: State, t: nat)
    requires Reaches(s0, run, s) && Inv(s) && Enabled(s, DoGet(t)) && s.chain != []
    ensures s.chain[0] < |s.refs| && s.refs[s.chain[0]] > 0
    ensures Reaches(s0, run + [DoGet(t)] + Steps(t, 6), Taking(s, t, s.chain[0]))
    ensures Reaches(s0, run + [DoGet(t)] + Steps(t, 7), FirstTaken(s))
  {
    FirstNode(s);
    var h := s.chain[0];
    LonePin(s0, run, s, t, h);
    LoneTake(s0, run + [DoGet(t)], s, t, h);
    TakenIs(s, t);
    OneStep(s0, run + [DoGet(t)], Taking(s, t, h), t, 6, FirstTaken(s));
  }

  lemma LoneEmpty(s0: State, run: seq<Action>, s: State, t: nat)
    requires Reaches(s0, run, s) && Enabled(s, DoGet(t)) && s.head == Null
    ensures Reaches(s0, run + [DoGet(t)] + Steps(t, 1), s)
  {
    Called(s0, run, s, DoGet(t), t);
    assert Apply(Apply(s, DoGet(t)), DoStep(t)) == s;
    OneStep(s0, run + [DoGet(t)], Apply(s, DoGet(t)), t, 0, s);
  }

  /** From any reachable state, whatever other operations are halfway, a `try_get` that runs undisturbed hands out the
      first node of the list in seven steps, and takes exactly that one off; on an empty list it returns after one
      step and changes nothing. */
  lemma LoneGet(s0: State, run: seq<Action>, s: State, t: nat)
    requires Reaches(s0, run, s) && Enabled(s, DoGet(t))
    ensures s.head == Null ==> Reaches(s0, run + [DoGet(t)] + Steps(t, 1), s)
    ensures s.head != Null ==>
              && s.chain != [] && s.head == At(s.chain[0]) && s.chain[0] < |s.refs| && s.refs[s.chain[0]] > 0
              && Reaches(s0, run + [DoGet(t)] + Steps(t, 6), Taking(s, t, s.chain[0]))
              && Reaches(s0, run + [DoGet(t)] + Steps(t, 7), FirstTaken(s))
  {
    ReachableInv(s0, run, s);
    if s.head == Null { LoneEmpty(s0, run, s, t); } else { LoneFirst(s0, run, s, t); }
  }

  /** The state after node `n` has been added in front. */
  function FirstAdded(s: State, n: nat): State
    requires n < |s.refs| == |s.next| == |s.loc| == |s.adds|
  {
    s.(head := At(n), chain := [n] + s.chain, refs := s.refs[n := 1], next := s.next[n := s.head], loc := s.loc[n := Listed],
       adds := s.adds[n := s.adds[n] + 1])
  }

  /** An `add` of `n` by thread `t` that has written the link of its node. */
  function LinkWritten(s: State, t: nat, n: nat): State
    requires Enabled(s, DoAdd(t, n))
  {
    Goto(s, t, LinkRef(n, s.head, ToCaller)).(refs := s.refs[n := SHOULD_BE_ON_FREELIST])
      .(next := s.next[n := s.head], loc := s.loc[n := Linking(t, false)], adds := s.adds[n := s.adds[n] + 1])
  }

  lemma EnterIs(s: State, t: nat, n: nat) returns (b: State, c: State)
    requires Enabled(s, DoAdd(t, n)) && s.refs[n] == 0
    ensures Three(t, Apply(s, DoAdd(t, n)), b, c, LinkWritten(s, t, n))
  {
    var a := Apply(s, DoAdd(t, n));
    b := Goto(a, t, LinkLoad(n, ToCaller)).(refs := s.refs[n := SHOULD_BE_ON_FREELIST], loc := s.loc[n := Linking(t, false)]);
    c := Goto(b, t, LinkNext(n, s.head, ToCaller));
    assert Apply(a, DoStep(t)) == b;
    assert Apply(b, DoStep(t)) == c;
    assert Apply(c, DoStep(t)) == LinkWritten(s, t, n);
  }

  lemma LoneEnter(s0: State, run: seq<Action>, s: State, t: nat, n: nat)
    requires Reaches(s0, run, s) && Enabled(s, DoAdd(t, n)) && s.refs[n] == 0
    ensures Reaches(s0, run + [DoAdd(t, n)] + Steps(t, 3), LinkWritten(s, t, n))
  {
    Called(s0, run, s, DoAdd(t, n), t);
    var b, c := EnterIs(s, t, n);
    ThreeSteps(s0, run + [DoAdd(t, n)], t, 0, Apply(s, DoAdd(t, n)), b, c, LinkWritten(s, t, n));
  }

  lemma LinkIs(s: State, t: nat, n: nat) returns (b: State)
    requires Enabled(s, DoAdd(t, n))
    ensures Enabled(LinkWritten(s, t, n), DoStep(t)) && b == Apply(LinkWritten(s, t, n), DoStep(t))
    ensures Enabled(b, DoStep(t)) && Apply(b, DoStep(t)) == FirstAdded(s, n)
  {
    var u := LinkWritten(s, t, n);
    b := Goto(u, t, LinkSwing(n, s.head, ToCaller)).(refs := s.refs[n := 1], loc := s.loc[n := Linking(t, true)]);
    assert FirstAdded(s, n).threads == s.threads && FirstAdded(s, n).loc == s.loc[n := Listed];
  }

  lemma LoneLink(s0: State, run: seq<Action>, s: State, t: nat, n: nat)
    requires Enabled(s, DoAdd(t, n)) && Reaches(s0, run + Steps(t, 3), LinkWritten(s, t, n))
    ensures Reaches(s0, run + Steps(t, 5), FirstAdded(s, n))
  {
    var b := LinkIs(s, t, n);
    OneStep(s0, run, LinkWritten(s, t, n), t, 3, b);
    OneStep(s0, run, b, t, 4, FirstAdded(s, n));
  }

  /** From a reachable state with no operation in flight, an `add` that runs undisturbed puts its node in front of the
      list, in five steps. */
  lemma LoneAdd(s0: State, run: seq<Action>, s: State, t: nat, n: nat)
    requires Reaches(s0, run, s) && Quiescent(s) && Enabled(s, DoAdd(t, n))
    ensures Reaches(s0, run + [DoAdd(t, n)] + Steps(t, 5), FirstAdded(s, n))
  {
    ReachableInv(s0, run, s);
    PinCountNone(s.threads, n);
    assert NodeOk(s, n) && s.refs[n] == 0;
    LoneEnter(s0, run, s, t, n);
    LoneLink(s0, run + [DoAdd(t, n)], s, t, n);
  }
}
