/**
 Which calls of `enqueue` a run has accepted, read off its actions: the items of the queue's history are the arguments
 of those calls, in order.
 */
module ImplicitQueueCalls {
  import opened Options
  import opened Slots
  import opened ImplicitQueue

  /** The state after `run`. */
  function After(s0: State, run: seq<Action>): State
    decreases |run|
  {
    if run == [] then s0
    else
      var last := |run| - 1;
      var m := After(s0, run[..last]);
      if Enabled(m, run[last]) then Apply(m, run[last]) else m
  }

  lemma {:induction false} ReachedIsAfter(s0: State, run: seq<Action>, s: State)
    requires Reaches(s0, run, s)
    ensures s == After(s0, run)
    decreases |run|
  {
    if run != [] {
      var last := |run| - 1;
      var m :| Reaches(s0, run[..last], m) && Enabled(m, run[last]) && s == Apply(m, run[last]);
      ReachedIsAfter(s0, run[..last], m);
    }
  }

  /** A call `enqueue(x)`: the action of the run that makes it. */
  datatype Call = Call(at: nat, x: Item)

  /** The last call that producer `p` has made. */
  function LastCall(run: seq<Action>, p: nat): Option<Call>
    decreases |run|
  {
    if run == [] then None
    else
      var last := |run| - 1;
      if run[last].Enqueue? && run[last].p == p then Some(Call(last, run[last].x)) else LastCall(run[..last], p)
  }

  /** The step publishes an element of `p`: it stores a new tail index. */
  predicate Publishes(s: State, s': State, p: nat) {
    p < |s.prods| && p < |s'.prods| && s'.prods[p].tail != s.prods[p].tail
  }

  /** The calls of `p` that have published their element, each where the run makes it. */
  function AcceptedCalls(s0: State, run: seq<Action>, p: nat): seq<Call>
    decreases |run|
  {
    if run == [] then []
    else
      var before := run[..|run| - 1];
      var call := LastCall(before, p);
      AcceptedCalls(s0, before, p)
        + (if Publishes(After(s0, before), After(s0, run), p) && call.Some? then [call.value] else [])
  }

  function Arguments(calls: seq<Call>): (xs: seq<Item>)
    ensures |xs| == |calls| && forall i :: 0 <= i < |xs| ==> xs[i] == calls[i].x
  {
    seq(|calls|, i requires 0 <= i < |calls| => calls[i].x)
  }

  /** The items accepted from `p`: the arguments of those calls. */
  function Accepted(s0: State, run: seq<Action>, p: nat): seq<Item> {
    Arguments(AcceptedCalls(s0, run, p))
  }

  predicate IsCall(run: seq<Action>, p: nat, call: Call) {
    call.at < |run| && run[call.at] == Enqueue(p, call.x)
  }

  /** Different calls, in the order they were made. */
  predicate CallsInOrder(run: seq<Action>, p: nat, calls: seq<Call>) {
    && (forall i :: 0 <= i < |calls| ==> IsCall(run, p, calls[i]))
    && forall i, j :: 0 <= i < j < |calls| ==> calls[i].at < calls[j].at
  }

  function ItemOf(pc: ProdPC): Item
    requires !pc.PIdle?
  {
    match pc
    case PCheck(x) => x
    case PPoolLoad(x) => x
    case PPoolTake(x) => x
    case PFree(x) => x
    case PCreate(x) => x
    case PReset(x, _) => x
    case PInstall(x, _) => x
    case PWrite(x) => x
    case PPublish(x) => x
  }

  /** How the program point and the history of a producer go with the calls it has made. */
  predicate Recorded(pr: Prod, run: seq<Action>, p: nat, calls: seq<Call>, current: Option<Call>) {
    && CallsInOrder(run, p, calls) && pr.hist == Arguments(calls)
    && match current
       case None => pr.pc.PIdle? && calls == []
       case Some(call) =>
         && IsCall(run, p, call)
         && (forall i :: 0 <= i < |calls| ==> calls[i].at <= call.at)
         && (!pr.pc.PIdle? ==> ItemOf(pr.pc) == call.x && forall i :: 0 <= i < |calls| ==> calls[i].at < call.at)
  }

  lemma StillCalls(run: seq<Action>, a: Action, p: nat, calls: seq<Call>)
    requires CallsInOrder(run, p, calls)
    ensures CallsInOrder(run + [a], p, calls)
  {
    forall i | 0 <= i < |calls| ensures IsCall(run + [a], p, calls[i]) { assert IsCall(run, p, calls[i]); }
  }

  /** The step of a producer that goes on with its call, ends it, or publishes. */
  lemma ProdStepIs(s: State, p: nat, ch: Choice)
    requires ProdEnabled(s, p, ch)
    ensures var pr, pr' := s.prods[p], ProdStep(s, p, ch).prods[p];
      && (!pr'.pc.PIdle? ==> ItemOf(pr'.pc) == ItemOf(pr.pc))
      && (if pr.pc.PPublish? then pr'.pc.PIdle? && pr'.tail == pr.tail + 1 && pr'.hist == pr.hist + [ItemOf(pr.pc)]
          else pr'.tail == pr.tail && pr'.hist == pr.hist)
    ensures ProdStep(s, p, ch).prods == s.prods[p := ProdStep(s, p, ch).prods[p]]
    ensures ProdStep(s, p, ch).cons == s.cons && ProdStep(s, p, ch).out == s.out
  {
  }

  /** Consumers leave the producers' side alone. */
  lemma ConsStepIs(s: State, c: nat, p: nat)
    requires ConsEnabled(s, c) && p < |s.prods|
    ensures |ConsStep(s, c).prods| == |s.prods|
    ensures var pr, pr' := s.prods[p], ConsStep(s, c).prods[p];
      pr'.pc == pr.pc && pr'.tail == pr.tail && pr'.hist == pr.hist
  {
  }

  lemma RunEnds(s0: State, run: seq<Action>, a: Action, p: nat)
    requires Enabled(After(s0, run), a)
    ensures After(s0, run + [a]) == Apply(After(s0, run), a)
    ensures LastCall(run + [a], p)
         == if a.Enqueue? && a.p == p then Some(Call(|run|, a.x)) else LastCall(run, p)
    ensures AcceptedCalls(s0, run + [a], p)
         == AcceptedCalls(s0, run, p)
            + (if Publishes(After(s0, run), Apply(After(s0, run), a), p) && LastCall(run, p).Some?
               then [LastCall(run, p).value] else [])
  {
    assert (run + [a])[..|run + [a]| - 1] == run;
  }

  lemma MoveRecorded(s: State, run: seq<Action>, ch: Choice, p: nat, calls: seq<Call>, current: Option<Call>)
    requires ProdEnabled(s, p, ch) && Recorded(s.prods[p], run, p, calls, current)
    ensures var a, s' := ProdMove(p, ch), ProdStep(s, p, ch);
      && current.Some? && p < |s'.prods| && (Publishes(s, s', p) <==> s.prods[p].pc.PPublish?)
      && Recorded(s'.prods[p], run + [a], p, if s.prods[p].pc.PPublish? then calls + [current.value] else calls, current)
  {
    var a := ProdMove(p, ch);
    ProdStepIs(s, p, ch);
    StillCalls(run, a, p, calls);
    assert IsCall(run, p, current.value) && IsCall(run + [a], p, current.value);
    if s.prods[p].pc.PPublish? {
      assert Arguments(calls + [current.value]) == Arguments(calls) + [current.value.x];
    }
  }

  lemma EnqueueRecorded(s: State, run: seq<Action>, p: nat, x: Item, calls: seq<Call>, current: Option<Call>)
    requires Enabled(s, Enqueue(p, x)) && Recorded(s.prods[p], run, p, calls, current)
    ensures var a, s' := Enqueue(p, x), CallEnqueue(s, p, x);
      !Publishes(s, s', p) && Recorded(s'.prods[p], run + [a], p, calls, Some(Call(|run|, x)))
  {
    var a := Enqueue(p, x);
    StillCalls(run, a, p, calls);
    assert IsCall(run + [a], p, Call(|run|, x));
    forall i | 0 <= i < |calls| ensures calls[i].at < |run| { assert IsCall(run, p, calls[i]); }
  }

  /** The step of somebody else. */
  lemma OtherRecorded(pr: Prod, pr': Prod, run: seq<Action>, a: Action, p: nat, calls: seq<Call>, current: Option<Call>)
    requires Recorded(pr, run, p, calls, current) && pr'.pc == pr.pc && pr'.hist == pr.hist
    ensures Recorded(pr', run + [a], p, calls, current)
  {
    StillCalls(run, a, p, calls);
    if current.Some? { assert IsCall(run + [a], p, current.value); }
  }

  lemma OtherIs(s: State, a: Action, p: nat)
    requires Enabled(s, a) && p < |s.prods| && !((a.Enqueue? || a.ProdMove?) && a.p == p)
    ensures var s' := Apply(s, a);
      && |s'.prods| == |s.prods| && s'.prods[p].pc == s.prods[p].pc && s'.prods[p].hist == s.prods[p].hist
      && s'.prods[p].tail == s.prods[p].tail
  {
    if a.ConsMove? { ConsStepIs(s, a.c, p); }
    if a.ProdMove? { ProdStepIs(s, a.p, a.ch); }
  }

  lemma ActionRecorded(s0: State, run: seq<Action>, a: Action, p: nat)
    requires var s := After(s0, run);
      Enabled(s, a) && p < |s.prods| && Recorded(s.prods[p], run, p, AcceptedCalls(s0, run, p), LastCall(run, p))
    ensures var s' := After(s0, run + [a]);
      && |s'.prods| == |After(s0, run).prods|
      && Recorded(s'.prods[p], run + [a], p, AcceptedCalls(s0, run + [a], p), LastCall(run + [a], p))
  {
    var s, calls, current := After(s0, run), AcceptedCalls(s0, run, p), LastCall(run, p);
    RunEnds(s0, run, a, p);
    if a.Enqueue? && a.p == p {
      EnqueueRecorded(s, run, p, a.x, calls, current);
    } else if a.ProdMove? && a.p == p {
      ProdStepIs(s, p, a.ch);
      MoveRecorded(s, run, a.ch, p, calls, current);
    } else {
      OtherIs(s, a, p);
      OtherRecorded(s.prods[p], Apply(s, a).prods[p], run, a, p, calls, current);
    }
  }

  lemma {:induction false} RunRecorded(s0: State, run: seq<Action>, s: State, p: nat)
    requires Reaches(s0, run, s) && p < |s.prods|
    ensures Recorded(s.prods[p], run, p, AcceptedCalls(s0, run, p), LastCall(run, p))
    decreases |run|
  {
    if run != [] {
      var last := |run| - 1;
      var m :| Reaches(s0, run[..last], m) && Enabled(m, run[last]) && s == Apply(m, run[last]);
      ReachedIsAfter(s0, run[..last], m);
      SameProducers(m, run[last]);
      RunRecorded(s0, run[..last], m, p);
      ActionRecorded(s0, run[..last], run[last], p);
      ReachedIsAfter(s0, run, s);
      assert run == run[..last] + [run[last]];
    }
  }

  lemma SameProducers(s: State, a: Action)
    requires Enabled(s, a)
    ensures |Apply(s, a).prods| == |s.prods|
  {
    if a.ProdMove? { ProdStepIs(s, a.p, a.ch); }
  }

  /** The history of `p` is the arguments of the calls accepted from it: different calls of the run, in the order in
      which it makes them. */
  lemma HistoryIsAccepted(s0: State, run: seq<Action>, s: State, p: nat)
    requires Reaches(s0, run, s) && p < |s.prods|
    ensures s.prods[p].hist == Accepted(s0, run, p)
    ensures CallsInOrder(run, p, AcceptedCalls(s0, run, p))
  {
    RunRecorded(s0, run, s, p);
  }
}
