/**
 The steps of SendRuns, undisturbed, are the methods of SendStream.
 */
module SendSteps {
  import opened SendStream
  import opened SendRuns

  /** The actions `run` lead from `s` to `t`. */
  predicate Leads(s: State, run: seq<Action>, t: State)
    decreases |run|
  {
    if run == [] then t == s else Enabled(s, run[0]) && Leads(Apply(s, run[0]), run[1..], t)
  }

  lemma Led(s: State, a: Action, run: seq<Action>, t: State)
    requires Enabled(s, a) && Leads(Apply(s, a), run, t)
    ensures Leads(s, [a] + run, t)
  {
    assert ([a] + run)[1..] == run;
  }

  /** The steps of Send. */
  function SendRun(s: State, h: nat, r: Reply): seq<Action> {
    [Send(h, r)] + if s.stream.isSending then [] else [SendRef, SendWrite, SendUnlock]
  }

  /** Send by itself: the stream is what the method makes of it, and the lock is free again. */
  lemma SendIsSteps(s: State, h: nat, r: Reply)
    requires Enabled(s, Send(h, r))
    ensures var t := s.(stream := Sent(s.stream, r), sent := s.sent + [r],
                        flying := if s.stream.isSending then s.flying else s.flying + 1);
      Leads(s, SendRun(s, h, r), t)
  {
    var s1 := Apply(s, Send(h, r));
    var t := s.(stream := Sent(s.stream, r), sent := s.sent + [r],
                flying := if s.stream.isSending then s.flying else s.flying + 1);
    if s.stream.isSending {
      assert Leads(s1, [], t);
      Led(s, Send(h, r), [], t);
    } else {
      var s2 := Apply(s1, SendRef);
      var s3 := Apply(s2, SendWrite);
      assert Apply(s3, SendUnlock) == t && Leads(t, [], t);
      Led(s3, SendUnlock, [], t);
      Led(s2, SendWrite, [SendUnlock], t);
      Led(s1, SendRef, [SendWrite] + [SendUnlock], t);
      Led(s, Send(h, r), [SendRef] + ([SendWrite] + [SendUnlock]), t);
      assert SendRun(s, h, r) == [Send(h, r)] + ([SendRef] + ([SendWrite] + [SendUnlock]));
    }
  }

  /** Step by itself, from the delivery of a completed write on. */
  lemma StepIsSteps(s: State)
    requires Inv(s) && Enabled(s, Complete(true)) && s.lock.Free?
    ensures if s.stream.queue != []
            then Leads(s, [Complete(true), Step, StepPop], s.(stream := Stepped(s.stream)))
            else Leads(s, [Complete(true), Step, Leave], s.(stream := Stepped(s.stream), flying := s.flying - 1))
  {
    var s1 := Apply(s, Complete(true));
    var s2 := Apply(s1, Step);
    var last := if s.stream.queue != [] then StepPop else Leave;
    var t := Apply(s2, last);
    Led(s2, last, [], t);
    Led(s1, Step, [last], t);
    Led(s, Complete(true), [Step] + [last], t);
    assert [Complete(true), Step, last] == [Complete(true)] + ([Step] + [last]);
  }

  /** A failed write: Destroy drops its reference. */
  lemma DestroyIsSteps(s: State)
    requires Enabled(s, Complete(false))
    ensures var t := s.(stream := Unref(s.stream), flying := s.flying - 1, failed := s.failed + 1);
      Leads(s, [Complete(false), Leave], t)
  {
    var s1 := Apply(s, Complete(false));
    var t := Apply(s1, Leave);
    Led(s1, Leave, [], t);
    Led(s, Complete(false), [Leave], t);
    assert [Complete(false), Leave] == [Complete(false)] + [Leave];
  }

  /** A holder that goes away: the last one deletes, unless a write or the worker still holds the stream. */
  lemma DropIsRelease(s: State, h: nat)
    requires Inv(s) && Enabled(s, Drop(h))
    ensures Apply(s, Drop(h)).stream == Unref(s.stream)
    ensures Unref(s.stream).deleted == 1 <==> s.holders == {h} && s.flying == 0 && s.worker.Waiting?
  {
    assert |s.holders - {h}| == |s.holders| - 1;
    assert s.holders - {h} == {} <==> s.holders == {h};
  }
}
