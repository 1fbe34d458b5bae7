/**
 Where what a caller sees comes from, read off the actions of a run: a callback gets the outcome of a reply the io
 thread has delivered, a timeout is of a request queued more than 30 seconds before, and a request is queued with the
 id of its own call.
 */
module CallTraces {
  import opened Options
  import opened CallTable
  import opened CallRuns

  /** The state after `run`. */
  ghost function After(s0: State, run: seq<Action>): State
    decreases |run|
  {
    if run == [] then s0
    else
      var last := |run| - 1;
      var m := After(s0, run[..last]);
      if Enabled(m, run[last]) then Apply(m, run[last]) else m
  }

  lemma {:induction false} ReachedIsAfter(s0: State, run: seq<Action>, s: State)
    requires Reaches(s0, run, s)
    ensures s == After(s0, run)
    decreases |run|
  {
    if run != [] {
      var last := |run| - 1;
      var m :| Reaches(s0, run[..last], m) && Enabled(m, run[last]) && s == Apply(m, run[last]);
      ReachedIsAfter(s0, run[..last], m);
    }
  }

  // ---------- requests ----------

  /** A request put into the queue: for which call, with which id, at what time. */
  datatype Request = Request(call: nat, id: nat, start: int)

  /** The request that the step of `a` from `s` puts at the end of the queue. */
  ghost function Queues(s: State, a: Action): seq<Request> {
    if a.Push? && Enabled(s, a) && Apply(s, a).client.requests != []
    then
      var requests := Apply(s, a).client.requests;
      [Request(s.callers[a.t].c, requests[|requests| - 1], a.now)]
    else []
  }

  /** All requests that a run has queued, in order. */
  ghost function Queued(s0: State, run: seq<Action>): seq<Request>
    decreases |run|
  {
    if run == [] then []
    else
      var before := run[..|run| - 1];
      Queued(s0, before) + Queues(After(s0, before), run[|run| - 1])
  }

  /** The call drew the id, in a turn of its own. */
  ghost predicate Drew(turns: seq<nat>, c: nat, id: nat) {
    exists k :: HasTurn(turns, c, id, k)
  }

  /** Requests of different calls, each with an id that its call drew. */
  ghost predicate RequestsOk(q: seq<Request>, turns: seq<nat>, calls: nat) {
    && (forall i :: 0 <= i < |q| ==> q[i].call < calls && Drew(turns, q[i].call, q[i].id))
    && forall i, j :: 0 <= i < j < |q| ==> q[i].call != q[j].call
  }

  predicate HasRequest(q: seq<Request>, id: nat) {
    exists i :: 0 <= i < |q| && q[i].id == id
  }

  /** A call that has an id stored has its request queued with it; one that has not come so far has none. */
  ghost predicate CallerRequest(q: seq<Request>, pc: CallerPC) {
    match pc
    case CPut(c, id, _, start) => Request(c, id, start) in q
    case _ => CallOf(pc).Some? ==> forall i :: 0 <= i < |q| ==> q[i].call != CallOf(pc).value
  }

  ghost predicate RequestInv(q: seq<Request>, s: State) {
    && RequestsOk(q, s.turns, s.client.calls)
    && (forall i :: 0 <= i < |s.client.requests| ==> HasRequest(q, s.client.requests[i]))
    && (forall id :: id in s.client.reqmap ==> Request(s.client.reqmap[id].call, id, s.client.reqmap[id].start) in q)
    && (forall t :: 0 <= t < |s.callers| ==> CallerRequest(q, s.callers[t]))
  }

  lemma RequestsKept(q: seq<Request>, turns: seq<nat>, turns': seq<nat>, calls: nat, calls': nat)
    requires RequestsOk(q, turns, calls) && turns <= turns' && calls <= calls'
    ensures RequestsOk(q, turns', calls')
  {
    forall i | 0 <= i < |q| ensures Drew(turns', q[i].call, q[i].id) {
      var k :| HasTurn(turns, q[i].call, q[i].id, k);
      assert HasTurn(turns', q[i].call, q[i].id, k);
    }
  }

  lemma PushRequests(q: seq<Request>, s: State, t: nat, now: int)
    requires Inv(s) && RequestInv(q, s) && Enabled(s, Push(t, now))
    ensures var s', pc := Apply(s, Push(t, now)), s.callers[t];
      && Queues(s, Push(t, now)) == [Request(pc.c, pc.id, now)] && Drew(s.turns, pc.c, pc.id)
      && s'.client.requests == s.client.requests + [pc.id] && RequestInv(q + [Request(pc.c, pc.id, now)], s')
  {
    var s', pc := Apply(s, Push(t, now)), s.callers[t];
    var q' := q + [Request(pc.c, pc.id, now)];
    assert CallerOk(pc, s.fates, s.turns) && HasTurn(s.turns, pc.c, pc.id, pc.k);
    assert q'[|q|].id == pc.id && q'[|q|] in q' && CallerRequest(q, pc);
    forall i | 0 <= i < |s'.client.requests| ensures HasRequest(q', s'.client.requests[i]) {
      if i < |s.client.requests| {
        assert HasRequest(q, s.client.requests[i]);
        var j :| 0 <= j < |q| && q[j].id == s.client.requests[i];
        assert q'[j].id == s.client.requests[i];
      }
    }
    forall u | 0 <= u < |s'.callers| ensures CallerRequest(q', s'.callers[u]) {
      assert CallerRequest(q, s.callers[u]);
    }
  }

  lemma CallerRequests(q: seq<Request>, s: State, a: Action)
    requires Inv(s) && RequestInv(q, s) && Enabled(s, a) && (a.Start? || a.Load? || a.Cas? || a.Put?)
    ensures RequestInv(q, Apply(s, a))
  {
    var s' := Apply(s, a);
    RequestsKept(q, s.turns, s'.turns, s.client.calls, s'.client.calls);
    forall u | 0 <= u < |s'.callers| ensures CallerRequest(q, s'.callers[u]) {
      assert CallerRequest(q, s.callers[u]);
    }
    assert CallerRequest(q, s.callers[a.t]);
  }

  lemma UpdateRequests(q: seq<Request>, s: State, a: Action)
    requires RequestInv(q, s) && Enabled(s, a) && !(a.Start? || a.Load? || a.Cas? || a.Push? || a.Put?)
    ensures RequestInv(q, Apply(s, a))
  {
  }

  lemma {:induction false} RequestsOfRun(s0: State, run: seq<Action>, s: State)
    requires Reaches(s0, run, s)
    ensures RequestInv(Queued(s0, run), s)
    decreases |run|
  {
    if run != [] {
      var last := |run| - 1;
      var a := run[last];
      var m :| Reaches(s0, run[..last], m) && Enabled(m, a) && s == Apply(m, a);
      RequestsOfRun(s0, run[..last], m);
      ReachableInv(s0, run[..last], m);
      ReachedIsAfter(s0, run[..last], m);
      ActionRequests(Queued(s0, run[..last]), m, a);
    }
  }

  lemma ActionRequests(q: seq<Request>, s: State, a: Action)
    requires Inv(s) && RequestInv(q, s) && Enabled(s, a)
    ensures RequestInv(q + Queues(s, a), Apply(s, a))
  {
    if a.Push? {
      PushRequests(q, s, a.t, a.now);
    } else {
      assert q + [] == q;
      if a.Start? || a.Load? || a.Cas? || a.Put? { CallerRequests(q, s, a); } else { UpdateRequests(q, s, a); }
    }
  }

  /** In every run each request is queued with the id its own call drew, and at most one for each call; what is in the
      queue now carries such an id; and a call is pending under exactly the id its request was queued with. */
  lemma RequestsCarryOwnIds(s0: State, run: seq<Action>, s: State)
    requires Reaches(s0, run, s)
    ensures RequestsOk(Queued(s0, run), s.turns, s.client.calls)
    ensures forall i :: 0 <= i < |s.client.requests| ==> HasRequest(Queued(s0, run), s.client.requests[i])
    ensures forall c :: 0 <= c < |s.fates| && s.fates[c].Pending? ==>
              exists start :: Request(c, s.fates[c].id, start) in Queued(s0, run)
  {
    RequestsOfRun(s0, run, s);
    ReachableInv(s0, run, s);
    forall c | 0 <= c < |s.fates| && s.fates[c].Pending?
      ensures exists start :: Request(c, s.fates[c].id, start) in Queued(s0, run)
    {
      assert Request(c, s.fates[c].id, s.client.reqmap[s.fates[c].id].start) in Queued(s0, run);
    }
  }

  // ---------- outcomes ----------

  /** The `k`-th action enters Call for call `c` while the client is not connected. */
  ghost predicate IsRefusal(s0: State, run: seq<Action>, k: nat, c: nat) {
    k < |run| && run[k].Start? &&
    var client := After(s0, run[..k]).client;
    (client.status.Disconnect? || client.status.Connecting?) && client.calls == c
  }

  /** ProcessTimeout was run more than 30 seconds after the request of the call was made. */
  ghost predicate Late(s0: State, run: seq<Action>, c: nat) {
    exists i: nat, k: nat :: i < |Queued(s0, run)| && k < |run| && Queued(s0, run)[i].call == c && run[k].Timeout?
                             && Queued(s0, run)[i].start + 30_000_000_000 < run[k].now
  }

  /** What in the run the outcome of a callback stands for. */
  ghost predicate Caused(s0: State, run: seq<Action>, cb: Callback) {
    match cb.outcome
    case Replied(id, error) => Deliver(Answer(id, error)) in run
    case TimedOut => Late(s0, run, cb.call)
    case NotConnected => exists k: nat :: IsRefusal(s0, run, k, cb.call)
  }

  ghost predicate AllCaused(s0: State, run: seq<Action>, cs: seq<Callback>) {
    forall i :: 0 <= i < |cs| ==> Caused(s0, run, cs[i])
  }

  /** The replies the client has not handled yet were delivered. */
  predicate RepliesDelivered(run: seq<Action>, s: State) {
    && (forall i :: 0 <= i < |s.client.replies| ==> Deliver(s.client.replies[i]) in run)
    && (s.upd.UGot? ==> Deliver(s.upd.rep) in run)
  }

  ghost predicate CauseInv(s0: State, run: seq<Action>, s: State) {
    AllCaused(s0, run, s.client.log) && AllCaused(s0, run, DueNow(s.upd)) && RepliesDelivered(run, s)
  }

  lemma CausedStays(s0: State, run: seq<Action>, a: Action, cb: Callback)
    requires Caused(s0, run, cb)
    ensures Caused(s0, run + [a], cb)
  {
    var run' := run + [a];
    assert run'[..|run'| - 1] == run;
    if cb.outcome.TimedOut? {
      var i: nat, k: nat :| i < |Queued(s0, run)| && k < |run| && Queued(s0, run)[i].call == cb.call && run[k].Timeout?
                            && Queued(s0, run)[i].start + 30_000_000_000 < run[k].now;
      assert Queued(s0, run')[i] == Queued(s0, run)[i] && run'[k] == run[k];
    } else if cb.outcome.NotConnected? {
      var k: nat :| IsRefusal(s0, run, k, cb.call);
      assert run'[..k] == run[..k];
      assert IsRefusal(s0, run', k, cb.call);
    }
  }

  lemma AllCausedStays(s0: State, run: seq<Action>, a: Action, cs: seq<Callback>)
    requires AllCaused(s0, run, cs)
    ensures AllCaused(s0, run + [a], cs)
  {
    forall i | 0 <= i < |cs| ensures Caused(s0, run + [a], cs[i]) { CausedStays(s0, run, a, cs[i]); }
  }

  lemma StartCaused(s0: State, run: seq<Action>, s: State, t: nat)
    requires Reaches(s0, run, s) && Enabled(s, Start(t)) && CauseInv(s0, run, s)
    ensures CauseInv(s0, run + [Start(t)], Apply(s, Start(t)))
  {
    var run' := run + [Start(t)];
    AllCausedStays(s0, run, Start(t), s.client.log);
    AllCausedStays(s0, run, Start(t), DueNow(s.upd));
    if Refuses(s.client.status) {
      ReachedIsAfter(s0, run, s);
      assert run'[..|run|] == run;
      assert IsRefusal(s0, run', |run|, s.client.calls);
      assert Caused(s0, run', Callback(s.client.calls, NotConnected));
    }
  }

  lemma TimeoutCaused(s0: State, run: seq<Action>, s: State, now: int, ids: seq<nat>)
    requires Reaches(s0, run, s) && Enabled(s, Timeout(now, ids))
    ensures AllCaused(s0, run + [Timeout(now, ids)], Timeouts(ExpiredEntries(s.client.reqmap, ids, now)))
  {
    var a, reqmap := Timeout(now, ids), s.client.reqmap;
    var run' := run + [a];
    assert run'[..|run'| - 1] == run;
    RequestsOfRun(s0, run, s);
    var gone := ExpiredOf(reqmap, ids, now);
    var cs := Timeouts(EntriesOf(reqmap, gone));
    forall i | 0 <= i < |cs| ensures Caused(s0, run', cs[i]) {
      var id := gone[i];
      var r := Request(reqmap[id].call, id, reqmap[id].start);
      assert r in Queued(s0, run);
      var j: nat :| j < |Queued(s0, run)| && Queued(s0, run)[j] == r;
      assert Queued(s0, run')[j] == r && run'[|run|] == a;
    }
  }

  lemma OtherCaused(s0: State, run: seq<Action>, s: State, a: Action)
    requires Enabled(s, a) && CauseInv(s0, run, s) && !a.Start? && !a.Timeout?
    ensures CauseInv(s0, run + [a], Apply(s, a))
  {
    var run' := run + [a];
    AllCausedStays(s0, run, a, s.client.log);
    AllCausedStays(s0, run, a, DueNow(s.upd));
    assert run'[|run|] == a;
    if a.Handle? && Apply(s, a).upd.UDue? {
      assert Caused(s0, run', DueNow(Apply(s, a).upd)[0]);
    }
  }

  lemma {:induction false} RunCaused(s0: State, run: seq<Action>, s: State)
    requires Reaches(s0, run, s)
    ensures CauseInv(s0, run, s)
    decreases |run|
  {
    if run != [] {
      var last := |run| - 1;
      var before, a := run[..last], run[last];
      var m :| Reaches(s0, before, m) && Enabled(m, a) && s == Apply(m, a);
      RunCaused(s0, before, m);
      assert run == before + [a];
      if a.Start? {
        StartCaused(s0, before, m, a.t);
      } else if a.Timeout? {
        TimeoutCaused(s0, before, m, a.now, a.ids);
        AllCausedStays(s0, before, a, m.client.log);
      } else {
        OtherCaused(s0, before, m, a);
      }
    }
  }

  /** Every callback that a run has run has its cause in the run: with the outcome of a reply, an action of the io
      thread that delivers this very reply, with the same id and the same error flag; with a timeout, a call of
      ProcessTimeout more than 30 seconds after the request of its call; with "not connected", an attempt to call
      while the client was not. */
  lemma OutcomesAreCaused(s0: State, run: seq<Action>, s: State, i: nat)
    requires Reaches(s0, run, s) && i < |s.client.log|
    ensures match s.client.log[i].outcome
            case Replied(id, error) => Deliver(Answer(id, error)) in run
            case TimedOut => Late(s0, run, s.client.log[i].call)
            case NotConnected => exists k: nat :: IsRefusal(s0, run, k, s.client.log[i].call)
  {
    RunCaused(s0, run, s);
    assert Caused(s0, run, s.client.log[i]);
  }

  /** A callback that is run with a reply belongs to a call that drew the reply's id, and tells it what the io thread
      has delivered under this id: an error exactly if that reply has one. */
  lemma ReplyGoesToItsCall(s0: State, run: seq<Action>, s: State, i: nat)
    requires Reaches(s0, run, s) && i < |s.client.log| && s.client.log[i].outcome.Replied?
    ensures var cb := s.client.log[i]; var o := cb.outcome;
      Drew(s.turns, cb.call, o.msgid) && Deliver(Answer(o.msgid, o.error)) in run
  {
    OutcomesAreCaused(s0, run, s, i);
    ReachableInv(s0, run, s);
    assert OutcomeOk(s.client.log[i].outcome, s.client.log[i].call, s.turns);
  }

  // ---------- every reply is used once ----------

  /** The replies that callbacks were run with. */
  function Answers(cs: seq<Callback>): multiset<Reply> {
    if cs == [] then multiset{}
    else
      var o := cs[|cs| - 1].outcome;
      Answers(cs[..|cs| - 1]) + (if o.Replied? then multiset{Answer(o.msgid, o.error)} else multiset{})
  }

  lemma AnswersMore(cs: seq<Callback>, cb: Callback)
    ensures Answers(cs + [cb])
         == Answers(cs) + (if cb.outcome.Replied? then multiset{Answer(cb.outcome.msgid, cb.outcome.error)} else multiset{})
  {
    assert (cs + [cb])[..|cs|] == cs;
  }

  lemma {:induction false} AnswersJoin(a: seq<Callback>, b: seq<Callback>)
    ensures Answers(a + b) == Answers(a) + Answers(b)
    decreases |b|
  {
    if b == [] {
      assert a + b == a;
    } else {
      var b', cb := b[..|b| - 1], b[|b| - 1];
      AnswersJoin(a, b');
      AnswersMore(a + b', cb);
      assert a + b == a + b' + [cb];
    }
  }

  lemma {:induction false} NoAnswers(cs: seq<Callback>)
    requires forall i :: 0 <= i < |cs| ==> cs[i].outcome.TimedOut?
    ensures Answers(cs) == multiset{}
    decreases |cs|
  {
    if cs != [] { NoAnswers(cs[..|cs| - 1]); }
  }

  /** The replies the io thread has delivered. */
  function Deliveries(run: seq<Action>): multiset<Reply>
    decreases |run|
  {
    if run == [] then multiset{}
    else
      var a := run[|run| - 1];
      Deliveries(run[..|run| - 1]) + (if a.Deliver? then multiset{a.rep} else multiset{})
  }

  function Held(upd: UpdatePC): multiset<Reply> {
    if upd.UGot? then multiset{upd.rep} else multiset{}
  }

  /** The replies in use: run with a callback, about to be, handed to the notifier, or not yet handled. */
  function InUse(s: State): multiset<Reply> {
    Answers(s.client.log) + Answers(DueNow(s.upd)) + multiset(s.client.notes) + multiset(s.client.replies) + Held(s.upd)
  }

  lemma AnswersMove(log: seq<Callback>, cs: seq<Callback>)
    requires cs != []
    ensures Answers(log + [cs[0]]) + Answers(cs[1..]) == Answers(log) + Answers(cs)
  {
    AnswersJoin(log, [cs[0]]);
    AnswersJoin([cs[0]], cs[1..]);
    assert [cs[0]] + cs[1..] == cs;
  }

  lemma FirstAndRest(replies: seq<Reply>)
    requires replies != []
    ensures multiset(replies) == multiset{replies[0]} + multiset(replies[1..])
  {
    assert replies == [replies[0]] + replies[1..];
  }

  lemma FireUses(s: State)
    requires Enabled(s, Fire)
    ensures InUse(Apply(s, Fire)) == InUse(s)
  {
    AnswersMove(s.client.log, s.upd.cs);
    assert DueNow(Apply(s, Fire).upd) == s.upd.cs[1..];
  }

  lemma HandledIs(s: State)
    requires Enabled(s, Handle)
    ensures var s' := Apply(s, Handle);
      && s'.client.log == s.client.log && s'.client.replies == s.client.replies
      && s'.client.notes == s.client.notes + (if s'.client.notes != s.client.notes then [s.upd.rep] else [])
      && (s'.upd.UDue? ==> s'.client.notes == s.client.notes)
      && DueNow(s.upd) == [] && Held(s.upd) == multiset{s.upd.rep} && Held(s'.upd) == multiset{}
      && (s'.upd.UDue? ==> s.upd.rep.Answer? && |s'.upd.cs| == 1
                           && s'.upd.cs[0].outcome == Replied(s.upd.rep.msgid, s.upd.rep.error))
  {
  }

  lemma HandleUses(s: State)
    requires Enabled(s, Handle)
    ensures InUse(Apply(s, Handle)) <= InUse(s)
  {
    HandledIs(s);
    var cs := DueNow(Apply(s, Handle).upd);
    if cs != [] {
      AnswersMore([], cs[0]);
      assert [] + [cs[0]] == cs;
    }
  }

  lemma DequeueUses(s: State, a: Action)
    requires Enabled(s, a) && (a.Pop? || a.DrainReply?)
    ensures InUse(Apply(s, a)) <= InUse(s)
  {
    if s.client.replies != [] { FirstAndRest(s.client.replies); }
  }

  lemma TimeoutUses(s: State, now: int, ids: seq<nat>)
    requires Enabled(s, Timeout(now, ids))
    ensures InUse(Apply(s, Timeout(now, ids))) == InUse(s)
  {
    NoAnswers(DueNow(Apply(s, Timeout(now, ids)).upd));
  }

  lemma StartIs(s: State, t: nat)
    requires Enabled(s, Start(t))
    ensures var s', log := Apply(s, Start(t)), s.client.log;
      && (s'.client.log == log || s'.client.log == log + [Callback(s.client.calls, NotConnected)])
      && s'.client.replies == s.client.replies && s'.client.notes == s.client.notes && s'.upd == s.upd
  {
  }

  lemma StartUses(s: State, t: nat)
    requires Enabled(s, Start(t))
    ensures InUse(Apply(s, Start(t))) == InUse(s)
  {
    StartIs(s, t);
    AnswersMore(s.client.log, Callback(s.client.calls, NotConnected));
  }

  lemma DeliverUses(s: State, rep: Reply)
    ensures InUse(Apply(s, Deliver(rep))) == InUse(s) + multiset{rep}
  {
  }

  lemma OtherUses(s: State, a: Action)
    requires Enabled(s, a)
    requires !a.Start? && !a.Fire? && !a.Handle? && !a.Pop? && !a.DrainReply? && !a.Timeout? && !a.Deliver?
    ensures var s' := Apply(s, a);
      && s'.client.log == s.client.log && s'.client.replies == s.client.replies && s'.client.notes == s.client.notes
      && DueNow(s'.upd) == DueNow(s.upd) && Held(s'.upd) == Held(s.upd)
  {
  }

  lemma StepUses(s: State, a: Action)
    requires Enabled(s, a)
    ensures InUse(Apply(s, a)) <= InUse(s) + (if a.Deliver? then multiset{a.rep} else multiset{})
  {
    if a.Fire? {
      FireUses(s);
    } else if a.Handle? {
      HandleUses(s);
    } else if a.Pop? || a.DrainReply? {
      DequeueUses(s, a);
    } else if a.Timeout? {
      TimeoutUses(s, a.now, a.ids);
    } else if a.Start? {
      StartUses(s, a.t);
    } else if a.Deliver? {
      DeliverUses(s, a.rep);
    } else {
      OtherUses(s, a);
    }
  }

  /** In every run the callbacks run with replies, and the notices, use each reply delivered at most once. */
  lemma {:induction false} RepliesUsedOnce(s0: State, run: seq<Action>, s: State)
    requires Reaches(s0, run, s)
    ensures InUse(s) <= Deliveries(run) && Answers(s.client.log) + multiset(s.client.notes) <= Deliveries(run)
    decreases |run|
  {
    if run != [] {
      var last := |run| - 1;
      var m :| Reaches(s0, run[..last], m) && Enabled(m, run[last]) && s == Apply(m, run[last]);
      RepliesUsedOnce(s0, run[..last], m);
      StepUses(m, run[last]);
    }
  }

  // ---------- a reply handled undisturbed ----------

  lemma ReachesNext(s0: State, run: seq<Action>, s: State, a: Action)
    requires Reaches(s0, run, s) && Enabled(s, a)
    ensures Reaches(s0, run + [a], Apply(s, a))
  {
    assert (run + [a])[..|run + [a]| - 1] == run;
  }

  /** With the client not restarting, a reply that is handled undisturbed while call `c` is pending under its id runs
      the callback of `c`, with this id and this error flag, and takes its entry out of the table. */
  lemma ReplyRunsCallback(s0: State, run: seq<Action>, s: State, c: nat, id: nat, error: bool)
    requires Reaches(s0, run, s) && s.upd.UIdle? && !s.client.restarting
    requires s.client.replies != [] && s.client.replies[0] == Answer(id, error)
    requires c < |s.fates| && s.fates[c].Pending? && s.fates[c].id == id
    ensures exists s' :: Reaches(s0, run + [Pop] + [Handle] + [Fire], s') && s'.upd.UIdle?
              && s'.client == s.client.(replies := s.client.replies[1..], reqmap := s.client.reqmap - {id},
                                        log := s.client.log + [Callback(c, Replied(id, error))])
  {
    ReachableInv(s0, run, s);
    assert HasTurn(s.turns, c, id, s.fates[c].k) && id != 0;
    var s1 := Apply(s, Pop);
    var s2 := Apply(s1, Handle);
    ReachesNext(s0, run, s, Pop);
    ReachesNext(s0, run + [Pop], s1, Handle);
    assert s2.upd == UDue([Callback(c, Replied(id, error))]);
    ReachesNext(s0, run + [Pop] + [Handle], s2, Fire);
  }
}
