/**
 The steps of module CallRuns, taken without interference, add up to the methods of class CallTable.RPCStream.
 */
module CallSteps {
  import opened Options
  import opened CallTable
  import opened CallRuns

  /** `s'` is reached from `s` by these steps in this order. */
  ghost predicate Steps(s: State, run: seq<Action>, s': State)
    decreases |run|
  {
    if run == [] then s' == s
    else Enabled(s, run[0]) && Steps(Apply(s, run[0]), run[1..], s')
  }

  lemma {:induction false} StepsJoin(s: State, a: seq<Action>, m: State, b: seq<Action>, s': State)
    requires Steps(s, a, m) && Steps(m, b, s')
    ensures Steps(s, a + b, s')
    decreases |a|
  {
    if a == [] {
      assert a + b == b;
    } else {
      StepsJoin(Apply(s, a[0]), a[1..], m, b, s');
      assert (a + b)[0] == a[0] && (a + b)[1..] == a[1..] + b;
    }
  }

  lemma OneStep(s: State, a: Action)
    requires Enabled(s, a)
    ensures Steps(s, [a], Apply(s, a))
  {
    assert Steps(Apply(s, a), [], Apply(s, a));
  }

  lemma OneMoreStep(s: State, a: Action, run: seq<Action>, t: State)
    requires Enabled(s, a) && Steps(Apply(s, a), run, t)
    ensures Steps(s, [a] + run, t)
  {
    assert ([a] + run)[1..] == run;
  }

  /** The id is drawn: the first three steps of a call. */
  lemma IdDrawn(s: State, t: nat) returns (m: State)
    requires t < |s.callers| && s.callers[t].CIdle? && !Refuses(s.client.status)
    ensures var c, id := s.client.calls, NextId(s.client.seed);
      && m.client == s.client.(calls := c + 1, seed := id) && m.callers == s.callers[t := CPush(c, id, |s.turns|)]
    ensures Steps(s, [Start(t)] + ([Load(t)] + [Cas(t, false)]), m)
  {
    var s1 := Apply(s, Start(t));
    var s2 := Apply(s1, Load(t));
    m := Apply(s2, Cas(t, false));
    OneStep(s2, Cas(t, false));
    OneMoreStep(s1, Load(t), [Cas(t, false)], m);
    OneMoreStep(s, Start(t), [Load(t)] + [Cas(t, false)], m);
  }

  /** The entry is stored: the last two. */
  lemma EntryPut(m: State, t: nat, now: int) returns (s': State)
    requires t < |m.callers| && m.callers[t].CPush?
    ensures var pc := m.callers[t];
      && s'.client == m.client.(requests := m.client.requests + [pc.id],
                                reqmap := m.client.reqmap[pc.id := Entry(pc.c, now)])
      && s'.callers == m.callers[t := CIdle]
    ensures Steps(m, [Push(t, now)] + [Put(t)], s')
  {
    var s4 := Apply(m, Push(t, now));
    s' := Apply(s4, Put(t));
    OneStep(s4, Put(t));
    OneMoreStep(m, Push(t, now), [Put(t)], s');
  }

  /** A call made undisturbed is `Call`. */
  lemma CallIsSteps(s: State, t: nat, now: int)
    requires t < |s.callers| && s.callers[t].CIdle? && !Refuses(s.client.status)
    ensures exists s' :: Steps(s, [Start(t), Load(t), Cas(t, false), Push(t, now), Put(t)], s')
                         && s'.client == Called(s.client, now) && s'.callers == s.callers
  {
    var m := IdDrawn(s, t);
    var s' := EntryPut(m, t, now);
    StepsJoin(s, [Start(t)] + ([Load(t)] + [Cas(t, false)]), m, [Push(t, now)] + [Put(t)], s');
    assert [Start(t)] + ([Load(t)] + [Cas(t, false)]) + ([Push(t, now)] + [Put(t)])
        == [Start(t), Load(t), Cas(t, false), Push(t, now), Put(t)];
    assert s'.callers == s.callers;
  }

  /** Running the callbacks held. */
  lemma {:induction false} FireAll(s: State)
    requires s.upd.UDue?
    ensures s.upd.cs != [] ==> exists s', run ::
              Steps(s, run, s') && s'.client == s.client.(log := s.client.log + s.upd.cs) && s'.upd.UIdle?
    decreases if s.upd.UDue? then |s.upd.cs| else 0
  {
    if s.upd.cs != [] {
      var s1 := Apply(s, Fire);
      OneStep(s, Fire);
      var cs := s.upd.cs;
      if |cs| == 1 {
        assert cs == [cs[0]];
        assert Steps(s, [Fire], s1) && s1.client == s.client.(log := s.client.log + cs);
      } else {
        FireAll(s1);
        var s', run :| Steps(s1, run, s') && s'.client == s1.client.(log := s1.client.log + s1.upd.cs) && s'.upd.UIdle?;
        StepsJoin(s, [Fire], s1, run, s');
        assert s.client.log + [cs[0]] + cs[1..] == s.client.log + cs;
        assert Steps(s, [Fire] + run, s');
      }
    }
  }

  /** One turn of the loop of ProcessReply, on a reply that is no event. */
  lemma ReplyIsSteps(s: State)
    requires s.upd.UIdle? && s.client.replies != [] && s.client.replies[0].Answer?
    ensures exists s', run :: Steps(s, run, s') && s'.upd.UIdle?
              && s'.client == Handled(s.client.(replies := s.client.replies[1..]), s.client.replies[0])
  {
    var s1 := Apply(s, Pop);
    var s2 := Apply(s1, Handle);
    OneStep(s, Pop);
    OneStep(s1, Handle);
    StepsJoin(s, [Pop], s1, [Handle], s2);
    if s2.upd.UDue? {
      FireAll(s2);
      var s', run :| Steps(s2, run, s') && s'.client == s2.client.(log := s2.client.log + s2.upd.cs) && s'.upd.UIdle?;
      StepsJoin(s, [Pop] + [Handle], s2, run, s');
    }
  }

  lemma {:induction false} RepliesDrain(s: State)
    requires s.upd.UReplies?
    ensures exists run :: Steps(s, run, s.(client := s.client.(replies := []), upd := URequests(s.upd.ev)))
    decreases |s.client.replies|
  {
    var s1 := Apply(s, DrainReply);
    OneStep(s, DrainReply);
    if s.client.replies != [] {
      RepliesDrain(s1);
      var t := s.(client := s.client.(replies := []), upd := URequests(s.upd.ev));
      var run :| Steps(s1, run, t);
      StepsJoin(s, [DrainReply], s1, run, t);
    }
  }

  lemma {:induction false} RequestsDrain(s: State)
    requires s.upd.URequests?
    ensures exists run :: Steps(s, run, s.(client := s.client.(requests := []), upd := UMap(s.upd.ev)))
    decreases |s.client.requests|
  {
    var s1 := Apply(s, DrainRequest);
    OneStep(s, DrainRequest);
    if s.client.requests != [] {
      RequestsDrain(s1);
      var t := s.(client := s.client.(requests := []), upd := UMap(s.upd.ev));
      var run :| Steps(s1, run, t);
      StepsJoin(s, [DrainRequest], s1, run, t);
    }
  }

  /** DrainQueue and what follows it. */
  lemma DrainIsSteps(s: State)
    requires s.upd.UReplies?
    ensures exists s', run :: Steps(s, run, s') && s'.upd.UIdle? && s'.client == AfterDrain(s.client, s.upd.ev)
  {
    RepliesDrain(s);
    var s1 := s.(client := s.client.(replies := []), upd := URequests(s.upd.ev));
    var run1 :| Steps(s, run1, s1);
    RequestsDrain(s1);
    var s2 := s1.(client := s1.client.(requests := []), upd := UMap(s.upd.ev));
    var run2 :| Steps(s1, run2, s2);
    StepsJoin(s, run1, s1, run2, s2);
    MapDrain(s2);
    var s', run3 :| Steps(s2, run3, s') && s'.upd.UIdle? && s'.client == AfterDrain(s2.client, s2.upd.ev);
    StepsJoin(s, run1 + run2, s2, run3, s');
  }

  /** Its last two steps: the table is cleared, the status set. */
  lemma MapDrain(s: State)
    requires s.upd.UMap? && s.client.replies == [] && s.client.requests == []
    ensures exists s', run :: Steps(s, run, s') && s'.upd.UIdle? && s'.client == AfterDrain(s.client, s.upd.ev)
  {
    var s1 := Apply(s, DrainMap);
    var s2 := Apply(s1, Switch);
    OneStep(s1, Switch);
    OneMoreStep(s, DrainMap, [Switch], s2);
    assert s2.client == AfterDrain(s.client, s.upd.ev);
  }

  /** After the drain: the status of the event, or a restart if the delegate was not ready. */
  function AfterDrain(c: Client, ev: Option<Reply>): Client {
    match ev
    case None => Drained(c).(restarting := true, status := Disconnect)
    case Some(e) =>
      if e.EstablishedEvent? then Drained(c).(restarting := false, status := Established)
      else Drained(c).(status := Disconnect)
  }

  /** The turn of ProcessReply on an event. */
  lemma EventIsSteps(s: State)
    requires s.upd.UIdle? && s.client.replies != [] && !s.client.replies[0].Answer?
    ensures exists s', run :: Steps(s, run, s') && s'.upd.UIdle?
              && s'.client == Switched(s.client.(replies := s.client.replies[1..]), s.client.replies[0])
  {
    var s1 := Apply(s, Pop);
    var s2 := Apply(s1, Handle);
    OneStep(s, Pop);
    OneStep(s1, Handle);
    StepsJoin(s, [Pop], s1, [Handle], s2);
    DrainIsSteps(s2);
    var s', run :| Steps(s2, run, s') && s'.upd.UIdle? && s'.client == AfterDrain(s2.client, s2.upd.ev);
    StepsJoin(s, [Pop] + [Handle], s2, run, s');
  }

  /** ProcessReply undisturbed, over everything that is in the queue. */
  lemma {:induction false} ProcessIsSteps(s: State)
    requires s.upd.UIdle?
    ensures exists s', run :: Steps(s, run, s') && s'.upd.UIdle? && s'.client == Processed(s.client)
    decreases |s.client.replies|
  {
    if s.client.replies == [] {
      assert Steps(s, [], s);
    } else if s.client.replies[0].Answer? {
      ReplyIsSteps(s);
      var rest := s.client.(replies := s.client.replies[1..]);
      var m, run :| Steps(s, run, m) && m.upd.UIdle? && m.client == Handled(rest, s.client.replies[0]);
      ProcessIsSteps(m);
      var s', more :| Steps(m, more, s') && s'.upd.UIdle? && s'.client == Processed(m.client);
      StepsJoin(s, run, m, more, s');
    } else {
      EventIsSteps(s);
    }
  }

  /** ProcessTimeout undisturbed. */
  lemma TimeoutIsSteps(s: State, now: int, ids: seq<nat>)
    requires s.upd.UIdle? && InOrder(s.client.reqmap, ids)
    ensures exists s', run :: Steps(s, run, s') && s'.upd.UIdle? && TimedOutFrom(s.client, s'.client, now)
  {
    var s1 := Apply(s, Timeout(now, ids));
    var es := ExpiredEntries(s.client.reqmap, ids, now);
    OneStep(s, Timeout(now, ids));
    if es == [] {
      assert s.client.log + Timeouts(es) == s.client.log;
      assert TimedOutFrom(s.client, s1.client, now);
    } else {
      FireAll(s1);
      var s', run :| Steps(s1, run, s') && s'.client == s1.client.(log := s1.client.log + s1.upd.cs) && s'.upd.UIdle?;
      StepsJoin(s, [Timeout(now, ids)], s1, run, s');
      assert TimedOutFrom(s.client, s'.client, now);
    }
  }

  // ---------- what that comes to ----------

  /** A call that is made undisturbed while the client is connected draws the next id, queues its request with this id,
      and is listed under it with the time it was given. */
  lemma CallIsListed(s0: State, run: seq<Action>, s: State, t: nat, now: int)
    requires Reaches(s0, run, s) && Enabled(s, Start(t))
    requires !s.client.status.Disconnect? && !s.client.status.Connecting?
    ensures var id, c := IdOf(|s.turns|), s.client.calls;
      exists s' :: Steps(s, [Start(t), Load(t), Cas(t, false), Push(t, now), Put(t)], s') && s'.callers == s.callers
        && s'.client == s.client.(seed := id, calls := c + 1, requests := s.client.requests + [id],
                                  reqmap := s.client.reqmap[id := Entry(c, now)])
  {
    ReachableInv(s0, run, s);
    NextIdIs(|s.turns|);
    CallIsSteps(s, t, now);
  }

  /** An event that is handled undisturbed empties queues and table, runs no callback, and sets the status it stands for;
      only the one that reports a connection ends a restart. */
  lemma EventTakesEffect(s: State)
    requires s.upd.UIdle? && s.client.replies != [] && !s.client.replies[0].Answer?
    ensures var connected := s.client.replies[0].EstablishedEvent?;
      exists s', run :: Steps(s, run, s') && s'.upd.UIdle?
        && s'.client == Client(s.client.seed, if connected then Established else Disconnect,
                               !connected && s.client.restarting, map[], [], [], s.client.calls, s.client.log, s.client.notes)
  {
    EventIsSteps(s);
  }
}
