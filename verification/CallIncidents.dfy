/**
 Two runs of the client in which a call is lost: its id comes round again while it is pending, and its reply is
 handled before its entry is in the table.
 */
module CallIncidents {
  import opened CallTable
  import opened CallRuns

  /** One client, one calling thread. */
  function NewStream(): State {
    State(Client(0, Disconnect, false, map[], [], [], 0, [], []), [CIdle], UIdle, [], [])
  }

  lemma Extend(run: seq<Action>, s: State, a: Action) returns (run': seq<Action>, s': State)
    requires Reaches(NewStream(), run, s) && Enabled(s, a)
    ensures Reaches(NewStream(), run', s') && s' == Apply(s, a)
  {
    run', s' := run + [a], Apply(s, a);
    assert run'[..|run'| - 1] == run;
  }

  /** A connected client. */
  lemma Connected() returns (run: seq<Action>, s: State)
    ensures Reaches(NewStream(), run, s)
    ensures s == NewStream().(client := NewStream().client.(status := Established))
  {
    assert Reaches(NewStream(), [], NewStream());
    run, s := Extend([], NewStream(), SetStatus(Established));
  }

  /** What a call made without interference adds. */
  function AfterCall(s: State, now: int): State {
    var c, id, k := s.client.calls, NextId(s.client.seed), |s.turns|;
    s.(client := Called(s.client, now), turns := s.turns + [c],
       fates := PutFates(s.client.reqmap, s.fates + [Making], c, id, k))
  }

  lemma CallMade(run: seq<Action>, s: State, now: int) returns (run': seq<Action>, s': State)
    requires Reaches(NewStream(), run, s) && s.callers == [CIdle] && !Refuses(s.client.status)
    ensures Reaches(NewStream(), run', s') && s' == AfterCall(s, now)
  {
    var c, id, k := s.client.calls, NextId(s.client.seed), |s.turns|;
    run', s' := Extend(run, s, Start(0));
    run', s' := Extend(run', s', Load(0));
    run', s' := Extend(run', s', Cas(0, false));
    assert s'.callers == [CPush(c, id, k)];
    run', s' := Extend(run', s', Push(0, now));
    assert s'.callers == [CPut(c, id, k, now)];
    var before := s';
    run', s' := Extend(run', s', Put(0));
    PutIs(before, 0);
    assert s'.callers == [CIdle];
  }

  /** After `n` calls, none of them answered, the first one is pending under id 1. */
  predicate Waiting(s: State, n: nat) {
    && s.callers == [CIdle] && s.upd.UIdle? && s.client.status == Established
    && |s.turns| == |s.fates| == s.client.calls == n && 0 < n && s.fates[0] == Pending(1, 0)
  }

  lemma OneMore(s: State, n: nat)
    requires Inv(s) && Waiting(s, n) && n < IDS
    ensures Waiting(AfterCall(s, 0), n + 1)
  {
    NextIdIs(n);
    var id := NextId(s.client.seed);
    IdsDistinct(0, n);
    assert id == IdOf(n) != IdOf(0) == 1;
    if id in s.client.reqmap { assert s.client.reqmap[id].call != 0; }
  }

  lemma {:induction false} CallsWait(n: nat) returns (run: seq<Action>, s: State)
    requires 0 < n <= IDS
    ensures Reaches(NewStream(), run, s) && Waiting(s, n)
    decreases n
  {
    if n == 1 {
      run, s := Connected();
      run, s := CallMade(run, s, 0);
    } else {
      var m;
      run, m := CallsWait(n - 1);
      ReachableInv(NewStream(), run, m);
      OneMore(m, n - 1);
      run, s := CallMade(run, m, 0);
    }
  }

  /** A call that stays pending through 1999999999 others is pushed out: its callback is never run, neither by a
      reply nor by a timeout. */
  lemma OverwriteHappens() returns (run: seq<Action>, s: State)
    ensures Reaches(NewStream(), run, s) && |s.fates| > 0 && s.fates[0] == Overwritten
    ensures !Listed(s.client.reqmap, 0) && forall i :: 0 <= i < |s.client.log| ==> s.client.log[i].call != 0
  {
    var m;
    run, m := CallsWait(IDS);
    ReachableInv(NewStream(), run, m);
    NextIdIs(IDS);
    IdsDistinct(0, IDS);
    assert NextId(m.client.seed) == 1 && m.client.reqmap[1].call == 0;
    run, s := CallMade(run, m, 0);
    ReachableInv(NewStream(), run, s);
  }

  /** The io thread may send a request and get its reply before the calling thread has stored the entry: the reply is
      dropped, and the call waits for its timeout with no reply on its way. */
  lemma EarlyReplyIsLost() returns (run: seq<Action>, s: State)
    ensures Reaches(NewStream(), run, s) && Waiting(s, 1)
    ensures s.client.replies == [] && s.client.requests == [] && s.client.log == []
  {
    run, s := RequestQueued();
    run, s := ReplyDropped(run, s);
    run, s := Extend(run, s, Put(0));
    assert s.callers == [CIdle] && s.fates == [Pending(1, 0)];
  }

  /** A reconnect drains the table before the calling thread has stored its entry; the call is then pending in a client
      that is restarting, and its reply is dropped although it is. */
  lemma RestartDropsReply() returns (run: seq<Action>, s: State)
    ensures Reaches(NewStream(), run, s) && s.fates == [Pending(1, 0)] && s.upd == UGot(Answer(1, false))
    ensures Apply(s, Handle) == s.(upd := UIdle)
  {
    run, s := PendingInRestart();
    run, s := Extend(run, s, Deliver(Answer(1, false)));
    run, s := Extend(run, s, Pop);
  }

  lemma PendingInRestart() returns (run: seq<Action>, s: State)
    ensures Reaches(NewStream(), run, s) && s.fates == [Pending(1, 0)]
    ensures s.upd.UIdle? && s.client.restarting && s.client.replies == []
  {
    run, s := RequestQueued();
    run, s := Extend(run, s, Send);
    run, s := Restarted(run, s);
    run, s := Extend(run, s, Put(0));
    assert s.callers == [CIdle] && s.fates == [Pending(1, 0)];
  }

  /** Update finds the delegate not ready, drains everything, and starts again. */
  lemma Restarted(run: seq<Action>, s: State) returns (run': seq<Action>, s': State)
    requires Reaches(NewStream(), run, s) && s.upd.UIdle? && s.client.replies == [] && s.client.requests == []
    requires forall c :: 0 <= c < |s.fates| ==> !s.fates[c].Pending?
    ensures Reaches(NewStream(), run', s')
    ensures s' == s.(client := s.client.(reqmap := map[], restarting := true, status := Disconnect))
  {
    run', s' := Extend(run, s, NotReady);
    run', s' := Extend(run', s', DrainReply);
    run', s' := Extend(run', s', DrainRequest);
    run', s' := Extend(run', s', DrainMap);
    assert s'.fates == s.fates;
    run', s' := Extend(run', s', Switch);
  }

  /** The first call, with its id. */
  lemma IdGiven() returns (run: seq<Action>, s: State)
    ensures Reaches(NewStream(), run, s)
    ensures s == State(Client(1, Established, false, map[], [], [], 1, [], []), [CPush(0, 1, 0)], UIdle, [Making], [0])
  {
    run, s := Connected();
    run, s := Extend(run, s, Start(0));
    assert s.callers == [CLoad(0)];
    run, s := Extend(run, s, Load(0));
    assert s.callers == [CCas(0, 0)];
    run, s := Extend(run, s, Cas(0, false));
  }

  /** And about to take the lock. */
  lemma RequestQueued() returns (run: seq<Action>, s: State)
    ensures Reaches(NewStream(), run, s)
    ensures s == State(Client(1, Established, false, map[], [], [1], 1, [], []), [CPut(0, 1, 0, 0)], UIdle, [Making], [0])
  {
    run, s := IdGiven();
    run, s := Extend(run, s, Push(0, 0));
  }

  lemma Answered(run: seq<Action>, s: State) returns (run': seq<Action>, s': State)
    requires Reaches(NewStream(), run, s) && s.client.replies == [] && s.client.requests == [1]
    ensures Reaches(NewStream(), run', s')
    ensures s' == s.(client := s.client.(requests := [], replies := [Answer(1, false)]))
  {
    run', s' := Extend(run, s, Send);
    assert s'.client.requests == [];
    run', s' := Extend(run', s', Deliver(Answer(1, false)));
  }

  /** The request of id 1 goes out, and its reply comes back and is handled. */
  lemma ReplyDropped(run: seq<Action>, s: State) returns (run': seq<Action>, s': State)
    requires Reaches(NewStream(), run, s) && s.upd.UIdle? && s.client.replies == [] && s.client.requests == [1]
    requires s.client.reqmap == map[] && !s.client.restarting
    ensures Reaches(NewStream(), run', s') && s' == s.(client := s.client.(requests := []))
  {
    run', s' := Answered(run, s);
    run', s' := Extend(run', s', Pop);
    assert s'.upd == UGot(Answer(1, false)) && s'.client.replies == [];
    run', s' := Extend(run', s', Handle);
  }
}
