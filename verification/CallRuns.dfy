/**
 Any number of threads making calls on one RPCStream, its update thread, and the io thread that feeds it
 (src/rpc.h, lines 193-251; src/rpc.cpp, lines 265-348), step by step: each load and CAS of the id counter,
 each queue operation and each critical section of `reqmtx_` is a step; callbacks run between them, outside
 the lock. A callback that itself calls is one more calling thread.

 Auxiliary: `fates` says what became of each call, `turns` which call each id went to, in the order of the
 successful CASes.
 */
module CallRuns {
  import opened Options
  import opened CallTable

  /** What became of a call. */
  datatype Fate =
    | Making                      // still inside Call
    | Pending(id: nat, k: nat)    // in the table, under the k-th id handed out
    | Due(o: Outcome)             // taken out of the table, callback about to run
    | Settled(o: Outcome)         // callback run
    | Forgotten                   // dropped by DrainQueue
    | Overwritten                 // pushed out of the table by a later call with the same id

  datatype CallerPC =
    | CIdle
    | CLoad(c: nat)                                    // load msgid_seed_
    | CCas(c: nat, seen: nat)                        // compare_exchange_weak
    | CPush(c: nat, id: nat, k: nat)                   // new SEntry, requests_.enqueue
    | CPut(c: nat, id: nat, k: nat, start: int)        // lock, store in reqmap_

  datatype UpdatePC =
    | UIdle
    | UGot(rep: Reply)                                 // dequeued a reply
    | UDue(cs: seq<Callback>)                          // callbacks to run
    | UReplies(ev: Option<Reply>)                      // DrainQueue: empty replys_
    | URequests(ev: Option<Reply>)                     // empty requests_
    | UMap(ev: Option<Reply>)                          // lock, clear reqmap_
    | USwitch(ev: Option<Reply>)                       // set the status

  datatype State = State(client: Client, callers: seq<CallerPC>, upd: UpdatePC, fates: seq<Fate>, turns: seq<nat>)

  datatype Action =
    | Start(t: nat)                     // enter Call: test status_
    | Load(t: nat)
    | Cas(t: nat, spurious: bool)
    | Push(t: nat, now: int)
    | Put(t: nat)
    | Pop                               // ProcessReply: dequeue
    | Handle
    | Fire                              // run a callback
    | Timeout(now: int, ids: seq<nat>)  // ProcessTimeout under the lock
    | NotReady                          // Update finds the delegate not ready: DrainQueue
    | DrainReply | DrainRequest | DrainMap | Switch
    | SetStatus(st: Status)             // Update and the connect callback
    | Deliver(rep: Reply)               // the io thread
    | Send                              // the io thread takes a request

  ghost predicate Enabled(s: State, a: Action) {
    match a
    case Start(t) => t < |s.callers| && s.callers[t].CIdle?
    case Load(t) => t < |s.callers| && s.callers[t].CLoad?
    case Cas(t, _) => t < |s.callers| && s.callers[t].CCas?
    case Push(t, _) => t < |s.callers| && s.callers[t].CPush?
    case Put(t) => t < |s.callers| && s.callers[t].CPut?
    case Pop => s.upd.UIdle? && s.client.replies != []
    case Handle => s.upd.UGot?
    case Fire => s.upd.UDue? && s.upd.cs != []
    case Timeout(_, ids) => s.upd.UIdle? && InOrder(s.client.reqmap, ids)
    case NotReady => s.upd.UIdle?
    case DrainReply => s.upd.UReplies?
    case DrainRequest => s.upd.URequests?
    case DrainMap => s.upd.UMap?
    case Switch => s.upd.USwitch?
    case SetStatus(_) => s.upd.UIdle?
    case Deliver(_) => true
    case Send => s.client.requests != []
  }

  function SetFate(fates: seq<Fate>, c: nat, f: Fate): seq<Fate> {
    if c < |fates| then fates[c := f] else fates
  }

  function SetCaller(s: State, t: nat, pc: CallerPC): State
    requires t < |s.callers|
  {
    s.(callers := s.callers[t := pc])
  }

  function CallerStep(s: State, a: Action): State
    requires Enabled(s, a) && (a.Start? || a.Load? || a.Cas? || a.Push? || a.Put?)
  {
    var cl := s.client;
    match a
    case Start(t) =>
      var c := cl.calls;
      if Refuses(cl.status) then
        s.(client := cl.(calls := c + 1, log := cl.log + [Callback(c, NotConnected)]),
           fates := s.fates + [Settled(NotConnected)])
      else SetCaller(s.(client := cl.(calls := c + 1), fates := s.fates + [Making]), t, CLoad(c))
    case Load(t) => SetCaller(s, t, CCas(s.callers[t].c, cl.seed))
    case Cas(t, spurious) =>
      var c := s.callers[t].c;
      if spurious || cl.seed != s.callers[t].seen then SetCaller(s, t, CLoad(c))
      else
        var id := NextId(s.callers[t].seen);
        SetCaller(s.(client := cl.(seed := id), turns := s.turns + [c]), t, CPush(c, id, |s.turns|))
    case Push(t, now) =>
      var pc := s.callers[t];
      SetCaller(s.(client := cl.(requests := cl.requests + [pc.id])), t, CPut(pc.c, pc.id, pc.k, now))
    case Put(t) =>
      var pc := s.callers[t];
      var fates := if pc.id in cl.reqmap then SetFate(s.fates, cl.reqmap[pc.id].call, Overwritten) else s.fates;
      SetCaller(s.(client := cl.(reqmap := cl.reqmap[pc.id := Entry(pc.c, pc.start)]),
                   fates := SetFate(fates, pc.c, Pending(pc.id, pc.k))), t, CIdle)
  }

  /** The calls of some entries. */
  function CallsOf(es: seq<Entry>): set<nat> {
    set i: nat | i < |es| :: es[i].call
  }

  function ExpiredEntries(reqmap: map<nat, Entry>, ids: seq<nat>, now: int): seq<Entry>
    requires forall i :: 0 <= i < |ids| ==> ids[i] in reqmap
  {
    EntriesOf(reqmap, ExpiredOf(reqmap, ids, now))
  }

  function UpdateStep(s: State, a: Action): State
    requires Enabled(s, a) && !(a.Start? || a.Load? || a.Cas? || a.Push? || a.Put?)
  {
    var cl := s.client;
    match a
    case Pop => s.(client := cl.(replies := cl.replies[1..]), upd := UGot(cl.replies[0]))
    case Handle =>
      var rep := s.upd.rep;
      if !rep.Answer? then s.(upd := UReplies(Some(rep)))
      else if cl.restarting then s.(upd := UIdle)
      else if rep.msgid == 0 then s.(client := cl.(notes := cl.notes + [rep]), upd := UIdle)
      else if rep.msgid in cl.reqmap then
        var cb := Callback(cl.reqmap[rep.msgid].call, Replied(rep.msgid, rep.error));
        s.(client := cl.(reqmap := cl.reqmap - {rep.msgid}), upd := UDue([cb]), fates := SetFate(s.fates, cb.call, Due(cb.outcome)))
      else s.(upd := UIdle)
    case Fire =>
      var cb := s.upd.cs[0];
      s.(client := cl.(log := cl.log + [cb]), fates := SetFate(s.fates, cb.call, Settled(cb.outcome)),
         upd := if |s.upd.cs| > 1 then UDue(s.upd.cs[1..]) else UIdle)
    case Timeout(now, ids) =>
      var es := ExpiredEntries(cl.reqmap, ids, now);
      s.(client := cl.(reqmap := Unexpired(cl.reqmap, now)), upd := if es == [] then UIdle else UDue(Timeouts(es)),
         fates := seq(|s.fates|, c requires 0 <= c < |s.fates| => if c in CallsOf(es) then Due(TimedOut) else s.fates[c]))
    case NotReady => s.(upd := UReplies(None))
    case DrainReply =>
      if cl.replies == [] then s.(upd := URequests(s.upd.ev)) else s.(client := cl.(replies := cl.replies[1..]))
    case DrainRequest =>
      if cl.requests == [] then s.(upd := UMap(s.upd.ev)) else s.(client := cl.(requests := cl.requests[1..]))
    case DrainMap =>
      s.(client := cl.(reqmap := map[]), upd := USwitch(s.upd.ev),
         fates := seq(|s.fates|, c requires 0 <= c < |s.fates| => if s.fates[c].Pending? then Forgotten else s.fates[c]))
    case Switch =>
      s.(upd := UIdle,
         client := match s.upd.ev
                   case None => cl.(restarting := true, status := Disconnect)
                   case Some(ev) =>
                     if ev.EstablishedEvent? then cl.(restarting := false, status := Established) else cl.(status := Disconnect))
    case SetStatus(st) => s.(client := cl.(status := st))
    case Deliver(rep) => s.(client := cl.(replies := cl.replies + [rep]))
    case Send => s.(client := cl.(requests := cl.requests[1..]))
  }

  function Apply(s: State, a: Action): State
    requires Enabled(s, a)
  {
    if a.Start? || a.Load? || a.Cas? || a.Push? || a.Put? then CallerStep(s, a) else UpdateStep(s, a)
  }

  /** A new stream. */
  predicate Init(s: State) {
    && s.client == Client(0, Disconnect, false, map[], [], [], 0, [], [])
    && s.upd.UIdle? && s.fates == [] && s.turns == []
    && forall t :: 0 <= t < |s.callers| ==> s.callers[t].CIdle?
  }

  ghost predicate Reaches(s0: State, run: seq<Action>, s: State)
    decreases |run|
  {
    if run == [] then Init(s0) && s == s0
    else
      var last := |run| - 1;
      exists m :: Reaches(s0, run[..last], m) && Enabled(m, run[last]) && s == Apply(m, run[last])
  }

  // ---------- ids ----------

  /** The k-th id handed out. */
  function IdOf(k: nat): nat {
    k % IDS + 1
  }

  /** The counter after `n` ids. */
  function SeedAfter(n: nat): nat {
    if n == 0 then 0 else IdOf(n - 1)
  }

  lemma NextIdIs(n: nat)
    ensures NextId(SeedAfter(n)) == IdOf(n)
  {
  }

  /** Ids are never 0, and any 1999999999 consecutive ones are distinct. */
  lemma IdsDistinct(j: nat, k: nat)
    ensures 0 < IdOf(k) < ID_LIMIT
    ensures IdOf(j) == IdOf(k) <==> (j - k) % IDS == 0
    ensures j < k < j + IDS ==> IdOf(j) != IdOf(k)
  {
  }

  // ---------- the invariant ----------

  function CallOf(pc: CallerPC): Option<nat> {
    match pc
    case CIdle => None
    case CLoad(c) => Some(c)
    case CCas(c, _) => Some(c)
    case CPush(c, _, _) => Some(c)
    case CPut(c, _, _, _) => Some(c)
  }

  /** Call `c` got its id as the k-th one. */
  predicate HasTurn(turns: seq<nat>, c: nat, id: nat, k: nat) {
    k < |turns| && turns[k] == c && id == IdOf(k)
  }

  predicate CallerOk(pc: CallerPC, fates: seq<Fate>, turns: seq<nat>) {
    && (CallOf(pc).Some? ==> CallOf(pc).value < |fates| && fates[CallOf(pc).value] == Making)
    && match pc
       case CPush(c, id, k) => HasTurn(turns, c, id, k)
       case CPut(c, id, k, _) => HasTurn(turns, c, id, k)
       case _ => true
  }

  predicate CallersOk(callers: seq<CallerPC>, fates: seq<Fate>, turns: seq<nat>) {
    && (forall t :: 0 <= t < |callers| ==> CallerOk(callers[t], fates, turns))
    && forall t, u :: 0 <= t < u < |callers| && CallOf(callers[t]).Some? ==> CallOf(callers[t]) != CallOf(callers[u])
  }

  /** The table holds exactly the pending calls, each under its id. */
  predicate TableOk(reqmap: map<nat, Entry>, fates: seq<Fate>, turns: seq<nat>) {
    && (forall id :: id in reqmap ==>
          reqmap[id].call < |fates| && fates[reqmap[id].call].Pending? && fates[reqmap[id].call].id == id)
    && forall c :: 0 <= c < |fates| && fates[c].Pending? ==>
         fates[c].id in reqmap && reqmap[fates[c].id].call == c && HasTurn(turns, c, fates[c].id, fates[c].k)
  }

  /** A reply goes to a call that was given the reply's id. */
  ghost predicate OutcomeOk(o: Outcome, c: nat, turns: seq<nat>) {
    o.Replied? ==> exists k :: HasTurn(turns, c, o.msgid, k)
  }

  /** Callbacks of calls with that fate, each call once. */
  ghost predicate CallbacksOk(cs: seq<Callback>, fates: seq<Fate>, turns: seq<nat>, run: bool) {
    && (forall i :: 0 <= i < |cs| ==>
          && cs[i].call < |fates| && fates[cs[i].call] == (if run then Settled(cs[i].outcome) else Due(cs[i].outcome))
          && OutcomeOk(cs[i].outcome, cs[i].call, turns))
    && forall i, j :: 0 <= i < j < |cs| ==> cs[i].call != cs[j].call
  }

  function DueNow(upd: UpdatePC): seq<Callback> {
    if upd.UDue? then upd.cs else []
  }

  predicate AllRun(fates: seq<Fate>, log: seq<Callback>) {
    forall c :: 0 <= c < |fates| && fates[c].Settled? ==> Callback(c, fates[c].o) in log
  }

  predicate AllDue(fates: seq<Fate>, due: seq<Callback>) {
    forall c :: 0 <= c < |fates| && fates[c].Due? ==> Callback(c, fates[c].o) in due
  }

  predicate Makes(callers: seq<CallerPC>, c: nat) {
    exists t :: 0 <= t < |callers| && CallOf(callers[t]) == Some(c)
  }

  /** A call in the making has its thread. */
  predicate AllMaking(fates: seq<Fate>, callers: seq<CallerPC>) {
    forall c :: 0 <= c < |fates| && fates[c].Making? ==> Makes(callers, c)
  }

  ghost predicate Inv(s: State) {
    && |s.fates| == s.client.calls && s.client.seed == SeedAfter(|s.turns|)
    && CallersOk(s.callers, s.fates, s.turns) && AllMaking(s.fates, s.callers)
    && TableOk(s.client.reqmap, s.fates, s.turns)
    && CallbacksOk(s.client.log, s.fates, s.turns, true) && AllRun(s.fates, s.client.log)
    && CallbacksOk(DueNow(s.upd), s.fates, s.turns, false) && AllDue(s.fates, DueNow(s.upd))
  }

  // ---------- steps ----------

  lemma CallbacksKept(cs: seq<Callback>, fates: seq<Fate>, fates': seq<Fate>, turns: seq<nat>, turns': seq<nat>, run: bool)
    requires CallbacksOk(cs, fates, turns, run) && |fates| <= |fates'| && turns <= turns'
    requires forall c :: 0 <= c < |fates| && (if run then fates[c].Settled? else fates[c].Due?) ==> fates'[c] == fates[c]
    ensures CallbacksOk(cs, fates', turns', run)
  {
    forall i | 0 <= i < |cs| ensures OutcomeOk(cs[i].outcome, cs[i].call, turns') {
      if cs[i].outcome.Replied? {
        var k :| HasTurn(turns, cs[i].call, cs[i].outcome.msgid, k);
        assert HasTurn(turns', cs[i].call, cs[i].outcome.msgid, k);
      }
    }
  }

  /** The parts a calling thread's step does not touch, when no fate but those of calls in the making or pending
      changes. */
  predicate FatesKept(fates: seq<Fate>, fates': seq<Fate>) {
    && |fates| <= |fates'|
    && (forall c :: 0 <= c < |fates| && !fates[c].Making? && !fates[c].Pending? ==> fates'[c] == fates[c])
    && (forall c :: 0 <= c < |fates'| && (fates'[c].Settled? || fates'[c].Due?) ==> c < |fates| && fates[c] == fates'[c])
  }

  lemma MakingKept(s: State, fates': seq<Fate>, t: nat, pc: CallerPC)
    requires Inv(s) && t < |s.callers|
    requires forall c :: 0 <= c < |fates'| && fates'[c].Making? ==>
               || CallOf(pc) == Some(c)
               || (c < |s.fates| && s.fates[c].Making? && CallOf(s.callers[t]) != Some(c))
    ensures AllMaking(fates', s.callers[t := pc])
  {
    forall c | 0 <= c < |fates'| && fates'[c].Making? ensures Makes(s.callers[t := pc], c) {
      if CallOf(pc) == Some(c) {
        assert CallOf(s.callers[t := pc][t]) == Some(c);
      } else {
        var u :| 0 <= u < |s.callers| && CallOf(s.callers[u]) == Some(c);
        assert CallOf(s.callers[t := pc][u]) == Some(c);
      }
    }
  }

  lemma LogsKept(s: State, fates': seq<Fate>, turns': seq<nat>)
    requires Inv(s) && FatesKept(s.fates, fates') && s.turns <= turns'
    ensures CallbacksOk(s.client.log, fates', turns', true) && AllRun(fates', s.client.log)
    ensures CallbacksOk(DueNow(s.upd), fates', turns', false) && AllDue(fates', DueNow(s.upd))
  {
    CallbacksKept(s.client.log, s.fates, fates', s.turns, turns', true);
    CallbacksKept(DueNow(s.upd), s.fates, fates', s.turns, turns', false);
  }

  lemma RefusedLog(log: seq<Callback>, fates: seq<Fate>, turns: seq<nat>)
    requires CallbacksOk(log, fates, turns, true) && AllRun(fates, log)
    ensures var fates', log' := fates + [Settled(NotConnected)], log + [Callback(|fates|, NotConnected)];
      CallbacksOk(log', fates', turns, true) && AllRun(fates', log')
  {
    var fates', log' := fates + [Settled(NotConnected)], log + [Callback(|fates|, NotConnected)];
    CallbacksKept(log, fates, fates', turns, turns, true);
    assert log'[|log|] == Callback(|fates|, NotConnected);
  }

  lemma StartRefused(s: State, t: nat)
    requires Inv(s) && Enabled(s, Start(t)) && Refuses(s.client.status)
    ensures Inv(Apply(s, Start(t)))
  {
    RefusedLog(s.client.log, s.fates, s.turns);
    CallbacksKept(DueNow(s.upd), s.fates, s.fates + [Settled(NotConnected)], s.turns, s.turns, false);
  }

  lemma StartAccepted(s: State, t: nat)
    requires Inv(s) && Enabled(s, Start(t)) && !Refuses(s.client.status)
    ensures Inv(Apply(s, Start(t)))
  {
    LogsKept(s, s.fates + [Making], s.turns);
    MakingKept(s, s.fates + [Making], t, CLoad(s.client.calls));
  }

  lemma LoadKeeps(s: State, t: nat)
    requires Inv(s) && Enabled(s, Load(t))
    ensures Inv(Apply(s, Load(t)))
  {
    MakingKept(s, s.fates, t, CCas(s.callers[t].c, s.client.seed));
  }

  lemma TurnsKept(s: State, turns': seq<nat>)
    requires Inv(s) && s.turns <= turns'
    ensures CallersOk(s.callers, s.fates, turns') && TableOk(s.client.reqmap, s.fates, turns')
    ensures CallbacksOk(s.client.log, s.fates, turns', true) && CallbacksOk(DueNow(s.upd), s.fates, turns', false)
  {
    LogsKept(s, s.fates, turns');
    forall t | 0 <= t < |s.callers| ensures CallerOk(s.callers[t], s.fates, turns') {
      assert CallerOk(s.callers[t], s.fates, s.turns);
    }
  }

  lemma CasKeeps(s: State, t: nat, spurious: bool)
    requires Inv(s) && Enabled(s, Cas(t, spurious))
    ensures Inv(Apply(s, Cas(t, spurious)))
  {
    assert CallerOk(s.callers[t], s.fates, s.turns);
    MakingKept(s, s.fates, t, Apply(s, Cas(t, spurious)).callers[t]);
    if !spurious && s.client.seed == s.callers[t].seen {
      NextIdIs(|s.turns|);
      TurnsKept(s, s.turns + [s.callers[t].c]);
    }
  }

  lemma PushKeeps(s: State, t: nat, now: int)
    requires Inv(s) && Enabled(s, Push(t, now))
    ensures Inv(Apply(s, Push(t, now)))
  {
    assert CallerOk(s.callers[t], s.fates, s.turns);
    MakingKept(s, s.fates, t, CPut(s.callers[t].c, s.callers[t].id, s.callers[t].k, now));
  }

  /** The fates after an entry for call `c` has been stored. */
  function PutFates(reqmap: map<nat, Entry>, fates: seq<Fate>, c: nat, id: nat, k: nat): seq<Fate> {
    SetFate(if id in reqmap then SetFate(fates, reqmap[id].call, Overwritten) else fates, c, Pending(id, k))
  }

  lemma EntryStored(reqmap: map<nat, Entry>, fates: seq<Fate>, turns: seq<nat>, e: Entry, id: nat, k: nat)
    requires TableOk(reqmap, fates, turns) && HasTurn(turns, e.call, id, k)
    requires e.call < |fates| && fates[e.call] == Making
    ensures TableOk(reqmap[id := e], PutFates(reqmap, fates, e.call, id, k), turns)
  {
  }

  lemma PutFatesKept(reqmap: map<nat, Entry>, fates: seq<Fate>, turns: seq<nat>, c: nat, id: nat, k: nat)
    requires TableOk(reqmap, fates, turns) && c < |fates| && fates[c] == Making
    ensures FatesKept(fates, PutFates(reqmap, fates, c, id, k))
  {
  }

  lemma PutIs(s: State, t: nat)
    requires Enabled(s, Put(t))
    ensures var pc := s.callers[t]; var s' := Apply(s, Put(t));
      && s'.fates == PutFates(s.client.reqmap, s.fates, pc.c, pc.id, pc.k) && s'.turns == s.turns
      && s'.client == s.client.(reqmap := s.client.reqmap[pc.id := Entry(pc.c, pc.start)])
  {
  }

  lemma PutTable(s: State, t: nat)
    requires Inv(s) && Enabled(s, Put(t))
    ensures var s' := Apply(s, Put(t)); TableOk(s'.client.reqmap, s'.fates, s'.turns) && FatesKept(s.fates, s'.fates)
  {
    var pc := s.callers[t];
    assert CallerOk(pc, s.fates, s.turns);
    PutIs(s, t);
    EntryStored(s.client.reqmap, s.fates, s.turns, Entry(pc.c, pc.start), pc.id, pc.k);
    PutFatesKept(s.client.reqmap, s.fates, s.turns, pc.c, pc.id, pc.k);
  }

  lemma PutCallers(s: State, t: nat)
    requires Inv(s) && Enabled(s, Put(t))
    ensures var s' := Apply(s, Put(t)); CallersOk(s'.callers, s'.fates, s'.turns) && AllMaking(s'.fates, s'.callers)
  {
    PutTable(s, t);
    assert CallerOk(s.callers[t], s.fates, s.turns);
    MakingKept(s, Apply(s, Put(t)).fates, t, CIdle);
  }

  lemma PutKeeps(s: State, t: nat)
    requires Inv(s) && Enabled(s, Put(t))
    ensures Inv(Apply(s, Put(t)))
  {
    PutTable(s, t);
    PutCallers(s, t);
    LogsKept(s, Apply(s, Put(t)).fates, s.turns);
  }

  lemma HandleIdle(s: State)
    requires Inv(s) && Enabled(s, Handle) && !Apply(s, Handle).upd.UDue?
    ensures Inv(Apply(s, Handle))
  {
  }

  lemma HandleFound(s: State)
    requires Inv(s) && Enabled(s, Handle) && Apply(s, Handle).upd.UDue?
    ensures Inv(Apply(s, Handle))
  {
    var s' := Apply(s, Handle);
    var c := s.client.reqmap[s.upd.rep.msgid].call;
    assert HasTurn(s.turns, c, s.upd.rep.msgid, s.fates[c].k);
    CallbacksKept(s.client.log, s.fates, s'.fates, s.turns, s.turns, true);
  }

  lemma HandleKeeps(s: State)
    requires Inv(s) && Enabled(s, Handle)
    ensures Inv(Apply(s, Handle))
  {
    if Apply(s, Handle).upd.UDue? { HandleFound(s); } else { HandleIdle(s); }
  }

  lemma FireKeeps(s: State)
    requires Inv(s) && Enabled(s, Fire)
    ensures Inv(Apply(s, Fire))
  {
    var s' := Apply(s, Fire);
    var cb := s.upd.cs[0];
    CallbacksKept(s.client.log, s.fates, s'.fates, s.turns, s.turns, true);
    assert DueNow(s'.upd) == s.upd.cs[1..];
  }

  lemma DrainMapKeeps(s: State)
    requires Inv(s) && Enabled(s, DrainMap)
    ensures Inv(Apply(s, DrainMap))
  {
    LogsKept(s, Apply(s, DrainMap).fates, s.turns);
  }

  lemma SimpleKeeps(s: State, a: Action)
    requires Inv(s) && Enabled(s, a)
    requires a.Pop? || a.NotReady? || a.DrainReply? || a.DrainRequest? || a.Switch? || a.SetStatus? || a.Deliver? || a.Send?
    ensures Inv(Apply(s, a))
  {
  }

  lemma {:induction false} ExpiredAscending(reqmap: map<nat, Entry>, ids: seq<nat>, now: int)
    requires Ascending(ids) && forall i :: 0 <= i < |ids| ==> ids[i] in reqmap
    ensures Ascending(ExpiredOf(reqmap, ids, now))
    decreases |ids|
  {
    if ids != [] {
      ExpiredAscending(reqmap, ids[..|ids| - 1], now);
      var rest := ExpiredOf(reqmap, ids[..|ids| - 1], now);
      forall i | 0 <= i < |rest| ensures rest[i] < ids[|ids| - 1] {
        assert rest[i] in ids[..|ids| - 1];
      }
    }
  }

  /** The expired entries: of different calls, all pending. */
  lemma ExpiredCalls(s: State, now: int, ids: seq<nat>)
    requires Inv(s) && InOrder(s.client.reqmap, ids)
    ensures var es := ExpiredEntries(s.client.reqmap, ids, now);
      && (forall i :: 0 <= i < |es| ==> es[i].call < |s.fates| && s.fates[es[i].call].Pending?)
      && (forall i, j :: 0 <= i < j < |es| ==> es[i].call != es[j].call)
    ensures forall id :: id in s.client.reqmap ==>
              (s.client.reqmap[id].call in CallsOf(ExpiredEntries(s.client.reqmap, ids, now)) <==>
               Expired(s.client.reqmap[id], now))
  {
    var reqmap := s.client.reqmap;
    var gone := ExpiredOf(reqmap, ids, now);
    var es := EntriesOf(reqmap, gone);
    ExpiredAscending(reqmap, ids, now);
    forall i | 0 <= i < |es|
      ensures es[i].call < |s.fates| && s.fates[es[i].call].Pending? && s.fates[es[i].call].id == gone[i]
    {
      assert gone[i] in reqmap;
    }
    forall id | id in reqmap ensures reqmap[id].call in CallsOf(es) <==> Expired(reqmap[id], now) {
      if Expired(reqmap[id], now) {
        assert id in ids;
        var i :| 0 <= i < |gone| && gone[i] == id;
        assert es[i].call == reqmap[id].call;
      }
    }
  }

  lemma TimeoutTable(s: State, now: int, ids: seq<nat>)
    requires Inv(s) && Enabled(s, Timeout(now, ids))
    ensures var s' := Apply(s, Timeout(now, ids)); TableOk(s'.client.reqmap, s'.fates, s'.turns)
  {
    ExpiredCalls(s, now, ids);
    var s' := Apply(s, Timeout(now, ids));
    forall c | 0 <= c < |s'.fates| && s'.fates[c].Pending?
      ensures s'.fates[c].id in s'.client.reqmap && s'.client.reqmap[s'.fates[c].id].call == c
    {
      assert s.fates[c].id in s.client.reqmap;
    }
  }

  lemma TimeoutsAreOf(es: seq<Entry>, c: nat)
    requires c in CallsOf(es)
    ensures Callback(c, TimedOut) in Timeouts(es)
  {
    var i: nat :| i < |es| && es[i].call == c;
    assert Timeouts(es)[i] == Callback(c, TimedOut);
  }

  lemma TimeoutDue(s: State, now: int, ids: seq<nat>)
    requires Inv(s) && Enabled(s, Timeout(now, ids))
    ensures var s' := Apply(s, Timeout(now, ids));
      && DueNow(s'.upd) == Timeouts(ExpiredEntries(s.client.reqmap, ids, now))
      && CallbacksOk(DueNow(s'.upd), s'.fates, s'.turns, false) && AllDue(s'.fates, DueNow(s'.upd))
  {
    ExpiredCalls(s, now, ids);
    var s' := Apply(s, Timeout(now, ids));
    var es := ExpiredEntries(s.client.reqmap, ids, now);
    forall c | 0 <= c < |s'.fates| && s'.fates[c].Due? ensures Callback(c, s'.fates[c].o) in Timeouts(es) {
      if c in CallsOf(es) { TimeoutsAreOf(es, c); }
    }
  }

  lemma TimeoutLog(s: State, now: int, ids: seq<nat>)
    requires Inv(s) && Enabled(s, Timeout(now, ids))
    ensures var s' := Apply(s, Timeout(now, ids));
      CallbacksOk(s.client.log, s'.fates, s'.turns, true) && AllRun(s'.fates, s.client.log)
  {
    ExpiredCalls(s, now, ids);
    CallbacksKept(s.client.log, s.fates, Apply(s, Timeout(now, ids)).fates, s.turns, s.turns, true);
  }

  lemma TimeoutKeeps(s: State, now: int, ids: seq<nat>)
    requires Inv(s) && Enabled(s, Timeout(now, ids))
    ensures Inv(Apply(s, Timeout(now, ids)))
  {
    TimeoutTable(s, now, ids);
    TimeoutDue(s, now, ids);
    TimeoutLog(s, now, ids);
    TimeoutCallers(s, now, ids);
  }

  lemma TimeoutCallers(s: State, now: int, ids: seq<nat>)
    requires Inv(s) && Enabled(s, Timeout(now, ids))
    ensures CallersOk(s.callers, Apply(s, Timeout(now, ids)).fates, s.turns)
    ensures AllMaking(Apply(s, Timeout(now, ids)).fates, s.callers)
  {
    ExpiredCalls(s, now, ids);
    forall t | 0 <= t < |s.callers| ensures CallerOk(s.callers[t], Apply(s, Timeout(now, ids)).fates, s.turns) {
      assert CallerOk(s.callers[t], s.fates, s.turns);
    }
  }

  lemma ActionKeepsInv(s: State, a: Action)
    requires Inv(s) && Enabled(s, a)
    ensures Inv(Apply(s, a))
  {
    if a.Start? {
      if Refuses(s.client.status) { StartRefused(s, a.t); } else { StartAccepted(s, a.t); }
    } else if a.Load? {
      LoadKeeps(s, a.t);
    } else if a.Cas? {
      CasKeeps(s, a.t, a.spurious);
    } else if a.Push? {
      PushKeeps(s, a.t, a.now);
    } else if a.Put? {
      PutKeeps(s, a.t);
    } else if a.Handle? {
      HandleKeeps(s);
    } else if a.Fire? {
      FireKeeps(s);
    } else if a.Timeout? {
      TimeoutKeeps(s, a.now, a.ids);
    } else if a.DrainMap? {
      DrainMapKeeps(s);
    } else {
      SimpleKeeps(s, a);
    }
  }

  lemma {:induction false} ReachableInv(s0: State, run: seq<Action>, s: State)
    requires Reaches(s0, run, s)
    ensures Inv(s)
    decreases |run|
  {
    if run != [] {
      var last := |run| - 1;
      var m :| Reaches(s0, run[..last], m) && Enabled(m, run[last]) && s == Apply(m, run[last]);
      ReachableInv(s0, run[..last], m);
      ActionKeepsInv(m, run[last]);
    }
  }

  // ---------- what follows for every run ----------

  /** A callback is run at most once. */
  lemma CallbackAtMostOnce(s0: State, run: seq<Action>, s: State, i: nat, j: nat)
    requires Reaches(s0, run, s) && i < j < |s.client.log|
    ensures s.client.log[i].call != s.client.log[j].call
  {
    ReachableInv(s0, run, s);
  }

  predicate Final(f: Fate) {
    f.Settled? || f.Forgotten? || f.Overwritten?
  }

  lemma PutFinal(s: State, t: nat, c: nat)
    requires Inv(s) && Enabled(s, Put(t)) && c < |s.fates| && Final(s.fates[c])
    ensures c < |Apply(s, Put(t)).fates| && Apply(s, Put(t)).fates[c] == s.fates[c]
  {
    assert CallerOk(s.callers[t], s.fates, s.turns);
  }

  lemma TimeoutFinal(s: State, now: int, ids: seq<nat>, c: nat)
    requires Inv(s) && Enabled(s, Timeout(now, ids)) && c < |s.fates| && Final(s.fates[c])
    ensures c < |Apply(s, Timeout(now, ids)).fates| && Apply(s, Timeout(now, ids)).fates[c] == s.fates[c]
  {
    ExpiredCalls(s, now, ids);
  }

  lemma HandleFinal(s: State, a: Action, c: nat)
    requires Inv(s) && Enabled(s, a) && (a.Handle? || a.Fire?) && c < |s.fates| && Final(s.fates[c])
    ensures c < |Apply(s, a).fates| && Apply(s, a).fates[c] == s.fates[c]
  {
  }

  lemma OtherFinal(s: State, a: Action, c: nat)
    requires Enabled(s, a) && !a.Put? && !a.Timeout? && !a.Handle? && !a.Fire? && c < |s.fates| && Final(s.fates[c])
    ensures c < |Apply(s, a).fates| && Apply(s, a).fates[c] == s.fates[c]
  {
  }

  /** What has become of a call is final: its callback has run, or never will. */
  lemma FinalStays(s0: State, run: seq<Action>, s: State, a: Action, c: nat)
    requires Reaches(s0, run, s) && Enabled(s, a) && c < |s.fates| && Final(s.fates[c])
    ensures c < |Apply(s, a).fates| && Apply(s, a).fates[c] == s.fates[c]
  {
    ReachableInv(s0, run, s);
    if a.Put? {
      PutFinal(s, a.t, c);
    } else if a.Timeout? {
      TimeoutFinal(s, a.now, a.ids, c);
    } else if a.Handle? || a.Fire? {
      HandleFinal(s, a, c);
    } else {
      OtherFinal(s, a, c);
    }
  }

  /** Every CAS that succeeds hands out the next id, whoever interferes: the one after k successes hands out
      IdOf(k). One that fails hands out none. */
  lemma IdsInOrder(s0: State, run: seq<Action>, s: State, t: nat, spurious: bool)
    requires Reaches(s0, run, s) && Enabled(s, Cas(t, spurious))
    ensures var s' := Apply(s, Cas(t, spurious));
      && t < |s'.callers|
      && if s'.callers[t].CPush?
         then s'.callers[t].id == s'.client.seed == IdOf(|s.turns|) && s'.turns == s.turns + [s.callers[t].c]
              && s'.callers[t].k == |s.turns|
         else s'.client.seed == s.client.seed && s'.turns == s.turns
  {
    ReachableInv(s0, run, s);
    NextIdIs(|s.turns|);
  }

  /** A thread that holds an id, and the turn in which it got it. */
  predicate HoldsId(pc: CallerPC) {
    pc.CPush? || pc.CPut?
  }

  /** Call `c` has `id`, the k-th one handed out: its thread is still inside Call, or it is pending in the table. */
  ghost predicate HasId(s: State, c: nat, id: nat, k: nat) {
    || (exists t :: 0 <= t < |s.callers| && HoldsId(s.callers[t])
                    && s.callers[t].c == c && s.callers[t].id == id && s.callers[t].k == k)
    || (c < |s.fates| && s.fates[c] == Pending(id, k))
  }

  lemma IdHasTurn(s: State, c: nat, id: nat, k: nat)
    requires Inv(s) && HasId(s, c, id, k)
    ensures HasTurn(s.turns, c, id, k)
  {
    if c >= |s.fates| || s.fates[c] != Pending(id, k) {
      var t :| 0 <= t < |s.callers| && HoldsId(s.callers[t])
               && s.callers[t].c == c && s.callers[t].id == id && s.callers[t].k == k;
      assert CallerOk(s.callers[t], s.fates, s.turns);
    }
  }

  /** Ids that two calls have at the same time, calls being made and pending ones alike, differ while fewer than
      1999999999 turns lie between them. */
  lemma HeldIdsDiffer(s0: State, run: seq<Action>, s: State, c: nat, id: nat, k: nat, d: nat, id': nat, k': nat)
    requires Reaches(s0, run, s) && c != d && HasId(s, c, id, k) && HasId(s, d, id', k') && -IDS < k - k' < IDS
    ensures id != id'
  {
    ReachableInv(s0, run, s);
    IdHasTurn(s, c, id, k);
    IdHasTurn(s, d, id', k');
    if id == id' { SameTurn(k, k'); }
  }

  /** Some pending call has the id. */
  predicate IsPendingId(fates: seq<Fate>, id: nat) {
    exists c :: 0 <= c < |fates| && fates[c].Pending? && fates[c].id == id
  }

  /** Exactly when a reply that is handled reaches nobody: while the client is restarting, or when it is no notice and
      no call is pending under its id. A call whose request was queued, but whose entry is not yet stored, is none. */
  lemma DroppedExactly(s0: State, run: seq<Action>, s: State)
    requires Reaches(s0, run, s) && Enabled(s, Handle) && s.upd.rep.Answer?
    ensures Apply(s, Handle) == s.(upd := UIdle)
            <==> s.client.restarting || (s.upd.rep.msgid != 0 && !IsPendingId(s.fates, s.upd.rep.msgid))
  {
    ReachableInv(s0, run, s);
    var rep := s.upd.rep;
    assert |s.client.notes + [rep]| == |s.client.notes| + 1;
    if rep.msgid in s.client.reqmap {
      var c := s.client.reqmap[rep.msgid].call;
      assert s.fates[c].Pending? && s.fates[c].id == rep.msgid;
    }
  }

  /** The call has an entry in the table. */
  predicate Listed(reqmap: map<nat, Entry>, c: nat) {
    exists id :: id in reqmap && reqmap[id].call == c
  }

  /** Exactly which call storing an entry pushes out of the table: the one that is listed under the same id. */
  lemma PushedOutExactly(s0: State, run: seq<Action>, s: State, t: nat, c: nat)
    requires Reaches(s0, run, s) && Enabled(s, Put(t))
    ensures var before, after, id := s.client.reqmap, Apply(s, Put(t)).client.reqmap, s.callers[t].id;
      Listed(before, c) && !Listed(after, c) <==> id in before && before[id].call == c
  {
    ReachableInv(s0, run, s);
    var pc := s.callers[t];
    assert CallerOk(pc, s.fates, s.turns);
    var before, after := s.client.reqmap, Apply(s, Put(t)).client.reqmap;
    if pc.id in before && before[pc.id].call == c {
      forall id | id in after ensures after[id].call != c {
        if id != pc.id { assert after[id] == before[id]; }
      }
    } else if Listed(before, c) {
      var id :| id in before && before[id].call == c;
      assert id in after && after[id].call == c;
    }
  }

  lemma OverwritesIf(s: State, pc: CallerPC, c: nat)
    requires Inv(s) && pc.CPut? && HasTurn(s.turns, pc.c, pc.id, pc.k)
    requires c < |s.fates| && s.fates[c].Pending? && (s.fates[c].k - pc.k) % IDS == 0
    ensures pc.id in s.client.reqmap
  {
    IdsDistinct(s.fates[c].k, pc.k);
  }

  lemma OverwritesOnlyIf(s: State, pc: CallerPC)
    requires Inv(s) && pc.CPut? && HasTurn(s.turns, pc.c, pc.id, pc.k) && pc.id in s.client.reqmap
    ensures var c := s.client.reqmap[pc.id].call;
      c < |s.fates| && s.fates[c].Pending? && (s.fates[c].k - pc.k) % IDS == 0
  {
    IdsDistinct(s.fates[s.client.reqmap[pc.id].call].k, pc.k);
  }

  /** Call `c` is pending under an id handed out a whole number of id cycles away from the k-th. */
  predicate CyclesAway(fates: seq<Fate>, c: int, k: nat) {
    0 <= c < |fates| && fates[c].Pending? && (fates[c].k - k) % IDS == 0
  }

  lemma OverwritesIff(s: State, pc: CallerPC)
    requires Inv(s) && pc.CPut? && HasTurn(s.turns, pc.c, pc.id, pc.k)
    ensures pc.id in s.client.reqmap <==> exists c :: CyclesAway(s.fates, c, pc.k)
  {
    if pc.id in s.client.reqmap {
      OverwritesOnlyIf(s, pc);
      assert CyclesAway(s.fates, s.client.reqmap[pc.id].call, pc.k);
    }
    if c :| CyclesAway(s.fates, c, pc.k) {
      OverwritesIf(s, pc, c);
    }
  }

  /** Exactly when storing an entry pushes out a pending call: when that call's id was handed out a whole number
      of id cycles away. */
  lemma OverwritesExactly(s0: State, run: seq<Action>, s: State, t: nat)
    requires Reaches(s0, run, s) && t < |s.callers| && s.callers[t].CPut?
    ensures s.callers[t].id in s.client.reqmap <==> exists c :: CyclesAway(s.fates, c, s.callers[t].k)
  {
    ReachableInv(s0, run, s);
    assert CallerOk(s.callers[t], s.fates, s.turns);
    OverwritesIff(s, s.callers[t]);
  }

  /** So while no call stays pending through 1999999999 others, none is lost that way. */
  lemma NothingOverwritten(s0: State, run: seq<Action>, s: State, t: nat)
    requires Reaches(s0, run, s) && Enabled(s, Put(t))
    requires forall c :: 0 <= c < |s.fates| && s.fates[c].Pending? ==> -IDS < s.fates[c].k - s.callers[t].k < IDS
    ensures s.callers[t].id !in s.client.reqmap
    ensures forall c :: 0 <= c < |s.fates| && s.fates[c].Pending? ==> c < |s.fates| && Apply(s, Put(t)).fates[c] == s.fates[c]
  {
    ReachableInv(s0, run, s);
    var pc := s.callers[t];
    assert CallerOk(pc, s.fates, s.turns);
    if pc.id in s.client.reqmap {
      var c := s.client.reqmap[pc.id].call;
      SameTurn(s.fates[c].k, pc.k);
    }
  }

  lemma SameTurn(j: nat, k: nat)
    requires IdOf(j) == IdOf(k) && -IDS < j - k < IDS
    ensures j == k
  {
  }
}
