/**
 The client's table of outstanding calls (RPCStream, src/rpc.h and src/rpc.cpp): calls get message ids, replies,
 timeouts and lost connections take them out again.

 The class is the stream object as its update thread uses it; its methods are proved against functions on its
 fields. Module CallRuns interleaves any number of calling threads with the update thread. Calls are numbered
 as they are made; a number stands for the callback given with the call, and `log` records the callbacks in the
 order they are run. `notes` are the replies handed to the notifier.
 */
module CallTable {

  const ID_LIMIT: int := 2_000_000_000
  const IDS: int := 1_999_999_999
  const TIMEOUT_DURATION: int := 30_000_000_000

  datatype Status = Disconnect | Connecting | Established | Initializing | Connect

  datatype Entry = Entry(call: nat, start: int)

  /** What the io thread hands over: replies, and two events that are not replies. */
  datatype Reply = DisconnectEvent | EstablishedEvent | Answer(msgid: nat, error: bool)

  datatype Outcome = NotConnected | Replied(msgid: nat, error: bool) | TimedOut

  datatype Callback = Callback(call: nat, outcome: Outcome)

  datatype Client = Client(
    seed: nat, status: Status, restarting: bool, reqmap: map<nat, Entry>, replies: seq<Reply>, requests: seq<nat>,
    calls: nat, log: seq<Callback>, notes: seq<Reply>)

  // ---------- functions of the code ----------

  /** The id after `seed`: counts up, and goes back to 1 before two thousand million. */
  function NextId(seed: nat): nat {
    if seed + 1 >= ID_LIMIT then 1 else seed + 1
  }

  /** `status_ < ESTABLISHED` */
  predicate Refuses(st: Status) {
    st.Disconnect? || st.Connecting?
  }

  predicate Expired(e: Entry, now: int) {
    e.start + TIMEOUT_DURATION < now
  }

  function Called(c: Client, now: int): Client {
    if Refuses(c.status) then c.(calls := c.calls + 1, log := c.log + [Callback(c.calls, NotConnected)])
    else
      var id := NextId(c.seed);
      c.(seed := id, calls := c.calls + 1, requests := c.requests + [id], reqmap := c.reqmap[id := Entry(c.calls, now)])
  }

  /** A reply that is not an event. */
  function Handled(c: Client, rep: Reply): Client
    requires rep.Answer?
  {
    if c.restarting then c
    else if rep.msgid == 0 then c.(notes := c.notes + [rep])
    else if rep.msgid in c.reqmap then
      c.(reqmap := c.reqmap - {rep.msgid},
         log := c.log + [Callback(c.reqmap[rep.msgid].call, Replied(rep.msgid, rep.error))])
    else c
  }

  /** Everything outstanding is forgotten; no callback is run. */
  function Drained(c: Client): Client {
    c.(replies := [], requests := [], reqmap := map[])
  }

  function Switched(c: Client, rep: Reply): Client
    requires !rep.Answer?
  {
    if rep.DisconnectEvent? then Drained(c).(status := Disconnect)
    else Drained(c).(status := Established, restarting := false)
  }

  /** Replies are handled in order up to the first event, which drops what follows it. */
  function Processed(c: Client): Client
    decreases |c.replies|
  {
    if c.replies == [] then c
    else
      var rep, rest := c.replies[0], c.(replies := c.replies[1..]);
      if rep.Answer? then Processed(Handled(rest, rep)) else Switched(rest, rep)
  }

  /** The expired ids among `ids`, in the order given. */
  function ExpiredOf(reqmap: map<nat, Entry>, ids: seq<nat>, now: int): (r: seq<nat>)
    requires forall i :: 0 <= i < |ids| ==> ids[i] in reqmap
    ensures forall i :: 0 <= i < |r| ==> r[i] in ids && Expired(reqmap[r[i]], now)
    ensures forall id :: id in ids && Expired(reqmap[id], now) ==> id in r
  {
    if ids == [] then []
    else
      var rest := ExpiredOf(reqmap, ids[..|ids| - 1], now);
      var last := ids[|ids| - 1];
      if Expired(reqmap[last], now) then rest + [last] else rest
  }

  function EntriesOf(reqmap: map<nat, Entry>, ids: seq<nat>): (r: seq<Entry>)
    requires forall i :: 0 <= i < |ids| ==> ids[i] in reqmap
    ensures |r| == |ids| && forall i :: 0 <= i < |r| ==> r[i] == reqmap[ids[i]]
  {
    seq(|ids|, i requires 0 <= i < |ids| => reqmap[ids[i]])
  }

  function Timeouts(es: seq<Entry>): (r: seq<Callback>)
    ensures |r| == |es| && forall i :: 0 <= i < |r| ==> r[i] == Callback(es[i].call, TimedOut)
  {
    seq(|es|, i requires 0 <= i < |es| => Callback(es[i].call, TimedOut))
  }

  function Unexpired(reqmap: map<nat, Entry>, now: int): map<nat, Entry> {
    map id | id in reqmap && !Expired(reqmap[id], now) :: reqmap[id]
  }

  /** The table without some ids. */
  function Without(reqmap: map<nat, Entry>, ids: seq<nat>): map<nat, Entry> {
    map id | id in reqmap && id !in ids :: reqmap[id]
  }

  lemma WithoutNext(reqmap: map<nat, Entry>, ids: seq<nat>, i: nat)
    requires i < |ids|
    ensures Without(reqmap, ids[..i]) - {ids[i]} == Without(reqmap, ids[..i + 1])
  {
    assert ids[..i + 1] == ids[..i] + [ids[i]];
  }

  lemma WithoutExpired(reqmap: map<nat, Entry>, ids: seq<nat>, now: int)
    requires InOrder(reqmap, ids)
    ensures Without(reqmap, ExpiredOf(reqmap, ids, now)) == Unexpired(reqmap, now)
  {
    forall id | id in reqmap ensures id in ExpiredOf(reqmap, ids, now) <==> Expired(reqmap[id], now) {
      assert id in ids;
    }
  }

  /** `ids` have been visited in order, `rest` are still to come. */
  predicate Scanned(reqmap: map<nat, Entry>, ids: seq<nat>, rest: set<nat>) {
    && Ascending(ids) && |ids| + |rest| == |reqmap|
    && (forall i :: 0 <= i < |ids| ==> ids[i] in reqmap)
    && (forall id :: id in rest ==> id in reqmap)
    && (forall id :: id in reqmap ==> id in ids || id in rest)
    && (forall i, x :: 0 <= i < |ids| && x in rest ==> ids[i] < x)
  }

  lemma ScanNext(reqmap: map<nat, Entry>, ids: seq<nat>, rest: set<nat>, id: nat)
    requires Scanned(reqmap, ids, rest) && id in rest && forall x :: x in rest ==> id <= x
    ensures Scanned(reqmap, ids + [id], rest - {id})
  {
    forall x | x in reqmap ensures x in ids + [id] || x in rest - {id} {
      if x != id { assert x in ids || x in rest; }
    }
  }

  /** One more id scanned: it joins the expired ones if it is one. */
  lemma ExpiredNext(reqmap: map<nat, Entry>, ids: seq<nat>, id: nat, now: int)
    requires id in reqmap && forall i :: 0 <= i < |ids| ==> ids[i] in reqmap
    ensures forall i :: 0 <= i < |ids + [id]| ==> (ids + [id])[i] in reqmap
    ensures ExpiredOf(reqmap, ids + [id], now)
         == ExpiredOf(reqmap, ids, now) + (if Expired(reqmap[id], now) then [id] else [])
  {
    assert (ids + [id])[..|ids|] == ids;
  }

  predicate Ascending(ids: seq<nat>) {
    forall i, j :: 0 <= i < j < |ids| ==> ids[i] < ids[j]
  }

  /** `ids` are the keys of the table in the order a std::map yields them. */
  predicate InOrder(reqmap: map<nat, Entry>, ids: seq<nat>) {
    Ascending(ids) && (forall i :: 0 <= i < |ids| ==> ids[i] in reqmap) && (forall id :: id in reqmap ==> id in ids)
  }

  /** What ProcessTimeout does: exactly the expired entries leave, and their callbacks run in the order of ids. */
  ghost predicate TimedOutFrom(c: Client, c': Client, now: int) {
    exists ids :: InOrder(c.reqmap, ids) &&
      c' == c.(reqmap := Unexpired(c.reqmap, now),
               log := c.log + Timeouts(EntriesOf(c.reqmap, ExpiredOf(c.reqmap, ids, now))))
  }

  /** `cb` times out the call listed under `id`, whose entry is more than 30 seconds old, in nanoseconds. */
  predicate TimesOut(reqmap: map<nat, Entry>, id: nat, now: int, cb: Callback) {
    id in reqmap && now - reqmap[id].start > 30_000_000_000 && cb == Callback(reqmap[id].call, TimedOut)
  }

  lemma TimeoutsOfLate(reqmap: map<nat, Entry>, ids: seq<nat>, now: int, cb: Callback)
    requires InOrder(reqmap, ids)
    ensures cb in Timeouts(EntriesOf(reqmap, ExpiredOf(reqmap, ids, now))) <==> exists id :: TimesOut(reqmap, id, now, cb)
  {
    var gone := ExpiredOf(reqmap, ids, now);
    var out := Timeouts(EntriesOf(reqmap, gone));
    if cb in out {
      var i :| 0 <= i < |out| && out[i] == cb;
      assert gone[i] in ids && TimesOut(reqmap, gone[i], now, cb);
    }
    if id :| TimesOut(reqmap, id, now, cb) {
      assert id in ids && id in gone;
      var i :| 0 <= i < |gone| && gone[i] == id;
      assert out[i] == cb;
    }
  }

  /** ProcessTimeout in numbers: an entry stays, as it is, exactly if it is no older than 30 seconds; the callbacks run
      are those of the others, all of them, with a timeout. */
  lemma LeavesAfterThirtySeconds(c: Client, c': Client, now: int, cb: Callback)
    requires TimedOutFrom(c, c', now)
    ensures forall id :: id in c'.reqmap <==> id in c.reqmap && now - c.reqmap[id].start <= 30_000_000_000
    ensures forall id :: id in c'.reqmap ==> c'.reqmap[id] == c.reqmap[id]
    ensures |c.log| <= |c'.log| && c'.log[..|c.log|] == c.log
    ensures cb in c'.log[|c.log|..] <==> exists id :: TimesOut(c.reqmap, id, now, cb)
  {
    var ids :| InOrder(c.reqmap, ids) &&
      c' == c.(reqmap := Unexpired(c.reqmap, now),
               log := c.log + Timeouts(EntriesOf(c.reqmap, ExpiredOf(c.reqmap, ids, now))));
    assert c'.log[|c.log|..] == Timeouts(EntriesOf(c.reqmap, ExpiredOf(c.reqmap, ids, now)));
    TimeoutsOfLate(c.reqmap, ids, now, cb);
  }

  lemma {:induction false} LeastOf(s: set<nat>) returns (m: nat)
    requires s != {}
    ensures m in s && forall x :: x in s ==> m <= x
    decreases |s|
  {
    var x :| x in s;
    m := x;
    if s != {x} {
      var n := LeastOf(s - {x});
      if n < m { m := n; }
      assert forall y :: y in s ==> y == x || y in s - {x};
    }
  }

  // ---------- the stream ----------

  class RPCStream {
    var seed: nat
    var status: Status
    var restarting: bool
    var reqmap: map<nat, Entry>
    var replies: seq<Reply>
    var requests: seq<nat>
    var calls: nat
    var log: seq<Callback>
    var notes: seq<Reply>

    ghost function View(): Client
      reads this
    {
      Client(seed, status, restarting, reqmap, replies, requests, calls, log, notes)
    }

    constructor ()
      ensures View() == Client(0, Disconnect, false, map[], [], [], 0, [], [])
    {
      seed, status, restarting := 0, Disconnect, false;
      reqmap, replies, requests := map[], [], [];
      calls, log, notes := 0, [], [];
    }

    method NewMsgId() returns (id: nat)
      modifies this`seed
      ensures id == NextId(old(seed)) && View() == old(View()).(seed := id)
    {
      id := seed + 1;
      if id >= ID_LIMIT {
        id := 1;
      }
      seed := id;
    }

    method Respond(call: nat, outcome: Outcome)
      modifies this`log
      ensures View() == old(View()).(log := old(log) + [Callback(call, outcome)])
    {
      log := log + [Callback(call, outcome)];
    }

    method Call(now: int)
      modifies this
      ensures View() == Called(old(View()), now)
    {
      var call := calls;
      calls := calls + 1;
      if status.Disconnect? || status.Connecting? {
        Respond(call, NotConnected);
        return;
      }
      var id := NewMsgId();
      requests := requests + [id];
      reqmap := reqmap[id := Entry(call, now)];
    }

    method DrainQueue()
      modifies this`replies, this`requests, this`reqmap
      ensures View() == Drained(old(View()))
    {
      while |replies| > 0
        invariant View() == old(View()).(replies := replies)
      {
        replies := replies[1..];
      }
      while |requests| > 0
        invariant View() == old(View()).(replies := [], requests := requests)
      {
        requests := requests[1..];
      }
      reqmap := map[];
    }

    method ProcessReply()
      modifies this
      ensures View() == Processed(old(View()))
    {
      while |replies| > 0
        invariant Processed(View()) == Processed(old(View()))
        decreases |replies|
      {
        var rep := replies[0];
        replies := replies[1..];
        if !rep.Answer? {
          DrainQueue();
          if rep.DisconnectEvent? {
            status := Disconnect;
          } else {
            restarting := false;
            status := Established;
          }
          return;
        }
        if restarting {
        } else if rep.msgid == 0 {
          notes := notes + [rep];
        } else if rep.msgid in reqmap {
          var ent := reqmap[rep.msgid];
          reqmap := reqmap - {rep.msgid};
          Respond(ent.call, Replied(rep.msgid, rep.error));
        }
      }
    }

    /** The first loop of ProcessTimeout: collects the expired ids in the order of the table. */
    method Collect(now: int, erased: array<nat>) returns (n: nat, ghost ids: seq<nat>)
      requires erased.Length == |reqmap|
      modifies erased
      ensures InOrder(reqmap, ids)
      ensures n <= erased.Length && erased[..n] == ExpiredOf(reqmap, ids, now)
    {
      n, ids := 0, [];
      var rest := reqmap.Keys;
      while rest != {}
        invariant n <= |ids| && Scanned(reqmap, ids, rest)
        invariant erased[..n] == ExpiredOf(reqmap, ids, now)
        decreases |rest|
      {
        ghost var least := LeastOf(rest);
        var id :| id in rest && forall x :: x in rest ==> id <= x;
        ScanNext(reqmap, ids, rest, id);
        ExpiredNext(reqmap, ids, id, now);
        rest := rest - {id};
        if Expired(reqmap[id], now) {
          erased[n] := id;
          n := n + 1;
          assert erased[..n] == erased[..n - 1] + [id];
        }
        ids := ids + [id];
      }
    }

    /** The entries of the collected ids, kept for their callbacks. */
    method Entries(erased: array<nat>, n: nat) returns (entries: array<Entry>)
      requires n <= erased.Length && forall i :: 0 <= i < n ==> erased[i] in reqmap
      ensures fresh(entries) && entries[..] == EntriesOf(reqmap, erased[..n])
    {
      entries := new Entry[n](i requires 0 <= i < erased.Length && erased[i] in reqmap reads this, erased => reqmap[erased[i]]);
    }

    /** The second loop. */
    method Erase(erased: array<nat>, n: nat, ghost gone: seq<nat>)
      requires n <= erased.Length && erased[..n] == gone
      modifies this`reqmap
      ensures View() == old(View()).(reqmap := Without(old(reqmap), gone))
    {
      var i := 0;
      assert Without(reqmap, gone[..0]) == reqmap;
      while i < n
        invariant 0 <= i <= n
        invariant reqmap == Without(old(reqmap), gone[..i])
      {
        assert erased[i] == gone[i];
        WithoutNext(old(reqmap), gone, i);
        reqmap := reqmap - {erased[i]};
        i := i + 1;
      }
      assert gone[..n] == gone;
    }

    /** The third loop: run the callbacks, the lock no longer held. */
    method Expire(entries: array<Entry>)
      modifies this`log
      ensures View() == old(View()).(log := old(log) + Timeouts(entries[..]))
    {
      ghost var all := Timeouts(entries[..]);
      var i := 0;
      while i < entries.Length
        invariant 0 <= i <= entries.Length
        invariant log == old(log) + all[..i]
      {
        assert all[..i + 1] == all[..i] + [all[i]];
        Respond(entries[i].call, TimedOut);
        i := i + 1;
      }
      assert all[..i] == all;
    }

    method ProcessTimeout(now: int)
      modifies this
      ensures TimedOutFrom(old(View()), View(), now)
    {
      ghost var before := View();
      var erased := new nat[|reqmap|];
      var n, ids := Collect(now, erased);
      var entries := Entries(erased, n);
      Erase(erased, n, ExpiredOf(before.reqmap, ids, now));
      WithoutExpired(before.reqmap, ids, now);
      Expire(entries);
    }
  }
}
