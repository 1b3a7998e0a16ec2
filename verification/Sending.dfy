/** That packets do get sent: a buffer that a pool thread serves can be emptied into the sender of
    its call, in order, in every reachable state and without anything else changing. */
module Sending {
  import opened Common
  import opened Lifecycle
  import opened PoolMap
  import opened Runs
  import opened SubStreams
  import opened Traffic

  /** These packets, sent in order from b to c. */
  function AllSent(b: nat, c: CallId, packets: seq<Packet>): (r: seq<Sent>)
    ensures |r| == |packets| && forall j :: 0 <= j < |r| ==> r[j] == Sent(b, c, packets[j])
  {
    seq(|packets|, j requires 0 <= j < |packets| => Sent(b, c, packets[j]))
  }

  /** t with the packets waiting in b left at `rest` and those before it sent to c. */
  ghost function After(t: Net, b: nat, c: CallId, packets: seq<Packet>, rest: seq<Packet>): Net
    requires b < |t.queues|
  {
    t.(queues := t.queues[b := rest], log := t.log + AllSent(b, c, packets))
  }

  /** t with the oldest packet of b sent to c. */
  ghost function FirstSent(t: Net, b: nat, c: CallId): Net
    requires b < |t.queues| && t.queues[b] != []
  {
    t.(queues := t.queues[b := t.queues[b][1..]], log := t.log + [Sent(b, c, t.queues[b][0])])
  }

  /** Under id, thread i serves buffer b, and b has a sender of call c. */
  ghost predicate CanSend(t: Net, i: nat, id: Id, b: nat, c: CallId) {
    && i < |t.sys.pool| && id in t.sys.pool[i] && t.sys.pool[i][id] == b
    && b < |t.queues| && b < |t.sys.buffers| && c in t.sys.buffers[b]
  }

  /** In every reachable state: where b is served, has a sender of c and holds packets, the turn of
      some thread sends exactly the oldest of them to c, and nothing else changes. */
  lemma TurnSends(t: Net, id: Id, b: nat, c: CallId)
    requires NetInv(t) && Serves(t.sys.pool, id, b)
    requires b < |t.sys.buffers| && c in t.sys.buffers[b] && t.queues[b] != []
    ensures exists i: nat :: i < |t.sys.pool| && NetStep(t, Turn(i, id, c)) == FirstSent(t, b, c)
  {
    hide Inv;
    var i: nat :| i < |t.sys.pool| && id in t.sys.pool[i] && t.sys.pool[i][id] == b;
    ThisTurnSends(t, i, id, b, c);
  }

  /** Whichever thread it is that serves b. */
  lemma ThisTurnSends(t: Net, i: nat, id: Id, b: nat, c: CallId)
    requires NetInv(t) && CanSend(t, i, id, b, c) && t.queues[b] != []
    ensures NetStep(t, Turn(i, id, c)) == FirstSent(t, b, c)
  {
    hide Inv;
  }

  function Turns(i: nat, id: Id, c: CallId, n: nat): (r: seq<NetEvent>)
    ensures |r| == n
  {
    if n == 0 then [] else [Turn(i, id, c)] + Turns(i, id, c, n - 1)
  }

  lemma AfterFirst(t: Net, i: nat, id: Id, b: nat, c: CallId)
    requires CanSend(t, i, id, b, c) && t.queues[b] != []
    ensures var t1 := FirstSent(t, b, c);
      && CanSend(t1, i, id, b, c) && t1.queues[b] == t.queues[b][1..]
      && After(t1, b, c, t1.queues[b], []) == After(t, b, c, t.queues[b], [])
  {
    hide AllSent;
    FirstOfAll(t.log, b, c, t.queues[b]);
    UpdatedTwice(t.queues, b, t.queues[b][1..], []);
  }

  lemma FirstOfAll(log: seq<Sent>, b: nat, c: CallId, q: seq<Packet>)
    requires q != []
    ensures (log + [Sent(b, c, q[0])]) + AllSent(b, c, q[1..]) == log + AllSent(b, c, q)
  {
    assert AllSent(b, c, q) == [Sent(b, c, q[0])] + AllSent(b, c, q[1..]);
    Associates(log, [Sent(b, c, q[0])], AllSent(b, c, q[1..]));
  }

  lemma Associates<T>(x: seq<T>, y: seq<T>, z: seq<T>)
    ensures (x + y) + z == x + (y + z)
  {
  }

  lemma UpdatedTwice<T>(s: seq<T>, i: nat, x: T, y: T)
    requires i < |s|
    ensures s[i := x][i := y] == s[i := y]
  {
  }

  lemma AfterNone(t: Net, b: nat, c: CallId)
    requires b < |t.queues| && t.queues[b] == []
    ensures After(t, b, c, t.queues[b], []) == t
  {
    assert t.queues[b := []] == t.queues && t.log + AllSent(b, c, []) == t.log;
  }

  /** As many turns as there are packets send them all, in order. */
  lemma {:induction false} TurnsDrain(t: Net, i: nat, id: Id, b: nat, c: CallId)
    requires NetInv(t) && CanSend(t, i, id, b, c)
    ensures NetRun(t, Turns(i, id, c, |t.queues[b]|)) == After(t, b, c, t.queues[b], [])
    decreases |t.queues[b]|
  {
    hide Inv, NetStep, OwnersOnly, After, FirstSent, CanSend;
    CanSendFacts(t, i, id, b, c);
    var q, e := t.queues[b], Turn(i, id, c);
    if q == [] {
      AfterNone(t, b, c);
    } else {
      ThisTurnSends(t, i, id, b, c);
      NetStepInv(t, e);
      AfterFirst(t, i, id, b, c);
      TurnsDrain(NetStep(t, e), i, id, b, c);
      assert Turns(i, id, c, |q|)[1..] == Turns(i, id, c, |q| - 1);
    }
  }

  lemma CanSendFacts(t: Net, i: nat, id: Id, b: nat, c: CallId)
    requires CanSend(t, i, id, b, c)
    ensures b < |t.queues|
  {
  }

  /** So whatever waits in a served buffer with a sender of c is sent to c, in order, by some
      continuation in which nothing else happens. */
  lemma WaitingIsSent(t: Net, id: Id, b: nat, c: CallId)
    requires NetInv(t) && Serves(t.sys.pool, id, b) && b < |t.sys.buffers| && c in t.sys.buffers[b]
    ensures exists events :: NetRun(t, events) == After(t, b, c, t.queues[b], [])
  {
    hide Inv, NetRun;
    var i: nat :| i < |t.sys.pool| && id in t.sys.pool[i] && t.sys.pool[i][id] == b;
    TurnsDrain(t, i, id, b, c);
  }

  /** After every run, some continuation leaves everything that ever came into such a buffer sent
      from it, in the order in which it came. */
  lemma AllThatCameIsSent(threads: nat, events: seq<NetEvent>, id: Id, b: nat, c: CallId)
    requires threads > 0
    requires var t := NetRun(NetStart(threads), events);
      Serves(t.sys.pool, id, b) && b < |t.sys.buffers| && c in t.sys.buffers[b]
    ensures var t := NetRun(NetStart(threads), events);
      NetInv(t) && exists more :: SentFrom(NetRun(t, more).log, b) == CameTo(t.came, b)
  {
    hide Inv, NetRun, SentFrom, CameTo, OwnersOnly;
    var t := NetRun(NetStart(threads), events);
    NetRunInv(NetStart(threads), events);
    TrafficTheorem(threads, events, b);
    WaitingIsSent(t, id, b, c);
    var more :| NetRun(t, more) == After(t, b, c, t.queues[b], []);
    RunConserved(t, more, b);
  }

  /** Of the calls opened for one camera alone in a pool of k threads, each of the first k is sent,
      in order, whatever waits in its buffer, by some continuation. */
  lemma FirstCallsAreSent(k: nat, id: Id, calls: seq<CallId>, i: nat, t: Net)
    requires k > 0 && Distinct(calls) && i < k && i < |calls|
    requires NetInv(t) && t.sys == Reach(k, Opens(id, calls))
    ensures i < |t.queues|
    ensures exists events :: NetRun(t, events) == After(t, i, calls[i], t.queues[i], [])
  {
    hide NetRun, Inv, Opens, Reach, Serves;
    FirstCallsServed(k, id, calls, i);
    WaitingIsSent(t, id, i, calls[i]);
  }

  // ---- from the camera to the call ----

  function Pictures(n: nat, packets: seq<Packet>): (r: seq<NetEvent>)
    ensures |r| == |packets|
  {
    if packets == [] then [] else [Camera(n, packets[0])] + Pictures(n, packets[1..])
  }

  /** Packets of a camera queue up behind what waits in the newest buffer of its stream. */
  lemma {:induction false} PicturesQueue(t: Net, n: nat, packets: seq<Packet>)
    requires NetInv(t) && HasBuffer(t.sys, n)
    ensures var b, t' := t.sys.objects[n].buffer.value, NetRun(t, Pictures(n, packets));
      b < |t.queues| && t'.sys == t.sys && t'.log == t.log && t'.queues == t.queues[b := t.queues[b] + packets]
    decreases |packets|
  {
    hide Inv, Step, OwnersOnly;
    var b := t.sys.objects[n].buffer.value;
    if packets == [] {
      assert t.queues[b] + packets == t.queues[b] && t.queues[b := t.queues[b]] == t.queues;
    } else {
      var e := Camera(n, packets[0]);
      NetStepInv(t, e);
      PicturesQueue(NetStep(t, e), n, packets[1..]);
      assert (t.queues[b] + [packets[0]]) + packets[1..] == t.queues[b] + packets;
      assert Pictures(n, packets)[1..] == Pictures(n, packets[1..]);
    }
  }

  lemma {:induction false} NetRunConcat(t: Net, x: seq<NetEvent>, y: seq<NetEvent>)
    requires NetInv(t)
    ensures NetInv(NetRun(t, x)) && NetRun(t, x + y) == NetRun(NetRun(t, x), y)
    decreases |x|
  {
    hide NetStep, Inv, OwnersOnly;
    if x == [] {
      assert x + y == y;
    } else {
      NetStepInv(t, x[0]);
      assert (x + y)[1..] == x[1..] + y;
      NetRunConcat(NetStep(t, x[0]), x[1..], y);
    }
  }

  /** Where the newest buffer of a stream is served under the stream's id and has a sender of c,
      some continuation takes any packets from the camera to c, behind those waiting. */
  lemma CameraReachesCall(t: Net, n: nat, c: CallId, packets: seq<Packet>)
    requires NetInv(t) && HasBuffer(t.sys, n)
    requires var b := t.sys.objects[n].buffer.value;
      Serves(t.sys.pool, t.sys.objects[n].id, b) && c in t.sys.buffers[b]
    ensures var b := t.sys.objects[n].buffer.value;
      && b < |t.queues|
      && exists events :: NetRun(t, events).log == t.log + AllSent(b, c, t.queues[b] + packets)
  {
    hide Inv, NetRun, NetStep, OwnersOnly;
    var b, id := t.sys.objects[n].buffer.value, t.sys.objects[n].id;
    PicturesQueue(t, n, packets);
    NetRunInv(t, Pictures(n, packets));
    var t1 := NetRun(t, Pictures(n, packets));
    var i: nat :| i < |t1.sys.pool| && id in t1.sys.pool[i] && t1.sys.pool[i][id] == b;
    TurnsDrain(t1, i, id, b, c);
    NetRunConcat(t, Pictures(n, packets), Turns(i, id, c, |t1.queues[b]|));
  }
}
