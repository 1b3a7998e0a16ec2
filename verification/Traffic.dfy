/** Packets through the stream system: cameras push into the newest buffer of their stream, pool
    threads take packets from the buffers they serve, while streams come and go. */
module Traffic {
  import opened Common
  import opened Lifecycle
  import opened PoolMap
  import opened Runs
  import opened SubStreams

  type Packet = seq<U8>

  datatype Came = Came(buffer: nat, packet: Packet)

  datatype Sent = Sent(buffer: nat, callid: CallId, packet: Packet)

  /** The stream system, the queue of every buffer, what cameras pushed and what was sent. */
  datatype Net = Net(sys: System, queues: seq<seq<Packet>>, came: seq<Came>, log: seq<Sent>)

  datatype NetEvent =
    | Life(event: Event)
    | Camera(stream: nat, packet: Packet)       // MediaStream::processData of a stream object
    | Turn(thread: nat, id: Id, callid: CallId) // one sender's turn in that thread's pass

  function Grown(queues: seq<seq<Packet>>, n: nat): (r: seq<seq<Packet>>)
    ensures |r| >= |queues| && forall b :: 0 <= b < |r| ==> r[b] == if b < |queues| then queues[b] else []
    ensures n >= |queues| ==> |r| == n
  {
    if n > |queues| then queues + seq(n - |queues|, _ => []) else queues
  }

  function NetStep(t: Net, e: NetEvent): Net
    requires Inv(t.sys)
  {
    match e
    case Life(x) =>
      var s := Step(t.sys, x);
      t.(sys := s, queues := Grown(t.queues, |s.buffers|))
    case Camera(n, p) =>
      if !HasBuffer(t.sys, n) || t.sys.objects[n].buffer.value >= |t.queues| then t
      else
        var b := t.sys.objects[n].buffer.value;
        t.(queues := t.queues[b := t.queues[b] + [p]], came := t.came + [Came(b, p)])
    case Turn(i, id, c) =>
      if i >= |t.sys.pool| || id !in t.sys.pool[i] then t
      else
        var b := t.sys.pool[i][id];
        if b >= |t.queues| || b >= |t.sys.buffers| || c !in t.sys.buffers[b] || t.queues[b] == [] then t
        else t.(queues := t.queues[b := t.queues[b][1..]], log := t.log + [Sent(b, c, t.queues[b][0])])
  }

  /** The packets that came into buffer b, and those sent from it, in order. */
  function CameTo(came: seq<Came>, b: nat): seq<Packet> {
    if came == [] then []
    else
      var n := |came| - 1;
      CameTo(came[..n], b) + if came[n].buffer == b then [came[n].packet] else []
  }

  function SentFrom(log: seq<Sent>, b: nat): seq<Packet> {
    if log == [] then []
    else
      var n := |log| - 1;
      SentFrom(log[..n], b) + if log[n].buffer == b then [log[n].packet] else []
  }

  lemma CameToLast(came: seq<Came>, x: Came, b: nat)
    ensures CameTo(came + [x], b) == CameTo(came, b) + if x.buffer == b then [x.packet] else []
  {
    assert (came + [x])[..|came|] == came;
  }

  lemma SentFromLast(log: seq<Sent>, x: Sent, b: nat)
    ensures SentFrom(log + [x], b) == SentFrom(log, b) + if x.buffer == b then [x.packet] else []
  {
    assert (log + [x])[..|log|] == log;
  }

  // ---- what every step keeps ----

  /** What came into b is what was sent from it and what waits in it. */
  predicate Conserved(t: Net, b: nat) {
    CameTo(t.came, b) == SentFrom(t.log, b) + if b < |t.queues| then t.queues[b] else []
  }

  /** Every packet sent went to the call its buffer was made for. */
  ghost predicate OwnersOnly(t: Net) {
    forall i :: 0 <= i < |t.log| ==>
      t.log[i].buffer < |t.sys.made| && t.log[i].callid == t.sys.made[t.log[i].buffer].callid
  }

  ghost predicate NetInv(t: Net) {
    Inv(t.sys) && |t.queues| == |t.sys.buffers| && OwnersOnly(t)
  }

  /** History is only added to. */
  lemma MadeGrows(s: System, e: Event)
    requires Sound(s)
    ensures s.made <= Step(s, e).made && |s.buffers| <= |Step(s, e).buffers|
  {
    hide Open, Detach, Cleared;
    if e.OpenRequest? && s.client.Free? { OpenMade(s, e.id, e.callid, e.controller, e.init); }
  }

  lemma OpenMade(s: System, id: Id, callid: CallId, controller: bool, init: bool)
    requires Sound(s) && s.client.Free?
    ensures s.made <= Open(s, id, callid, controller, init).made
    ensures |s.buffers| <= |Open(s, id, callid, controller, init).buffers|
  {
    hide Attach, Sound;
  }

  lemma BuffersMade(s: System)
    requires Inv(s)
    ensures |s.made| == |s.buffers|
    ensures forall b :: 0 <= b < |s.buffers| ==> s.buffers[b] <= {s.made[b].callid}
  {
    hide Sound, PoolMatches, Counts, OrphansEmpty, Newest, ServedOwned, Accounted, Acknowledged;
  }

  lemma SoundOfInv(s: System)
    requires Inv(s)
    ensures Sound(s)
  {
  }

  lemma NetStepInv(t: Net, e: NetEvent)
    requires NetInv(t)
    ensures NetInv(NetStep(t, e)) && t.sys.made <= NetStep(t, e).sys.made
  {
    hide Inv, Step, Sound;
    BuffersMade(t.sys);
    SoundOfInv(t.sys);
    if e.Life? {
      StepInv(t.sys, e.event);
      BuffersMade(Step(t.sys, e.event));
      MadeGrows(t.sys, e.event);
    }
  }

  lemma StepConserved(t: Net, e: NetEvent, b: nat)
    requires NetInv(t) && Conserved(t, b)
    ensures Conserved(NetStep(t, e), b)
  {
    hide Inv, Step, CameTo, SentFrom, OwnersOnly;
    var t' := NetStep(t, e);
    match e
    case Life(_) =>
      assert b >= |t.queues| && b < |t'.queues| ==> t'.queues[b] == [];
    case Camera(n, p) =>
      if t'.came != t.came {
        CameToLast(t.came, t'.came[|t.came|], b);
      }
    case Turn(_, _, _) =>
      if t'.log != t.log {
        var x := t'.log[|t.log|];
        SentFromLast(t.log, x, b);
        if x.buffer == b { assert t.queues[b] == [x.packet] + t'.queues[b]; }
      }
  }

  // ---- over whole runs ----

  ghost function NetRun(t: Net, events: seq<NetEvent>): Net
    requires NetInv(t)
    decreases |events|
  {
    if events == [] then t
    else
      NetStepInv(t, events[0]);
      NetRun(NetStep(t, events[0]), events[1..])
  }

  ghost function NetStart(threads: nat): (t: Net)
    requires threads > 0
    ensures NetInv(t)
  {
    StartInv(threads);
    Net(Start(threads), [], [], [])
  }

  lemma {:induction false} NetRunInv(t: Net, events: seq<NetEvent>)
    requires NetInv(t)
    ensures NetInv(NetRun(t, events)) && t.sys.made <= NetRun(t, events).sys.made
    decreases |events|
  {
    hide NetStep, Inv, OwnersOnly;
    if events != [] {
      NetStepInv(t, events[0]);
      NetRunInv(NetStep(t, events[0]), events[1..]);
    }
  }

  lemma {:induction false} RunConserved(t: Net, events: seq<NetEvent>, b: nat)
    requires NetInv(t) && Conserved(t, b)
    ensures Conserved(NetRun(t, events), b)
    decreases |events|
  {
    hide NetStep, Inv, OwnersOnly, Conserved;
    if events != [] {
      NetStepInv(t, events[0]);
      StepConserved(t, events[0], b);
      RunConserved(NetStep(t, events[0]), events[1..], b);
    }
  }

  /** In every run, with streams coming and going: what came into a buffer has been sent from it,
      in order, or waits in it; and every packet sent went to the one call its buffer was made
      for, so no packet reaches a second sub-stream. */
  lemma TrafficTheorem(threads: nat, events: seq<NetEvent>, b: nat)
    requires threads > 0
    ensures var t := NetRun(NetStart(threads), events);
      && CameTo(t.came, b) == SentFrom(t.log, b) + (if b < |t.queues| then t.queues[b] else [])
      && forall i :: 0 <= i < |t.log| ==>
           t.log[i].buffer < |t.sys.made| && t.log[i].callid == t.sys.made[t.log[i].buffer].callid
  {
    hide NetRun, Inv;
    var t := NetStart(threads);
    assert Conserved(t, b);
    NetRunInv(t, events);
    RunConserved(t, events, b);
  }

  /** A camera's packet goes into the newest buffer made for its stream, and no other. */
  lemma CameraFeedsNewest(t: Net, n: nat, p: Packet)
    requires NetInv(t)
    ensures var t' := NetStep(t, Camera(n, p));
      if HasBuffer(t.sys, n) then
        && IsNewest(t.sys.made, n, t.sys.objects[n].buffer.value)
        && t'.came == t.came + [Came(t.sys.objects[n].buffer.value, p)]
      else t' == t
  {
    hide Sound, PoolMatches, Counts, OrphansEmpty, Owned, ServedOwned, Accounted, Acknowledged, IsNewest;
  }

  /** So a sub-stream added later starves the earlier ones of its stream: once a buffer is not
      the newest of its stream, nothing comes into it any more, whatever happens. */
  lemma {:induction false} OlderStarves(t: Net, events: seq<NetEvent>, b: nat)
    requires NetInv(t) && b < |t.sys.made| && !IsNewest(t.sys.made, t.sys.made[b].stream, b)
    ensures CameTo(NetRun(t, events).came, b) == CameTo(t.came, b)
    decreases |events|
  {
    hide Inv, CameTo, Step;
    if events != [] {
      var e := events[0];
      NetStepInv(t, e);
      var t' := NetStep(t, e);
      StaysOlder(t.sys.made, t'.sys.made, b);
      if e.Camera? {
        CameraFeedsNewest(t, e.stream, e.packet);
        if t'.came != t.came { CameToLast(t.came, t'.came[|t.came|], b); }
      }
      OlderStarves(t', events[1..], b);
    }
  }

  lemma StaysOlder(made: seq<Made>, made': seq<Made>, b: nat)
    requires made <= made' && b < |made| && !IsNewest(made, made[b].stream, b)
    ensures !IsNewest(made', made'[b].stream, b)
  {
    var c :| b < c < |made| && made[c].stream == made[b].stream;
    assert made'[c].stream == made'[b].stream;
  }

  predicate Unserved(pool: Threads, b: nat) {
    forall i :: 0 <= i < |pool| ==> b !in pool[i].Values
  }

  /** No step makes a thread serve a buffer made before. */
  lemma StepUnserved(s: System, e: Event, b: nat)
    requires Inv(s) && b < |s.buffers| && Unserved(s.pool, b)
    ensures Unserved(Step(s, e).pool, b)
  {
    hide LeastLoaded, PoolMatches, Counts, OrphansEmpty, Owned, Newest, ServedOwned, Accounted, Acknowledged, Cleared;
  }

  /** And a buffer the pool did not take never gets a packet out. */
  lemma {:induction false} UnservedSendsNothing(t: Net, events: seq<NetEvent>, b: nat)
    requires NetInv(t) && b < |t.sys.buffers| && Unserved(t.sys.pool, b)
    ensures SentFrom(NetRun(t, events).log, b) == SentFrom(t.log, b)
    decreases |events|
  {
    hide Inv, SentFrom, Step;
    if events != [] {
      var e := events[0];
      NetStepInv(t, e);
      var t' := NetStep(t, e);
      if e.Life? {
        StepUnserved(t.sys, e.event, b);
        assert Sound(t.sys) by { SoundOfInv(t.sys); }
        MadeGrows(t.sys, e.event);
      } else if t'.log != t.log {
        SentFromLast(t.log, t'.log[|t.log|], b);
      }
      UnservedSendsNothing(t', events[1..], b);
    }
  }

  /** So of the calls opened for one camera alone in a pool of k threads, the first k aside, none
      is ever sent a packet, although each was told that it succeeded. */
  lemma LateCallGetsNothing(k: nat, id: Id, calls: seq<CallId>, i: nat, t: Net, events: seq<NetEvent>)
    requires k > 0 && Distinct(calls) && k <= i < |calls|
    requires NetInv(t) && t.sys == Reach(k, Opens(id, calls)) && t.log == []
    ensures SentFrom(NetRun(t, events).log, i) == []
    ensures Reply(i, true) in t.sys.replies
  {
    hide NetRun, Inv, Opens, Reach;
    FirstCallsServed(k, id, calls, i);
    AloneRun(k, id, calls);
    assert Unserved(Alone(k, id, calls).pool, i);
    UnservedSendsNothing(t, events, i);
  }
}
