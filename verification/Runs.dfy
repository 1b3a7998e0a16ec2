/** What every step of the stream system keeps, and what therefore holds in every run. */
module Runs {
  import opened Common
  import opened Lifecycle
  import opened PoolMap

  // ---- registry and pool ----

  /** The ids a pool thread must hold: those registered, less one whose buffers are already
      removed, plus one whose buffer is already attached. */
  function Expected(s: System): set<Id>
    requires Sound(s)
  {
    match s.client
    case Registering(_, n, _) => s.streams.Keys + {s.objects[n].id}
    case Erasing(id, _) => s.streams.Keys - {id}
    case _ => s.streams.Keys
  }

  ghost predicate PoolMatches(s: System)
    requires Sound(s)
  {
    forall id :: Holds(s.pool, id) <==> id in Expected(s)
  }

  lemma OpenPoolMatches(s: System, id: Id, callid: CallId, controller: bool, init: bool)
    requires Sound(s) && s.client.Free? && PoolMatches(s)
    ensures Sound(Open(s, id, callid, controller, init))
    ensures PoolMatches(Open(s, id, callid, controller, init))
  {
    hide Attach, Holds;
    OpenSound(s, id, callid, controller, init);
    forall x ensures Holds(Open(s, id, callid, controller, init).pool, x) <==>
      x in Expected(Open(s, id, callid, controller, init))
    {
      AttachHolds(s.pool, id, |s.buffers|, x);
    }
  }

  lemma AdvancePoolMatches(s: System)
    requires Sound(s) && PoolMatches(s)
    ensures Sound(Advance(s)) && PoolMatches(Advance(s))
  {
    hide Detach, Holds, Cleared, Sound;
    AdvanceSound(s);
    if s.client.Detaching? {
      forall x ensures Holds(Detach(s.pool, s.client.id), x) <==> Holds(s.pool, x) && x != s.client.id {
        DetachHolds(s.pool, s.client.id, x);
      }
    }
  }

  /** Closing up to the sub-stream, and the message thread at all times, leave both alone. */
  lemma OthersPoolMatch(s: System, e: Event)
    requires Sound(s) && PoolMatches(s) && !e.OpenRequest? && !e.ClientStep?
    ensures Sound(Step(s, e)) && PoolMatches(Step(s, e))
  {
    hide Holds, EraseSub, EraseSender;
    StepSound(s, e);
    if e.CloseRequest? && s.client.Free? && e.id in s.streams {
      ErasureKeepsReferences(s.(closes := s.closes + 1), s.streams[e.id], e.callid);
    }
    if !s.worker.Idle? { ErasureKeepsReferences(s, s.worker.job.stream, s.worker.job.callid); }
  }

  lemma StepPoolMatches(s: System, e: Event)
    requires Sound(s) && PoolMatches(s)
    ensures Sound(Step(s, e)) && PoolMatches(Step(s, e))
  {
    hide Sound, PoolMatches, Open, Close, Advance, AdvanceJob;
    match e
    case OpenRequest(id, callid, controller, init) =>
      if s.client.Free? { OpenPoolMatches(s, id, callid, controller, init); }
    case ClientStep => AdvancePoolMatches(s);
    case _ => OthersPoolMatch(s, e);
  }

  // ---- jobs submitted, devices closed ----

  /** A stream is registered from its job's submission to its device's close. */
  ghost predicate Counts(s: System) {
    s.submitted == s.closed + |s.streams| - if s.client.Detaching? || s.client.Erasing? then 1 else 0
  }

  lemma OpenCounts(s: System, id: Id, callid: CallId, controller: bool, init: bool)
    requires Sound(s) && s.client.Free? && Counts(s)
    ensures Counts(Open(s, id, callid, controller, init))
  {
  }

  lemma MapSizes<K, V>(m: map<K, V>, k: K, v: V)
    ensures k !in m ==> |m[k := v]| == |m| + 1
    ensures k in m ==> |m - {k}| == |m| - 1
  {
    assert (m - {k}).Keys == m.Keys - {k};
    assert m[k := v].Keys == m.Keys + {k};
  }

  lemma AdvanceCounts(s: System)
    requires Sound(s) && Counts(s)
    ensures Counts(Advance(s))
  {
    hide Detach, Cleared;
    match s.client
    case Registering(_, n, _) => MapSizes(s.streams, s.objects[n].id, n);
    case Erasing(id, n) => MapSizes(s.streams, id, n);
    case _ =>
  }

  lemma StepCounts(s: System, e: Event)
    requires Sound(s) && Counts(s)
    ensures Counts(Step(s, e))
  {
    hide Open, Advance;
    match e
    case OpenRequest(id, callid, controller, init) =>
      if s.client.Free? { OpenCounts(s, id, callid, controller, init); }
    case ClientStep => AdvanceCounts(s);
    case _ =>
  }

  // ---- sub-streams of streams no longer registered ----

  /** A stream object that is neither registered nor about to be has no sub-streams, so its
      destructor does not close the device a second time. */
  ghost predicate OrphansEmpty(s: System) {
    forall n :: 0 <= n < |s.objects| && s.objects[n].subs != {} ==>
      || (s.objects[n].id in s.streams && s.streams[s.objects[n].id] == n)
      || (s.client.Registering? && s.client.stream == n)
  }

  lemma OpenOrphansEmpty(s: System, id: Id, callid: CallId, controller: bool, init: bool)
    requires Sound(s) && s.client.Free? && OrphansEmpty(s)
    ensures OrphansEmpty(Open(s, id, callid, controller, init))
  {
    hide Attach;
  }

  lemma AdvanceOrphansEmpty(s: System)
    requires Sound(s) && OrphansEmpty(s)
    ensures OrphansEmpty(Advance(s))
  {
    hide Attach, Detach, Cleared;
  }

  lemma StepOrphansEmpty(s: System, e: Event)
    requires Sound(s) && OrphansEmpty(s)
    ensures OrphansEmpty(Step(s, e))
  {
    hide Open, Advance;
    match e
    case OpenRequest(id, callid, controller, init) =>
      if s.client.Free? { OpenOrphansEmpty(s, id, callid, controller, init); }
    case ClientStep => AdvanceOrphansEmpty(s);
    case _ =>
  }

  // ---- whose buffers ----

  /** A buffer can hold no sender but that of the call it was made for. */
  ghost predicate Owned(s: System) {
    && |s.made| == |s.buffers|
    && forall b :: 0 <= b < |s.buffers| ==> s.buffers[b] <= {s.made[b].callid}
  }

  lemma OpenOwned(s: System, id: Id, callid: CallId, controller: bool, init: bool)
    requires Sound(s) && s.client.Free? && Owned(s)
    ensures Owned(Open(s, id, callid, controller, init))
  {
    hide Attach;
  }

  lemma AdvanceOwned(s: System)
    requires Sound(s) && Owned(s)
    ensures Owned(Advance(s))
  {
    hide Detach, Serves;
  }

  lemma StepOwned(s: System, e: Event)
    requires Sound(s) && Owned(s)
    ensures Owned(Step(s, e))
  {
    hide Open, Advance;
    match e
    case OpenRequest(id, callid, controller, init) =>
      if s.client.Free? { OpenOwned(s, id, callid, controller, init); }
    case ClientStep => AdvanceOwned(s);
    case _ =>
  }

  /** The newest buffer made for stream object n. */
  predicate IsNewest(made: seq<Made>, n: nat, b: nat) {
    b < |made| && made[b].stream == n && forall c :: b < c < |made| ==> made[c].stream != n
  }

  /** buffer_ of a stream is the newest buffer made for it. */
  ghost predicate Newest(s: System) {
    && |s.made| == |s.buffers|
    && (forall b :: 0 <= b < |s.made| ==> s.made[b].stream < |s.objects|)
    && (forall n: nat :: n < |s.objects| && s.objects[n].buffer.Some? ==>
          IsNewest(s.made, n, s.objects[n].buffer.value))
    && (forall b :: 0 <= b < |s.made| ==> s.objects[s.made[b].stream].buffer.Some?)
  }

  lemma AddSubNewest(s: System, n: nat, callid: CallId, init: bool)
    requires n < |s.objects| && |s.pool| > 0 && Newest(s)
    ensures Newest(AddSub(s, n, callid, init).0)
  {
    hide Attach, IsNewest;
    var s' := AddSub(s, n, callid, init).0;
    if |s'.made| > |s.made| {
      forall m: nat | m < |s'.objects| && s'.objects[m].buffer.Some?
        ensures IsNewest(s'.made, m, s'.objects[m].buffer.value)
      {
        NewestAfter(s.made, n, callid, m, s'.objects[m].buffer.value);
      }
      assert forall b :: 0 <= b < |s.made| ==> s'.made[b] == s.made[b];
    }
  }

  lemma NewestAfter(made: seq<Made>, n: nat, callid: CallId, m: nat, b: nat)
    requires m != n ==> IsNewest(made, m, b)
    requires m == n ==> b == |made|
    ensures IsNewest(made + [Made(n, callid)], m, b)
  {
  }

  lemma StepNewest(s: System, e: Event)
    requires Sound(s) && Newest(s)
    ensures Newest(Step(s, e))
  {
    hide Attach, Detach, Serves, AddSub, IsNewest;
    match e
    case OpenRequest(id, callid, controller, init) =>
      if s.client.Free? {
        var s1 := s.(received := s.received + 1);
        if id in s.streams {
          AddSubNewest(s1, s.streams[id], callid, init);
        } else if controller {
          var s2 := s1.(objects := s.objects + [Stream(id, {}, None)]);
          assert Newest(s2);
          AddSubNewest(s2, |s.objects|, callid, init);
        }
      }
    case _ =>
  }

  /** Under an id, threads serve buffers of its registered stream only, or of the one being
      registered. */
  predicate ServedFor(s: System, id: Id, b: nat) {
    && b < |s.made| && s.made[b].stream < |s.objects|
    && (id in s.streams ==> s.made[b].stream == s.streams[id])
    && (id !in s.streams && s.client.Registering? ==> s.made[b].stream == s.client.stream)
  }

  ghost predicate ServedOwned(s: System) {
    forall id, b: nat :: Serves(s.pool, id, b) ==> ServedFor(s, id, b)
  }

  lemma ServedIsHeld(pool: Threads, id: Id, b: nat)
    requires Serves(pool, id, b)
    ensures Holds(pool, id)
  {
  }

  lemma OpenServedOwned(s: System, id: Id, callid: CallId, controller: bool, init: bool)
    requires Sound(s) && s.client.Free? && PoolMatches(s) && ServedOwned(s) && Newest(s)
    ensures ServedOwned(Open(s, id, callid, controller, init))
  {
    hide Attach, Serves, Holds, IsNewest, LeastLoaded;
    var s' := Open(s, id, callid, controller, init);
    forall x, b: nat | Serves(s'.pool, x, b) ensures ServedFor(s', x, b) {
      AttachServes(s.pool, id, |s.buffers|, x, b);
      if Serves(s.pool, x, b) {
        ServedIsHeld(s.pool, x, b);
        assert ServedFor(s, x, b) && x in s.streams;
      }
    }
  }

  lemma AdvanceServedOwned(s: System)
    requires Sound(s) && PoolMatches(s) && ServedOwned(s)
    ensures ServedOwned(Advance(s))
  {
    hide Detach, Cleared, Serves, Holds;
    var s' := Advance(s);
    forall x, b: nat | Serves(s'.pool, x, b) ensures ServedFor(s', x, b) {
      if s.client.Detaching? { DetachServes(s.pool, s.client.id, x, b); }
      ServedIsHeld(s.pool, x, b);
      assert ServedFor(s, x, b);
    }
  }

  lemma StepServedOwned(s: System, e: Event)
    requires Sound(s) && PoolMatches(s) && ServedOwned(s) && Newest(s)
    ensures ServedOwned(Step(s, e))
  {
    hide Open, Advance, Serves, PoolMatches, Newest;
    match e
    case OpenRequest(id, callid, controller, init) =>
      if s.client.Free? { OpenServedOwned(s, id, callid, controller, init); }
    case ClientStep => AdvanceServedOwned(s);
    case _ =>
  }

  // ---- every close request is acknowledged ----

  function AcksInHand(c: Client): nat {
    match c
    case Acking(times) => times
    case Free => 0
    case Registering(_, _, _) => 0
    case Answering(_, _) => 0
    case _ => 1
  }

  /** Each close request is acknowledged once, and one of an unknown id once more. */
  ghost predicate Acknowledged(s: System) {
    s.acks + AcksInHand(s.client) == s.closes + s.strays
  }

  lemma StepAcknowledged(s: System, e: Event)
    requires Sound(s) && Acknowledged(s)
    ensures Acknowledged(Step(s, e))
  {
    hide Attach, Detach, Cleared, Serves;
  }

  lemma {:induction false} SubsetSize<T>(a: set<T>, b: set<T>)
    requires a <= b
    ensures |a| <= |b|
    decreases |a|
  {
    if a != {} {
      var x :| x in a;
      SubsetSize(a - {x}, b - {x});
    }
  }

  // ---- every open request is answered once ----

  /** How often request r occurs among the replies, and among the jobs. */
  function InReplies(replies: seq<Reply>, r: nat): nat {
    if replies == [] then 0
    else InReplies(replies[..|replies| - 1], r) + if replies[|replies| - 1].req == r then 1 else 0
  }

  function InJobs(jobs: seq<Job>, r: nat): nat {
    if jobs == [] then 0 else (if jobs[0].req == r then 1 else 0) + InJobs(jobs[1..], r)
  }

  lemma {:induction false} InJobsAppend(jobs: seq<Job>, j: Job, r: nat)
    ensures InJobs(jobs + [j], r) == InJobs(jobs, r) + if j.req == r then 1 else 0
  {
    if jobs == [] {
      assert ([] + [j])[1..] == [];
    } else {
      assert (jobs + [j])[1..] == jobs[1..] + [j];
      InJobsAppend(jobs[1..], j, r);
    }
  }

  lemma InRepliesAppend(replies: seq<Reply>, y: Reply, r: nat)
    ensures InReplies(replies + [y], r) == InReplies(replies, r) + if y.req == r then 1 else 0
  {
    assert (replies + [y])[..|replies|] == replies;
  }

  function InWorker(w: Worker, r: nat): nat {
    if !w.Idle? && w.job.req == r then 1 else 0
  }

  function InClient(c: Client, r: nat): nat {
    if (c.Registering? || c.Answering?) && c.req == r then 1 else 0
  }

  /** The places request r is in: answered, queued, being worked on, or in the hands of the
      thread that holds locker_. */
  function Places(s: System, r: nat): nat {
    InReplies(s.replies, r) + InJobs(s.queue, r) + InWorker(s.worker, r) + InClient(s.client, r)
  }

  /** How many requests those places hold in all. */
  function InHand(s: System): nat {
    |s.replies| + |s.queue| + (if s.worker.Idle? then 0 else 1)
    + if s.client.Registering? || s.client.Answering? then 1 else 0
  }

  /** Each request received is in exactly one place, and no other request is in any. */
  ghost predicate Accounted(s: System) {
    && (forall r: nat :: Places(s, r) == if r < s.received then 1 else 0)
    && InHand(s) == s.received
  }

  lemma OpenPlaces(s: System, id: Id, callid: CallId, controller: bool, init: bool, r: nat)
    requires Sound(s) && s.client.Free?
    ensures var s' := Open(s, id, callid, controller, init);
      && s'.received == s.received + 1 && InHand(s') == InHand(s) + 1
      && Places(s', r) == Places(s, r) + if r == s.received then 1 else 0
  {
    hide Attach;
  }

  lemma AdvancePlaces(s: System, r: nat)
    requires Sound(s)
    ensures var s' := Advance(s);
      s'.received == s.received && InHand(s') == InHand(s) && Places(s', r) == Places(s, r)
  {
    hide InReplies, InJobs, Detach, Cleared;
    match s.client
    case Registering(req, n, callid) => InJobsAppend(s.queue, Job(req, n, callid), r);
    case Answering(req, ok) => InRepliesAppend(s.replies, Reply(req, ok), r);
    case _ =>
  }

  lemma JobPlaces(s: System, e: Event, r: nat)
    requires Sound(s) && (e.JobPop? || e.DeviceAnswer? || e.JobStep?)
    ensures var s' := Step(s, e);
      s'.received == s.received && InHand(s') == InHand(s) && Places(s', r) == Places(s, r)
  {
    hide InReplies, Sound;
    if e.JobStep? && s.worker.Replying? {
      InRepliesAppend(s.replies, Reply(s.worker.job.req, s.worker.ok), r);
    }
  }

  lemma ClosePlaces(s: System, id: Id, callid: CallId, r: nat)
    requires Sound(s) && s.client.Free?
    ensures var s' := Close(s, id, callid);
      s'.received == s.received && InHand(s') == InHand(s) && Places(s', r) == Places(s, r)
  {
    hide InReplies, InJobs, Sound;
  }

  /** What one step does to the accounts, seen from request r. */
  lemma StepPlaces(s: System, e: Event, r: nat)
    requires Sound(s)
    ensures var s' := Step(s, e);
      || (s'.received == s.received && InHand(s') == InHand(s) && Places(s', r) == Places(s, r))
      || (s'.received == s.received + 1 && InHand(s') == InHand(s) + 1
          && Places(s', r) == Places(s, r) + if r == s.received then 1 else 0)
  {
    hide Sound, Open, Close, Advance, AdvanceJob, Places, InHand;
    match e
    case OpenRequest(id, callid, controller, init) =>
      if s.client.Free? { OpenPlaces(s, id, callid, controller, init, r); }
    case CloseRequest(id, callid) =>
      if s.client.Free? { ClosePlaces(s, id, callid, r); }
    case ClientStep => AdvancePlaces(s, r);
    case _ => JobPlaces(s, e, r);
  }

  lemma StepAccounted(s: System, e: Event)
    requires Sound(s) && Accounted(s)
    ensures Accounted(Step(s, e))
  {
    hide Sound, Step, Places, InHand;
    StepPlaces(s, e, 0);
    forall r: nat ensures Places(Step(s, e), r) == if r < Step(s, e).received then 1 else 0 {
      StepPlaces(s, e, r);
    }
  }

  // ---- over whole runs ----

  ghost predicate Inv(s: System) {
    && Sound(s) && PoolMatches(s) && Counts(s) && OrphansEmpty(s) && Owned(s) && Newest(s) && ServedOwned(s)
    && Accounted(s) && Acknowledged(s)
  }

  lemma StartInv(threads: nat)
    requires threads > 0
    ensures Inv(Start(threads))
  {
  }

  lemma StepInv(s: System, e: Event)
    requires Inv(s)
    ensures Inv(Step(s, e))
  {
    hide Step, Sound, PoolMatches, Counts, OrphansEmpty, Owned, Newest, ServedOwned, Accounted, Acknowledged;
    StepPoolMatches(s, e);
    StepCounts(s, e);
    StepOrphansEmpty(s, e);
    StepOwned(s, e);
    StepNewest(s, e);
    StepServedOwned(s, e);
    StepAccounted(s, e);
    StepAcknowledged(s, e);
  }

  /** The state after a run of events, in any interleaving. */
  ghost function Run(s: System, events: seq<Event>): System
    requires Inv(s)
    decreases |events|
  {
    if events == [] then s
    else
      StepInv(s, events[0]);
      Run(Step(s, events[0]), events[1..])
  }

  lemma {:induction false} RunInv(s: System, events: seq<Event>)
    requires Inv(s)
    ensures Inv(Run(s, events))
    decreases |events|
  {
    hide Step, Sound, PoolMatches, Counts, OrphansEmpty, Owned, Newest, ServedOwned, Accounted, Acknowledged;
    if events != [] {
      StepInv(s, events[0]);
      RunInv(Step(s, events[0]), events[1..]);
    }
  }

  ghost function Reach(threads: nat, events: seq<Event>): System
    requires threads > 0
  {
    StartInv(threads);
    Run(Start(threads), events)
  }

  /** In every run, whenever locker_ is free, the ids held by some pool thread are exactly the
      registered ones, and jobs submitted less devices closed is the number of streams. */
  lemma RegistryTheorem(threads: nat, events: seq<Event>)
    requires threads > 0
    ensures var s := Reach(threads, events);
      s.client.Free? ==>
        (forall id :: Holds(s.pool, id) <==> id in s.streams) && s.submitted - s.closed == |s.streams|
  {
    hide Run, OrphansEmpty, Owned, Newest, ServedOwned, Accounted, Acknowledged;
    StartInv(threads);
    RunInv(Start(threads), events);
  }

  /** In every run no open request is answered twice, requests received are those answered,
      queued, being worked on or in the client's hands, and when nothing is left to do each has
      been answered exactly once. */
  lemma AnswersTheorem(threads: nat, events: seq<Event>, r: nat)
    requires threads > 0
    ensures var s := Reach(threads, events);
      && InReplies(s.replies, r) <= (if r < s.received then 1 else 0)
      && InHand(s) == s.received
      && (s.client.Free? && s.worker.Idle? && s.queue == [] ==>
            InReplies(s.replies, r) == (if r < s.received then 1 else 0) && |s.replies| == s.received)
  {
    hide Run, Sound, PoolMatches, Counts, OrphansEmpty, Owned, Newest, ServedOwned, Acknowledged, InReplies;
    StartInv(threads);
    RunInv(Start(threads), events);
    var s := Reach(threads, events);
    assert Places(s, r) == if r < s.received then 1 else 0;
  }

  /** In every run close requests are acknowledged once each, and those of unknown ids once
      more: acknowledgements made and in hand are the requests plus the unknown ids among them. */
  lemma AcksTheorem(threads: nat, events: seq<Event>)
    requires threads > 0
    ensures var s := Reach(threads, events);
      && s.acks + AcksInHand(s.client) == s.closes + s.strays
      && (s.client.Free? ==> s.acks == s.closes + s.strays)
  {
    hide Run, Sound, PoolMatches, Counts, OrphansEmpty, Owned, Newest, ServedOwned, Accounted;
    StartInv(threads);
    RunInv(Start(threads), events);
  }

  /** In every run a buffer holds at most one sender, that of the call it was made for; buffer_
      of a stream is the newest buffer made for it; threads serve under an id buffers of its
      registered stream only; and a stream object no longer registered has no sub-streams. */
  lemma SendersTheorem(threads: nat, events: seq<Event>)
    requires threads > 0
    ensures var s := Reach(threads, events);
      && Owned(s) && Newest(s) && ServedOwned(s) && OrphansEmpty(s)
      && forall b :: 0 <= b < |s.buffers| ==> |s.buffers[b]| <= 1
  {
    hide Run, Sound, PoolMatches, Counts, OrphansEmpty, Newest, ServedOwned, Accounted, Acknowledged;
    StartInv(threads);
    RunInv(Start(threads), events);
    var s := Reach(threads, events);
    forall b | 0 <= b < |s.buffers| ensures |s.buffers[b]| <= 1 {
      SubsetSize(s.buffers[b], {s.made[b].callid});
    }
  }

  lemma {:induction false} RunConcat(s: System, a: seq<Event>, b: seq<Event>)
    requires Inv(s)
    ensures Inv(Run(s, a)) && Run(s, a + b) == Run(Run(s, a), b)
    decreases |a|
  {
    hide Step, Sound, PoolMatches, Counts, OrphansEmpty, Owned, Newest, ServedOwned, Accounted, Acknowledged;
    if a == [] {
      assert a + b == b;
    } else {
      StepInv(s, a[0]);
      assert (a + b)[1..] == a[1..] + b;
      RunConcat(Step(s, a[0]), a[1..], b);
    }
  }
}
