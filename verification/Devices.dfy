/** Which devices are open, and which requests are told so. */
module Devices {
  import opened Lifecycle
  import opened PoolMap
  import opened Runs
  import opened SubStreams

  /** An open job for stream object n has not yet heard from the device. */
  predicate Pending(s: System, n: nat) {
    (exists i :: 0 <= i < |s.queue| && s.queue[i].stream == n) || (s.worker.Opening? && s.worker.job.stream == n)
  }

  predicate Registered(s: System, n: nat) {
    && n < |s.objects|
    && s.objects[n].id in s.streams && s.streams[s.objects[n].id] == n
    && !((s.client.Detaching? || s.client.Erasing?) && s.client.stream == n)
  }

  /** Every device open belongs to a stream that is registered and not being taken down. */
  ghost predicate DevicesOwned(s: System) {
    forall id :: id in s.devices ==> id in s.streams && Registered(s, s.streams[id])
  }

  /** And the device of such a stream is open exactly when its open job has been told so. */
  ghost predicate DevicesMatch(s: System) {
    && (forall n :: n in s.ready ==> n < |s.objects|)
    && (s.client.Registering? ==> s.client.stream !in s.ready)
    && forall id :: DeviceMatches(s, id)
  }

  predicate DeviceMatches(s: System, id: Id) {
    id in s.devices <==> id in s.streams && Registered(s, s.streams[id]) && s.streams[id] in s.ready
  }

  ghost predicate JobsRegistered(s: System) {
    forall n: nat :: Pending(s, n) ==> Registered(s, n)
  }

  /** The step that closes a stream overtakes its own open job. */
  predicate Overtakes(s: System, e: Event)
    requires Sound(s)
  {
    e.ClientStep? && s.client.Deciding? && s.objects[s.client.stream].subs == {} && Pending(s, s.client.stream)
  }

  lemma OpenMatches(s: System, id: Id, callid: CallId, controller: bool, init: bool, x: Id)
    requires Sound(s) && s.client.Free? && DeviceMatches(s, x)
    ensures DeviceMatches(Open(s, id, callid, controller, init), x)
  {
    hide Attach;
  }

  lemma OpenDevices(s: System, id: Id, callid: CallId, controller: bool, init: bool)
    requires Sound(s) && s.client.Free? && DevicesMatch(s) && JobsRegistered(s)
    ensures var s' := Open(s, id, callid, controller, init);
      DevicesMatch(s') && JobsRegistered(s')
  {
    hide Attach, DeviceMatches;
    var s' := Open(s, id, callid, controller, init);
    assert s'.streams == s.streams && s'.ready == s.ready;
    forall x ensures DeviceMatches(s', x) { OpenMatches(s, id, callid, controller, init, x); }
    forall n: nat | n < |s.objects| ensures Registered(s', n) <==> Registered(s, n) {}
    forall n: nat | Pending(s', n) ensures Pending(s, n) {}
  }

  lemma AdvanceMatches(s: System, id: Id)
    requires Sound(s) && DeviceMatches(s, id) && (s.client.Registering? ==> s.client.stream !in s.ready)
    ensures DeviceMatches(Advance(s), id)
  {
    hide Detach, Cleared;
  }

  lemma AdvanceMatch(s: System)
    requires Sound(s) && DevicesMatch(s)
    ensures DevicesMatch(Advance(s))
  {
    assert Advance(s).ready == s.ready && |Advance(s).objects| == |s.objects| && !Advance(s).client.Registering?;
    hide Advance, DeviceMatches, Sound;
    forall id ensures DeviceMatches(Advance(s), id) { AdvanceMatches(s, id); }
  }

  lemma AdvanceDevices(s: System)
    requires Sound(s) && DevicesMatch(s) && JobsRegistered(s) && !Overtakes(s, ClientStep)
    ensures DevicesMatch(Advance(s)) && JobsRegistered(Advance(s))
  {
    AdvanceMatch(s);
    hide Detach, Cleared, EraseSender, DevicesMatch;
    var s' := Advance(s);
    forall n: nat | Pending(s', n) ensures Registered(s', n) {
      if !(s.client.Registering? && n == s.client.stream) {
        PendingBefore(s, n);
        assert Registered(s, n);
      }
    }
  }

  /** The client's steps make no job pending but the one it submits. */
  lemma PendingBefore(s: System, n: nat)
    requires Sound(s) && Pending(Advance(s), n) && !(s.client.Registering? && n == s.client.stream)
    ensures Pending(s, n)
  {
    hide Detach, Cleared;
    var s' := Advance(s);
    if exists i :: 0 <= i < |s'.queue| && s'.queue[i].stream == n {
      var i :| 0 <= i < |s'.queue| && s'.queue[i].stream == n;
      assert i < |s.queue| && s.queue[i].stream == n;
    }
  }

  /** A close request and the message thread's steps change no registration. */
  lemma JobKeepsRegistered(s: System, e: Event, n: nat)
    requires Sound(s) && !e.OpenRequest? && !e.ClientStep?
    ensures Step(s, e).streams == s.streams && (Registered(Step(s, e), n) <==> Registered(s, n))
  {
    hide Open, Advance;
  }

  lemma JobKeepsPending(s: System, e: Event, n: nat)
    requires Sound(s) && !e.OpenRequest? && !e.ClientStep? && Pending(Step(s, e), n)
    ensures Pending(s, n)
  {
    var s' := Step(s, e);
    if exists i :: 0 <= i < |s'.queue| && s'.queue[i].stream == n {
      var i :| 0 <= i < |s'.queue| && s'.queue[i].stream == n;
      assert s'.queue[i] == s.queue[if s'.queue == s.queue then i else i + 1];
    }
  }

  lemma JobMatches(s: System, e: Event, id: Id)
    requires Sound(s) && DeviceMatches(s, id) && JobsRegistered(s)
    requires !e.OpenRequest? && !e.ClientStep?
    ensures DeviceMatches(Step(s, e), id)
  {
    hide Registered;
    if id in s.streams { JobKeepsRegistered(s, e, s.streams[id]); }
    if e.DeviceAnswer? && s.worker.Opening? {
      assert Pending(s, s.worker.job.stream);
      RegisteredIs(s, s.worker.job.stream);
    }
  }

  lemma RegisteredIs(s: System, n: nat)
    requires Registered(s, n)
    ensures n < |s.objects| && s.objects[n].id in s.streams && s.streams[s.objects[n].id] == n
  {
  }

  lemma JobDevices(s: System, e: Event)
    requires Sound(s) && DevicesMatch(s) && JobsRegistered(s)
    requires !e.OpenRequest? && !e.ClientStep?
    ensures DevicesMatch(Step(s, e)) && JobsRegistered(Step(s, e))
  {
    JobBounds(s, e);
    hide Step, DeviceMatches, Registered, Pending, Sound;
    forall id ensures DeviceMatches(Step(s, e), id) { JobMatches(s, e, id); }
    forall n: nat | Pending(Step(s, e), n) ensures Registered(Step(s, e), n) {
      JobKeepsPending(s, e, n);
      JobKeepsRegistered(s, e, n);
    }
  }

  lemma JobBounds(s: System, e: Event)
    requires Sound(s) && DevicesMatch(s) && JobsRegistered(s)
    requires !e.OpenRequest? && !e.ClientStep?
    ensures var s' := Step(s, e);
      && (forall n :: n in s'.ready ==> n < |s'.objects|)
      && (s'.client.Registering? ==> s'.client.stream !in s'.ready)
  {
    hide DeviceMatches;
    if e.DeviceAnswer? && s.worker.Opening? {
      assert Pending(s, s.worker.job.stream);
    }
  }

  lemma StepDevices(s: System, e: Event)
    requires Sound(s) && DevicesMatch(s) && JobsRegistered(s) && !Overtakes(s, e)
    ensures DevicesMatch(Step(s, e)) && JobsRegistered(Step(s, e))
  {
    hide Sound, DevicesMatch, JobsRegistered, Open, Close, Advance, AdvanceJob, Overtakes;
    match e
    case OpenRequest(id, callid, controller, init) =>
      if s.client.Free? { OpenDevices(s, id, callid, controller, init); }
    case ClientStep => AdvanceDevices(s);
    case _ => JobDevices(s, e);
  }

  ghost predicate NoOvertaking(s: System, events: seq<Event>)
    requires Inv(s)
    decreases |events|
  {
    events == [] ||
    (!Overtakes(s, events[0]) && (StepInv(s, events[0]); NoOvertaking(Step(s, events[0]), events[1..])))
  }

  /** In every run in which no close overtakes its stream's open job, the devices open are
      exactly those of the registered streams whose open job has succeeded. */
  lemma {:induction false} DevicesTheorem(s: System, events: seq<Event>)
    requires Inv(s) && DevicesMatch(s) && JobsRegistered(s) && NoOvertaking(s, events)
    ensures DevicesMatch(Run(s, events)) && DevicesOwned(Run(s, events))
    decreases |events|
  {
    hide Step, DevicesMatch, DevicesOwned, JobsRegistered, PoolMatches, Counts, OrphansEmpty, Owned, Newest,
      ServedOwned,
      Accounted, Acknowledged;
    if events != [] {
      StepInv(s, events[0]);
      StepDevices(s, events[0]);
      DevicesTheorem(Step(s, events[0]), events[1..]);
    } else {
      MatchIsOwned(s);
    }
  }

  lemma MatchIsOwned(s: System)
    requires DevicesMatch(s)
    ensures DevicesOwned(s)
  {
    assert forall id :: id in s.devices ==> DeviceMatches(s, id);
  }

  /** The message thread's next step, when every device opens. */
  function JobEvent(s: System): Event {
    match s.worker
    case Idle => JobPop
    case Opening(_) => DeviceAnswer(true)
    case _ => JobStep
  }

  function JobRank(w: Worker): nat {
    match w
    case Idle => 0
    case Replying(_, _) => 1
    case Unsending(_) => 2
    case Dropping(_) => 3
    case Opening(_) => 4
  }

  /** An open job pending for a stream no longer registered ends in a device open that no stream
      owns, if the message thread goes on and devices open. */
  lemma PendingLeaks(s: System, n: nat) returns (events: seq<Event>)
    requires Inv(s) && n < |s.objects| && s.objects[n].id !in s.streams && Pending(s, n)
    ensures !DevicesOwned(Run(s, events))
    decreases |s.queue|, JobRank(s.worker)
  {
    hide PoolMatches, Counts, OrphansEmpty, Owned, Newest, ServedOwned, Accounted, Acknowledged, EraseSub, EraseSender,
      Registered;
    var e := JobEvent(s);
    StepInv(s, e);
    var s' := Step(s, e);
    if s.worker.Opening? && s.worker.job.stream == n {
      events := [e];
      assert Run(s, events) == Run(s', []) == s';
      assert s.objects[n].id in s'.devices;
    } else {
      PendingAfter(s, n);
      var rest := PendingLeaks(s', n);
      events := [e] + rest;
      assert events[0] == e && events[1..] == rest;
    }
  }

  lemma PendingAfter(s: System, n: nat)
    requires Sound(s) && n < |s.objects| && Pending(s, n) && !(s.worker.Opening? && s.worker.job.stream == n)
    ensures var s' := Step(s, JobEvent(s));
      && Pending(s', n) && |s'.objects| == |s.objects| && s'.objects[n].id == s.objects[n].id
      && s'.streams == s.streams
      && (|s'.queue| < |s.queue| || (s'.queue == s.queue && JobRank(s'.worker) < JobRank(s.worker)))
  {
    hide EraseSub, EraseSender;
    if !s.worker.Idle? { ErasureKeepsReferences(s, s.worker.job.stream, s.worker.job.callid); }
    var s' := Step(s, JobEvent(s));
    var i :| 0 <= i < |s.queue| && s.queue[i].stream == n;
    if s.worker.Idle? && i > 0 {
      assert s'.queue[i - 1] == s.queue[i];
    } else if !s.worker.Idle? {
      assert s'.queue[i] == s.queue[i];
    }
  }

  /** A close that overtakes an open job: the close completes, then the job is run. */
  lemma OvertakingLeaksNow(s: System) returns (events: seq<Event>)
    requires Inv(s) && Overtakes(s, ClientStep)
    ensures !DevicesOwned(Run(s, events))
  {
    hide Detach, Cleared, PoolMatches, Counts, OrphansEmpty, Owned, Newest, ServedOwned, Accounted, Acknowledged,
      Registered;
    var n := s.client.stream;
    ClosingId(s);
    StepInv(s, ClientStep);
    var s1 := Advance(s);
    StepInv(s1, ClientStep);
    var s2 := Advance(s1);
    StepInv(s2, ClientStep);
    var s3 := Advance(s2);
    assert s3.queue == s.queue && s3.worker == s.worker && s3.objects == s.objects;
    var rest := PendingLeaks(s3, n);
    var e := ClientStep;
    var rest1 := [e] + rest;
    var rest2 := [e] + rest1;
    events := [e] + rest2;
    assert rest1[1..] == rest && rest2[1..] == rest1 && events[1..] == rest2;
    assert Run(s2, rest1) == Run(s3, rest);
    assert Run(s1, rest2) == Run(s2, rest1);
    assert Run(s, events) == Run(s1, rest2);
  }

  /** So the condition is exact: a run in which some close overtakes its stream's open job can,
      from there, go on to leave a device open that no registered stream owns. */
  lemma {:induction false} OvertakingLeaks(s: System, events: seq<Event>) returns (k: nat, more: seq<Event>)
    requires Inv(s) && !NoOvertaking(s, events)
    ensures k <= |events| && !DevicesOwned(Run(s, events[..k] + more))
    decreases |events|
  {
    hide Step, PoolMatches, Counts, OrphansEmpty, Owned, Newest, ServedOwned, Accounted, Acknowledged, DevicesOwned;
    if Overtakes(s, events[0]) {
      k := 0;
      more := OvertakingLeaksNow(s);
      assert events[..0] + more == more;
    } else {
      StepInv(s, events[0]);
      k, more := OvertakingLeaks(Step(s, events[0]), events[1..]);
      k := k + 1;
      assert (events[..k] + more)[1..] == events[1..][..k - 1] + more;
    }
  }

  /** And such runs exist, with any number of threads: open a camera, close it at once. */
  lemma OvertakingHappens(threads: nat)
    requires threads > 0
    ensures Inv(Start(threads))
    ensures !NoOvertaking(Start(threads), QUICK_CLOSE)
  {
    hide PoolMatches, Counts, OrphansEmpty, Owned, Newest, ServedOwned, Accounted, Acknowledged, Attach;
    StartInv(threads);
    var s := Start(threads);
    StepInv(s, QUICK_CLOSE[0]);
    var s1 := Step(s, QUICK_CLOSE[0]);
    assert s1.client == Registering(0, 0, "call");
    StepInv(s1, ClientStep);
    var s2 := Step(s1, ClientStep);
    assert s2.queue[0].stream == 0 && s2.streams["cam"] == 0;
    StepInv(s2, QUICK_CLOSE[2]);
    var s3 := Step(s2, QUICK_CLOSE[2]);
    StepInv(s3, ClientStep);
    var s4 := Step(s3, ClientStep);
    assert s4.queue[0].stream == 0;
    assert Overtakes(s4, QUICK_CLOSE[4]);
    assert QUICK_CLOSE[1..][1..][1..][1..] == [ClientStep];
    assert !NoOvertaking(s4, [ClientStep]);
    assert !NoOvertaking(s3, QUICK_CLOSE[1..][1..][1..]);
    assert !NoOvertaking(s2, QUICK_CLOSE[1..][1..]);
    assert !NoOvertaking(s1, QUICK_CLOSE[1..]);
  }

  const QUICK_CLOSE: seq<Event> :=
    [OpenRequest("cam", "call", true, true), ClientStep, CloseRequest("cam", "call"), ClientStep, ClientStep]

  lemma ClosingId(s: System)
    requires Sound(s) && s.client.Deciding?
    ensures s.client.stream < |s.objects| && s.objects[s.client.stream].id == s.client.id
  {
  }

  // ---- what a positive answer says of the device ----

  /** A new sub-stream of a registered stream is answered with success at once, without a look at
      the device: the device is open then exactly when the stream's own open job has succeeded. */
  lemma AnswerAndDevice(s: System, id: Id, callid: CallId, controller: bool)
    requires Inv(s) && s.client.Free? && DevicesMatch(s)
    requires id in s.streams && callid !in s.objects[s.streams[id]].subs
    ensures var s' := Opened(s, id, callid, controller, true);
      && s'.replies == s.replies + [Reply(s.received, true)]
      && (id in s'.devices <==> s.streams[id] in s.ready)
  {
    assert DeviceMatches(s, id);
    hide Attach, PoolMatches, Counts, OrphansEmpty, Owned, Newest, ServedOwned, Accounted, Acknowledged;
  }

  /** It need not be: the second call of a camera whose device has not been asked yet, or has
      failed to open, is told that it is open. */
  lemma AnsweredWithoutDevice(k: nat, id: Id, c: CallId, d: CallId)
    requires k > 0 && c != d
    ensures var s := Reach(k, Opens(id, [c, d]));
      Reply(1, true) in s.replies && id !in s.devices
    ensures var s := Reach(k, Opens(id, [c]));
      && Inv(s) && s.client.Free? && s.worker.Idle? && s.queue != []
      && var s1 := JobRun(s, false);
      && Reply(0, false) in s1.replies && id in s1.streams
      && var s2 := Opened(s1, id, d, true, true);
      Reply(1, true) in s2.replies && id !in s2.devices
  {
    hide Run, Opens, Attach, AlonePool, PoolMatches, Counts, OrphansEmpty, Owned, Newest, ServedOwned, Accounted,
      Acknowledged;
    AloneRun(k, id, [c, d]);
    assert Alone(k, id, [c, d]).replies[0] == Reply(1, true);
    AloneRun(k, id, [c]);
    var s := Alone(k, id, [c]);
    JobRuns(s, false);
    var s1 := JobRun(s, false);
    assert s1.replies[0] == Reply(0, false) && s1.streams == map[id := 0] && s1.devices == {};
    assert s1.objects[0].subs == {} && s1.received == 1;
    var s2 := Opened(s1, id, d, true, true);
    assert s2.replies == s1.replies + [Reply(1, true)] && s2.devices == {};
    assert s2.replies[1] == Reply(1, true);
  }
}
