/** The life of streams as a system of interleaved steps.  A client thread holds locker_ while it
    opens or closes; the message thread runs the open jobs without locker_; either may be
    delayed between any two of its steps. */
module Lifecycle {
  import opened Common
  import opened PoolMap

  type CallId = string

  /** A MediaStream: its sub-streams and buffer_, a reference into System.buffers. */
  datatype Stream = Stream(id: Id, subs: set<CallId>, buffer: Option<nat>)

  /** A queued open job: which request it answers, for which stream object and call. */
  datatype Job = Job(req: nat, stream: nat, callid: CallId)

  /** The message thread between the steps of a job. */
  datatype Worker =
    | Idle
    | Opening(job: Job)             // popped; the device is about to be asked
    | Dropping(job: Job)            // the device failed; the sub-stream is about to be erased
    | Unsending(job: Job)           // erased; its sender is about to be removed
    | Replying(job: Job, ok: bool)  // the callback is about to be made

  /** The thread holding locker_, if any, between its steps. */
  datatype Client =
    | Free
    | Registering(req: nat, stream: nat, callid: CallId)  // new stream has its sub-stream and buffer
    | Answering(req: nat, ok: bool)
    | Unhooking(id: Id, stream: nat, callid: CallId)      // close: sub-stream erased, sender next
    | Deciding(id: Id, stream: nat)                       // needClose next
    | Detaching(id: Id, stream: nat)                      // device closed, removeBuffer next
    | Erasing(id: Id, stream: nat)                        // erase from streams_ next
    | Acking(times: nat)                                  // close callbacks next

  datatype Reply = Reply(req: nat, ok: bool)

  /** The call on whose account a buffer was made. */
  datatype Made = Made(stream: nat, callid: CallId)

  datatype System = System(
    streams: map<Id, nat>,        // streams_: registered stream objects
    objects: seq<Stream>,         // every stream object made
    buffers: seq<set<CallId>>,    // every buffer made: its senders
    pool: Threads,                // buffers_ of each pool thread
    queue: seq<Job>,
    worker: Worker,
    client: Client,
    devices: set<Id>,             // devices open
    received: nat,                // open requests
    replies: seq<Reply>,          // their callbacks, in order
    acks: nat,                    // close callbacks
    submitted: nat,               // open jobs submitted
    closed: nat,                  // device closes
    // The rest is history: nothing in the program reads it.
    made: seq<Made>,              // for which call each buffer was made
    ready: set<nat>,              // stream objects whose device answered yes
    closes: nat,                  // close requests
    strays: nat)                  // those of ids not registered

  datatype Event =
    | OpenRequest(id: Id, callid: CallId, controller: bool, init: bool)
    | CloseRequest(id: Id, callid: CallId)
    | ClientStep
    | JobPop
    | DeviceAnswer(ok: bool)
    | JobStep

  function Start(threads: nat): System {
    System(map[], [], [], Empty(threads), [], Idle, Free, {}, 0, [], 0, 0, 0, [], {}, 0, 0)
  }

  // ---- MediaStream ----

  /** addsubStream on stream object n: a call id already there is refused; otherwise buffer_ is
      replaced by a new buffer, which gets the sender, goes to the pool, and the call id is
      recorded, unless the sender fails to initialise. */
  function AddSub(s: System, n: nat, callid: CallId, init: bool): (System, bool)
    requires n < |s.objects| && |s.pool| > 0
  {
    var o := s.objects[n];
    if callid in o.subs then (s, false)
    else
      var b := |s.buffers|;
      if !init then
        (s.(buffers := s.buffers + [{}], made := s.made + [Made(n, callid)],
            objects := s.objects[n := o.(buffer := Some(b))]),
         false)
      else
        (s.(buffers := s.buffers + [{callid}], made := s.made + [Made(n, callid)],
            objects := s.objects[n := Stream(o.id, o.subs + {callid}, Some(b))],
            pool := Attach(s.pool, o.id, b)),
         true)
  }

  function EraseSub(s: System, n: nat, callid: CallId): System
    requires n < |s.objects|
  {
    s.(objects := s.objects[n := s.objects[n].(subs := s.objects[n].subs - {callid})])
  }

  /** buffer_->removeSender: defined when buffer_ is not null. */
  predicate HasBuffer(s: System, n: nat) {
    n < |s.objects| && s.objects[n].buffer.Some? && s.objects[n].buffer.value < |s.buffers|
  }

  function EraseSender(s: System, n: nat, callid: CallId): System
    requires HasBuffer(s, n)
  {
    var b := s.objects[n].buffer.value;
    s.(buffers := s.buffers[b := s.buffers[b] - {callid}])
  }

  // ---- steps ----

  /** addStream up to the end of addsubStream. */
  function Open(s: System, id: Id, callid: CallId, controller: bool, init: bool): System
    requires s.client.Free? && |s.pool| > 0
    requires id in s.streams ==> s.streams[id] < |s.objects|
  {
    var req := s.received;
    var s1 := s.(received := req + 1);
    if id in s.streams then
      var (s2, ok) := AddSub(s1, s.streams[id], callid, init);
      s2.(client := Answering(req, ok))
    else if !controller then s1.(client := Answering(req, false))
    else
      var n := |s.objects|;
      var (s2, ok) := AddSub(s1.(objects := s.objects + [Stream(id, {}, None)]), n, callid, init);
      s2.(client := if ok then Registering(req, n, callid) else Answering(req, false))
  }

  function Close(s: System, id: Id, callid: CallId): System
    requires s.client.Free?
    requires id in s.streams ==> s.streams[id] < |s.objects|
  {
    var s1 := s.(closes := s.closes + 1);
    if id !in s.streams then s1.(strays := s.strays + 1, client := Acking(2))
    else EraseSub(s1, s.streams[id], callid).(client := Unhooking(id, s.streams[id], callid))
  }

  function Advance(s: System): System
    requires Sound(s)
  {
    match s.client
    case Free => s
    case Registering(req, n, callid) =>
      s.(streams := s.streams[s.objects[n].id := n],
         queue := s.queue + [Job(req, n, callid)],
         submitted := s.submitted + 1,
         client := Free)
    case Answering(req, ok) => s.(replies := s.replies + [Reply(req, ok)], client := Free)
    case Unhooking(id, n, callid) => EraseSender(s, n, callid).(client := Deciding(id, n))
    case Deciding(id, n) =>
      if s.objects[n].subs == {}
      then s.(devices := s.devices - {id}, closed := s.closed + 1, client := Detaching(id, n))
      else s.(client := Acking(1))
    case Detaching(id, n) =>
      s.(pool := Detach(s.pool, id), buffers := Cleared(s.buffers, s.pool, id), client := Erasing(id, n))
    case Erasing(id, n) => s.(streams := s.streams - {id}, client := Acking(1))
    case Acking(n) => s.(acks := s.acks + n, client := Free)
  }

  function AdvanceJob(s: System): System
    requires Sound(s)
  {
    match s.worker
    case Idle => s
    case Opening(_) => s
    case Dropping(job) => EraseSub(s, job.stream, job.callid).(worker := Unsending(job))
    case Unsending(job) => EraseSender(s, job.stream, job.callid).(worker := Replying(job, false))
    case Replying(job, ok) => s.(replies := s.replies + [Reply(job.req, ok)], worker := Idle)
  }

  /** An event that is not enabled leaves the system as it is. */
  function Step(s: System, e: Event): System
    requires Sound(s)
  {
    match e
    case OpenRequest(id, callid, controller, init) =>
      if s.client.Free? then Open(s, id, callid, controller, init) else s
    case CloseRequest(id, callid) => if s.client.Free? then Close(s, id, callid) else s
    case ClientStep => Advance(s)
    case JobPop =>
      if s.worker.Idle? && s.queue != [] then s.(worker := Opening(s.queue[0]), queue := s.queue[1..]) else s
    case DeviceAnswer(ok) =>
      if !s.worker.Opening? then s
      else
        var job := s.worker.job;
        if ok then
          s.(devices := s.devices + {s.objects[job.stream].id}, ready := s.ready + {job.stream},
             worker := Replying(job, true))
        else s.(worker := Dropping(job))
    case JobStep => AdvanceJob(s)
  }

  // ---- what every step keeps ----

  /** References are good: nothing dangles, and no buffer_ that will be used is null. */
  ghost predicate Sound(s: System) {
    && |s.pool| > 0
    && (forall id :: id in s.streams ==> HasBuffer(s, s.streams[id]) && s.objects[s.streams[id]].id == id)
    && (forall i :: 0 <= i < |s.queue| ==> HasBuffer(s, s.queue[i].stream))
    && (!s.worker.Idle? ==> HasBuffer(s, s.worker.job.stream))
    && match s.client
       case Registering(_, n, _) => HasBuffer(s, n) && s.objects[n].id !in s.streams
       case Unhooking(id, n, _) => id in s.streams && s.streams[id] == n
       case Deciding(id, n) => id in s.streams && s.streams[id] == n
       case Detaching(id, n) => id in s.streams && s.streams[id] == n && s.objects[n].subs == {}
       case Erasing(id, n) => id in s.streams && s.streams[id] == n && s.objects[n].subs == {}
       case _ => true
  }

  /** addsubStream leaves good references, for every stream object it can be called on. */
  lemma AddSubSound(s: System, n: nat, callid: CallId, init: bool)
    requires n < |s.objects| && |s.pool| > 0
    ensures var (s', ok) := AddSub(s, n, callid, init);
      && |s'.pool| == |s.pool| && |s'.objects| == |s.objects|
      && (forall k :: HasBuffer(s, k) ==> HasBuffer(s', k))
      && (ok ==> HasBuffer(s', n))
      && (forall k :: 0 <= k < |s.objects| ==> s'.objects[k].id == s.objects[k].id)
      && s' == s.(buffers := s'.buffers, objects := s'.objects, pool := s'.pool, made := s'.made)
  {
    hide Attach;
  }

  lemma OpenSound(s: System, id: Id, callid: CallId, controller: bool, init: bool)
    requires Sound(s) && s.client.Free?
    ensures Sound(Open(s, id, callid, controller, init))
  {
    hide AddSub;
    var s1 := s.(received := s.received + 1);
    assert forall k: nat :: HasBuffer(s, k) ==> HasBuffer(s1, k);
    if id in s.streams {
      AddSubSound(s1, s.streams[id], callid, init);
    } else if controller {
      var s2 := s1.(objects := s.objects + [Stream(id, {}, None)]);
      assert forall k: nat :: HasBuffer(s, k) ==> HasBuffer(s2, k) && s2.objects[k] == s.objects[k];
      AddSubSound(s2, |s.objects|, callid, init);
    }
  }

  lemma CloseSound(s: System, id: Id, callid: CallId)
    requires Sound(s) && s.client.Free?
    ensures Sound(Close(s, id, callid))
  {
  }

  /** Erasing a sub-stream or a sender changes no reference. */
  lemma ErasureKeepsReferences(s: System, n: nat, callid: CallId)
    requires HasBuffer(s, n)
    ensures var s' := EraseSub(s, n, callid);
      && s' == s.(objects := s'.objects) && |s'.objects| == |s.objects|
      && (forall k: nat :: HasBuffer(s', k) <==> HasBuffer(s, k))
      && (forall k :: 0 <= k < |s.objects| ==>
            s'.objects[k].id == s.objects[k].id && s'.objects[k].subs <= s.objects[k].subs)
    ensures var s' := EraseSender(s, n, callid);
      && s' == s.(buffers := s'.buffers)
      && (forall k: nat :: HasBuffer(s', k) <==> HasBuffer(s, k))
  {
  }

  lemma AdvanceJobSound(s: System)
    requires Sound(s)
    ensures Sound(AdvanceJob(s))
  {
    hide EraseSub, EraseSender;
    if !s.worker.Idle? { ErasureKeepsReferences(s, s.worker.job.stream, s.worker.job.callid); }
  }

  lemma JobSound(s: System, e: Event)
    requires Sound(s) && (e.JobPop? || e.DeviceAnswer? || e.JobStep?)
    ensures Sound(Step(s, e))
  {
    hide AdvanceJob;
    if e.JobStep? { AdvanceJobSound(s); }
  }

  lemma AdvanceSound(s: System)
    requires Sound(s)
    ensures Sound(Advance(s))
  {
    hide Detach, Cleared, EraseSender;
    if s.client.Unhooking? { ErasureKeepsReferences(s, s.client.stream, s.client.callid); }
  }

  lemma StepSound(s: System, e: Event)
    requires Sound(s)
    ensures Sound(Step(s, e))
  {
    hide Sound, Open, Close, Advance, AdvanceJob;
    match e
    case OpenRequest(id, callid, controller, init) =>
      if s.client.Free? { OpenSound(s, id, callid, controller, init); }
    case CloseRequest(id, callid) =>
      if s.client.Free? { CloseSound(s, id, callid); }
    case ClientStep => AdvanceSound(s);
    case _ => JobSound(s, e);
  }

  // ---- requests and jobs that nothing interrupts ----

  /** n steps of the thread that holds locker_, with nothing in between. */
  ghost function Advances(s: System, n: nat): (r: System)
    requires Sound(s)
    ensures Sound(r)
    decreases n
  {
    if n == 0 then s
    else
      AdvanceSound(s);
      Advances(Advance(s), n - 1)
  }

  /** addStream in one go, for an unknown id and for any. */
  ghost function OpenedNew(s: System, req: nat, id: Id, callid: CallId, controller: bool, init: bool): System
    requires |s.pool| > 0
  {
    if !controller then s.(replies := s.replies + [Reply(req, false)])
    else
      var n := |s.objects|;
      var (s1, ok) := AddSub(s.(objects := s.objects + [Stream(id, {}, None)]), n, callid, init);
      if !ok then s1.(replies := s1.replies + [Reply(req, false)])
      else s1.(streams := s1.streams[id := n], queue := s1.queue + [Job(req, n, callid)], submitted := s1.submitted + 1)
  }

  ghost function Opened(s: System, id: Id, callid: CallId, controller: bool, init: bool): System
    requires Sound(s)
  {
    var req := s.received;
    var s1 := s.(received := req + 1);
    if id !in s.streams then OpenedNew(s1, req, id, callid, controller, init)
    else
      var (s2, ok) := AddSub(s1, s.streams[id], callid, init);
      s2.(replies := s2.replies + [Reply(req, ok)])
  }

  lemma OpenRuns(s: System, id: Id, callid: CallId, controller: bool, init: bool)
    requires Sound(s) && s.client.Free?
    ensures Sound(Open(s, id, callid, controller, init))
    ensures Advance(Open(s, id, callid, controller, init)) == Opened(s, id, callid, controller, init)
    ensures Sound(Opened(s, id, callid, controller, init))
  {
    hide Sound, AddSub;
    SoundFor(s, id);
    OpenSound(s, id, callid, controller, init);
    AdvanceSound(Open(s, id, callid, controller, init));
    var s1 := s.(received := s.received + 1);
    if id in s.streams {
      AddSubSound(s1, s.streams[id], callid, init);
    } else if controller {
      AddSubSound(s1.(objects := s.objects + [Stream(id, {}, None)]), |s.objects|, callid, init);
    }
  }

  lemma SoundFor(s: System, id: Id)
    requires Sound(s)
    ensures |s.pool| > 0
    ensures id in s.streams ==> HasBuffer(s, s.streams[id]) && s.objects[s.streams[id]].id == id
  {
  }

  /** closeStream in one go, for a known id without the acknowledgement, and for any. */
  ghost function ClosedKnown(s: System, id: Id, callid: CallId): System
    requires id in s.streams && HasBuffer(s, s.streams[id])
  {
    var n := s.streams[id];
    ErasureKeepsReferences(s, n, callid);
    var s1 := EraseSender(EraseSub(s, n, callid), n, callid);
    if s1.objects[n].subs != {} then s1
    else
      s1.(devices := s1.devices - {id}, closed := s1.closed + 1, buffers := Cleared(s1.buffers, s1.pool, id),
          pool := Detach(s1.pool, id), streams := s1.streams - {id})
  }

  ghost function Closed(s: System, id: Id, callid: CallId): System
    requires Sound(s)
  {
    if id !in s.streams then s.(closes := s.closes + 1, strays := s.strays + 1, acks := s.acks + 2)
    else
      var s1 := ClosedKnown(s.(closes := s.closes + 1), id, callid);
      s1.(acks := s1.acks + 1)
  }

  lemma CloseRuns(s: System, id: Id, callid: CallId)
    requires Sound(s) && s.client.Free?
    ensures Sound(Close(s, id, callid))
    ensures Advances(Close(s, id, callid), 5) == Closed(s, id, callid) && Sound(Closed(s, id, callid))
    ensures Closed(s, id, callid).acks == s.acks + if id in s.streams then 1 else 2
  {
    hide Cleared, Detach, Sound;
    SoundFor(s, id);
    CloseSound(s, id, callid);
    FiveSteps(Close(s, id, callid));
    if id in s.streams { ErasureKeepsReferences(s.(closes := s.closes + 1), s.streams[id], callid); }
  }

  lemma FiveSteps(c0: System)
    requires Sound(c0)
    ensures Sound(Advance(c0)) && Sound(Advance(Advance(c0))) && Sound(Advance(Advance(Advance(c0))))
    ensures var c3 := Advance(Advance(Advance(c0)));
      && Sound(Advance(c3)) && Advances(c0, 5) == Advance(Advance(c3)) && Sound(Advances(c0, 5))
  {
    hide Advance, Sound;
    AdvanceSound(c0);
    var c1 := Advance(c0);
    AdvanceSound(c1);
    var c2 := Advance(c1);
    AdvanceSound(c2);
    var c3 := Advance(c2);
    AdvanceSound(c3);
    var c4 := Advance(c3);
    AdvanceSound(c4);
    var c5 := Advance(c4);
    assert Advances(c0, 5) == Advances(c1, 4) == Advances(c2, 3);
    assert Advances(c2, 3) == Advances(c3, 2) == Advances(c4, 1) == Advances(c5, 0) == c5;
  }

  /** closeStream's own removeSender repeats the one in removesubStream. */
  lemma SenderErasedOnce(s: System, n: nat, callid: CallId)
    requires HasBuffer(s, n) && HasBuffer(EraseSub(s, n, callid), n)
    ensures var s1 := EraseSender(EraseSub(s, n, callid), n, callid);
      HasBuffer(s1, n) && EraseSender(s1, n, callid) == s1
  {
    var b := s.objects[n].buffer.value;
    assert (s.buffers[b] - {callid}) - {callid} == s.buffers[b] - {callid};
  }

  /** A job's steps, with nothing in between. */
  ghost function JobRun(s: System, opens: bool): (r: System)
    requires Sound(s) && s.worker.Idle? && s.queue != []
    ensures Sound(r)
  {
    hide Sound, AdvanceJob, Step;
    JobSound(s, JobPop);
    var s1 := Step(s, JobPop);
    JobSound(s1, DeviceAnswer(opens));
    var s2 := Step(s1, DeviceAnswer(opens));
    AdvanceJobSound(s2);
    var s3 := AdvanceJob(s2);
    AdvanceJobSound(s3);
    var s4 := AdvanceJob(s3);
    AdvanceJobSound(s4);
    AdvanceJob(s4)
  }

  lemma JobRuns(s: System, opens: bool)
    requires Sound(s) && s.worker.Idle? && s.queue != []
    ensures var job := s.queue[0];
      && HasBuffer(s, job.stream) && HasBuffer(EraseSub(s.(queue := s.queue[1..]), job.stream, job.callid), job.stream)
      && JobRun(s, opens) ==
         (var s1 := s.(queue := s.queue[1..]);
          if opens then
            s1.(devices := s.devices + {s.objects[job.stream].id}, ready := s.ready + {job.stream},
                replies := s.replies + [Reply(job.req, true)])
          else
            var s2 := EraseSender(EraseSub(s1, job.stream, job.callid), job.stream, job.callid);
            s2.(replies := s2.replies + [Reply(job.req, false)]))
  {
  }
}
