/** What requests are answered and what they change, stated apart from the steps that do it:
    by which ids and calls are registered, and by which events of a run go before. */
module Answers {
  import opened Common
  import opened Lifecycle
  import opened PoolMap
  import opened Runs

  // ---- one request that nothing interrupts ----

  /** The calls that have a sub-stream under id. */
  function CallsUnder(s: System, id: Id): set<CallId>
    requires Sound(s) && id in s.streams
  {
    s.objects[s.streams[id]].subs
  }

  /** A further call of a stream that is there: told at once, and of success. */
  ghost predicate Granted(s: System, id: Id, callid: CallId, init: bool)
    requires Sound(s)
  {
    id in s.streams && callid !in CallsUnder(s, id) && init
  }

  /** Told at once, and of failure. */
  ghost predicate Refused(s: System, id: Id, callid: CallId, controller: bool, init: bool)
    requires Sound(s)
  {
    || (id in s.streams && (callid in CallsUnder(s, id) || !init))
    || (id !in s.streams && (!controller || !init))
  }

  /** What an open request is told before locker_ is released: success exactly when it is
      granted, failure exactly when it is refused, and otherwise nothing yet, with one job of
      its own, for a new stream of its id. */
  lemma OpenAnswers(s: System, id: Id, callid: CallId, controller: bool, init: bool)
    requires Sound(s) && s.client.Free?
    ensures var s', req := Opened(s, id, callid, controller, init), s.received;
      && s'.received == req + 1
      && (s'.replies == s.replies + [Reply(req, true)] <==> Granted(s, id, callid, init))
      && (s'.replies == s.replies + [Reply(req, false)] <==> Refused(s, id, callid, controller, init))
      && (s'.replies == s.replies <==> id !in s.streams && controller && init)
      && (s'.replies != s.replies ==> s'.queue == s.queue && s'.streams == s.streams && s'.submitted == s.submitted)
      && (s'.replies == s.replies ==>
            && |s'.queue| == |s.queue| + 1 && s'.queue[..|s.queue|] == s.queue && s'.submitted == s.submitted + 1
            && s'.queue[|s.queue|] == Job(req, s'.streams[id], callid) && s'.streams == s.streams[id := s'.streams[id]])
  {
    hide Attach;
    AnswersDiffer(s.replies, s.received);
  }

  lemma AnswersDiffer(replies: seq<Reply>, req: nat)
    ensures replies + [Reply(req, true)] != replies && replies + [Reply(req, false)] != replies
    ensures replies + [Reply(req, true)] != replies + [Reply(req, false)]
  {
    assert (replies + [Reply(req, true)])[|replies|] != (replies + [Reply(req, false)])[|replies|];
  }

  /** What a granted request changes: the call is recorded, and buffer_ is a new buffer with the
      sender of this call alone, given to the pool.  A refused call of a stream already there
      changes nothing but the answer, and a sender that fails leaves an empty buffer_. */
  lemma OpenEffects(s: System, id: Id, callid: CallId, controller: bool, init: bool)
    requires Sound(s) && s.client.Free? && id in s.streams
    ensures Sound(Opened(s, id, callid, controller, init))
    ensures var s', n, b := Opened(s, id, callid, controller, init), s.streams[id], |s.buffers|;
      && |s'.objects| == |s.objects| && s'.objects[n].id == id && s'.devices == s.devices
      && (forall k :: 0 <= k < |s.objects| && k != n ==> s'.objects[k] == s.objects[k])
      && CallsUnder(s', id) == CallsUnder(s, id) + (if Granted(s, id, callid, init) then {callid} else {})
      && (callid in CallsUnder(s, id) ==>
            s'.buffers == s.buffers && s'.objects == s.objects && s'.pool == s.pool && s'.made == s.made)
      && (callid !in CallsUnder(s, id) ==>
            && s'.buffers == s.buffers + [if init then {callid} else {}] && s'.objects[n].buffer == Some(b)
            && s'.made == s.made + [Made(n, callid)]
            && s'.pool == if init then Attach(s.pool, id, b) else s.pool)
  {
    hide Attach, Sound;
    SoundFor(s, id);
    OpenRuns(s, id, callid, controller, init);
  }

  /** The first call of an id: nothing without a controller, an unregistered object with an empty
      buffer where the sender fails, and otherwise a registered stream of this call alone, its
      device not asked yet. */
  lemma FirstOpenEffects(s: System, id: Id, callid: CallId, controller: bool, init: bool)
    requires Sound(s) && s.client.Free? && id !in s.streams
    ensures var s', n, b := Opened(s, id, callid, controller, init), |s.objects|, |s.buffers|;
      && s'.devices == s.devices && s'.ready == s.ready
      && (!controller ==> s' == s.(received := s'.received, replies := s'.replies))
      && (controller ==> s'.buffers == s.buffers + [if init then {callid} else {}])
      && (controller ==> s'.made == s.made + [Made(n, callid)])
      && (controller ==> s'.objects == s.objects + [Stream(id, if init then {callid} else {}, Some(b))])
      && (controller && init ==> s'.streams == s.streams[id := n] && s'.pool == Attach(s.pool, id, b))
      && (controller && !init ==> s'.streams == s.streams && s'.pool == s.pool)
  {
    hide Attach;
    var n, o := |s.objects|, Stream(id, if init then {callid} else {}, Some(|s.buffers|));
    assert (s.objects + [Stream(id, {}, None)])[n := o] == s.objects + [o];
    var none: set<CallId> := {};
    assert none + {callid} == {callid};
  }

  /** What a close leaves: the call has no sub-stream, the stream stays registered exactly while
      another call has one, and with the last of them go its device and its buffers' senders and
      places in the pool.  Nothing of any other id changes. */
  lemma CloseEffects(s: System, id: Id, callid: CallId)
    requires Sound(s) && s.client.Free? && id in s.streams
    ensures var s', n, left := Closed(s, id, callid), s.streams[id], CallsUnder(s, id) - {callid};
      && |s'.objects| == |s.objects| && s'.objects[n].id == id && s'.objects[n].subs == left
      && s'.objects[n].buffer == s.objects[n].buffer
      && (forall k :: 0 <= k < |s.objects| && k != n ==> s'.objects[k] == s.objects[k])
      && s'.streams == (if left == {} then s.streams - {id} else s.streams)
      && s'.devices == (if left == {} then s.devices - {id} else s.devices)
      && s'.closed == (if left == {} then s.closed + 1 else s.closed)
      && s'.replies == s.replies && s'.queue == s.queue && s'.received == s.received && s'.acks == s.acks + 1
  {
    hide Sound, Detach, Cleared, Serves;
    SoundFor(s, id);
  }

  lemma CloseBuffers(s: System, id: Id, callid: CallId, x: Id, b: nat)
    requires Sound(s) && s.client.Free? && id in s.streams && b < |s.buffers|
    ensures var s', left := Closed(s, id, callid), CallsUnder(s, id) - {callid};
      && |s'.buffers| == |s.buffers|
      && (Serves(s'.pool, x, b) <==> Serves(s.pool, x, b) && (x == id ==> left != {}))
      && s'.buffers[b] == if left == {} && Serves(s.pool, id, b) then {}
                          else if s.objects[s.streams[id]].buffer == Some(b) then s.buffers[b] - {callid}
                          else s.buffers[b]
  {
    hide Sound, Detach, Serves;
    SoundFor(s, id);
    DetachServes(s.pool, id, x, b);
  }

  /** An id that is not registered: nothing changes but the two acknowledgements. */
  lemma CloseUnknown(s: System, id: Id, callid: CallId)
    requires Sound(s) && s.client.Free? && id !in s.streams
    ensures Closed(s, id, callid) == s.(acks := s.acks + 2, closes := s.closes + 1, strays := s.strays + 1)
  {
  }

  /** What a job leaves: an answer that is the device's, and where the device failed no
      sub-stream and no sender in buffer_ for its call. */
  lemma JobEffects(s: System, opens: bool)
    requires Sound(s) && s.worker.Idle? && s.queue != []
    ensures var s', job := JobRun(s, opens), s.queue[0];
      && s'.replies == s.replies + [Reply(job.req, opens)] && s'.queue == s.queue[1..] && s'.streams == s.streams
      && |s'.objects| == |s.objects| && |s'.buffers| == |s.buffers| && job.stream < |s.objects|
      && s'.devices == (if opens then s.devices + {s.objects[job.stream].id} else s.devices)
      && s'.objects[job.stream].subs == (if opens then s.objects[job.stream].subs
                                         else s.objects[job.stream].subs - {job.callid})
      && (forall k :: 0 <= k < |s.objects| && k != job.stream ==> s'.objects[k] == s.objects[k])
      && (forall b :: 0 <= b < |s.buffers| ==>
            s'.buffers[b] == if !opens && s.objects[job.stream].buffer == Some(b) then s.buffers[b] - {job.callid}
                             else s.buffers[b])
  {
    hide Sound;
    JobRuns(s, opens);
  }

  // ---- over runs ----

  /** Request r has been, or is about to be, told ok. */
  predicate Promised(s: System, r: nat, ok: bool) {
    || Reply(r, ok) in s.replies
    || s.client == Answering(r, ok)
    || (s.worker.Replying? && s.worker.job.req == r && s.worker.ok == ok)
    || ((s.worker.Dropping? || s.worker.Unsending?) && s.worker.job.req == r && !ok)
  }

  /** Event e, in state s, decides that request r is told ok: its own opening request is granted
      or refused there, or the device answers its own job. */
  ghost predicate Decides(s: System, e: Event, r: nat, ok: bool)
    requires Sound(s)
  {
    match e
    case OpenRequest(id, callid, controller, init) =>
      s.client.Free? && s.received == r
      && if ok then Granted(s, id, callid, init) else Refused(s, id, callid, controller, init)
    case DeviceAnswer(answer) => s.worker.Opening? && s.worker.job.req == r && answer == ok
    case _ => false
  }

  /** Some event of the run decides that request r is told ok. */
  ghost predicate Decided(s: System, events: seq<Event>, r: nat, ok: bool)
    requires Inv(s)
  {
    exists i :: 0 <= i < |events| && DecidedAt(s, events, i, r, ok)
  }

  ghost predicate DecidedAt(s: System, events: seq<Event>, i: nat, r: nat, ok: bool)
    requires Inv(s) && i < |events|
  {
    RunInv(s, events[..i]);
    Decides(Run(s, events[..i]), events[i], r, ok)
  }

  lemma OpenPromises(s: System, e: Event, r: nat, ok: bool)
    requires Sound(s) && e.OpenRequest? && s.client.Free?
    ensures Promised(Step(s, e), r, ok) <==> Promised(s, r, ok) || Decides(s, e, r, ok)
  {
    hide Attach;
  }

  lemma AdvancePromises(s: System, r: nat, ok: bool)
    requires Sound(s)
    ensures Promised(Advance(s), r, ok) <==> Promised(s, r, ok)
  {
    hide Attach, Detach, Cleared, Serves, Sound;
    AdvanceSound(s);
  }

  lemma JobPromises(s: System, e: Event, r: nat, ok: bool)
    requires Sound(s) && (e.JobPop? || e.DeviceAnswer? || e.JobStep?)
    ensures Promised(Step(s, e), r, ok) <==> Promised(s, r, ok) || Decides(s, e, r, ok)
  {
  }

  lemma StepPromises(s: System, e: Event, r: nat, ok: bool)
    requires Sound(s)
    ensures Promised(Step(s, e), r, ok) <==> Promised(s, r, ok) || Decides(s, e, r, ok)
  {
    hide Sound, Open, Advance, AdvanceJob;
    match e
    case OpenRequest(_, _, _, _) => if s.client.Free? { OpenPromises(s, e, r, ok); }
    case CloseRequest(_, _) =>
    case ClientStep => AdvancePromises(s, r, ok);
    case _ => JobPromises(s, e, r, ok);
  }

  lemma InvSound(s: System)
    requires Inv(s)
    ensures Sound(s)
  {
  }

  lemma DecidedShift(s: System, events: seq<Event>, i: nat, r: nat, ok: bool)
    requires Inv(s) && i < |events| - 1 && Inv(Step(s, events[0]))
    ensures DecidedAt(s, events, i + 1, r, ok) <==> DecidedAt(Step(s, events[0]), events[1..], i, r, ok)
  {
    hide Inv, Step, Decides;
    InvSound(s);
    var e := events[..i + 1];
    assert e[0] == events[0] && e[1..] == events[1..][..i];
    assert Run(s, e) == Run(Step(s, events[0]), events[1..][..i]);
  }

  /** A run decides by its first event or by the rest of it. */
  lemma DecidedFirst(s: System, events: seq<Event>, r: nat, ok: bool)
    requires Inv(s) && events != [] && Inv(Step(s, events[0]))
    ensures Decided(s, events, r, ok) <==>
      Decides(s, events[0], r, ok) || Decided(Step(s, events[0]), events[1..], r, ok)
  {
    hide Inv, Step, Decides, DecidedAt;
    InvSound(s);
    var s1 := Step(s, events[0]);
    DecidedNow(s, events, r, ok);
    if Decided(s, events, r, ok) {
      var i :| 0 <= i < |events| && DecidedAt(s, events, i, r, ok);
      if i > 0 {
        DecidedShift(s, events, i - 1, r, ok);
      }
    }
    if Decided(s1, events[1..], r, ok) {
      var i :| 0 <= i < |events[1..]| && DecidedAt(s1, events[1..], i, r, ok);
      DecidedShift(s, events, i, r, ok);
    }
  }

  lemma DecidedNow(s: System, events: seq<Event>, r: nat, ok: bool)
    requires Inv(s) && events != []
    ensures DecidedAt(s, events, 0, r, ok) <==> Decides(s, events[0], r, ok)
  {
    hide Inv, Step, Decides;
    InvSound(s);
    assert events[..0] == [];
  }

  lemma {:induction false} RunPromises(s: System, events: seq<Event>, r: nat, ok: bool)
    requires Inv(s)
    ensures Inv(Run(s, events))
    ensures Promised(Run(s, events), r, ok) <==> Promised(s, r, ok) || Decided(s, events, r, ok)
    decreases |events|
  {
    hide Step, Promised, Decides, Decided, PoolMatches, Counts, OrphansEmpty, Owned, Newest, ServedOwned, Accounted,
      Acknowledged, Sound;
    if events != [] {
      StepInv(s, events[0]);
      StepPromises(s, events[0], r, ok);
      RunPromises(Step(s, events[0]), events[1..], r, ok);
      DecidedFirst(s, events, r, ok);
    } else {
      NothingDecided(s, r, ok);
    }
  }

  lemma NothingDecided(s: System, r: nat, ok: bool)
    requires Inv(s)
    ensures !Decided(s, [], r, ok)
  {
  }

  /** In every run a request is told of success only when it was granted as a further call or its
      own job's device opened, and of failure only when it was refused or that device failed; and
      each answer so decided has been given whenever no thread is at work. */
  lemma AnswersAreTrue(threads: nat, events: seq<Event>, r: nat, ok: bool)
    requires threads > 0
    ensures Inv(Start(threads))
    ensures var s := Reach(threads, events);
      && (Promised(s, r, ok) <==> Decided(Start(threads), events, r, ok))
      && (Reply(r, ok) in s.replies ==> Decided(Start(threads), events, r, ok))
      && (s.client.Free? && s.worker.Idle? ==>
            (Reply(r, ok) in s.replies <==> Decided(Start(threads), events, r, ok)))
  {
    hide Run, Decided, Sound, PoolMatches, Counts, OrphansEmpty, Owned, Newest, ServedOwned, Accounted, Acknowledged;
    StartInv(threads);
    RunPromises(Start(threads), events, r, ok);
  }
}
