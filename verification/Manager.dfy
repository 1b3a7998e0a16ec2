/** StreamManager and MediaStream as objects, over the pool, threads, buffers and senders of the
    other files.  Each critical section of locker_, and each job, is proved to take the system's
    value to where the uninterrupted steps of Lifecycle take it. */
module Manager {
  import Balance
  import opened Common
  import Delivery
  import opened Lifecycle
  import opened Pool
  import opened PoolMap

  class MediaStream {
    const id: Id
    const pool: ThreadPool
    var subs: set<CallId>
    var buffer: Delivery.Buffer?
    /** The number under which the step system knows this stream. */
    ghost const serial: nat

    constructor (i: Id, p: ThreadPool, ghost number: nat)
      ensures id == i && pool == p && serial == number && subs == {} && buffer == null
    {
      id, pool, serial, subs, buffer := i, p, number, {}, null;
    }

    /** A call id already there is refused; otherwise buffer_ is replaced by a new buffer, which
        gets the sender and goes to the pool unless the sender fails to initialise. */
    method AddSubStream(callid: CallId, init: bool, ghost number: nat) returns (ok: bool)
      requires pool.Valid() && |pool.threads| > 0
      modifies this, pool.threads
      ensures ok == (callid !in old(subs) && init)
      ensures subs == if ok then old(subs) + {callid} else old(subs)
      ensures callid in old(subs) ==> buffer == old(buffer)
      ensures callid !in old(subs) ==>
        fresh(buffer) && buffer.serial == number && buffer.senders.Keys == if init then {callid} else {}
      ensures pool.View() == if ok then Attach(old(pool.View()), id, number) else old(pool.View())
      ensures forall i :: 0 <= i < |pool.threads| ==>
        || pool.threads[i].buffers == old(pool.threads[i].buffers)
        || (ok && pool.threads[i].buffers == old(pool.threads[i].buffers)[id := buffer])
    {
      hide Attach, LeastLoaded, Sizes, Balance.Spread, ThreadPool.View, ThreadPool.Valid;
      if callid in subs { return false; }
      var b := new Delivery.Buffer(number);
      buffer := b;
      var sender := new Delivery.RtpSender();
      if !init { return false; }
      b.AddSender(callid, sender);
      pool.AttachBuffer(id, b);
      subs := subs + {callid};
      return true;
    }

    method RemoveSubStream(callid: CallId)
      requires buffer != null
      modifies this`subs, buffer`senders
      ensures subs == old(subs) - {callid} && buffer.senders == old(buffer.senders) - {callid}
    {
      subs := subs - {callid};
      buffer.RemoveSender(callid);
    }

    method NeedClose() returns (close: bool)
      ensures close <==> subs == {}
    {
      close := subs == {};
    }
  }

  /** What the lambda given to the message thread has captured. */
  datatype OpenJob = OpenJob(req: nat, stream: MediaStream, callid: CallId)

  // ---- the objects as values ----

  ghost function StreamOf(o: MediaStream): Stream
    reads o
  {
    Stream(o.id, o.subs, if o.buffer == null then None else Some(o.buffer.serial))
  }

  ghost function StreamsOf(objects: seq<MediaStream>): (v: seq<Stream>)
    reads objects
    ensures |v| == |objects| && forall i :: 0 <= i < |v| ==> v[i] == StreamOf(objects[i])
  {
    seq(|objects|, i requires 0 <= i < |objects| reads objects => StreamOf(objects[i]))
  }

  /** Whose senders each buffer has. */
  ghost function CallsOf(buffers: seq<Delivery.Buffer>): (v: seq<set<CallId>>)
    reads buffers
    ensures |v| == |buffers| && forall i :: 0 <= i < |v| ==> v[i] == buffers[i].senders.Keys
  {
    seq(|buffers|, i requires 0 <= i < |buffers| reads buffers => buffers[i].senders.Keys)
  }

  ghost function NumbersOf(streams: map<Id, MediaStream>): map<Id, nat> {
    map id | id in streams :: streams[id].serial
  }

  ghost function JobsOf(queue: seq<OpenJob>): (v: seq<Job>)
    ensures |v| == |queue|
    ensures forall i :: 0 <= i < |v| ==> v[i] == Job(queue[i].req, queue[i].stream.serial, queue[i].callid)
  {
    seq(|queue|, i requires 0 <= i < |queue| => Job(queue[i].req, queue[i].stream.serial, queue[i].callid))
  }

  /** The buffers the pool holds under an id, as objects and by number. */
  datatype Holding = Holding(held: set<Delivery.Buffer>, pool: Threads, id: Id)

  class StreamManager {
    const pool: ThreadPool
    var streams: map<Id, MediaStream>
    var queue: seq<OpenJob>
    /** The outside world: which devices are open, and the callbacks made. */
    var devices: set<Id>
    var received: nat
    var replies: seq<Reply>
    var acks: nat
    /** Every stream and buffer made, by number, and the history Lifecycle keeps. */
    ghost var objects: seq<MediaStream>
    ghost var buffers: seq<Delivery.Buffer>
    ghost var made: seq<Made>
    ghost var ready: set<nat>
    ghost var submitted: nat
    ghost var closed: nat
    ghost var closes: nat
    ghost var strays: nat

    ghost predicate KnownBuffer(b: Delivery.Buffer)
      reads this`buffers
    {
      b.serial < |buffers| && buffers[b.serial] == b
    }

    ghost predicate KnownStream(o: MediaStream)
      reads this`objects
    {
      o.serial < |objects| && objects[o.serial] == o
    }

    /** Streams and buffers have their numbers. */
    ghost predicate Numbered()
      reads this`objects, this`buffers
    {
      && (forall i :: 0 <= i < |objects| ==> objects[i].serial == i && objects[i].pool == pool)
      && (forall i :: 0 <= i < |buffers| ==> buffers[i].serial == i)
    }

    ghost predicate ThreadKnown(t: ThreadWrapper)
      reads this`buffers, t
    {
      forall id :: id in t.buffers ==> KnownBuffer(t.buffers[id])
    }

    /** Streams and threads refer to known buffers. */
    ghost predicate BuffersKnown()
      reads this`objects, this`buffers, objects, pool.threads
    {
      && (forall i :: 0 <= i < |objects| ==> objects[i].buffer == null || KnownBuffer(objects[i].buffer))
      && (forall i :: 0 <= i < |pool.threads| ==> ThreadKnown(pool.threads[i]))
    }

    /** The registry and the jobs refer to known streams. */
    ghost predicate StreamsKnown()
      reads this`objects, this`streams, this`queue
    {
      && (forall id :: id in streams ==> KnownStream(streams[id]))
      && (forall i :: 0 <= i < |queue| ==> KnownStream(queue[i].stream))
    }

    ghost predicate Valid()
      reads this, objects, pool.threads
    {
      pool.Valid() && |pool.threads| > 0 && Numbered() && BuffersKnown() && StreamsKnown()
    }

    // ---- the value of the system ----

    /** The system as it is while no thread holds locker_ and no job is under way. */
    ghost function View(): System
      reads this, objects, buffers, pool.threads
    {
      System(NumbersOf(streams), StreamsOf(objects), CallsOf(buffers), pool.View(), JobsOf(queue), Idle, Free, devices,
             received, replies, acks, submitted, closed, made, ready, closes, strays)
    }

    constructor (threads: nat)
      requires threads > 0
      ensures Valid() && View() == Start(threads) && Sound(View())
    {
      pool := new ThreadPool(threads);
      streams, queue, devices, received, replies, acks := map[], [], {}, 0, [], 0;
      objects, buffers, made, ready, submitted, closed, closes, strays := [], [], [], {}, 0, 0, 0, 0;
    }

    // ---- what happens on one stream ----

    /** With a new buffer numbered, and given at most to one stream and to threads, all buffers
        are still known. */
    twostate lemma BufferAdded(id: Id, new b: Delivery.Buffer)
      requires old(Numbered() && BuffersKnown())
      requires objects == old(objects) && buffers == old(buffers) + [b] && b.serial == |old(buffers)|
      requires forall i :: 0 <= i < |objects| ==> objects[i].buffer == old(objects[i].buffer) || objects[i].buffer == b
      requires forall i :: 0 <= i < |pool.threads| ==>
        || pool.threads[i].buffers == old(pool.threads[i].buffers)
        || pool.threads[i].buffers == old(pool.threads[i].buffers)[id := b]
      ensures Numbered() && BuffersKnown()
    {
      forall i | 0 <= i < |pool.threads| ensures ThreadKnown(pool.threads[i]) {
        assert old(ThreadKnown(pool.threads[i]));
      }
    }

    twostate lemma BuffersKept()
      requires old(Numbered() && BuffersKnown()) && objects == old(objects) && buffers == old(buffers)
      requires forall i :: 0 <= i < |objects| ==> objects[i].buffer == old(objects[i].buffer)
      requires forall i :: 0 <= i < |pool.threads| ==>
        forall id :: id in pool.threads[i].buffers ==>
          id in old(pool.threads[i].buffers) && pool.threads[i].buffers[id] == old(pool.threads[i].buffers[id])
      ensures Numbered() && BuffersKnown()
    {
      forall i | 0 <= i < |pool.threads| ensures ThreadKnown(pool.threads[i]) {
        assert old(ThreadKnown(pool.threads[i]));
      }
    }

    /** A change to stream n alone. */
    twostate lemma ObjectChanged(n: nat)
      requires objects == old(objects) && n < |objects|
      requires forall i :: 0 <= i < |objects| && i != n ==>
        objects[i].subs == old(objects[i].subs) && objects[i].buffer == old(objects[i].buffer)
      ensures StreamsOf(objects) == old(StreamsOf(objects))[n := StreamOf(objects[n])]
    {
    }

    twostate lemma CallsGrown(new b: Delivery.Buffer)
      requires buffers == old(buffers) + [b]
      requires forall i :: 0 <= i < |old(buffers)| ==> buffers[i].senders == old(buffers[i].senders)
      ensures CallsOf(buffers) == old(CallsOf(buffers)) + [b.senders.Keys]
    {
    }

    twostate lemma CallsKept()
      requires buffers == old(buffers)
      requires forall i :: 0 <= i < |buffers| ==> buffers[i].senders == old(buffers[i].senders)
      ensures CallsOf(buffers) == old(CallsOf(buffers))
    {
    }

    lemma StreamFacts(o: MediaStream)
      requires Valid() && KnownStream(o)
      ensures var n := o.serial;
        && n < |objects| && objects[n] == o && o.pool == pool && |pool.threads| > 0 && pool.Valid()
        && forall i :: 0 <= i < |objects| && i != n ==> objects[i] != o
      ensures forall i :: 0 <= i < |buffers| ==> buffers[i].serial == i
    {
    }

    /** addsubStream of a stream, seen from the manager. */
    method AddSubTo(o: MediaStream, callid: CallId, init: bool) returns (ok: bool)
      requires Valid() && KnownStream(o)
      modifies this`buffers, this`made, o, pool.threads
      ensures Valid() && old(buffers) <= buffers && forall b :: b in buffers[|old(buffers)|..] ==> fresh(b)
      ensures (View(), ok) == AddSub(old(View()), o.serial, callid, init)
      ensures ok == (callid !in old(o.subs) && init)
    {
      hide Attach, ThreadPool.View, ThreadPool.Valid, Numbered, BuffersKnown, StreamsKnown, KnownBuffer, KnownStream,
        StreamsOf, CallsOf, JobsOf, NumbersOf;
      StreamFacts(o);
      ghost var n, number := o.serial, |buffers|;
      ghost var before := View();
      ok := o.AddSubStream(callid, init, number);
      ObjectChanged(n);
      if callid in before.objects[n].subs {
        BuffersKept();
        CallsKept();
        assert before.objects[n := StreamOf(o)] == before.objects;
      } else {
        buffers := buffers + [o.buffer];
        made := made + [Made(n, callid)];
        BufferAdded(o.id, o.buffer);
        CallsGrown(o.buffer);
      }
    }

    // ---- removals ----

    twostate lemma CallsChanged(b: nat)
      requires buffers == old(buffers) && b < |buffers|
      requires forall i :: 0 <= i < |buffers| && i != b ==> buffers[i].senders == old(buffers[i].senders)
      ensures CallsOf(buffers) == old(CallsOf(buffers))[b := buffers[b].senders.Keys]
    {
    }

    lemma BufferFacts(o: MediaStream)
      requires Valid() && KnownStream(o) && o.buffer != null
      ensures var b := o.buffer.serial;
        && b < |buffers| && buffers[b] == o.buffer
        && forall i :: 0 <= i < |buffers| && i != b ==> buffers[i] != o.buffer
      ensures HasBuffer(View(), o.serial) && View().objects[o.serial] == StreamOf(o)
      ensures View().buffers[o.buffer.serial] == o.buffer.senders.Keys
    {
    }

    /** removesubStream of a stream, seen from the manager. */
    method RemoveSubFrom(o: MediaStream, callid: CallId)
      requires Valid() && KnownStream(o) && o.buffer != null
      modifies o`subs, o.buffer`senders
      ensures Valid() && o.buffer == old(o.buffer) && o.subs == old(o.subs) - {callid}
      ensures HasBuffer(EraseSub(old(View()), o.serial, callid), o.serial)
      ensures View() == EraseSender(EraseSub(old(View()), o.serial, callid), o.serial, callid)
    {
      hide ThreadPool.View, ThreadPool.Valid, Numbered, BuffersKnown, StreamsKnown, KnownBuffer, KnownStream, StreamsOf,
        CallsOf, JobsOf, NumbersOf;
      StreamFacts(o);
      BufferFacts(o);
      ghost var n, b := o.serial, o.buffer.serial;
      ghost var before, keys := View(), o.buffer.senders.Keys;
      assert before.buffers[b] == keys;
      o.RemoveSubStream(callid);
      BuffersKept();
      ObjectChanged(n);
      CallsChanged(b);
    }

    /** removeSender on a stream's buffer, seen from the manager. */
    method RemoveSenderFrom(o: MediaStream, callid: CallId)
      requires Valid() && KnownStream(o) && o.buffer != null
      modifies o.buffer`senders
      ensures Valid() && HasBuffer(old(View()), o.serial)
      ensures View() == EraseSender(old(View()), o.serial, callid)
    {
      hide ThreadPool.View, ThreadPool.Valid, Numbered, BuffersKnown, StreamsKnown, KnownBuffer, KnownStream, StreamsOf,
        CallsOf, JobsOf, NumbersOf;
      StreamFacts(o);
      BufferFacts(o);
      ghost var b := o.buffer.serial;
      ghost var before, keys := View(), o.buffer.senders.Keys;
      assert before.buffers[b] == keys;
      o.buffer.RemoveSender(callid);
      BuffersKept();
      CallsChanged(b);
    }

    // ---- a stream taken down ----

    /** A buffer held under id is one the pool's value serves under id. */
    lemma HeldServes(id: Id, i: nat)
      requires Valid() && i < |buffers|
      ensures buffers[i] in pool.Held(id) <==> Serves(pool.View(), id, i)
    {
      if buffers[i] in pool.Held(id) {
        var t :| 0 <= t < |pool.threads| && id in pool.threads[t].buffers && pool.threads[t].buffers[id] == buffers[i];
        assert id in pool.View()[t] && pool.View()[t][id] == i;
      }
      if Serves(pool.View(), id, i) {
        var t :| 0 <= t < |pool.View()| && id in pool.View()[t] && pool.View()[t][id] == i;
        assert ThreadKnown(pool.threads[t]);
        assert pool.threads[t].buffers[id] == buffers[i];
      }
    }

    ghost predicate HeldAre(h: Holding)
      reads this`buffers
    {
      forall i :: 0 <= i < |buffers| ==> (buffers[i] in h.held <==> Serves(h.pool, h.id, i))
    }

    /** When the buffers held under id have lost their senders, and no other has changed. */
    twostate lemma CallsCleared(h: Holding)
      requires buffers == old(buffers) && old(HeldAre(h))
      requires forall i :: 0 <= i < |buffers| ==>
        buffers[i].senders == if buffers[i] in h.held then map[] else old(buffers[i].senders)
      ensures CallsOf(buffers) == Cleared(old(CallsOf(buffers)), h.pool, h.id)
    {
      hide Serves;
      var calls := Cleared(old(CallsOf(buffers)), h.pool, h.id);
      forall i | 0 <= i < |buffers| ensures buffers[i].senders.Keys == calls[i] {
      }
    }

    lemma HeldFacts(id: Id)
      requires Valid()
      ensures HeldAre(Holding(pool.Held(id), pool.View(), id))
    {
      forall i | 0 <= i < |buffers| ensures buffers[i] in pool.Held(id) <==> Serves(pool.View(), id, i) {
        HeldServes(id, i);
      }
    }

    /** ThreadPool::removeBuffer, seen from the manager. */
    method DropBuffers(id: Id)
      requires Valid()
      modifies pool.threads, pool.Held(id)`senders
      ensures Valid()
      ensures View() ==
        old(View()).(pool := Detach(old(View()).pool, id),
                     buffers := Cleared(old(View()).buffers, old(View()).pool, id))
    {
      hide ThreadPool.View, ThreadPool.Held, Numbered, BuffersKnown, StreamsKnown, KnownBuffer, StreamsOf, CallsOf,
        JobsOf,
        NumbersOf, HeldAre, Cleared, Detach;
      ghost var h := Holding(pool.Held(id), pool.View(), id);
      HeldFacts(id);
      pool.RemoveBuffer(id);
      BuffersKept();
      CallsCleared(h);
    }

    // ---- the critical sections ----

    /** MessageThread::submit of an open job. */
    method Submit(o: MediaStream, req: nat, callid: CallId)
      requires Valid() && KnownStream(o)
      modifies this`queue, this`submitted
      ensures Valid()
      ensures View() == old(View()).(queue := old(View()).queue + [Job(req, o.serial, callid)],
                                     submitted := old(View()).submitted + 1)
      ensures queue == old(queue) + [OpenJob(req, o, callid)]
    {
      hide ThreadPool.View, ThreadPool.Valid, Numbered, BuffersKnown, StreamsOf, CallsOf, NumbersOf;
      ghost var before := JobsOf(queue);
      queue := queue + [OpenJob(req, o, callid)];
      submitted := submitted + 1;
      assert JobsOf(queue) == before + [Job(req, o.serial, callid)];
    }

    method Register(o: MediaStream, id: Id)
      requires Valid() && KnownStream(o)
      modifies this`streams
      ensures Valid() && View() == old(View()).(streams := old(View()).streams[id := o.serial])
    {
      hide ThreadPool.View, ThreadPool.Valid, Numbered, BuffersKnown, StreamsOf, CallsOf, JobsOf;
      ghost var before := NumbersOf(streams);
      streams := streams[id := o];
      assert NumbersOf(streams) == before[id := o.serial];
    }

    method Unregister(id: Id)
      requires Valid()
      modifies this`streams
      ensures Valid() && View() == old(View()).(streams := old(View()).streams - {id})
      ensures streams == old(streams) - {id}
    {
      hide ThreadPool.View, ThreadPool.Valid, Numbered, BuffersKnown, StreamsOf, CallsOf, JobsOf;
      ghost var before := NumbersOf(streams);
      streams := streams - {id};
      assert NumbersOf(streams) == before - {id};
    }

    /** A stream object made, not yet registered. */
    method MakeStream(id: Id) returns (o: MediaStream)
      requires Valid()
      modifies this`objects
      ensures Valid() && KnownStream(o) && fresh(o) && objects == old(objects) + [o] && o.serial == |old(objects)|
      ensures o.subs == {}
      ensures View() == old(View()).(objects := old(View()).objects + [Stream(id, {}, None)])
    {
      hide ThreadPool.View, ThreadPool.Valid, Numbered, BuffersKnown, StreamsKnown, StreamsOf, CallsOf, JobsOf,
        NumbersOf;
      o := new MediaStream(id, pool, |objects|);
      objects := objects + [o];
      StreamMade(o);
    }

    twostate lemma StreamMade(new o: MediaStream)
      requires old(Numbered() && BuffersKnown() && StreamsKnown()) && unchanged(this`buffers, this`streams, this`queue)
      requires objects == old(objects) + [o] && o.serial == |old(objects)| && o.pool == pool && o.buffer == null
      requires forall i :: 0 <= i < |old(objects)| ==> unchanged(objects[i])
      requires forall i :: 0 <= i < |pool.threads| ==> pool.threads[i].buffers == old(pool.threads[i].buffers)
      ensures Numbered() && BuffersKnown() && StreamsKnown() && KnownStream(o)
      ensures StreamsOf(objects) == old(StreamsOf(objects)) + [StreamOf(o)]
    {
      forall i | 0 <= i < |pool.threads| ensures ThreadKnown(pool.threads[i]) {
        assert old(ThreadKnown(pool.threads[i]));
      }
    }

    /** addStream's branch for an id that is not registered. */
    method AddNewStream(req: nat, id: Id, callid: CallId, controller: bool, init: bool)
      requires Valid()
      modifies this, pool.threads
      ensures Valid() && old(objects) <= objects && old(buffers) <= buffers
      ensures View() == OpenedNew(old(View()), req, id, callid, controller, init)
      ensures replies == old(replies) + if controller && init then [] else [Reply(req, false)]
      ensures |queue| == |old(queue)| + if controller && init then 1 else 0
    {
      hide Valid, KnownStream, AddSub, ThreadPool.View, StreamsOf, CallsOf, JobsOf, NumbersOf;
      if !controller {
        Answer(req, false);
        return;
      }
      var o := MakeStream(id);
      var ok := AddSubTo(o, callid, init);
      if !ok {
        Answer(req, false);
        return;
      }
      Register(o, id);
      Submit(o, req, callid);
    }

    /** The callback of an open request. */
    method Answer(req: nat, ok: bool)
      requires Valid()
      modifies this`replies
      ensures Valid() && View() == old(View()).(replies := old(View()).replies + [Reply(req, ok)])
      ensures replies == old(replies) + [Reply(req, ok)]
    {
      hide ThreadPool.View, ThreadPool.Valid, Numbered, BuffersKnown, StreamsKnown, StreamsOf, CallsOf, JobsOf,
        NumbersOf;
      replies := replies + [Reply(req, ok)];
    }

    /** addStream: its locked region is the request step and the client's next step. */
    method AddStream(id: Id, callid: CallId, controller: bool, init: bool)
      requires Valid() && Sound(View())
      modifies this, objects, pool.threads
      ensures Valid() && Sound(View()) && old(objects) <= objects && old(buffers) <= buffers
      ensures View() == Opened(old(View()), id, callid, controller, init)
      ensures id in old(streams) ==>
        && replies == old(replies) + [Reply(old(received), callid !in old(streams[id].subs) && init)]
        && queue == old(queue)
      ensures id !in old(streams) ==>
        && replies == old(replies) + (if controller && init then [] else [Reply(old(received), false)])
        && |queue| == |old(queue)| + if controller && init then 1 else 0
    {
      hide Valid, KnownStream, AddSub, Sound, OpenedNew, ThreadPool.View, StreamsOf, CallsOf, JobsOf, NumbersOf;
      ghost var before := View();
      OpenRuns(before, id, callid, controller, init);
      RegisteredFacts(id);
      var req := received;
      Receive();
      if id !in streams {
        AddNewStream(req, id, callid, controller, init);
      } else {
        var ok := AddSubTo(streams[id], callid, init);
        Answer(req, ok);
      }
    }

    lemma RegisteredFacts(id: Id)
      requires Valid()
      ensures id in streams <==> id in View().streams
      ensures id in streams ==>
        KnownStream(streams[id]) && streams[id] in objects && View().streams[id] == streams[id].serial
    {
    }

    method Receive()
      requires Valid()
      modifies this`received
      ensures Valid() && View() == old(View()).(received := old(received) + 1) && received == old(received) + 1
    {
      hide ThreadPool.View, ThreadPool.Valid, Numbered, BuffersKnown, StreamsKnown, StreamsOf, CallsOf, JobsOf,
        NumbersOf;
      received := received + 1;
    }

    /** RealSteam::closeStream. */
    method CloseDevice(id: Id)
      requires Valid()
      modifies this`devices, this`closed
      ensures Valid()
      ensures View() == old(View()).(devices := old(View()).devices - {id}, closed := old(View()).closed + 1)
    {
      hide ThreadPool.View, ThreadPool.Valid, Numbered, BuffersKnown, StreamsKnown, StreamsOf, CallsOf, JobsOf,
        NumbersOf;
      devices := devices - {id};
      closed := closed + 1;
    }

    lemma AtRest()
      ensures View().client.Free? && View().acks == acks
    {
    }

    method Acknowledge()
      requires Valid()
      modifies this`acks
      ensures Valid() && View() == old(View()).(acks := old(View()).acks + 1)
    {
      hide ThreadPool.View, ThreadPool.Valid, Numbered, BuffersKnown, StreamsKnown, StreamsOf, CallsOf, JobsOf,
        NumbersOf;
      acks := acks + 1;
    }

    /** A close request is counted, and whether its id is known. */
    ghost method CountClose(stray: bool)
      requires Valid()
      modifies this`closes, this`strays
      ensures Valid()
      ensures View() == old(View()).(closes := old(View()).closes + 1,
                                     strays := old(View()).strays + if stray then 1 else 0)
    {
      hide ThreadPool.View, ThreadPool.Valid, Numbered, BuffersKnown, StreamsKnown, StreamsOf, CallsOf, JobsOf,
        NumbersOf;
      closes := closes + 1;
      if stray { strays := strays + 1; }
    }

    lemma HeldKnown(id: Id)
      requires Valid()
      ensures forall b :: b in pool.Held(id) ==> b in buffers
    {
      forall b | b in pool.Held(id) ensures b in buffers {
        var t :| 0 <= t < |pool.threads| && id in pool.threads[t].buffers && pool.threads[t].buffers[id] == b;
        assert ThreadKnown(pool.threads[t]);
      }
    }

    /** closeStream's branch for a registered id: the call's sub-stream and sender go, the sender
        twice; when no sub-stream is left the device is closed, the buffers dropped and the stream
        erased from the registry. */
    method CloseKnown(id: Id, callid: CallId)
      requires Valid() && id in streams && streams[id].buffer != null
      modifies this, objects, pool.threads, buffers
      ensures Valid() && objects == old(objects) && buffers == old(buffers)
      ensures id in old(View()).streams && HasBuffer(old(View()), old(View()).streams[id])
      ensures View() == ClosedKnown(old(View()), id, callid)
      ensures streams == if old(streams[id].subs) - {callid} == {} then old(streams) - {id} else old(streams)
    {
      hide Valid, KnownStream, EraseSub, EraseSender, Cleared, Detach, ThreadPool.View, StreamsOf, CallsOf, JobsOf,
        NumbersOf;
      RegisteredFacts(id);
      var o := streams[id];
      BufferFacts(o);
      ghost var s, n := View(), o.serial;
      RemoveSubFrom(o, callid);
      ghost var s1 := View();
      var b := o.buffer;
      if b != null {
        SenderErasedOnce(s, n, callid);
        RemoveSenderFrom(o, callid);
      }
      assert View() == s1;
      BufferFacts(o);
      var close := o.NeedClose();
      if close {
        CloseDevice(id);
        HeldKnown(id);
        DropBuffers(id);
        Unregister(id);
      }
    }

    lemma StreamHasBuffer(s: System, id: Id)
      requires Valid() && Sound(s) && id in streams
      requires s.streams == View().streams && s.objects == View().objects && s.buffers == View().buffers
      ensures streams[id].buffer != null
    {
      hide Sound;
      SoundStream(s, id);
      RegisteredFacts(id);
      BufferIsThere(streams[id].serial);
      StreamFacts(streams[id]);
    }

    lemma BufferIsThere(n: nat)
      requires Valid() && HasBuffer(View(), n)
      ensures n < |objects| && objects[n].buffer != null
    {
    }

    /** closeStream: its locked region is the close step and the client's next five. */
    method CloseStream(id: Id, callid: CallId)
      requires Valid() && Sound(View())
      modifies this, objects, pool.threads, buffers
      ensures Valid() && Sound(View()) && objects == old(objects) && buffers == old(buffers)
      ensures View() == Closed(old(View()), id, callid)
      ensures acks == old(acks) + if id in old(streams) then 1 else 2
      ensures streams == if id in old(streams) && old(streams[id].subs) - {callid} == {} then old(streams) - {id}
                         else old(streams)
    {
      hide Valid, View, KnownStream, Sound, ClosedKnown, HasBuffer;
      ghost var before := View();
      AtRest();
      CloseRuns(before, id, callid);
      RegisteredFacts(id);
      CountClose(id !in streams);
      if id !in streams {
        Acknowledge();
      } else {
        ghost var s := View();
        StreamHasBuffer(before, id);
        CloseKnown(id, callid);
        assert View() == ClosedKnown(s, id, callid);
      }
      Acknowledge();
      AtRest();
    }

    /** The message thread takes its next job. */
    method TakeJob() returns (job: OpenJob)
      requires Valid() && queue != []
      modifies this`queue
      ensures Valid() && KnownStream(job.stream) && job.stream in objects
      ensures old(View()).queue != [] && Job(job.req, job.stream.serial, job.callid) == old(View()).queue[0]
      ensures View() == old(View()).(queue := old(View()).queue[1..])
      ensures job == old(queue[0]) && queue == old(queue[1..])
    {
      hide ThreadPool.View, ThreadPool.Valid, Numbered, BuffersKnown, StreamsOf, CallsOf, NumbersOf;
      ghost var before := JobsOf(queue);
      job := queue[0];
      assert objects[job.stream.serial] == job.stream;
      queue := queue[1..];
      assert JobsOf(queue) == before[1..];
    }

    method DeviceOpens(id: Id, ghost n: nat)
      requires Valid()
      modifies this`devices, this`ready
      ensures Valid()
      ensures View() == old(View()).(devices := old(View()).devices + {id}, ready := old(View()).ready + {n})
    {
      hide ThreadPool.View, ThreadPool.Valid, Numbered, BuffersKnown, StreamsKnown, StreamsOf, CallsOf, JobsOf,
        NumbersOf;
      devices := devices + {id};
      ready := ready + {n};
    }

    /** The message thread takes a job and runs it to the end. */
    method RunJob(opens: bool)
      requires Valid() && Sound(View()) && queue != []
      modifies this, objects, buffers
      ensures Valid() && Sound(View()) && objects == old(objects) && buffers == old(buffers)
      ensures old(View()).queue != [] && View() == JobRun(old(View()), opens)
      ensures replies == old(replies) + [Reply(old(queue[0]).req, opens)] && queue == old(queue[1..])
    {
      hide Valid, KnownStream, Sound, EraseSub, EraseSender, JobRun, ThreadPool.View, StreamsOf, CallsOf, NumbersOf;
      ghost var before := View();
      JobRuns(before, opens);
      var job := TakeJob();
      StreamFacts(job.stream);
      BufferIsThere(job.stream.serial);
      BufferFacts(job.stream);
      if !opens {
        RemoveSubFrom(job.stream, job.callid);
        Answer(job.req, false);
      } else {
        DeviceOpens(job.stream.id, job.stream.serial);
        Answer(job.req, true);
      }
    }
  }

  lemma SoundStream(s: System, id: Id)
    requires Sound(s) && id in s.streams
    ensures HasBuffer(s, s.streams[id])
  {
  }
}
