/** Which sub-streams of a camera are served: addsubStream makes a buffer for each, the pool takes
    a buffer only if its least loaded thread does not hold the camera yet, and a close looks at the
    newest buffer only. */
module SubStreams {
  import opened Balance
  import opened Common
  import opened Lifecycle
  import opened PoolMap
  import opened Runs

  /** A successful addsubStream gets its new buffer served exactly when the least loaded thread
      does not hold the stream's id already; whatever was served stays served. */
  lemma NewBufferServed(s: System, n: nat, callid: CallId, init: bool)
    requires n < |s.objects| && |s.pool| > 0 && ServedOwned(s) && Owned(s) && AddSub(s, n, callid, init).1
    ensures var s', id := AddSub(s, n, callid, init).0, s.objects[n].id;
      && s'.objects[n].buffer == Some(|s.buffers|)
      && (Serves(s'.pool, id, |s.buffers|) <==> id !in s.pool[LeastLoaded(s.pool)])
      && forall x, b: nat :: Serves(s.pool, x, b) ==> Serves(s'.pool, x, b)
  {
    hide LeastLoaded, Serves, Attach;
    var id := s.objects[n].id;
    AttachServes(s.pool, id, |s.buffers|, id, |s.buffers|);
    forall x, b: nat | Serves(s.pool, x, b) ensures Serves(Attach(s.pool, id, |s.buffers|), x, b) {
      AttachServes(s.pool, id, |s.buffers|, x, b);
    }
  }

  // ---- one camera alone in a pool of k threads ----

  /** Open requests for one camera, each worked off before the next. */
  function Opens(id: Id, calls: seq<CallId>): seq<Event> {
    if calls == [] then []
    else
      var n := |calls| - 1;
      Opens(id, calls[..n]) + [OpenRequest(id, calls[n], true, true), ClientStep]
  }

  predicate Distinct<T(==)>(s: seq<T>) {
    forall i, j :: 0 <= i < j < |s| ==> s[i] != s[j]
  }

  /** The first j threads hold the camera, each with its own buffer. */
  function AlonePool(k: nat, id: Id, j: nat): (pool: Threads)
    ensures |pool| == k
  {
    seq(k, i requires 0 <= i < k => if i < j then map[id := i] else map[])
  }

  function SetOf(calls: seq<CallId>): set<CallId> {
    set c | c in calls
  }

  /** The state after opening the calls. */
  function Alone(k: nat, id: Id, calls: seq<CallId>): System
    requires calls != []
  {
    var n := |calls|;
    System(map[id := 0], [Stream(id, SetOf(calls), Some(n - 1))],
           seq(n, i requires 0 <= i < n => {calls[i]}), AlonePool(k, id, n), [Job(0, 0, calls[0])], Idle, Free, {}, n,
           seq(n - 1, i requires 0 <= i < n - 1 => Reply(i + 1, true)), 0, 1, 0,
           seq(n, i requires 0 <= i < n => Made(0, calls[i])), {}, 0, 0)
  }

  /** The least loaded thread is the next one without the camera, or the first when all have it. */
  lemma LeastAlone(k: nat, id: Id, j: nat)
    requires k > 0
    ensures LeastLoaded(AlonePool(k, id, j)) == if j < k then j else 0
  {
    var sizes := Sizes(AlonePool(k, id, j));
    forall i | 0 <= i < k ensures sizes[i] == if i < j then 1 else 0 {
      assert |map[id := i]| == 1 && AlonePool(k, id, j)[i] == if i < j then map[id := i] else map[];
    }
    var m, first := LeastIndex(sizes), if j < k then j else 0;
    assert sizes[m] <= sizes[first];
  }

  lemma AttachAlone(k: nat, id: Id, j: nat)
    requires k > 0
    ensures Attach(AlonePool(k, id, j), id, j) == AlonePool(k, id, j + 1)
  {
    hide LeastLoaded;
    LeastAlone(k, id, j);
    var pool, next := AlonePool(k, id, j), AlonePool(k, id, j + 1);
    if j < k {
      var loaded: map<Id, nat> := pool[j][id := j];
      assert loaded == next[j];
      assert pool[j := loaded] == next;
    } else {
      assert pool == next;
    }
  }

  lemma OpenFirst(k: nat, id: Id, c: CallId)
    requires k > 0 && Sound(Start(k))
    ensures Opened(Start(k), id, c, true, true) == Alone(k, id, [c])
  {
    hide Attach, AlonePool;
    assert Empty(k) == AlonePool(k, id, 0) by { hide *; EmptyIsAlone(k, id); }
    AttachAlone(k, id, 0);
    assert {} + {c} == SetOf([c]);
    var s, t := Opened(Start(k), id, c, true, true), Alone(k, id, [c]);
    assert s.objects == t.objects && s.buffers == t.buffers && s.made == t.made && s.replies == t.replies;
    assert s.pool == t.pool && s.queue == t.queue && s.streams == t.streams;
  }

  lemma EmptyIsAlone(k: nat, id: Id)
    ensures Empty(k) == AlonePool(k, id, 0)
  {
  }

  lemma OpenNext(k: nat, id: Id, calls: seq<CallId>)
    requires k > 0 && |calls| > 1 && Distinct(calls)
    requires Sound(Alone(k, id, calls[..|calls| - 1]))
    ensures Opened(Alone(k, id, calls[..|calls| - 1]), id, calls[|calls| - 1], true, true) == Alone(k, id, calls)
  {
    hide Attach, AlonePool, Sound;
    var n := |calls| - 1;
    var before, c := calls[..n], calls[n];
    AttachAlone(k, id, n);
    assert c !in SetOf(before);
    assert SetOf(before) + {c} == SetOf(calls) by { assert calls == before + [c]; }
    var s, t := Opened(Alone(k, id, before), id, c, true, true), Alone(k, id, calls);
    assert s.objects == t.objects && s.buffers == t.buffers && s.made == t.made;
    assert s.replies == t.replies && s.pool == t.pool && s.queue == t.queue;
  }

  lemma OpenRun(s: System, id: Id, c: CallId)
    requires Inv(s) && s.client.Free?
    ensures Run(s, [OpenRequest(id, c, true, true), ClientStep]) == Opened(s, id, c, true, true)
  {
    hide Open, Advance, Opened, Sound, PoolMatches, Counts, OrphansEmpty, Owned, Newest, ServedOwned, Accounted,
      Acknowledged;
    var e := OpenRequest(id, c, true, true);
    OpenRuns(s, id, c, true, true);
    StepInv(s, e);
    var s1 := Step(s, e);
    StepInv(s1, ClientStep);
    assert [e, ClientStep][1..] == [ClientStep];
    assert Run(s1, [ClientStep]) == Run(Step(s1, ClientStep), []);
  }

  lemma {:induction false} AloneRun(k: nat, id: Id, calls: seq<CallId>)
    requires k > 0 && calls != [] && Distinct(calls)
    ensures Reach(k, Opens(id, calls)) == Alone(k, id, calls) && Inv(Alone(k, id, calls))
    decreases |calls|
  {
    hide Opened, Run, Alone, Attach, Sound, PoolMatches, Counts, OrphansEmpty, Owned, Newest, ServedOwned, Accounted,
      Acknowledged;
    var n := |calls| - 1;
    var request := [OpenRequest(id, calls[n], true, true), ClientStep];
    StartInv(k);
    RunConcat(Start(k), Opens(id, calls[..n]), request);
    RunInv(Start(k), Opens(id, calls));
    if n == 0 {
      assert calls == [calls[0]] && Opens(id, calls[..0]) == [];
      assert Run(Start(k), []) == Start(k) by { RunNothing(Start(k)); }
      OpenRun(Start(k), id, calls[0]);
      OpenFirst(k, id, calls[0]);
    } else {
      AloneRun(k, id, calls[..n]);
      AloneIsFree(k, id, calls[..n]);
      OpenRun(Alone(k, id, calls[..n]), id, calls[n]);
      OpenNext(k, id, calls);
    }
  }

  lemma AloneIsFree(k: nat, id: Id, calls: seq<CallId>)
    requires calls != []
    ensures Alone(k, id, calls).client.Free?
  {
  }

  lemma RunNothing(s: System)
    requires Inv(s)
    ensures Run(s, []) == s
  {
  }

  /** On a pool of k threads, for any k and any number of calls opened for one camera alone: every
      call is accepted and has a buffer with its sender, and exactly the first k are served.  The
      (k+1)-th call onwards is answered with success and never gets a packet. */
  lemma FirstCallsServed(k: nat, id: Id, calls: seq<CallId>, i: nat)
    requires k > 0 && i < |calls| && Distinct(calls)
    ensures var s := Reach(k, Opens(id, calls));
      && s.client.Free? && id in s.streams && s.streams[id] < |s.objects|
      && calls[i] in s.objects[s.streams[id]].subs
      && i < |s.buffers| && s.buffers[i] == {calls[i]}
      && (i > 0 ==> Reply(i, true) in s.replies)
      && (Serves(s.pool, id, i) <==> i < k)
  {
    hide Run, Opens;
    AloneRun(k, id, calls);
    var s := Alone(k, id, calls);
    if i > 0 { assert s.replies[i - 1] == Reply(i, true); }
    if i < k { assert id in s.pool[i] && s.pool[i][id] == i; }
  }

  // ---- what a close leaves behind ----

  /** Some thread serves, for camera id, a buffer with a sender of the call. */
  predicate CallServed(s: System, id: Id, callid: CallId) {
    exists b :: 0 <= b < |s.buffers| && Serves(s.pool, id, b) && callid in s.buffers[b]
  }

  /** The call has a sender in a buffer that is served but is not the stream's newest. */
  predicate ServedByOlder(s: System, id: Id, callid: CallId)
    requires id in s.streams && HasBuffer(s, s.streams[id])
  {
    var newest := s.objects[s.streams[id]].buffer.value;
    exists b :: 0 <= b < |s.buffers| && b != newest && Serves(s.pool, id, b) && callid in s.buffers[b]
  }

  /** A close that nothing interrupts, in any reachable state, leaves the call a sender that is
      still served exactly when other sub-streams keep the stream open and the call had a sender
      in a served buffer older than the newest.  A buffer in which it is left was made for this
      very call of this stream, and the call is no sub-stream any more. */
  lemma ClosedCallServed(s: System, id: Id, callid: CallId)
    requires Inv(s) && s.client.Free? && id in s.streams
    ensures var n, s' := s.streams[id], Closed(s, id, callid);
      && callid !in s'.objects[n].subs
      && (CallServed(s', id, callid) <==> s.objects[n].subs - {callid} != {} && ServedByOlder(s, id, callid))
      && forall b: nat :: b < |s'.buffers| && Serves(s'.pool, id, b) && callid in s'.buffers[b] ==>
           s.made[b] == Made(n, callid)
  {
    hide Serves, PoolMatches, Counts, OrphansEmpty, Accounted, Acknowledged, IsNewest, Cleared, Detach;
    var n, s' := s.streams[id], Closed(s, id, callid);
    var newest := s.objects[n].buffer.value;
    assert s'.objects[n].subs == s.objects[n].subs - {callid};
    if s'.objects[n].subs != {} {
      assert s'.pool == s.pool && |s'.buffers| == |s.buffers|;
      assert forall b: nat :: b < |s.buffers| ==> (callid in s'.buffers[b] <==> callid in s.buffers[b] && b != newest);
    } else {
      forall b: nat ensures !Serves(s'.pool, id, b) { DetachServes(s.pool, id, id, b); }
    }
    forall b: nat | b < |s'.buffers| && Serves(s'.pool, id, b) && callid in s'.buffers[b]
      ensures s.made[b] == Made(n, callid)
    {
      assert Serves(s.pool, id, b) && ServedFor(s, id, b);
      assert callid in s.buffers[b];
    }
  }

  /** And such closes happen: of the calls opened for one camera alone, closing any served one but
      the last leaves its sender in a buffer that is still served. */
  lemma CloseLeavesSender(k: nat, id: Id, calls: seq<CallId>, i: nat)
    requires k > 0 && Distinct(calls) && i < |calls| - 1 && i < k
    ensures var s := Reach(k, Opens(id, calls));
      && s.client.Free? && id in s.streams && Inv(s)
      && var s' := Closed(s, id, calls[i]);
      calls[i] !in s'.objects[s.streams[id]].subs && CallServed(s', id, calls[i])
  {
    hide Run, Opens, Closed, Alone, Serves, PoolMatches, Counts, OrphansEmpty, Owned, Newest, ServedOwned, Accounted,
      Acknowledged;
    AloneRun(k, id, calls);
    FirstCallsServed(k, id, calls, i);
    var s := Alone(k, id, calls);
    ClosedCallServed(s, id, calls[i]);
    AloneKeepsLast(k, id, calls, i);
    assert calls[i] in s.buffers[i] && Serves(s.pool, id, i);
    assert ServedByOlder(s, id, calls[i]);
  }

  lemma AloneKeepsLast(k: nat, id: Id, calls: seq<CallId>, i: nat)
    requires Distinct(calls) && i < |calls| - 1
    ensures var s := Alone(k, id, calls);
      && |s.objects| == 1 && s.streams == map[id := 0] && s.objects[0].buffer == Some(|calls| - 1)
      && s.objects[0].subs - {calls[i]} != {}
  {
    assert calls[|calls| - 1] in SetOf(calls) - {calls[i]};
  }
}
