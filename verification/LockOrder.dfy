/** Deadlock freedom.  The mutexes of the program have ranks; every code path nests its critical
    sections by increasing rank; so no set of threads ever waits in a circle, and as long as
    some thread has work left some thread can take its next step. */
module LockOrder {

  datatype Mutex =
    | Locker                  // StreamManager::locker_
    | StreamMutex(n: nat)     // MediaStream::mutex_
    | BufferMutex(t: nat)     // Thread_wrapper::bufferMutex_
    | DestsMutex(b: nat)      // Buffer::destsmutex_
    | PacketMutex(b: nat)     // Buffer::packetMutex_
    | QueueMutex              // threadsafe_queue::mut of the message thread

  const RANKS: nat := 6

  function Rank(m: Mutex): (r: nat)
    ensures r < RANKS
  {
    match m
    case Locker => 0
    case StreamMutex(_) => 1
    case BufferMutex(_) => 2
    case DestsMutex(_) => 3
    case PacketMutex(_) => 4
    case QueueMutex => 5
  }

  /** What a thread may wait for besides a mutex. */
  datatype Condition =
    | JobQueued          // threadsafe_queue::data_cond: the queue is not empty
    | HasWork(t: nat)    // Thread_wrapper::cond_: there is a buffer, or quit_ is set

  /** AcquireWhen is unique_lock with condition_variable::wait: the thread gets the mutex at a
      moment when the condition holds, and holds nothing of it while it waits. */
  datatype Op = Acquire(m: Mutex) | AcquireWhen(m: Mutex, c: Condition) | Release(m: Mutex)

  datatype Thread = Thread(held: set<Mutex>, todo: seq<Op>)

  /** The threads, and the conditions that hold. */
  datatype State = State(threads: seq<Thread>, met: set<Condition>)

  // ---- steps of any threads under any schedule ----

  predicate Wants(t: Thread) {
    t.todo != [] && !t.todo[0].Release?
  }

  predicate Taken(s: State, m: Mutex) {
    exists j :: 0 <= j < |s.threads| && m in s.threads[j].held
  }

  /** Thread i waits for its condition, whatever the mutexes. */
  predicate Parked(s: State, i: nat) {
    && i < |s.threads| && s.threads[i].todo != []
    && s.threads[i].todo[0].AcquireWhen? && s.threads[i].todo[0].c !in s.met
  }

  predicate CanStep(s: State, i: nat) {
    && i < |s.threads| && s.threads[i].todo != [] && !Parked(s, i)
    && (Wants(s.threads[i]) ==> !Taken(s, s.threads[i].todo[0].m))
  }

  function AfterOp(t: Thread): Thread
    requires t.todo != []
  {
    if t.todo[0].Release? then Thread(t.held - {t.todo[0].m}, t.todo[1..])
    else Thread(t.held + {t.todo[0].m}, t.todo[1..])
  }

  /** Thread i's turn, or a moment at which exactly these conditions hold: what makes them hold
      is not followed, so they may change at any time. */
  datatype Move = Go(i: nat) | Now(met: set<Condition>)

  /** A thread that cannot step waits. */
  function Step(s: State, v: Move): State {
    match v
    case Go(i) => if CanStep(s, i) then s.(threads := s.threads[i := AfterOp(s.threads[i])]) else s
    case Now(met) => s.(met := met)
  }

  function Run(s: State, schedule: seq<Move>): State
    decreases |schedule|
  {
    if schedule == [] then s else Run(Step(s, schedule[0]), schedule[1..])
  }

  // ---- the discipline ----

  /** What is left to do acquires each mutex above all those held, waits for a condition only
      while it holds none, and ends holding none. */
  ghost predicate Disciplined(held: set<Mutex>, todo: seq<Op>)
    decreases |todo|
  {
    if todo == [] then held == {}
    else
      match todo[0]
      case Acquire(m) =>
        (forall h :: h in held ==> Rank(h) < Rank(m)) && Disciplined(held + {m}, todo[1..])
      case AcquireWhen(m, _) => held == {} && Disciplined({m}, todo[1..])
      case Release(m) => m in held && Disciplined(held - {m}, todo[1..])
  }

  ghost predicate Inv(s: State) {
    && (forall i :: 0 <= i < |s.threads| ==> Disciplined(s.threads[i].held, s.threads[i].todo))
    && (forall i, j, m :: 0 <= i < j < |s.threads| && m in s.threads[i].held ==> m !in s.threads[j].held)
  }

  lemma OpKeepsDiscipline(t: Thread)
    requires Disciplined(t.held, t.todo) && t.todo != []
    ensures Disciplined(AfterOp(t).held, AfterOp(t).todo)
  {
    if t.todo[0].AcquireWhen? { assert t.held + {t.todo[0].m} == {t.todo[0].m}; }
  }

  lemma StepInv(s: State, v: Move)
    requires Inv(s)
    ensures Inv(Step(s, v)) && |Step(s, v).threads| == |s.threads|
  {
    hide Disciplined;
    if v.Go? && CanStep(s, v.i) { OpKeepsDiscipline(s.threads[v.i]); }
  }

  lemma {:induction false} RunInv(s: State, schedule: seq<Move>)
    requires Inv(s)
    ensures Inv(Run(s, schedule)) && |Run(s, schedule).threads| == |s.threads|
    decreases |schedule|
  {
    hide Inv;
    if schedule != [] {
      StepInv(s, schedule[0]);
      RunInv(Step(s, schedule[0]), schedule[1..]);
    }
  }

  /** Thread i's next operation is to acquire a mutex thread j holds. */
  predicate WaitsFor(s: State, i: nat, j: nat) {
    && i < |s.threads| && j < |s.threads| && Wants(s.threads[i])
    && s.threads[i].todo[0].m in s.threads[j].held
  }

  /** Whoever is waited for wants, if it waits itself, a mutex of higher rank. */
  lemma WaitingClimbs(s: State, i: nat, j: nat, k: nat)
    requires Inv(s) && WaitsFor(s, i, j) && WaitsFor(s, j, k)
    ensures Rank(s.threads[i].todo[0].m) < Rank(s.threads[j].todo[0].m)
  {
    assert Disciplined(s.threads[j].held, s.threads[j].todo);
  }

  /** A chain of waiting threads, each for the next. */
  ghost predicate Chain(s: State, c: seq<nat>) {
    |c| >= 2 && forall k {:trigger c[k]} :: 0 <= k < |c| - 1 ==> WaitsFor(s, c[k], c[k + 1])
  }

  lemma ChainLink(s: State, c: seq<nat>, k: nat)
    requires Chain(s, c) && k < |c| - 1
    ensures WaitsFor(s, c[k], c[k + 1])
  {
  }

  lemma {:induction false} ChainClimbs(s: State, c: seq<nat>, k: nat)
    requires Inv(s) && Chain(s, c) && k < |c| - 1
    ensures WaitsFor(s, c[0], c[1]) && WaitsFor(s, c[k], c[k + 1])
    ensures Rank(s.threads[c[0]].todo[0].m) + k <= Rank(s.threads[c[k]].todo[0].m)
  {
    hide Inv, Chain;
    ChainLink(s, c, 0);
    ChainLink(s, c, k);
    if k > 0 {
      ChainLink(s, c, k - 1);
      ChainClimbs(s, c, k - 1);
      WaitingClimbs(s, c[k - 1], c[k], c[k + 1]);
    }
  }

  /** No chain of waiting threads closes, and none is longer than the number of ranks. */
  lemma NoWaitCycle(s: State, c: seq<nat>)
    requires Inv(s) && Chain(s, c)
    ensures c[0] != c[|c| - 1]
    ensures |c| <= RANKS + 1
  {
    hide Disciplined, Inv;
    ChainClimbs(s, c, |c| - 2);
    if c[0] == c[|c| - 1] {
      WaitingClimbs(s, c[|c| - 2], c[0], c[1]);
      assert false;
    }
  }

  /** From any thread with work left that does not wait for a condition, following who waits for
      whom leads to one that can step. */
  lemma {:induction false} SomeoneCanStep(s: State, i: nat) returns (j: nat)
    requires Inv(s) && i < |s.threads| && s.threads[i].todo != [] && !Parked(s, i)
    ensures CanStep(s, j)
    decreases if Wants(s.threads[i]) then RANKS - Rank(s.threads[i].todo[0].m) else 0
  {
    if CanStep(s, i) { return i; }
    var m := s.threads[i].todo[0].m;
    var k :| 0 <= k < |s.threads| && m in s.threads[k].held;
    assert Disciplined(s.threads[k].held, s.threads[k].todo);
    j := SomeoneCanStep(s, k);
  }

  // ---- what a turn waits for ----

  /** While its condition never holds, a thread waiting for it stays where it is, whatever the
      others do. */
  lemma {:induction false} ParkedStays(s: State, i: nat, schedule: seq<Move>)
    requires i < |s.threads| && s.threads[i].todo != [] && s.threads[i].todo[0].AcquireWhen?
    requires s.threads[i].todo[0].c !in s.met
    requires forall v :: v in schedule && v.Now? ==> s.threads[i].todo[0].c !in v.met
    ensures |Run(s, schedule).threads| == |s.threads| && Run(s, schedule).threads[i] == s.threads[i]
    decreases |schedule|
  {
    if schedule != [] {
      var v := schedule[0];
      assert v in schedule;
      assert v.Go? ==> !(v.i == i && CanStep(s, v.i));
      ParkedStays(Step(s, v), i, schedule[1..]);
    }
  }

  /** And while another thread keeps the mutex it wants, so does any thread. */
  lemma {:induction false} BlockedStays(s: State, i: nat, j: nat, schedule: seq<Move>)
    requires WaitsFor(s, i, j) && Go(j) !in schedule && i != j
    ensures |Run(s, schedule).threads| == |s.threads| && Run(s, schedule).threads[i] == s.threads[i]
    decreases |schedule|
  {
    if schedule != [] {
      var v := schedule[0];
      assert v in schedule;
      assert Taken(s, s.threads[i].todo[0].m);
      BlockedStays(Step(s, v), i, j, schedule[1..]);
    }
  }

  // ---- everything can be finished ----

  /** The conditions that these operations wait for. */
  function ConditionsOf(todo: seq<Op>): set<Condition> {
    if todo == [] then {} else (if todo[0].AcquireWhen? then {todo[0].c} else {}) + ConditionsOf(todo[1..])
  }

  /** Every condition any thread is still to wait for holds. */
  ghost predicate AllMet(s: State) {
    forall i :: 0 <= i < |s.threads| ==> ConditionsOf(s.threads[i].todo) <= s.met
  }

  /** No thread has work left or holds a mutex. */
  ghost predicate Finished(s: State) {
    forall i :: 0 <= i < |s.threads| ==> s.threads[i].todo == [] && s.threads[i].held == {}
  }

  function Work(threads: seq<Thread>): nat {
    if threads == [] then 0 else |threads[0].todo| + Work(threads[1..])
  }

  lemma {:induction false} WorkShrinks(threads: seq<Thread>, i: nat, t: Thread)
    requires i < |threads| && |t.todo| < |threads[i].todo|
    ensures Work(threads[i := t]) < Work(threads)
    decreases i
  {
    if i > 0 {
      WorkShrinks(threads[1..], i - 1, t);
      assert threads[i := t][1..] == threads[1..][i - 1 := t];
    } else {
      assert threads[0 := t][1..] == threads[1..];
    }
  }

  lemma GoKeepsMet(s: State, j: nat)
    requires AllMet(s) && CanStep(s, j)
    ensures AllMet(Step(s, Go(j))) && Step(s, Go(j)).met == s.met
  {
  }

  /** With the conditions met, some schedule of turns alone takes every thread to its end. */
  lemma {:induction false} CanFinish(s: State) returns (schedule: seq<Move>)
    requires Inv(s) && AllMet(s)
    ensures (forall v :: v in schedule ==> v.Go?) && Finished(Run(s, schedule))
    decreases Work(s.threads)
  {
    hide Disciplined, Inv, AllMet, ConditionsOf;
    if i: nat :| i < |s.threads| && s.threads[i].todo != [] {
      MetIsNotParked(s, i);
      var j := SomeoneCanStep(s, i);
      StepInv(s, Go(j));
      GoKeepsMet(s, j);
      WorkShrinks(s.threads, j, AfterOp(s.threads[j]));
      var rest := CanFinish(Step(s, Go(j)));
      schedule := [Go(j)] + rest;
    } else {
      NoWorkHoldsNothing(s);
      schedule := [];
    }
  }

  lemma MetIsNotParked(s: State, i: nat)
    requires AllMet(s) && i < |s.threads|
    ensures !Parked(s, i)
  {
  }

  lemma NoWorkHoldsNothing(s: State)
    requires Inv(s) && forall i :: 0 <= i < |s.threads| ==> s.threads[i].todo == []
    ensures Finished(s)
  {
    forall i | 0 <= i < |s.threads| ensures s.threads[i].held == {} {
      assert Disciplined(s.threads[i].held, s.threads[i].todo);
    }
  }

  // ---- critical sections as the code nests them ----

  /** A lock_guard, or a lock with a wait for a condition, and what runs while it is held. */
  datatype Section = Lock(m: Mutex, body: seq<Section>) | LockWhen(m: Mutex, c: Condition, body: seq<Section>)

  function Entry(x: Section): Op {
    if x.Lock? then Acquire(x.m) else AcquireWhen(x.m, x.c)
  }

  function Ops(secs: seq<Section>): seq<Op> {
    if secs == [] then []
    else [Entry(secs[0])] + Ops(secs[0].body) + [Release(secs[0].m)] + Ops(secs[1..])
  }

  /** Sections whose mutexes have rank at least floor, nested strictly upwards, with waits for
      conditions on the outermost level only, which is where floor is 0. */
  predicate Ranked(secs: seq<Section>, floor: nat) {
    secs == [] ||
    (FirstRanked(secs[0], floor) && Ranked(secs[0].body, Rank(secs[0].m) + 1) && Ranked(secs[1..], floor))
  }

  predicate FirstRanked(x: Section, floor: nat) {
    floor <= Rank(x.m) && (x.LockWhen? ==> floor == 0)
  }

  lemma {:induction false} RankedIsDisciplined(held: set<Mutex>, secs: seq<Section>, floor: nat, rest: seq<Op>)
    requires Ranked(secs, floor) && forall h :: h in held ==> Rank(h) < floor
    requires Disciplined(held, rest)
    ensures Disciplined(held, Ops(secs) + rest)
    decreases secs
  {
    if secs == [] {
      assert Ops(secs) + rest == rest;
    } else {
      hide Disciplined, Ops;
      var m, body := secs[0].m, secs[0].body;
      var tail := Ops(secs[1..]) + rest;
      RankedIsDisciplined(held, secs[1..], floor, rest);
      var inner := [Release(m)] + tail;
      DisciplinedRelease(held, m, tail);
      RankedIsDisciplined(held + {m}, body, Rank(m) + 1, inner);
      DisciplinedEntry(held, secs[0], Ops(body) + inner);
      OpsOfFirst(secs, rest);
    }
  }

  lemma OpsOfFirst(secs: seq<Section>, rest: seq<Op>)
    requires secs != []
    ensures var m, body, tail := secs[0].m, secs[0].body, Ops(secs[1..]) + rest;
      Ops(secs) + rest == [Entry(secs[0])] + (Ops(body) + ([Release(m)] + tail))
  {
    var a, b, c, d := [Entry(secs[0])], Ops(secs[0].body), [Release(secs[0].m)], Ops(secs[1..]);
    Regroup(a + b + c, d, rest);
    Regroup(a + b, c, d + rest);
    Regroup(a, b, c + (d + rest));
  }

  lemma Regroup<T>(a: seq<T>, b: seq<T>, c: seq<T>)
    ensures (a + b) + c == a + (b + c)
  {
  }

  lemma DisciplinedRelease(held: set<Mutex>, m: Mutex, rest: seq<Op>)
    requires Disciplined(held, rest) && m !in held
    ensures Disciplined(held + {m}, [Release(m)] + rest)
  {
    assert (held + {m}) - {m} == held;
    assert ([Release(m)] + rest)[1..] == rest;
  }

  lemma DisciplinedEntry(held: set<Mutex>, x: Section, rest: seq<Op>)
    requires Disciplined(held + {x.m}, rest) && forall h :: h in held ==> Rank(h) < Rank(x.m)
    requires x.LockWhen? ==> held == {}
    ensures Disciplined(held, [Entry(x)] + rest)
  {
    assert ([Entry(x)] + rest)[1..] == rest;
    if x.LockWhen? { assert held + {x.m} == {x.m}; }
  }

  lemma {:induction false} RankedConcat(a: seq<Section>, b: seq<Section>, floor: nat)
    requires Ranked(a, floor) && Ranked(b, floor)
    ensures Ranked(a + b, floor)
    decreases |a|
  {
    if a == [] {
      assert a + b == b;
    } else {
      hide Ranked;
      RankedFirst(a[0], a[1..], floor);
      assert a == [a[0]] + a[1..];
      RankedConcat(a[1..], b, floor);
      RankedFirst(a[0], a[1..] + b, floor);
      assert a + b == [a[0]] + (a[1..] + b);
    }
  }

  lemma RankedFirst(x: Section, rest: seq<Section>, floor: nat)
    ensures Ranked([x] + rest, floor) <==>
      FirstRanked(x, floor) && Ranked(x.body, Rank(x.m) + 1) && Ranked(rest, floor)
  {
    assert ([x] + rest)[1..] == rest;
  }

  // ---- the code paths ----

  /** addSender, removeSender, senderNumber, clearSenders and ~Buffer of one buffer. */
  function SendersOf(b: nat): Section { Lock(DestsMutex(b), []) }

  /** bufferSize, addBuffer, findBuffer and stop of one pool thread. */
  function ThreadMap(t: nat): Section { Lock(BufferMutex(t), []) }

  function Each(f: nat -> Section, xs: seq<nat>): seq<Section> {
    if xs == [] then [] else [f(xs[0])] + Each(f, xs[1..])
  }

  /** addsubStream: old buffers may be destroyed, a new one gets its sender, the sizes of pool
      threads are read in some order, one thread is loaded; a refusal does less or nothing. */
  function AddSub(n: nat, destroyed: seq<nat>, filled: seq<nat>, sizes: seq<nat>, loaded: seq<nat>): Section {
    Lock(StreamMutex(n),
         Each(SendersOf, destroyed) + Each(SendersOf, filled) + Each(ThreadMap, sizes) + Each(ThreadMap, loaded))
  }

  /** removesubStream: the map under mutex_, then the sender outside it. */
  function RemoveSub(n: nat, b: nat): seq<Section> { [Lock(StreamMutex(n), []), SendersOf(b)] }

  /** needClose. */
  function NeedClose(n: nat): Section { Lock(StreamMutex(n), []) }

  /** ~RealSteam: needClose, then the buffers that go with the stream. */
  function Destroy(n: nat, buffers: seq<nat>): seq<Section> { [NeedClose(n)] + Each(SendersOf, buffers) }

  /** Thread_wrapper::removeBuffer: counting and clearing senders, perhaps destroying buffers. */
  function ThreadRemove(t: nat, buffers: seq<nat>): Section {
    Lock(BufferMutex(t), Each(SendersOf, buffers))
  }

  /** What ThreadPool::removeBuffer does on one thread: a lookup, a removal under bufferMutex_ of
      the buffers listed, and after it, when the local pointer was the last, the destruction of
      buffers outside it. */
  datatype Removal = Removal(t: nat, cleared: seq<nat>, dropped: seq<nat>)

  function PoolRemove(removals: seq<Removal>): seq<Section> {
    if removals == [] then []
    else
      var x := removals[0];
      [ThreadMap(x.t), ThreadRemove(x.t, x.cleared)] + Each(SendersOf, x.dropped) + PoolRemove(removals[1..])
  }

  /** Buffer::processData with the given number of pops. */
  function ProcessData(b: nat, pops: nat): Section {
    Lock(DestsMutex(b), seq(pops, _ => Lock(PacketMutex(b), [])))
  }

  function Passes(work: seq<(nat, nat)>): seq<Section> {
    if work == [] then [] else [ProcessData(work[0].0, work[0].1)] + Passes(work[1..])
  }

  datatype Task =
    | AddStream(n: nat, destroyed: seq<nat>, filled: seq<nat>, sizes: seq<nat>, loaded: seq<nat>,
                submits: bool, dropped: bool)
    | CloseStream(n: nat, b: nat, last: bool, removals: seq<Removal>, destroyed: seq<nat>)
    | CloseUnknown
    | OpenJob(n: nat, b: nat, failed: bool, last: bool, destroyed: seq<nat>)
    | PopJob
    | WorkerPass(t: nat, work: seq<(nat, nat)>)
    | CameraPacket(b: nat)
    | StopThread(t: nat)

  /** The critical sections of one task, for any streams, buffers and threads involved.  User
      callbacks and the device are assumed to take none of these mutexes. */
  function Sections(task: Task): seq<Section> {
    match task
    case AddStream(n, destroyed, filled, sizes, loaded, submits, dropped) =>
      [Lock(Locker,
            [AddSub(n, destroyed, filled, sizes, loaded)]
            + (if dropped then Destroy(n, filled) else [])
            + if submits then [Lock(QueueMutex, [])] else [])]
    case CloseStream(n, b, last, removals, destroyed) =>
      [Lock(Locker,
            RemoveSub(n, b) + [SendersOf(b)] + [NeedClose(n)]
            + if last then PoolRemove(removals) + Destroy(n, destroyed) else [])]
    case CloseUnknown => [Lock(Locker, [])]
    case OpenJob(n, b, failed, last, destroyed) =>
      (if failed then RemoveSub(n, b) else []) + if last then Destroy(n, destroyed) else []
    case PopJob => [LockWhen(QueueMutex, JobQueued, [])]
    case WorkerPass(t, work) => [LockWhen(BufferMutex(t), HasWork(t), Passes(work))]
    case CameraPacket(b) => [Lock(PacketMutex(b), [])]
    case StopThread(t) => [ThreadMap(t)]
  }

  lemma {:induction false} EachRanked(f: nat -> Section, xs: seq<nat>, floor: nat)
    requires forall x: nat :: Ranked([f(x)], floor)
    ensures Ranked(Each(f, xs), floor)
    decreases |xs|
  {
    if xs != [] {
      EachRanked(f, xs[1..], floor);
      RankedConcat([f(xs[0])], Each(f, xs[1..]), floor);
    }
  }

  lemma OneRanked(m: Mutex, body: seq<Section>, floor: nat)
    requires floor <= Rank(m) && Ranked(body, Rank(m) + 1)
    ensures Ranked([Lock(m, body)], floor)
  {
    assert [Lock(m, body)][1..] == [];
  }

  lemma WaitRanked(m: Mutex, c: Condition, body: seq<Section>)
    requires Ranked(body, Rank(m) + 1)
    ensures Ranked([LockWhen(m, c, body)], 0)
  {
    assert [LockWhen(m, c, body)][1..] == [];
  }

  lemma SendersRanked(xs: seq<nat>, floor: nat)
    requires floor <= 3
    ensures Ranked(Each(SendersOf, xs), floor)
    ensures forall b: nat :: Ranked([SendersOf(b)], floor)
  {
    forall b: nat ensures Ranked([SendersOf(b)], floor) { OneRanked(DestsMutex(b), [], floor); }
    EachRanked(SendersOf, xs, floor);
  }

  lemma ThreadMapsRanked(xs: seq<nat>, floor: nat)
    requires floor <= 2
    ensures Ranked(Each(ThreadMap, xs), floor)
    ensures forall t: nat :: Ranked([ThreadMap(t)], floor)
  {
    forall t: nat ensures Ranked([ThreadMap(t)], floor) { OneRanked(BufferMutex(t), [], floor); }
    EachRanked(ThreadMap, xs, floor);
  }

  lemma AddSubRanked(n: nat, destroyed: seq<nat>, filled: seq<nat>, sizes: seq<nat>, loaded: seq<nat>)
    ensures Ranked([AddSub(n, destroyed, filled, sizes, loaded)], 1)
  {
    hide Ranked, Each;
    var a, b := Each(SendersOf, destroyed), Each(SendersOf, filled);
    var c, d := Each(ThreadMap, sizes), Each(ThreadMap, loaded);
    SendersRanked(destroyed, 2);
    SendersRanked(filled, 2);
    ThreadMapsRanked(sizes, 2);
    ThreadMapsRanked(loaded, 2);
    RankedConcat(a, b, 2);
    RankedConcat(a + b, c, 2);
    RankedConcat(a + b + c, d, 2);
    OneRanked(StreamMutex(n), a + b + c + d, 1);
  }

  lemma RemoveSubRanked(n: nat, b: nat)
    ensures Ranked(RemoveSub(n, b), 1) && Ranked([NeedClose(n)], 1)
  {
    SendersRanked([], 1);
    OneRanked(StreamMutex(n), [], 1);
    RankedConcat([Lock(StreamMutex(n), [])], [SendersOf(b)], 1);
    assert RemoveSub(n, b) == [Lock(StreamMutex(n), [])] + [SendersOf(b)];
  }

  lemma DestroyRanked(n: nat, buffers: seq<nat>)
    ensures Ranked(Destroy(n, buffers), 1)
  {
    RemoveSubRanked(n, 0);
    SendersRanked(buffers, 1);
    RankedConcat([NeedClose(n)], Each(SendersOf, buffers), 1);
  }

  lemma RemovalRanked(x: Removal)
    ensures Ranked([ThreadMap(x.t), ThreadRemove(x.t, x.cleared)] + Each(SendersOf, x.dropped), 1)
  {
    hide Ranked, Each;
    ThreadMapsRanked([], 1);
    SendersRanked(x.cleared, 3);
    SendersRanked(x.dropped, 1);
    OneRanked(BufferMutex(x.t), Each(SendersOf, x.cleared), 1);
    RankedConcat([ThreadMap(x.t)], [ThreadRemove(x.t, x.cleared)], 1);
    assert [ThreadMap(x.t)] + [ThreadRemove(x.t, x.cleared)] == [ThreadMap(x.t), ThreadRemove(x.t, x.cleared)];
    RankedConcat([ThreadMap(x.t), ThreadRemove(x.t, x.cleared)], Each(SendersOf, x.dropped), 1);
  }

  lemma {:induction false} PoolRemoveRanked(removals: seq<Removal>)
    ensures Ranked(PoolRemove(removals), 1)
    decreases |removals|
  {
    if removals != [] {
      hide Ranked, Each;
      var x := removals[0];
      RemovalRanked(x);
      PoolRemoveRanked(removals[1..]);
      RankedConcat([ThreadMap(x.t), ThreadRemove(x.t, x.cleared)] + Each(SendersOf, x.dropped),
                   PoolRemove(removals[1..]), 1);
    } else {
      EmptyRanked(1);
    }
  }

  lemma {:induction false} PopsRanked(b: nat, pops: nat)
    ensures Ranked(seq(pops, _ => Lock(PacketMutex(b), [])), 4)
  {
    if pops > 0 {
      PopsRanked(b, pops - 1);
      assert seq(pops, _ => Lock(PacketMutex(b), []))[1..] == seq(pops - 1, _ => Lock(PacketMutex(b), []));
    }
  }

  lemma {:induction false} PassesRanked(work: seq<(nat, nat)>)
    ensures Ranked(Passes(work), 3)
    decreases |work|
  {
    if work != [] {
      PopsRanked(work[0].0, work[0].1);
      OneRanked(DestsMutex(work[0].0), seq(work[0].1, _ => Lock(PacketMutex(work[0].0), [])), 3);
      PassesRanked(work[1..]);
      RankedConcat([ProcessData(work[0].0, work[0].1)], Passes(work[1..]), 3);
    }
  }

  lemma CloseRanked(n: nat, b: nat, last: bool, removals: seq<Removal>, destroyed: seq<nat>)
    ensures Ranked(Sections(CloseStream(n, b, last, removals, destroyed)), 0)
  {
    hide Ranked, RemoveSub, PoolRemove, Destroy;
    RemoveSubRanked(n, b);
    SendersRanked([], 1);
    PoolRemoveRanked(removals);
    DestroyRanked(n, destroyed);
    EmptyRanked(1);
    var end := if last then PoolRemove(removals) + Destroy(n, destroyed) else [];
    RankedConcat(PoolRemove(removals), Destroy(n, destroyed), 1);
    RankedConcat(RemoveSub(n, b), [SendersOf(b)], 1);
    RankedConcat(RemoveSub(n, b) + [SendersOf(b)], [NeedClose(n)], 1);
    RankedConcat(RemoveSub(n, b) + [SendersOf(b)] + [NeedClose(n)], end, 1);
    OneRanked(Locker, RemoveSub(n, b) + [SendersOf(b)] + [NeedClose(n)] + end, 0);
  }

  lemma AddStreamRanked(n: nat, destroyed: seq<nat>, filled: seq<nat>, sizes: seq<nat>, loaded: seq<nat>,
                        submits: bool, dropped: bool)
    ensures Ranked(Sections(AddStream(n, destroyed, filled, sizes, loaded, submits, dropped)), 0)
  {
    hide Ranked, AddSub, Destroy;
    AddSubRanked(n, destroyed, filled, sizes, loaded);
    DestroyRanked(n, filled);
    EmptyRanked(1);
    EmptyRanked(6);
    OneRanked(QueueMutex, [], 1);
    var a := [AddSub(n, destroyed, filled, sizes, loaded)];
    var b := if dropped then Destroy(n, filled) else [];
    var c := if submits then [Lock(QueueMutex, [])] else [];
    RankedConcat(a, b, 1);
    RankedConcat(a + b, c, 1);
    OneRanked(Locker, a + b + c, 0);
  }

  lemma EmptyRanked(floor: nat)
    ensures Ranked([], floor)
  {
  }

  lemma OpenJobRanked(n: nat, b: nat, failed: bool, last: bool, destroyed: seq<nat>)
    ensures Ranked(Sections(OpenJob(n, b, failed, last, destroyed)), 0)
  {
    hide Ranked, RemoveSub, Destroy;
    RemoveSubRanked(n, b);
    DestroyRanked(n, destroyed);
    EmptyRanked(1);
    var x, y := if failed then RemoveSub(n, b) else [], if last then Destroy(n, destroyed) else [];
    RankedConcat(x, y, 1);
    RankedWeaken(x + y, 1, 0);
  }

  // ---- which mutexes a task takes ----

  function Mutexes(todo: seq<Op>): set<Mutex> {
    set o | o in todo :: o.m
  }

  lemma MutexesBoth(a: seq<Op>, b: seq<Op>)
    ensures Mutexes(a + b) == Mutexes(a) + Mutexes(b)
  {
    forall o | o in a || o in b ensures o in a + b {}
  }

  lemma MutexesSingle(o: Op)
    ensures Mutexes([o]) == {o.m}
  {
    assert o in [o];
  }

  lemma MutexesFirst(secs: seq<Section>)
    requires secs != []
    ensures Mutexes(Ops(secs)) == {secs[0].m} + Mutexes(Ops(secs[0].body)) + Mutexes(Ops(secs[1..]))
  {
    hide Mutexes;
    var a, b, c, d := [Entry(secs[0])], Ops(secs[0].body), [Release(secs[0].m)], Ops(secs[1..]);
    MutexesBoth(a + b + c, d);
    MutexesBoth(a + b, c);
    MutexesBoth(a, b);
    MutexesSingle(Entry(secs[0]));
    MutexesSingle(Release(secs[0].m));
  }

  lemma {:induction false} MutexesConcat(a: seq<Section>, b: seq<Section>)
    ensures Mutexes(Ops(a + b)) == Mutexes(Ops(a)) + Mutexes(Ops(b))
    decreases |a|
  {
    hide Mutexes, Ops;
    if a == [] {
      NoMutexes();
      assert a + b == b;
    } else {
      MutexesConcat(a[1..], b);
      assert (a + b)[0] == a[0] && (a + b)[1..] == a[1..] + b;
      MutexesFirst(a + b);
      MutexesFirst(a);
    }
  }

  lemma MutexesOne(x: Section)
    ensures Mutexes(Ops([x])) == {x.m} + Mutexes(Ops(x.body))
  {
    MutexesFirst([x]);
    assert [x][1..] == [];
  }

  function AllDests(xs: seq<nat>): set<Mutex> { set x | x in xs :: DestsMutex(x) }
  function AllThreads(xs: seq<nat>): set<Mutex> { set x | x in xs :: BufferMutex(x) }

  lemma {:induction false} EachMutexes(xs: seq<nat>)
    ensures Mutexes(Ops(Each(SendersOf, xs))) == AllDests(xs)
    ensures Mutexes(Ops(Each(ThreadMap, xs))) == AllThreads(xs)
    decreases |xs|
  {
    hide Mutexes, Ops, AllDests, AllThreads;
    NoMutexes();
    AllFirst(xs);
    if xs != [] {
      EachMutexes(xs[1..]);
      MutexesConcat([SendersOf(xs[0])], Each(SendersOf, xs[1..]));
      MutexesConcat([ThreadMap(xs[0])], Each(ThreadMap, xs[1..]));
      MutexesOne(SendersOf(xs[0]));
      MutexesOne(ThreadMap(xs[0]));
    }
  }

  lemma AllFirst(xs: seq<nat>)
    ensures AllDests(xs) == if xs == [] then {} else {DestsMutex(xs[0])} + AllDests(xs[1..])
    ensures AllThreads(xs) == if xs == [] then {} else {BufferMutex(xs[0])} + AllThreads(xs[1..])
  {
    if xs != [] { assert xs == [xs[0]] + xs[1..]; }
  }

  function RemovalMutexes(removals: seq<Removal>): set<Mutex> {
    if removals == [] then {}
    else
      var x := removals[0];
      {BufferMutex(x.t)} + AllDests(x.cleared) + AllDests(x.dropped) + RemovalMutexes(removals[1..])
  }

  lemma {:induction false} PoolRemoveMutexes(removals: seq<Removal>)
    ensures Mutexes(Ops(PoolRemove(removals))) == RemovalMutexes(removals)
    decreases |removals|
  {
    if removals != [] {
      hide Mutexes, Ops, Each, AllDests;
      var x := removals[0];
      var two := [ThreadMap(x.t), ThreadRemove(x.t, x.cleared)];
      PoolRemoveMutexes(removals[1..]);
      EachMutexes(x.cleared);
      EachMutexes(x.dropped);
      NoMutexes();
      MutexesConcat(two + Each(SendersOf, x.dropped), PoolRemove(removals[1..]));
      MutexesConcat(two, Each(SendersOf, x.dropped));
      MutexesConcat([ThreadMap(x.t)], [ThreadRemove(x.t, x.cleared)]);
      assert two == [ThreadMap(x.t)] + [ThreadRemove(x.t, x.cleared)];
      MutexesOne(ThreadMap(x.t));
      MutexesOne(ThreadRemove(x.t, x.cleared));
    } else {
      NoMutexes();
    }
  }

  lemma NoMutexes()
    ensures Mutexes(Ops([])) == {}
  {
  }

  function PassMutexes(work: seq<(nat, nat)>): set<Mutex> {
    if work == [] then {}
    else
      {DestsMutex(work[0].0)} + (if work[0].1 > 0 then {PacketMutex(work[0].0)} else {}) + PassMutexes(work[1..])
  }

  lemma {:induction false} PopMutexes(b: nat, pops: nat)
    ensures Mutexes(Ops(seq(pops, _ => Lock(PacketMutex(b), [])))) == if pops > 0 then {PacketMutex(b)} else {}
  {
    var all := seq(pops, _ => Lock(PacketMutex(b), []));
    NoMutexes();
    if pops > 0 {
      PopMutexes(b, pops - 1);
      assert all[1..] == seq(pops - 1, _ => Lock(PacketMutex(b), []));
      MutexesFirst(all);
    }
  }

  lemma {:induction false} PassesMutexes(work: seq<(nat, nat)>)
    ensures Mutexes(Ops(Passes(work))) == PassMutexes(work)
    decreases |work|
  {
    NoMutexes();
    if work != [] {
      hide Mutexes, Ops;
      PassesMutexes(work[1..]);
      PopMutexes(work[0].0, work[0].1);
      MutexesConcat([ProcessData(work[0].0, work[0].1)], Passes(work[1..]));
      MutexesOne(ProcessData(work[0].0, work[0].1));
    }
  }

  /** The mutexes of each task, as its code names them. */
  function TaskMutexes(task: Task): set<Mutex> {
    match task
    case AddStream(n, destroyed, filled, sizes, loaded, submits, dropped) =>
      {Locker, StreamMutex(n)} + AllDests(destroyed) + AllDests(filled) + AllThreads(sizes) + AllThreads(loaded)
      + if submits then {QueueMutex} else {}
    case CloseStream(n, b, last, removals, destroyed) =>
      {Locker, StreamMutex(n), DestsMutex(b)} + if last then RemovalMutexes(removals) + AllDests(destroyed) else {}
    case CloseUnknown => {Locker}
    case OpenJob(n, b, failed, last, destroyed) =>
      (if failed then {StreamMutex(n), DestsMutex(b)} else {})
      + if last then {StreamMutex(n)} + AllDests(destroyed) else {}
    case PopJob => {QueueMutex}
    case WorkerPass(t, work) => {BufferMutex(t)} + PassMutexes(work)
    case CameraPacket(b) => {PacketMutex(b)}
    case StopThread(t) => {BufferMutex(t)}
  }

  lemma RemoveSubMutexes(n: nat, b: nat)
    ensures Mutexes(Ops(RemoveSub(n, b))) == {StreamMutex(n), DestsMutex(b)}
    ensures Mutexes(Ops([NeedClose(n)])) == {StreamMutex(n)} && Mutexes(Ops([SendersOf(b)])) == {DestsMutex(b)}
  {
    hide Mutexes, Ops;
    NoMutexes();
    MutexesOne(NeedClose(n));
    MutexesOne(SendersOf(b));
    MutexesConcat([Lock(StreamMutex(n), [])], [SendersOf(b)]);
    assert RemoveSub(n, b) == [Lock(StreamMutex(n), [])] + [SendersOf(b)];
  }

  lemma DestroyMutexes(n: nat, buffers: seq<nat>)
    ensures Mutexes(Ops(Destroy(n, buffers))) == {StreamMutex(n)} + AllDests(buffers)
  {
    hide Mutexes, Ops, Each, AllDests;
    RemoveSubMutexes(n, 0);
    EachMutexes(buffers);
    MutexesConcat([NeedClose(n)], Each(SendersOf, buffers));
  }

  lemma AddSubMutexes(n: nat, destroyed: seq<nat>, filled: seq<nat>, sizes: seq<nat>, loaded: seq<nat>)
    ensures Mutexes(Ops([AddSub(n, destroyed, filled, sizes, loaded)])) ==
      {StreamMutex(n)} + AllDests(destroyed) + AllDests(filled) + AllThreads(sizes) + AllThreads(loaded)
  {
    hide Mutexes, Ops, Each, AllDests, AllThreads;
    var a, b := Each(SendersOf, destroyed), Each(SendersOf, filled);
    var c, d := Each(ThreadMap, sizes), Each(ThreadMap, loaded);
    EachMutexes(destroyed);
    EachMutexes(filled);
    EachMutexes(sizes);
    EachMutexes(loaded);
    MutexesConcat(a, b);
    MutexesConcat(a + b, c);
    MutexesConcat(a + b + c, d);
    MutexesOne(AddSub(n, destroyed, filled, sizes, loaded));
  }

  lemma AddStreamMutexes(task: Task)
    requires task.AddStream?
    ensures Mutexes(Ops(Sections(task))) == TaskMutexes(task)
  {
    hide Mutexes, Ops, AddSub, Destroy, AllDests, AllThreads;
    NoMutexes();
    AddSubMutexes(task.n, task.destroyed, task.filled, task.sizes, task.loaded);
    DestroyMutexes(task.n, task.filled);
    MutexesOne(Lock(QueueMutex, []));
    var a := [AddSub(task.n, task.destroyed, task.filled, task.sizes, task.loaded)];
    var b := if task.dropped then Destroy(task.n, task.filled) else [];
    var c := if task.submits then [Lock(QueueMutex, [])] else [];
    MutexesConcat(a, b);
    MutexesConcat(a + b, c);
    MutexesOne(Lock(Locker, a + b + c));
  }

  lemma CloseStreamMutexes(task: Task)
    requires task.CloseStream?
    ensures Mutexes(Ops(Sections(task))) == TaskMutexes(task)
  {
    hide Mutexes, Ops, RemoveSub, PoolRemove, Destroy, AllDests, RemovalMutexes;
    NoMutexes();
    RemoveSubMutexes(task.n, task.b);
    PoolRemoveMutexes(task.removals);
    DestroyMutexes(task.n, task.destroyed);
    var a := RemoveSub(task.n, task.b);
    var end := if task.last then PoolRemove(task.removals) + Destroy(task.n, task.destroyed) else [];
    MutexesConcat(PoolRemove(task.removals), Destroy(task.n, task.destroyed));
    MutexesConcat(a, [SendersOf(task.b)]);
    MutexesConcat(a + [SendersOf(task.b)], [NeedClose(task.n)]);
    MutexesConcat(a + [SendersOf(task.b)] + [NeedClose(task.n)], end);
    MutexesOne(Lock(Locker, a + [SendersOf(task.b)] + [NeedClose(task.n)] + end));
  }

  /** Every task nests its sections by increasing rank. */
  lemma TaskRanked(task: Task)
    ensures Ranked(Sections(task), 0)
  {
    match task
    case AddStream(n, destroyed, filled, sizes, loaded, submits, dropped) =>
      AddStreamRanked(n, destroyed, filled, sizes, loaded, submits, dropped);
    case CloseStream(n, b, last, removals, destroyed) => CloseRanked(n, b, last, removals, destroyed);
    case CloseUnknown => OneRanked(Locker, [], 0);
    case OpenJob(n, b, failed, last, destroyed) => OpenJobRanked(n, b, failed, last, destroyed);
    case PopJob => WaitRanked(QueueMutex, JobQueued, []);
    case WorkerPass(t, work) =>
      PassesRanked(work);
      WaitRanked(BufferMutex(t), HasWork(t), Passes(work));
    case CameraPacket(b) => OneRanked(PacketMutex(b), [], 0);
    case StopThread(t) => OneRanked(BufferMutex(t), [], 0);
  }

  lemma {:induction false} RankedWeaken(secs: seq<Section>, floor: nat, lower: nat)
    requires Ranked(secs, floor) && lower <= floor
    ensures Ranked(secs, lower)
    decreases |secs|
  {
    if secs != [] { RankedWeaken(secs[1..], floor, lower); }
  }

  /** Every task takes exactly the mutexes its code names. */
  lemma TaskTakes(task: Task)
    ensures Mutexes(Ops(Sections(task))) == TaskMutexes(task)
  {
    hide Mutexes, Ops, RemoveSub, PoolRemove, Destroy, AddSub, Passes;
    hide AllDests, AllThreads, PassMutexes, RemovalMutexes;
    NoMutexes();
    match task
    case AddStream(_, _, _, _, _, _, _) => AddStreamMutexes(task);
    case CloseStream(_, _, _, _, _) => CloseStreamMutexes(task);
    case CloseUnknown => MutexesOne(Lock(Locker, []));
    case OpenJob(n, b, failed, last, destroyed) =>
      RemoveSubMutexes(n, b);
      DestroyMutexes(n, destroyed);
      MutexesConcat(if failed then RemoveSub(n, b) else [], if last then Destroy(n, destroyed) else []);
    case PopJob => MutexesOne(LockWhen(QueueMutex, JobQueued, []));
    case WorkerPass(t, work) =>
      PassesMutexes(work);
      MutexesOne(LockWhen(BufferMutex(t), HasWork(t), Passes(work)));
    case CameraPacket(b) => MutexesOne(Lock(PacketMutex(b), []));
    case StopThread(t) => MutexesOne(ThreadMap(t));
  }

  lemma {:induction false} RankedAbove(secs: seq<Section>, floor: nat)
    requires Ranked(secs, floor)
    ensures forall m :: m in Mutexes(Ops(secs)) ==> Rank(m) >= floor
    decreases secs
  {
    hide Mutexes, Ops;
    if secs == [] {
      NoMutexes();
    } else {
      RankedAbove(secs[0].body, Rank(secs[0].m) + 1);
      RankedAbove(secs[1..], floor);
      MutexesFirst(secs);
    }
  }

  /** A request takes locker_ first, gives it back last, and does all it does in between. */
  lemma RequestUnderLocker(task: Task)
    requires task.AddStream? || task.CloseStream? || task.CloseUnknown?
    ensures exists inside ::
      Ops(Sections(task)) == [Acquire(Locker)] + inside + [Release(Locker)] && Locker !in Mutexes(inside)
  {
    hide Mutexes, Sections, Ops, Ranked;
    var body := RequestBody(task);
    TaskRanked(task);
    LockerRanked(body);
    RankedAbove(body, 1);
    LockerOps(body);
  }

  lemma RequestBody(task: Task) returns (body: seq<Section>)
    requires task.AddStream? || task.CloseStream? || task.CloseUnknown?
    ensures Sections(task) == [Lock(Locker, body)]
  {
    body := Sections(task)[0].body;
  }

  lemma LockerRanked(body: seq<Section>)
    requires Ranked([Lock(Locker, body)], 0)
    ensures Ranked(body, 1)
  {
  }

  lemma LockerOps(body: seq<Section>)
    ensures Ops([Lock(Locker, body)]) == [Acquire(Locker)] + Ops(body) + [Release(Locker)]
  {
    assert [Lock(Locker, body)][1..] == [];
    assert Ops([]) == [];
  }

  /** The operations of a thread that runs a list of tasks. */
  function Program(tasks: seq<Task>): seq<Op> {
    if tasks == [] then [] else Ops(Sections(tasks[0])) + Program(tasks[1..])
  }

  lemma {:induction false} ProgramDisciplined(tasks: seq<Task>)
    ensures Disciplined({}, Program(tasks))
    decreases |tasks|
  {
    if tasks != [] {
      ProgramDisciplined(tasks[1..]);
      TaskRanked(tasks[0]);
      RankedIsDisciplined({}, Sections(tasks[0]), 0, Program(tasks[1..]));
    }
  }

  function Start(programs: seq<seq<Task>>, met: set<Condition>): State {
    State(seq(|programs|, i requires 0 <= i < |programs| => Thread({}, Program(programs[i]))), met)
  }

  lemma StartInv(programs: seq<seq<Task>>, met: set<Condition>)
    ensures Inv(Start(programs, met))
  {
    forall i | 0 <= i < |programs| ensures Disciplined({}, Program(programs[i])) {
      ProgramDisciplined(programs[i]);
    }
  }

  /** Any number of threads, each running any tasks, under any schedule: no mutex is ever held by
      two of them. */
  lemma MutualExclusion(programs: seq<seq<Task>>, met: set<Condition>, schedule: seq<Move>, i: nat, j: nat, m: Mutex)
    ensures var s := Run(Start(programs, met), schedule);
      i < |s.threads| && j < |s.threads| && m in s.threads[i].held && m in s.threads[j].held ==> i == j
  {
    hide Start;
    StartInv(programs, met);
    RunInv(Start(programs, met), schedule);
  }

  /** And no threads wait for one another in a circle. */
  lemma NoDeadlock(programs: seq<seq<Task>>, met: set<Condition>, schedule: seq<Move>, c: seq<nat>)
    requires Chain(Run(Start(programs, met), schedule), c)
    ensures c[0] != c[|c| - 1] && |c| <= RANKS + 1
  {
    StartInv(programs, met);
    RunInv(Start(programs, met), schedule);
    NoWaitCycle(Run(Start(programs, met), schedule), c);
  }

  /** And a thread that waits for a condition holds no mutex; as long as some thread with work
      left does not wait for a condition, some thread can take its next step. */
  lemma AlwaysProgress(programs: seq<seq<Task>>, met: set<Condition>, schedule: seq<Move>)
    ensures var s := Run(Start(programs, met), schedule);
      && (forall i: nat :: Parked(s, i) ==> s.threads[i].held == {})
      && ((exists i: nat :: i < |s.threads| && s.threads[i].todo != [] && !Parked(s, i))
          <==> exists j: nat :: CanStep(s, j))
  {
    StartInv(programs, met);
    RunInv(Start(programs, met), schedule);
    var s := Run(Start(programs, met), schedule);
    forall i: nat | Parked(s, i) ensures s.threads[i].held == {} {
      assert Disciplined(s.threads[i].held, s.threads[i].todo);
    }
    if i: nat :| i < |s.threads| && s.threads[i].todo != [] && !Parked(s, i) {
      var j := SomeoneCanStep(s, i);
    }
  }

  /** So from wherever a schedule has brought them, once the conditions still waited for hold, all
      the threads can run to the end of all their tasks, and then no mutex is held. */
  lemma EverythingCanFinish(programs: seq<seq<Task>>, met: set<Condition>, schedule: seq<Move>)
    requires AllMet(Run(Start(programs, met), schedule))
    ensures exists more: seq<Move> ::
      (forall v :: v in more ==> v.Go?) && Finished(Run(Run(Start(programs, met), schedule), more))
  {
    hide Inv, AllMet, Finished, Start;
    StartInv(programs, met);
    RunInv(Start(programs, met), schedule);
    var more := CanFinish(Run(Start(programs, met), schedule));
  }
}
