/** Sending: RTPSender cuts a packet into RTP payloads, and Buffer hands its queued packets to
    its senders. */
module Delivery {
  import opened Common

  type Packet = seq<U8>
  type CallId = string

  const PAYLOAD: nat := 1400
  const TICKS: nat := 3600

  /** One SendPacket call: payload and timestamp increment (payload type 96, no mark). */
  datatype Fragment = Fragment(payload: Packet, increment: nat)

  // ---- RTPSender::send ----

  /** The calls send makes for one packet. */
  function Fragments(data: Packet): seq<Fragment>
    decreases |data|
  {
    if |data| >= PAYLOAD then [Fragment(data[..PAYLOAD], 0)] + Fragments(data[PAYLOAD..])
    else if |data| > 0 then [Fragment(data, TICKS)]
    else []
  }

  function Payloads(fs: seq<Fragment>): seq<Packet> {
    if fs == [] then [] else [fs[0].payload] + Payloads(fs[1..])
  }

  function Advance(fs: seq<Fragment>): nat {
    if fs == [] then 0 else fs[0].increment + Advance(fs[1..])
  }

  /** The fragments are the packet, in order, and nothing else. */
  lemma {:induction false} FragmentsReassemble(data: Packet)
    ensures Flatten(Payloads(Fragments(data))) == data
    decreases |data|
  {
    if |data| >= PAYLOAD {
      var rest := Fragments(data[PAYLOAD..]);
      FragmentsReassemble(data[PAYLOAD..]);
      assert Fragments(data)[1..] == rest;
      assert Payloads(Fragments(data)) == [data[..PAYLOAD]] + Payloads(rest);
      assert Payloads(Fragments(data))[1..] == Payloads(rest);
      assert data == data[..PAYLOAD] + data[PAYLOAD..];
    } else if |data| > 0 {
      assert Fragments(data)[1..] == [];
      assert Payloads(Fragments(data)) == [data];
      assert Flatten([data]) == data + Flatten([]);
    }
  }

  /** A fragment send may make: never empty, never over 1400 bytes, and carrying an increment
      exactly when it is short. */
  predicate WellSized(f: Fragment) {
    0 < |f.payload| <= 1400 && f.increment == if |f.payload| < 1400 then 3600 else 0
  }

  /** Only the last fragment can be short. */
  lemma {:induction false} FragmentSizes(data: Packet, i: nat)
    requires i < |Fragments(data)|
    ensures WellSized(Fragments(data)[i])
    ensures i < |Fragments(data)| - 1 ==> |Fragments(data)[i].payload| == 1400
    decreases |data|
  {
    if |data| >= PAYLOAD && i > 0 {
      FragmentSizes(data[PAYLOAD..], i - 1);
      assert Fragments(data)[i] == Fragments(data[PAYLOAD..])[i - 1];
    }
  }

  /** A packet moves the RTP timestamp on by 3600 exactly when its length is not a multiple of
      1400: a packet that fills its last fragment leaves the timestamp where it was. */
  lemma {:induction false} TimestampAdvance(data: Packet)
    ensures Advance(Fragments(data)) == if |data| % 1400 == 0 then 0 else 3600
    decreases |data|
  {
    if |data| >= PAYLOAD {
      TimestampAdvance(data[PAYLOAD..]);
      assert Fragments(data)[1..] == Fragments(data[PAYLOAD..]);
      assert |data| % PAYLOAD == (|data| - PAYLOAD) % PAYLOAD;
    } else if |data| > 0 {
      assert Fragments(data)[1..] == [];
    }
  }

  class RtpSender {
    /** The SendPacket calls made on the session, in order. */
    var sent: seq<Fragment>

    constructor ()
      ensures sent == []
    {
      sent := [];
    }

    method SendPacket(payload: Packet, increment: nat)
      modifies this
      ensures sent == old(sent) + [Fragment(payload, increment)]
    {
      sent := sent + [Fragment(payload, increment)];
    }

    method Send(data: Packet)
      modifies this
      ensures sent == old(sent) + Fragments(data)
    {
      var p, len := 0, |data|;
      assert data[0..] == data;
      while len >= PAYLOAD
        invariant 0 <= p <= |data| && p + len == |data|
        invariant sent + Fragments(data[p..]) == old(sent) + Fragments(data)
      {
        assert data[p..][..PAYLOAD] == data[p..p + PAYLOAD];
        assert data[p..][PAYLOAD..] == data[p + PAYLOAD..];
        SendPacket(data[p..p + PAYLOAD], 0);
        p := p + PAYLOAD;
        len := len - PAYLOAD;
      }
      if len > 0 {
        assert data[p..p + len] == data[p..];
        SendPacket(data[p..p + len], TICKS);
      }
    }
  }

  // ---- a buffer and the threads around it ----

  /** One send call: to which sender, under which call id, which packet. */
  datatype Sent<+S> = Sent(callid: CallId, sender: S, packet: Packet)

  /** processData holds destsmutex_ for a whole pass over the senders; between its turns, and
      between taking a packet and sending it, other threads may push. */
  datatype Pass = Outside | Between(left: set<CallId>) | Holding(left: set<CallId>, callid: CallId, packet: Packet)

  datatype State<S> = State(
    packets: seq<Packet>,            // packetQueue_
    senders: map<CallId, S>,         // senders_
    pass: Pass,
    log: seq<Sent<S>>,               // the send calls made, in order
    out: map<S, seq<Fragment>>)      // what each sender object has made of them

  datatype Event<+S> =
    | Push(packet: Packet)
    | Add(callid: CallId, sender: S)
    | Remove(callid: CallId)
    | Clear
    | Enter
    | Pop(callid: CallId)            // the turn of one of the senders not yet served in this pass
    | Send
    | Leave

  function Given<S(==)>(out: map<S, seq<Fragment>>, k: S): seq<Fragment> {
    if k in out then out[k] else []
  }

  /** An event that is not enabled leaves the state as it is: the senders wait for the end of a
      pass, a push never waits. */
  function Step<S(==)>(s: State<S>, e: Event<S>): State<S> {
    match e
    case Push(p) => s.(packets := s.packets + [p])
    case Add(c, k) => if s.pass.Outside? && c !in s.senders then s.(senders := s.senders[c := k]) else s
    case Remove(c) => if s.pass.Outside? then s.(senders := s.senders - {c}) else s
    case Clear => if s.pass.Outside? then s.(senders := map[]) else s
    case Enter => if s.pass.Outside? then s.(pass := Between(s.senders.Keys)) else s
    case Pop(c) =>
      if !s.pass.Between? || c !in s.pass.left then s
      else if s.packets == [] then s.(pass := Between(s.pass.left - {c}))
      else s.(pass := Holding(s.pass.left - {c}, c, s.packets[0]), packets := s.packets[1..])
    case Send =>
      if !s.pass.Holding? || s.pass.callid !in s.senders then s
      else
        var k := s.senders[s.pass.callid];
        s.(pass := Between(s.pass.left),
           log := s.log + [Sent(s.pass.callid, k, s.pass.packet)],
           out := s.out[k := Given(s.out, k) + Fragments(s.pass.packet)])
    case Leave => if s.pass == Between({}) then s.(pass := Outside) else s
  }

  function Run<S(==)>(s: State<S>, events: seq<Event<S>>): State<S>
    decreases |events|
  {
    if events == [] then s else Run(Step(s, events[0]), events[1..])
  }

  lemma {:induction false} RunConcat<S>(s: State<S>, a: seq<Event<S>>, b: seq<Event<S>>)
    ensures Run(s, a + b) == Run(Run(s, a), b)
    decreases |a|
  {
    hide Step;
    if a == [] {
      assert a + b == b;
    } else {
      assert (a + b)[1..] == a[1..] + b;
      RunConcat(Step(s, a[0]), a[1..], b);
    }
  }

  function Start<S>(): State<S> {
    State([], map[], Outside, [], map[])
  }

  /** The packets other threads pushed in a run, in order. */
  function Pushed<S>(events: seq<Event<S>>): seq<Packet>
    decreases |events|
  {
    if events == [] then []
    else (if events[0].Push? then [events[0].packet] else []) + Pushed(events[1..])
  }

  function PacketsOf<S>(log: seq<Sent<S>>): seq<Packet> {
    seq(|log|, i requires 0 <= i < |log| => log[i].packet)
  }

  /** The fragments of the packets sent to sender k, in order. */
  function FragmentsTo<S(==)>(log: seq<Sent<S>>, k: S): seq<Fragment> {
    if log == [] then []
    else
      var n := |log| - 1;
      FragmentsTo(log[..n], k) + if log[n].sender == k then Fragments(log[n].packet) else []
  }

  lemma FragmentsToLast<S>(log: seq<Sent<S>>, x: Sent<S>, k: S)
    ensures FragmentsTo(log + [x], k) == FragmentsTo(log, k) + if x.sender == k then Fragments(x.packet) else []
  {
    assert (log + [x])[..|log|] == log;
  }

  /** A packet taken and not yet sent. */
  function InHand(pass: Pass): seq<Packet> {
    if pass.Holding? then [pass.packet] else []
  }

  /** Everything that came into the buffer, in order. */
  function Seen<S>(s: State<S>): seq<Packet> {
    PacketsOf(s.log) + InHand(s.pass) + s.packets
  }

  /** A pass under way is over senders still there. */
  ghost predicate PassOk<S>(s: State<S>) {
    match s.pass
    case Outside => true
    case Between(left) => left <= s.senders.Keys
    case Holding(left, c, _) => left <= s.senders.Keys && c in s.senders && c !in left
  }

  /** One step adds to what has come in exactly what it pushes. */
  lemma StepConserves<S>(s: State<S>, e: Event<S>)
    requires PassOk(s)
    ensures PassOk(Step(s, e))
    ensures Seen(Step(s, e)) == Seen(s) + if e.Push? then [e.packet] else []
  {
    hide Fragments;
    var s' := Step(s, e);
    if e.Send? && s.pass.Holding? {
      assert PacketsOf(s'.log) == PacketsOf(s.log) + [s.pass.packet];
    } else {
      assert s'.log == s.log;
      if e.Pop? && s.pass.Between? && s.packets != [] && e.callid in s.pass.left {
        assert s.packets == [s.packets[0]] + s.packets[1..];
      }
    }
  }

  /** And keeps each sender's fragments those of its own packets. */
  lemma StepFragments<S>(s: State<S>, e: Event<S>, k: S)
    requires Given(s.out, k) == FragmentsTo(s.log, k)
    ensures Given(Step(s, e).out, k) == FragmentsTo(Step(s, e).log, k)
  {
    hide Fragments, FragmentsTo;
    if e.Send? && s.pass.Holding? && s.pass.callid in s.senders {
      FragmentsToLast(s.log, Sent(s.pass.callid, s.senders[s.pass.callid], s.pass.packet), k);
    }
  }

  lemma {:induction false} RunConserves<S>(s: State<S>, events: seq<Event<S>>)
    requires PassOk(s)
    ensures PassOk(Run(s, events)) && Seen(Run(s, events)) == Seen(s) + Pushed(events)
    decreases |events|
  {
    hide Step, Seen, PassOk;
    if events == [] {
      assert Seen(s) + Pushed(events) == Seen(s);
    } else {
      StepConserves(s, events[0]);
      RunConserves(Step(s, events[0]), events[1..]);
      var first := if events[0].Push? then [events[0].packet] else [];
      Regroup(Seen(s), first, Pushed(events[1..]));
    }
  }

  lemma Regroup<T>(a: seq<T>, b: seq<T>, c: seq<T>)
    ensures (a + b) + c == a + (b + c)
  {
  }

  lemma {:induction false} RunFragments<S>(s: State<S>, events: seq<Event<S>>, k: S)
    requires Given(s.out, k) == FragmentsTo(s.log, k)
    ensures Given(Run(s, events).out, k) == FragmentsTo(Run(s, events).log, k)
    decreases |events|
  {
    hide Step, Given, FragmentsTo;
    if events != [] {
      StepFragments(s, events[0], k);
      RunFragments(Step(s, events[0]), events[1..], k);
    }
  }

  /** For every interleaving of pushes, sender changes and passes, from an empty buffer: the
      packets sent, then one that may be in hand, then the queue, are the packets pushed, in
      order.  So the i-th packet pushed is the one of the i-th send call or of none, and goes to
      one sender only; and what sender k makes are the fragments of its own packets. */
  lemma DeliveryTheorem<S>(events: seq<Event<S>>, k: S)
    ensures var s := Run(Start(), events);
      && PacketsOf(s.log) + InHand(s.pass) + s.packets == Pushed(events)
      && |s.log| <= |Pushed(events)|
      && (forall i :: 0 <= i < |s.log| ==> s.log[i].packet == Pushed(events)[i])
      && Given(s.out, k) == FragmentsTo(s.log, k)
  {
    hide Step, Run, Pushed;
    RunConserves(Start<S>(), events);
    RunFragments(Start<S>(), events, k);
    var s := Run(Start<S>(), events);
    assert Seen(s) == Pushed(events);
    forall i | 0 <= i < |s.log| ensures s.log[i].packet == Pushed(events)[i] {
      assert PacketsOf(s.log)[i] == s.log[i].packet;
    }
  }

  /** From any point of a run at which call id c has no sender, no packet is sent under c until
      a sender is added under it again. */
  lemma {:induction false} RemovedGetsNothing<S>(s: State<S>, events: seq<Event<S>>, c: CallId)
    requires PassOk(s) && c !in s.senders
    requires forall e :: e in events && e.Add? ==> e.callid != c
    ensures var s' := Run(s, events);
      && c !in s'.senders && s.log <= s'.log
      && forall i :: |s.log| <= i < |s'.log| ==> s'.log[i].callid != c
    decreases |events|
  {
    hide Seen, Fragments, Pushed;
    if events != [] {
      var e := events[0];
      assert e in events;
      StepConserves(s, e);
      RemovedGetsNothing(Step(s, e), events[1..], c);
    }
  }

  /** The senders change between passes only, and then by what the event says: adding gives a call
      id that has none the new sender, removing and clearing take them away, and no other call id
      is touched. */
  lemma StepSenders<S>(s: State<S>, e: Event<S>)
    ensures var s' := Step(s, e);
      && (!s.pass.Outside? || !(e.Add? || e.Remove? || e.Clear?) ==> s'.senders == s.senders)
      && (s.pass.Outside? && e.Add? ==>
            e.callid in s'.senders
            && s'.senders[e.callid] == if e.callid in s.senders then s.senders[e.callid] else e.sender)
      && (s.pass.Outside? && e.Remove? ==> e.callid !in s'.senders)
      && (s.pass.Outside? && e.Clear? ==> s'.senders == map[])
      && (forall c :: (e.Add? || e.Remove?) && c != e.callid ==>
            (c in s'.senders <==> c in s.senders) && (c in s.senders ==> s'.senders[c] == s.senders[c]))
      && (s'.pass.Outside? && !s.pass.Outside? ==> e.Leave? && s.pass == Between({}))
  {
    hide Fragments;
  }

  // ---- one pass, with whatever is pushed meanwhile ----

  /** The send calls of a pass over the senders in the given order, when arrivals(i) is pushed
      just before the i-th packet is taken, and the queue it leaves. */
  function Turns<S>(senders: map<CallId, S>, order: seq<CallId>, queue: seq<Packet>, arrivals: nat -> seq<Packet>)
    : (r: (seq<Sent<S>>, seq<Packet>))
    requires forall c :: c in order ==> c in senders
  {
    if order == [] then ([], queue)
    else
      var n := |order| - 1;
      var (log, rest) := Turns(senders, order[..n], queue, arrivals);
      var q := rest + arrivals(n);
      if q == [] then (log, q) else (log + [Sent(order[n], senders[order[n]], q[0])], q[1..])
  }

  /** When nothing is pushed meanwhile, the i-th sender of the order is sent the i-th packet of
      the queue, as long as there are both, and the rest of the queue stays. */
  lemma {:induction false} TurnsShareOut<S>(senders: map<CallId, S>, order: seq<CallId>, queue: seq<Packet>,
                                            arrivals: nat -> seq<Packet>)
    requires (forall c :: c in order ==> c in senders) && forall i: nat :: arrivals(i) == []
    ensures var (log, rest) := Turns(senders, order, queue, arrivals);
      && |log| == (if |order| < |queue| then |order| else |queue|) && rest == queue[|log|..]
      && forall i :: 0 <= i < |log| ==> log[i] == Sent(order[i], senders[order[i]], queue[i])
    decreases |order|
  {
    if order != [] {
      var n := |order| - 1;
      TurnsShareOut(senders, order[..n], queue, arrivals);
      var rest := Turns(senders, order[..n], queue, arrivals).1;
      assert rest + arrivals(n) == rest;
    }
  }

  function Pushes<S>(packets: seq<Packet>): seq<Event<S>> {
    seq(|packets|, i requires 0 <= i < |packets| => Push(packets[i]))
  }

  function TurnEvents<S>(order: seq<CallId>, arrivals: nat -> seq<Packet>): seq<Event<S>> {
    if order == [] then []
    else
      var n := |order| - 1;
      TurnEvents<S>(order[..n], arrivals) + Pushes<S>(arrivals(n)) + [Pop(order[n]), Send]
  }

  /** The order has every sender, once. */
  ghost predicate Enumerates(order: seq<CallId>, keys: set<CallId>) {
    && (forall c :: c in order <==> c in keys)
    && forall i, j :: 0 <= i < j < |order| ==> order[i] != order[j]
  }

  lemma {:induction false} RunPushes<S>(s: State<S>, packets: seq<Packet>)
    ensures Run(s, Pushes<S>(packets)) == s.(packets := s.packets + packets)
    decreases |packets|
  {
    if packets == [] {
      assert s.packets + [] == s.packets;
    } else {
      assert Pushes<S>(packets)[1..] == Pushes<S>(packets[1..]);
      RunPushes(s.(packets := s.packets + [packets[0]]), packets[1..]);
      assert s.packets + [packets[0]] + packets[1..] == s.packets + packets;
    }
  }

  /** A pass that no change of senders interrupts, which none can, makes those calls. */
  lemma {:induction false} TurnsAreSteps<S>(s: State<S>, order: seq<CallId>, left: set<CallId>,
                                            arrivals: nat -> seq<Packet>)
    requires s.pass == Between(left) && left <= s.senders.Keys
    requires (forall c :: c in order ==> c in left) && forall i, j :: 0 <= i < j < |order| ==> order[i] != order[j]
    ensures var s' := Run(s, TurnEvents<S>(order, arrivals));
      var (log, rest) := Turns(s.senders, order, s.packets, arrivals);
      && s'.pass == Between(left - set c | c in order)
      && s'.senders == s.senders && s'.packets == rest && s'.log == s.log + log
    decreases |order|
  {
    hide Fragments;
    if order == [] {
      assert left - (set c | c in order) == left;
      assert s.log + [] == s.log;
    } else {
      var n := |order| - 1;
      var c, before := order[n], order[..n];
      TurnsAreSteps(s, before, left, arrivals);
      var s1 := Run(s, TurnEvents<S>(before, arrivals));
      var s2 := s1.(packets := s1.packets + arrivals(n));
      RunPushes(s1, arrivals(n));
      RunConcat(s, TurnEvents<S>(before, arrivals), Pushes<S>(arrivals(n)));
      RunConcat(s, TurnEvents<S>(before, arrivals) + Pushes<S>(arrivals(n)), [Pop(c), Send]);
      OneTurn(s2, c);
      assert forall d :: d in order <==> d in before || d == c;
      assert left - (set d | d in order) == left - (set d | d in before) - {c};
    }
  }

  lemma OneTurn<S>(s: State<S>, c: CallId)
    requires s.pass.Between? && c in s.pass.left && s.pass.left <= s.senders.Keys
    ensures Run(s, [Pop(c), Send]) == Step(Step(s, Pop(c)), Send)
    ensures var s' := Step(Step(s, Pop(c)), Send);
      && s'.pass == Between(s.pass.left - {c}) && s'.senders == s.senders
      && (s.packets == [] ==> s'.packets == [] && s'.log == s.log)
      && (s.packets != [] ==>
            s'.packets == s.packets[1..] && s'.log == s.log + [Sent(c, s.senders[c], s.packets[0])])
  {
    hide Fragments;
    var turn: seq<Event<S>> := [Pop(c), Send];
    assert turn[1..] == [Send];
    assert Run(Step(s, Pop(c)), [Send]) == Step(Step(s, Pop(c)), Send);
  }

  /** So processData, whatever is pushed during it, is a run of the steps that enters a pass,
      gives every sender its turn and leaves. */
  lemma PassIsRun<S>(s: State<S>, order: seq<CallId>, arrivals: nat -> seq<Packet>)
    requires s.pass.Outside? && Enumerates(order, s.senders.Keys)
    ensures var s' := Run(s, [Enter] + TurnEvents<S>(order, arrivals) + [Leave]);
      var (log, rest) := Turns(s.senders, order, s.packets, arrivals);
      && s'.pass.Outside? && s'.senders == s.senders && s'.packets == rest && s'.log == s.log + log
  {
    hide Turns, TurnEvents, Fragments;
    var turns := TurnEvents<S>(order, arrivals);
    var s1 := Step(s, Enter);
    TurnsAreSteps(s1, order, s.senders.Keys, arrivals);
    RunConcat(s, [Enter] + turns, [Leave]);
    assert ([Enter] + turns)[1..] == turns;
    var s2 := Run(s1, turns);
    assert s2.pass == Between({}) by { assert s.senders.Keys - (set c | c in order) == {}; }
    assert Run(s2, [Leave]) == Run(Step(s2, Leave), []) == Step(s2, Leave);
  }

  // ---- the class ----

  class Buffer {
    var senders: map<CallId, RtpSender>
    var packets: seq<Packet>
    /** The number under which the step system knows this buffer. */
    ghost const serial: nat

    constructor (ghost number: nat)
      ensures senders == map[] && packets == [] && serial == number
    {
      senders, packets, serial := map[], [], number;
    }

    /** std::map::emplace: an existing sender under the same call id stays. */
    method AddSender(callid: CallId, sender: RtpSender)
      modifies this`senders
      ensures senders == if callid in old(senders) then old(senders) else old(senders)[callid := sender]
    {
      if callid !in senders { senders := senders[callid := sender]; }
    }

    method RemoveSender(callid: CallId)
      modifies this`senders
      ensures senders == old(senders) - {callid}
    {
      senders := senders - {callid};
    }

    method ClearSenders()
      modifies this`senders
      ensures senders == map[]
    {
      senders := map[];
    }

    method SenderNumber() returns (n: nat)
      ensures n == 0 <==> senders == map[]
    {
      n := |senders|;
      if n == 0 { assert senders.Keys == {}; }
    }

    method PushPacket(p: Packet)
      modifies this`packets
      ensures packets == old(packets) + [p]
    {
      packets := packets + [p];
    }

    /** The front packet, or None when the queue is empty. */
    method PopPacket() returns (p: Option<Packet>)
      modifies this`packets
      ensures p.None? <==> old(packets) == []
      ensures old(packets) == (if p.Some? then [p.value] else []) + packets
    {
      if packets == [] { return None; }
      p := Some(packets[0]);
      packets := packets[1..];
    }

    /** The turn of one sender, after other threads have pushed `arrived`. */
    method ServeOne(sender: RtpSender, arrived: seq<Packet>) returns (p: Option<Packet>)
      modifies this`packets, sender
      ensures var q := old(packets) + arrived;
        if q == [] then p == None && packets == [] && sender.sent == old(sender.sent)
        else p == Some(q[0]) && packets == q[1..] && sender.sent == old(sender.sent) + Fragments(q[0])
    {
      packets := packets + arrived;
      p := PopPacket();
      if p.Some? { sender.Send(p.value); }
    }

    /** The call ids in the order the map yields them. */
    method Order() returns (order: seq<CallId>)
      ensures Enumerates(order, senders.Keys)
    {
      order := [];
      var rest := senders.Keys;
      while rest != {}
        invariant rest <= senders.Keys && Enumerates(order, senders.Keys - rest)
        decreases |rest|
      {
        var c :| c in rest;
        EnumeratesMore(order, senders.Keys - rest, c);
        assert senders.Keys - rest + {c} == senders.Keys - (rest - {c});
        rest := rest - {c};
        order := order + [c];
      }
      assert senders.Keys - rest == senders.Keys;
    }

    /** One pass, in the order the map yields the senders, while other threads push arrivals(i)
        before the i-th packet is taken. */
    method ProcessData(arrivals: nat -> seq<Packet>)
      returns (order: seq<CallId>, ghost calls: seq<Sent<RtpSender>>)
      modifies this`packets, senders.Values
      ensures Enumerates(order, senders.Keys)
      ensures (calls, packets) == Turns(senders, order, old(packets), arrivals)
      ensures forall k :: k in senders.Values ==> k.sent == old(k.sent) + FragmentsTo(calls, k)
    {
      hide Fragments, FragmentsTo, Turns;
      order := Order();
      assert forall c :: c in order ==> c in senders;
      hide Enumerates;
      calls := [];
      NothingSent();
      NoTurns(senders, packets, arrivals);
      assert order[..0] == [];
      for i := 0 to |order|
        invariant (calls, packets) == Turns(senders, order[..i], old(packets), arrivals)
        invariant forall k :: k in senders.Values ==> k.sent == old(k.sent) + FragmentsTo(calls, k)
      {
        var sender := senders[order[i]];
        TurnsMore(senders, order[..i], order[i], old(packets), arrivals);
        assert order[..i] + [order[i]] == order[..i + 1];
        var p := ServeOne(sender, arrivals(i));
        if p.Some? {
          var call := Sent(order[i], sender, p.value);
          forall k | k in senders.Values
            ensures FragmentsTo(calls + [call], k) ==
              FragmentsTo(calls, k) + if k == sender then Fragments(p.value) else []
          {
            FragmentsToLast(calls, call, k);
          }
          calls := calls + [call];
        }
      }
      assert order[..|order|] == order;
    }
  }

  lemma NothingSent()
    ensures forall k: RtpSender :: FragmentsTo<RtpSender>([], k) == []
  {
  }

  lemma NoTurns<S>(senders: map<CallId, S>, queue: seq<Packet>, arrivals: nat -> seq<Packet>)
    ensures Turns(senders, [], queue, arrivals) == ([], queue)
  {
  }

  lemma TurnsMore<S>(senders: map<CallId, S>, order: seq<CallId>, c: CallId, queue: seq<Packet>,
                     arrivals: nat -> seq<Packet>)
    requires (forall d :: d in order ==> d in senders) && c in senders
    ensures var (log, rest) := Turns(senders, order, queue, arrivals);
      var q := rest + arrivals(|order|);
      Turns(senders, order + [c], queue, arrivals) ==
        if q == [] then (log, q) else (log + [Sent(c, senders[c], q[0])], q[1..])
  {
    assert (order + [c])[..|order|] == order;
  }

  lemma EnumeratesMore(order: seq<CallId>, keys: set<CallId>, c: CallId)
    requires Enumerates(order, keys) && c !in keys
    ensures Enumerates(order + [c], keys + {c})
  {
  }
}
