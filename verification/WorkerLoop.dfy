/** One pool thread's loop against the rest of the program: a pass over the buffers is made
    while holding bufferMutex_, and stop, addBuffer and removeBuffer need the same mutex. */
module WorkerLoop {

  type Id = string

  /** Outside the critical section (running up to it, or waiting), in the middle of a pass with
      some buffers still to process, or returned. */
  datatype Place = Outside | Inside(left: set<Id>) | Ended

  /** calls lists the processData calls the worker has begun, by the id of the buffer. */
  datatype State = State(buffers: set<Id>, quit: bool, place: Place, calls: seq<Id>)

  datatype Event = Enter | Process(id: Id) | Leave | Stop | Add(id: Id) | Remove(id: Id)

  /** Events that need the mutex wait while the worker is inside; Enter also waits for the
      condition that there is a buffer or quit_ is set. */
  function Step(s: State, e: Event): State {
    match e
    case Enter =>
      if s.place != Outside || (s.buffers == {} && !s.quit) then s
      else if s.quit then s.(place := Ended)
      else s.(place := Inside(s.buffers))
    case Process(id) =>
      if s.place.Inside? && id in s.place.left
      then s.(place := Inside(s.place.left - {id}), calls := s.calls + [id])
      else s
    case Leave => if s.place == Inside({}) then s.(place := Outside) else s
    case Stop => if s.place.Inside? then s else s.(quit := true)
    case Add(id) => if s.place.Inside? then s else s.(buffers := s.buffers + {id})
    case Remove(id) => if s.place.Inside? then s else s.(buffers := s.buffers - {id})
  }

  function Run(s: State, events: seq<Event>): State
    decreases |events|
  {
    if events == [] then s else Run(Step(s, events[0]), events[1..])
  }

  const START := State({}, false, Outside, [])

  /** A pass under way started before quit_ was set, and is over buffers still attached. */
  predicate Inv(s: State) {
    s.place.Inside? ==> !s.quit && s.place.left <= s.buffers
  }

  lemma {:induction false} RunInv(s: State, events: seq<Event>)
    requires Inv(s)
    ensures Inv(Run(s, events))
    decreases |events|
  {
    if events != [] { RunInv(Step(s, events[0]), events[1..]); }
  }

  /** From any reachable state with quit_ set, whatever follows: quit_ stays set, no further
      processData call begins, and the worker's next entry ends the loop, whatever buffers are
      attached. */
  lemma {:induction false} QuitIsFinal(s: State, events: seq<Event>)
    requires Inv(s) && s.quit
    ensures var s' := Run(s, events);
      && s'.quit && s'.calls == s.calls && !s'.place.Inside?
      && (Enter in events ==> s'.place == Ended)
    decreases |events|
  {
    if events != [] {
      QuitIsFinal(Step(s, events[0]), events[1..]);
      if events[0] == Enter {
        EndedStays(Step(s, events[0]), events[1..]);
      }
    }
  }

  lemma {:induction false} EndedStays(s: State, events: seq<Event>)
    requires s.place == Ended
    ensures Run(s, events).place == Ended
    decreases |events|
  {
    if events != [] { EndedStays(Step(s, events[0]), events[1..]); }
  }

  /** For every run from the start: after the point where quit_ is set, no call begins. */
  lemma NoCallAfterQuit(before: seq<Event>, after: seq<Event>)
    requires Run(START, before).quit
    ensures Run(START, before + after).calls == Run(START, before).calls
  {
    RunInv(START, before);
    RunConcat(START, before, after);
    QuitIsFinal(Run(START, before), after);
  }

  lemma {:induction false} RunConcat(s: State, a: seq<Event>, b: seq<Event>)
    ensures Run(s, a + b) == Run(Run(s, a), b)
    decreases |a|
  {
    if a == [] {
      assert a + b == b;
    } else {
      assert (a + b)[1..] == a[1..] + b;
      RunConcat(Step(s, a[0]), a[1..], b);
    }
  }

  /** A stop request that gets the mutex, at any point of any run: from there on no processData
      call begins, and the worker's next entry ends the loop. */
  lemma StopIsFinal(before: seq<Event>, after: seq<Event>)
    requires !Run(START, before).place.Inside?
    ensures var s := Run(START, before + [Stop] + after);
      s.quit && s.calls == Run(START, before).calls && (Enter in after ==> s.place == Ended)
  {
    RunInv(START, before);
    RunConcat(START, before, [Stop]);
    RunConcat(START, before + [Stop], after);
    var stopped := Run(START, before + [Stop]);
    assert stopped == Run(Step(Run(START, before), Stop), []);
    QuitIsFinal(stopped, after);
  }

  /** A worker without buffers waits; a buffer added between passes is in the next pass with all
      those there before; and one removed between passes is not called any more until it is
      added again. */
  lemma AddedIsInPass(s: State, id: Id)
    requires s.place.Outside? && !s.quit
    ensures s.buffers == {} ==> Step(s, Enter) == s
    ensures Run(s, [Add(id), Enter]) == s.(buffers := s.buffers + {id}, place := Inside(s.buffers + {id}))
  {
    assert [Add(id), Enter][1..] == [Enter];
    assert Run(Step(s, Add(id)), [Enter]) == Run(Step(Step(s, Add(id)), Enter), []);
  }

  lemma RemovedIsNotCalled(before: seq<Event>, id: Id, after: seq<Event>)
    requires !Run(START, before).place.Inside? && Add(id) !in after
    ensures var made, calls := Run(START, before).calls, Run(START, before + [Remove(id)] + after).calls;
      made <= calls && id !in calls[|made|..]
  {
    RunInv(START, before);
    RunConcat(START, before, [Remove(id)]);
    RunConcat(START, before + [Remove(id)], after);
    var removed := Run(START, before + [Remove(id)]);
    assert removed == Run(Step(Run(START, before), Remove(id)), []);
    AbsentIsNotCalled(removed, id, after);
  }

  lemma {:induction false} AbsentIsNotCalled(s: State, id: Id, events: seq<Event>)
    requires Inv(s) && id !in s.buffers && Add(id) !in events
    ensures var s' := Run(s, events);
      s.calls <= s'.calls && id !in s'.calls[|s.calls|..]
    decreases |events|
  {
    if events != [] {
      assert events[0] in events;
      AbsentIsNotCalled(Step(s, events[0]), id, events[1..]);
    }
  }

  /** `made` has each id of `ids` exactly once, and no other. */
  ghost predicate Each(made: seq<Id>, ids: set<Id>) {
    && (forall id :: id in made <==> id in ids)
    && forall i, j :: 0 <= i < j < |made| ==> made[i] != made[j]
  }

  lemma EachMore(made: seq<Id>, ids: set<Id>, id: Id)
    requires Each(made, ids) && id !in ids
    ensures Each([id] + made, ids + {id})
  {
  }

  /** During a pass, whatever other threads try, each buffer no longer left has been processed
      exactly once and the others not at all; the map does not change. */
  lemma {:induction false} PassProcessesEach(s: State, events: seq<Event>) returns (made: seq<Id>)
    requires s.place.Inside? && Leave !in events
    ensures var s' := Run(s, events);
      && s'.place.Inside? && s'.place.left <= s.place.left && s'.buffers == s.buffers
      && s'.calls == s.calls + made && Each(made, s.place.left - s'.place.left)
    decreases |events|
  {
    if events == [] {
      made := [];
      assert s.calls + made == s.calls;
    } else {
      var e := events[0];
      assert e in events;
      var s1 := Step(s, e);
      var rest := PassProcessesEach(s1, events[1..]);
      if s1 == s {
        made := rest;
      } else {
        made := [e.id] + rest;
        assert s.calls + made == (s.calls + [e.id]) + rest;
        var left' := Run(s, events).place.left;
        EachMore(rest, s1.place.left - left', e.id);
        assert s.place.left - left' == s1.place.left - left' + {e.id};
      }
    }
  }

  /** So a whole pass, from an entry to the leave that ends it, makes one call for every buffer
      attached, each buffer once. */
  lemma WholePass(s: State, events: seq<Event>) returns (made: seq<Id>)
    requires s.place == Outside && !s.quit && s.buffers != {} && Leave !in events
    requires Run(Step(s, Enter), events).place == Inside({})
    ensures var s' := Run(s, [Enter] + events + [Leave]);
      && s'.place == Outside && s'.calls == s.calls + made && Each(made, s.buffers)
  {
    made := PassProcessesEach(Step(s, Enter), events);
    var mid := Run(Step(s, Enter), events);
    assert ([Enter] + events)[1..] == events;
    RunConcat(s, [Enter] + events, [Leave]);
    assert Run(mid, [Leave]) == Run(Step(mid, Leave), []);
    assert s.buffers - {} == s.buffers;
  }
}
