/** The pool of worker threads: each holds a map of buffers, a new buffer goes to the least
    loaded thread, and a stream's buffers are removed from all threads at once.  Every method
    here is the critical section of one bufferMutex_, or runs under the manager's locker_. */
module Pool {
  import opened Balance
  import opened Delivery
  import opened PoolMap

  class ThreadWrapper {
    var buffers: map<Id, Buffer>
    var quit: bool

    constructor ()
      ensures buffers == map[] && !quit
    {
      buffers, quit := map[], false;
    }

    /** What this does to the worker is the Stop event of WorkerLoop. */
    method Stop()
      modifies this`quit
      ensures quit
    {
      quit := true;
    }

    /** What the thread serves, by number. */
    ghost function View(): map<Id, nat>
      reads this
    {
      map id | id in buffers :: buffers[id].serial
    }

    /** std::map::emplace: a buffer already held under id stays, and the new one is dropped. */
    method AddBuffer(id: Id, buffer: Buffer)
      modifies this`buffers
      ensures buffers == if id in old(buffers) then old(buffers) else old(buffers)[id := buffer]
    {
      if id !in buffers { buffers := buffers[id := buffer]; }
    }

    method BufferSize() returns (n: nat)
      ensures n == |View()|
    {
      n := |buffers|;
      assert buffers.Keys == View().Keys;
    }

    method FindBuffer(id: Id) returns (b: Buffer?)
      ensures b == null <==> id !in buffers
      ensures b != null ==> b == buffers[id]
    {
      b := if id in buffers then buffers[id] else null;
    }

    method RemoveBuffer(id: Id)
      modifies this`buffers
      modifies (if id in buffers then {buffers[id]} else {})`senders
      ensures buffers == old(buffers) - {id}
      ensures id in old(buffers) ==> old(buffers)[id].senders == map[]
    {
      if id in buffers {
        var b := buffers[id];
        var n := b.SenderNumber();
        if n != 0 { b.ClearSenders(); }
        buffers := buffers - {id};
      }
    }
  }

  class ThreadPool {
    const threads: seq<ThreadWrapper>

    ghost predicate Valid() {
      forall i, j :: 0 <= i < j < |threads| ==> threads[i] != threads[j]
    }

    ghost function View(): (pool: Threads)
      reads threads
      ensures |pool| == |threads| && forall i :: 0 <= i < |pool| ==> pool[i] == threads[i].View()
    {
      seq(|threads|, i requires 0 <= i < |threads| reads threads => threads[i].View())
    }

    /** The buffers some thread holds under id. */
    ghost function Held(id: Id): set<Buffer>
      reads threads
    {
      set i | 0 <= i < |threads| && id in threads[i].buffers :: threads[i].buffers[id]
    }

    constructor (n: nat)
      ensures Valid() && |threads| == n && View() == Empty(n)
      ensures forall t :: t in threads ==> fresh(t) && t.buffers == map[]
    {
      var ts: seq<ThreadWrapper> := [];
      for i := 0 to n
        invariant |ts| == i
        invariant forall j :: 0 <= j < i ==> fresh(ts[j]) && ts[j].buffers == map[]
        invariant forall j, k :: 0 <= j < k < i ==> ts[j] != ts[k]
      {
        var t := new ThreadWrapper();
        ts := ts + [t];
      }
      threads := ts;
    }

    /** Position of the first least loaded thread, as std::min_element finds it. */
    method MinElement() returns (m: nat)
      requires |threads| > 0
      ensures m == LeastLoaded(View())
    {
      hide LeastIndex, Held;
      ghost var sizes := Sizes(View());
      m := 0;
      LeastOfOne(sizes[..1]);
      for i := 1 to |threads|
        invariant m == LeastIndex(sizes[..i])
      {
        var a := threads[i].BufferSize();
        var b := threads[m].BufferSize();
        LeastExtend(sizes[..i], sizes[i]);
        assert sizes[..i + 1] == sizes[..i] + [sizes[i]];
        if a < b { m := i; }
      }
      assert sizes[..|threads|] == sizes;
    }

    /** The buffer is attached exactly when the least loaded thread does not hold the id yet;
        no other thread changes, and the load stays balanced. */
    method AttachBuffer(id: Id, buffer: Buffer)
      requires Valid() && |threads| > 0
      modifies threads
      ensures View() == Attach(old(View()), id, buffer.serial)
      ensures var m := LeastLoaded(old(View()));
        forall i :: 0 <= i < |threads| ==>
          threads[i].buffers ==
            if i == m && id !in old(threads[i].buffers) then old(threads[i].buffers)[id := buffer]
            else old(threads[i].buffers)
      ensures Spread(Sizes(View())) <= AtLeastOne(Spread(Sizes(old(View()))))
    {
      hide LeastLoaded, Spread, Sizes, Held;
      var m := MinElement();
      AttachSpread(View(), id, buffer.serial);
      ghost var before := View();
      assert id in threads[m].buffers <==> id in before[m];
      threads[m].AddBuffer(id, buffer);
      ghost var loaded: map<Id, nat> := before[m][id := buffer.serial];
      forall i | 0 <= i < |threads|
        ensures View()[i] == if i == m && id !in before[m] then loaded else before[i]
      {
        assert before[i] == old(threads[i].View());
      }
      assert View() == Attach(before, id, buffer.serial);
    }

    /** Any number of attaches, ids repeated or not. */
    method AttachAll(ids: seq<Id>, buffers: seq<Buffer>)
      requires Valid() && |threads| > 0 && |ids| == |buffers|
      modifies threads
      ensures var items := seq(|ids|, i requires 0 <= i < |ids| => Item(ids[i], buffers[i].serial));
        View() == Attached(old(View()), items)
      ensures Spread(Sizes(View())) <= AtLeastOne(Spread(Sizes(old(View()))))
      ensures old(View()) == Empty(|threads|) ==> Spread(Sizes(View())) <= 1
    {
      hide Attach, Spread, Sizes;
      ghost var items := seq(|ids|, i requires 0 <= i < |ids| => Item(ids[i], buffers[i].serial));
      for i := 0 to |ids|
        invariant View() == Attached(old(View()), items[..i])
      {
        assert items[..i + 1][..i] == items[..i];
        AttachBuffer(ids[i], buffers[i]);
      }
      assert items[..|ids|] == items;
      AttachedSpread(old(View()), items);
    }

    /** A buffer held under id by some thread, or null when no thread holds one. */
    method GetBuffer(id: Id) returns (b: Buffer?)
      ensures b == null <==> !Holds(View(), id)
      ensures b != null ==> b in Held(id) && Serves(View(), id, b.serial)
    {
      for i := 0 to |threads|
        invariant forall j :: 0 <= j < i ==> id !in threads[j].buffers
      {
        b := threads[i].FindBuffer(id);
        if b != null {
          assert threads[i].buffers[id] in Held(id);
          assert id in View()[i] && View()[i][id] == b.serial;
          return;
        }
      }
      b := null;
    }

    /** Afterwards no thread holds id, no other id is touched, and the buffers dropped have no
        senders left. */
    method RemoveBuffer(id: Id)
      requires Valid()
      modifies threads
      modifies Held(id)`senders
      ensures View() == Detach(old(View()), id)
      ensures forall i :: 0 <= i < |threads| ==> threads[i].buffers == old(threads[i].buffers) - {id}
      ensures forall b :: b in old(Held(id)) ==> b.senders == map[]
    {
      hide View, Detach;
      for i := 0 to |threads|
        invariant forall j :: 0 <= j < i ==> threads[j].buffers == old(threads[j].buffers) - {id}
        invariant forall j :: i <= j < |threads| ==> threads[j].buffers == old(threads[j].buffers)
        invariant forall j :: 0 <= j < i && id in old(threads[j].buffers) ==>
          old(threads[j].buffers)[id].senders == map[]
      {
        var b := threads[i].FindBuffer(id);
        if b != null {
          assert b in old(Held(id));
          threads[i].RemoveBuffer(id);
        }
      }
      DetachedView(id);
    }

    /** Dropping id from every thread's map is Detach. */
    twostate lemma DetachedView(id: Id)
      requires forall i :: 0 <= i < |threads| ==> threads[i].buffers == old(threads[i].buffers) - {id}
      ensures View() == Detach(old(View()), id)
    {
      ghost var before := old(View());
      forall i | 0 <= i < |threads| ensures View()[i] == before[i] - {id} {
        assert before[i] == old(threads[i].View());
      }
    }
  }
}
