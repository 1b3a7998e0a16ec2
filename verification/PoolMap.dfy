/** The pool as a value: for each thread, which buffer it serves under which id.  Buffers are
    known by number. */
module PoolMap {
  import opened Balance

  type Id = string

  type Threads = seq<map<Id, nat>>

  function Empty(threads: nat): (pool: Threads)
    ensures |pool| == threads
  {
    seq(threads, _ => map[])
  }

  function Sizes(pool: Threads): (s: seq<nat>)
    ensures |s| == |pool|
  {
    seq(|pool|, i requires 0 <= i < |pool| => |pool[i]|)
  }

  function LeastLoaded(pool: Threads): (m: nat)
    requires |pool| > 0
    ensures m < |pool|
  {
    LeastIndex(Sizes(pool))
  }

  /** attachBuffer: emplace into the least loaded thread, which ignores an id it holds. */
  function Attach(pool: Threads, id: Id, b: nat): (r: Threads)
    requires |pool| > 0
    ensures |r| == |pool|
  {
    var m := LeastLoaded(pool);
    if id in pool[m] then pool
    else
      var loaded: map<Id, nat> := pool[m][id := b];
      pool[m := loaded]
  }

  function Detach(pool: Threads, id: Id): (r: Threads)
    ensures |r| == |pool|
  {
    seq(|pool|, i requires 0 <= i < |pool| => pool[i] - {id})
  }

  predicate Holds(pool: Threads, id: Id) {
    exists i :: 0 <= i < |pool| && id in pool[i]
  }

  /** Buffer b is served under id by some thread. */
  predicate Serves(pool: Threads, id: Id, b: nat) {
    exists i :: 0 <= i < |pool| && id in pool[i] && pool[i][id] == b
  }

  lemma AttachHolds(pool: Threads, id: Id, b: nat, x: Id)
    requires |pool| > 0
    ensures Holds(Attach(pool, id, b), x) <==> Holds(pool, x) || x == id
  {
    hide LeastLoaded;
    var m := LeastLoaded(pool);
    var r := Attach(pool, id, b);
    assert id in r[m];
    if Holds(pool, x) {
      var i :| 0 <= i < |pool| && x in pool[i];
      assert x in r[i];
    }
  }

  lemma DetachHolds(pool: Threads, id: Id, x: Id)
    ensures Holds(Detach(pool, id), x) <==> Holds(pool, x) && x != id
  {
    if Holds(pool, x) && x != id {
      var i :| 0 <= i < |pool| && x in pool[i];
      assert x in Detach(pool, id)[i];
    }
  }

  /** The new buffer comes to be served exactly when the least loaded thread does not hold the
      id; every buffer served before, under whatever id, stays so. */
  lemma AttachServes(pool: Threads, id: Id, b: nat, x: Id, c: nat)
    requires |pool| > 0
    ensures Serves(Attach(pool, id, b), x, c) <==>
      Serves(pool, x, c) || (x == id && c == b && id !in pool[LeastLoaded(pool)])
  {
    hide LeastLoaded;
    var m := LeastLoaded(pool);
    var r := Attach(pool, id, b);
    if id !in pool[m] { assert r[m][id] == b; }
    if Serves(pool, x, c) {
      var i :| 0 <= i < |pool| && x in pool[i] && pool[i][x] == c;
      assert x in r[i] && r[i][x] == c;
    }
  }

  lemma DetachServes(pool: Threads, id: Id, x: Id, c: nat)
    ensures Serves(Detach(pool, id), x, c) <==> Serves(pool, x, c) && x != id
  {
    var r := Detach(pool, id);
    if Serves(pool, x, c) && x != id {
      var i :| 0 <= i < |pool| && x in pool[i] && pool[i][x] == c;
      assert x in r[i] && r[i][x] == c;
    }
  }

  /** The senders of the buffers dropped by removeBuffer are cleared. */
  function Cleared<T>(buffers: seq<set<T>>, pool: Threads, id: Id): (r: seq<set<T>>)
    ensures |r| == |buffers|
  {
    seq(|buffers|, b requires 0 <= b < |buffers| => if Serves(pool, id, b) then {} else buffers[b])
  }

  // ---- balance ----

  datatype Item = Item(id: Id, buffer: nat)

  /** The pool after attaching a list of buffers, ids repeated or not. */
  function Attached(pool: Threads, items: seq<Item>): (r: Threads)
    requires |pool| > 0
    ensures |r| == |pool|
    decreases |items|
  {
    if items == [] then pool
    else
      var n := |items| - 1;
      Attach(Attached(pool, items[..n]), items[n].id, items[n].buffer)
  }

  function AtLeastOne(n: nat): nat { if n > 1 then n else 1 }

  lemma AttachSizes(pool: Threads, id: Id, b: nat)
    requires |pool| > 0
    ensures var m, s := LeastLoaded(pool), Sizes(pool);
      Sizes(Attach(pool, id, b)) == if id in pool[m] then s else s[m := s[m] + 1]
  {
    hide LeastLoaded;
    var m := LeastLoaded(pool);
    if id !in pool[m] { assert pool[m][id := b].Keys == pool[m].Keys + {id}; }
  }

  lemma AttachSpread(pool: Threads, id: Id, b: nat)
    requires |pool| > 0
    ensures Spread(Sizes(Attach(pool, id, b))) <= AtLeastOne(Spread(Sizes(pool)))
  {
    hide Spread, LeastIndex, Attach, Sizes;
    AttachSizes(pool, id, b);
    AttachKeepsSpread(Sizes(pool));
  }

  /** No list of attaches raises the difference between the most and the least loaded thread
      above the larger of 1 and what it was; from an empty pool it stays within 1. */
  lemma {:induction false} AttachedSpread(pool: Threads, items: seq<Item>)
    requires |pool| > 0
    ensures Spread(Sizes(Attached(pool, items))) <= AtLeastOne(Spread(Sizes(pool)))
    ensures pool == Empty(|pool|) ==> Spread(Sizes(Attached(pool, items))) <= 1
    decreases |items|
  {
    hide Spread, LeastIndex, Attach;
    if pool == Empty(|pool|) { ZeroSpread(|pool|); assert Sizes(pool) == NoLoad(|pool|); }
    if items != [] {
      var n := |items| - 1;
      AttachedSpread(pool, items[..n]);
      AttachSpread(Attached(pool, items[..n]), items[n].id, items[n].buffer);
    }
  }

  predicate Fresh(items: seq<Item>) {
    forall i, j :: 0 <= i < j < |items| ==> items[i].id != items[j].id
  }

  lemma {:induction false} AttachedHolds(pool: Threads, items: seq<Item>, x: Id)
    requires |pool| > 0
    ensures Holds(Attached(pool, items), x) <==> Holds(pool, x) || exists i :: 0 <= i < |items| && items[i].id == x
    decreases |items|
  {
    hide Attach, Holds;
    if items != [] {
      var n := |items| - 1;
      AttachedHolds(pool, items[..n], x);
      AttachHolds(Attached(pool, items[..n]), items[n].id, items[n].buffer, x);
      assert forall i :: 0 <= i < n ==> items[..n][i] == items[i];
    }
  }

  lemma NoneHeld(k: nat, x: Id)
    ensures !Holds(Empty(k), x)
  {
  }

  /** With distinct ids none is ignored, so the sizes are those of plain loading. */
  lemma {:induction false} AttachedFresh(k: nat, items: seq<Item>)
    requires k > 0 && Fresh(items)
    ensures Sizes(Attached(Empty(k), items)) == Loaded(NoLoad(k), |items|)
    decreases |items|
  {
    if items == [] {
      assert Sizes(Empty(k)) == NoLoad(k);
    } else {
      var n := |items| - 1;
      var before := Attached(Empty(k), items[..n]);
      LastIsNew(k, items);
      assert Attached(Empty(k), items) == Attach(before, items[n].id, items[n].buffer);
      hide *;
      AttachedFresh(k, items[..n]);
      AttachSizes(before, items[n].id, items[n].buffer);
      LoadedMore(NoLoad(k), n);
    }
  }

  lemma LastIsNew(k: nat, items: seq<Item>)
    requires k > 0 && Fresh(items) && items != []
    ensures var n := |items| - 1;
      var before := Attached(Empty(k), items[..n]);
      Fresh(items[..n]) && items[n].id !in before[LeastLoaded(before)]
  {
    hide Attach, Attached, LeastLoaded, Empty;
    var n := |items| - 1;
    NoneHeld(k, items[n].id);
    AttachedHolds(Empty(k), items[..n], items[n].id);
  }

  /** So in an empty pool of k threads n buffers with distinct ids are shared out evenly. */
  lemma AttachedEvenly(k: nat, items: seq<Item>, i: nat)
    requires k > 0 && Fresh(items) && i < k
    ensures var pool, n := Attached(Empty(k), items), |items|;
      n / k <= |pool[i]| <= n / k + 1 && (n % k == 0 ==> |pool[i]| == n / k)
  {
    hide Attached, Loaded;
    AttachedFresh(k, items);
    LoadedIsEven(k, |items|, i);
    assert Sizes(Attached(Empty(k), items))[i] == |Attached(Empty(k), items)[i]|;
  }
}
