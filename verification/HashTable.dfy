/** RTPKeyHashTable on the heap: every node is threaded through a bucket chain and through
    one global list, and a cursor moves along the list. */
module HashTable {
  import opened OrderedTable

  class Node<K, E> {
    const hashIndex: int
    const key: K
    const element: E
    var hashPrev: Node?<K, E>
    var hashNext: Node?<K, E>
    var listPrev: Node?<K, E>
    var listNext: Node?<K, E>

    constructor (k: K, e: E, index: int)
      ensures key == k && element == e && hashIndex == index
      ensures hashPrev == null && hashNext == null && listPrev == null && listNext == null
    {
      key, element, hashIndex := k, e, index;
      hashPrev, hashNext, listPrev, listNext := null, null, null, null;
    }
  }

  /** The neighbour at position i, null off either end. */
  ghost function Neighbour<K, E>(s: seq<Node<K, E>>, i: int): Node?<K, E> {
    if 0 <= i < |s| then s[i] else null
  }

  /** Keys and elements are fixed when a node is made, so no heap is read. */
  ghost function EntriesOf<K, E>(s: seq<Node<K, E>>): seq<Entry<K, E>> {
    seq(|s|, i requires 0 <= i < |s| => Entry(s[i].key, s[i].element))
  }

  ghost function PositionOf<T>(s: seq<T>, x: T): (i: nat)
    requires x in s
    ensures i < |s| && s[i] == x
  {
    var i :| 0 <= i < |s| && s[i] == x;
    i
  }

  ghost predicate NoRepeats<T>(s: seq<T>) {
    forall i, j :: 0 <= i < j < |s| ==> s[i] != s[j]
  }

  ghost predicate ChainLinked<K, E>(s: seq<Node<K, E>>)
    reads s
  {
    && (forall i {:trigger s[i].hashPrev} :: 0 <= i < |s| ==> s[i].hashPrev == Neighbour(s, i - 1))
    && (forall i {:trigger s[i].hashNext} :: 0 <= i < |s| ==> s[i].hashNext == Neighbour(s, i + 1))
  }

  ghost predicate ListLinked<K, E>(s: seq<Node<K, E>>)
    reads s
  {
    && (forall i {:trigger s[i].listPrev} :: 0 <= i < |s| ==> s[i].listPrev == Neighbour(s, i - 1))
    && (forall i {:trigger s[i].listNext} :: 0 <= i < |s| ==> s[i].listNext == Neighbour(s, i + 1))
  }

  /** A position in a chain or in the list, with its neighbours. */
  datatype Place<K, E> = Place(s: seq<Node<K, E>>, pos: nat) {
    ghost function Before(): Node?<K, E> { Neighbour(s, pos - 1) }
    ghost function After(): Node?<K, E> { Neighbour(s, pos + 1) }
  }

  lemma BypassedNoRepeats<T>(s: seq<T>, p: nat)
    requires p < |s| && NoRepeats(s)
    ensures NoRepeats(Without(s, p))
  {
  }

  lemma BypassedNeighbour<K, E>(s: seq<Node<K, E>>, p: nat)
    requires p < |s|
    ensures Neighbour(Without(s, p), p) == Neighbour(s, p + 1)
  {
  }

  lemma AppendedNoRepeats<T>(s: seq<T>, x: T)
    requires NoRepeats(s) && x !in s
    ensures NoRepeats(s + [x])
  {
  }

  lemma BypassedMembers<T>(s: seq<T>, p: nat)
    requires p < |s| && NoRepeats(s)
    ensures forall x :: x in Without(s, p) <==> x in s && x != s[p]
  {
    var r := Without(s, p);
    forall x | x in s && x != s[p] ensures x in r {
      var j :| 0 <= j < |s| && s[j] == x;
      assert r[if j < p then j else j - 1] == x;
    }
  }

  /** Bypassing one place, and changing nothing else, leaves the other nodes linked in order. */
  twostate lemma ListBypassed<K, E>(at: Place<K, E>)
    requires at.pos < |at.s| && NoRepeats(at.s) && old(ListLinked(at.s))
    requires forall m :: m in at.s ==> m.listNext == if m == at.Before() then at.After() else old(m.listNext)
    requires forall m :: m in at.s ==> m.listPrev == if m == at.After() then at.Before() else old(m.listPrev)
    ensures ListLinked(Without(at.s, at.pos))
  {
    ListBypassedBackward(at);
    ListBypassedForward(at);
  }

  twostate lemma ListBypassedBackward<K, E>(at: Place<K, E>)
    requires at.pos < |at.s| && NoRepeats(at.s) && old(ListLinked(at.s))
    requires forall m :: m in at.s ==> m.listPrev == if m == at.After() then at.Before() else old(m.listPrev)
    ensures var r := Without(at.s, at.pos);
      forall i {:trigger r[i].listPrev} :: 0 <= i < |r| ==> r[i].listPrev == Neighbour(r, i - 1)
  {
    var s, p: int := at.s, at.pos;
    var r := Without(s, p);
    forall i | 0 <= i < |r| ensures r[i].listPrev == Neighbour(r, i - 1) {
      var j := if i < p then i else i + 1;
      assert r[i] == s[j] && s[j] in s;
      if i > 0 { assert r[i - 1] == s[if i - 1 < p then i - 1 else i]; }
      if i != p {
        assert s[j] != at.After();
        assert old(s[j].listPrev) == Neighbour(s, j - 1);
      }
    }
  }

  twostate lemma ListBypassedForward<K, E>(at: Place<K, E>)
    requires at.pos < |at.s| && NoRepeats(at.s) && old(ListLinked(at.s))
    requires forall m :: m in at.s ==> m.listNext == if m == at.Before() then at.After() else old(m.listNext)
    ensures var r := Without(at.s, at.pos);
      forall i {:trigger r[i].listNext} :: 0 <= i < |r| ==> r[i].listNext == Neighbour(r, i + 1)
  {
    var s, p: int := at.s, at.pos;
    var r := Without(s, p);
    forall i | 0 <= i < |r| ensures r[i].listNext == Neighbour(r, i + 1) {
      var j := if i < p then i else i + 1;
      assert r[i] == s[j] && s[j] in s;
      if i + 1 < |r| { assert r[i + 1] == s[if i + 1 < p then i + 1 else i + 2]; }
      if i != p - 1 {
        assert s[j] != at.Before();
        assert old(s[j].listNext) == Neighbour(s, j + 1);
      }
    }
  }

  /** Bypassing one place, and changing nothing else, leaves the other nodes linked in order. */
  twostate lemma ChainBypassed<K, E>(at: Place<K, E>)
    requires at.pos < |at.s| && NoRepeats(at.s) && old(ChainLinked(at.s))
    requires forall m :: m in at.s ==> m.hashNext == if m == at.Before() then at.After() else old(m.hashNext)
    requires forall m :: m in at.s ==> m.hashPrev == if m == at.After() then at.Before() else old(m.hashPrev)
    ensures ChainLinked(Without(at.s, at.pos))
  {
    ChainBypassedBackward(at);
    ChainBypassedForward(at);
  }

  twostate lemma ChainBypassedBackward<K, E>(at: Place<K, E>)
    requires at.pos < |at.s| && NoRepeats(at.s) && old(ChainLinked(at.s))
    requires forall m :: m in at.s ==> m.hashPrev == if m == at.After() then at.Before() else old(m.hashPrev)
    ensures var r := Without(at.s, at.pos);
      forall i {:trigger r[i].hashPrev} :: 0 <= i < |r| ==> r[i].hashPrev == Neighbour(r, i - 1)
  {
    var s, p: int := at.s, at.pos;
    var r := Without(s, p);
    forall i | 0 <= i < |r| ensures r[i].hashPrev == Neighbour(r, i - 1) {
      var j := if i < p then i else i + 1;
      assert r[i] == s[j] && s[j] in s;
      if i > 0 { assert r[i - 1] == s[if i - 1 < p then i - 1 else i]; }
      if i != p {
        assert s[j] != at.After();
        assert old(s[j].hashPrev) == Neighbour(s, j - 1);
      }
    }
  }

  twostate lemma ChainBypassedForward<K, E>(at: Place<K, E>)
    requires at.pos < |at.s| && NoRepeats(at.s) && old(ChainLinked(at.s))
    requires forall m :: m in at.s ==> m.hashNext == if m == at.Before() then at.After() else old(m.hashNext)
    ensures var r := Without(at.s, at.pos);
      forall i {:trigger r[i].hashNext} :: 0 <= i < |r| ==> r[i].hashNext == Neighbour(r, i + 1)
  {
    var s, p: int := at.s, at.pos;
    var r := Without(s, p);
    forall i | 0 <= i < |r| ensures r[i].hashNext == Neighbour(r, i + 1) {
      var j := if i < p then i else i + 1;
      assert r[i] == s[j] && s[j] in s;
      if i + 1 < |r| { assert r[i + 1] == s[if i + 1 < p then i + 1 else i + 2]; }
      if i != p - 1 {
        assert s[j] != at.Before();
        assert old(s[j].hashNext) == Neighbour(s, j + 1);
      }
    }
  }

  class KeyHashTable<K(==), E> {
    const hashSize: nat
    const getIndex: K -> int
    const table: array<Node?<K, E>>
    var first: Node?<K, E>
    var last: Node?<K, E>
    var cur: Node?<K, E>
    /** The nodes in list order, and bucket by bucket in chain order. */
    ghost var nodes: seq<Node<K, E>>
    ghost var chains: seq<seq<Node<K, E>>>

    /** The list threads exactly `nodes`, both ways, and the end pointers are its ends. */
    ghost predicate ListOk()
      reads this`nodes, this`first, this`last, nodes
    {
      && ListLinked(nodes)
      && NoRepeats(nodes)
      && first == Neighbour(nodes, 0)
      && last == Neighbour(nodes, |nodes| - 1)
    }

    /** Chain b is linked both ways from table[b] and stays inside `live` and bucket b. */
    ghost predicate BucketOk(b: nat, live: set<Node<K, E>>)
      requires b < |chains| && b < table.Length
      reads this`chains, table, live
    {
      && (forall n :: n in chains[b] ==> n in live && n.hashIndex == b)
      && ChainLinked(chains[b])
      && NoRepeats(chains[b])
      && table[b] == Neighbour(chains[b], 0)
    }

    /** The chains thread exactly the nodes of `live`, each in the bucket of its hash index. */
    ghost predicate BucketsOk(live: set<Node<K, E>>)
      reads this`chains, table, live
    {
      && |chains| == table.Length == hashSize
      && (forall b :: 0 <= b < |chains| ==> BucketOk(b, live))
      && (forall n :: n in live ==> 0 <= n.hashIndex < |chains| && n in chains[n.hashIndex])
    }

    ghost predicate KeysOk()
      reads this`nodes, nodes
    {
      && (forall i :: 0 <= i < |nodes| ==> nodes[i].hashIndex == getIndex(nodes[i].key))
      && (forall i, j :: 0 <= i < j < |nodes| ==> nodes[i].key != nodes[j].key)
    }

    ghost function Live(): set<Node<K, E>>
      reads this`nodes
    {
      set n | n in nodes
    }

    ghost predicate Valid()
      reads this, table, nodes
    {
      ListOk() && BucketsOk(Live()) && KeysOk()
    }

    /** The abstract value. */
    ghost function Entries(): seq<Entry<K, E>>
      reads this`nodes
    {
      EntriesOf(nodes)
    }

    ghost function CursorPos(): (r: Cursor)
      reads this`nodes, this`cur
      ensures r.At? ==> r.pos < |nodes| && nodes[r.pos] == cur
      ensures r.Null? <==> cur == null
    {
      if cur == null then Null
      else if cur in nodes then At(PositionOf(nodes, cur))
      else Dangling
    }

    ghost function View(): Table<K, E>
      reads this`nodes, this`cur
    {
      Table(Entries(), CursorPos())
    }

    constructor (size: nat, index: K -> int)
      ensures Valid() && hashSize == size && getIndex == index
      ensures View().entries == []
      ensures fresh(table)
    {
      hashSize := size;
      getIndex := index;
      table := new Node?<K, E>[size](_ => null);
      first, last := null, null;
      nodes := [];
      chains := seq(size, _ => []);
    }

    method UnlinkFromBucket(n: Node<K, E>)
      requires BucketsOk(Live()) && n in nodes
      modifies this`chains, table, nodes
      ensures BucketsOk(Live() - {n})
      ensures forall m :: m in nodes ==> m.listPrev == old(m.listPrev) && m.listNext == old(m.listNext)
    {
      ghost var chain := chains[n.hashIndex];
      ghost var q: int := PositionOf(chain, n);
      var index := n.hashIndex;
      var before, after := n.hashPrev, n.hashNext;
      ghost var others := chains[index := Without(chain, q)];
      assert BucketOk(index, Live());
      assert before == Neighbour(chain, q - 1) && after == Neighbour(chain, q + 1);
      assert chain[q] in chain;
      assert before == null || before in chain;
      assert after == null || after in chain;
      if before == null {
        table[index] := after;
        if after != null { after.hashPrev := null; }
      } else {
        before.hashNext := after;
        if after != null { after.hashPrev := before; }
      }
      chains := others;
      BucketsBypassed(n);
    }

    /** Once n has been bypassed in its bucket, its chain threads the other nodes of the bucket. */
    twostate lemma OwnBucketBypassed(n: Node<K, E>)
      requires old(BucketsOk(Live())) && n in nodes && nodes == old(nodes)
      requires var chain := old(chains)[n.hashIndex];
        chains == old(chains)[n.hashIndex := Without(chain, PositionOf(chain, n))]
      requires var chain := old(chains)[n.hashIndex];
        var q := PositionOf(chain, n);
        forall m :: m in nodes ==>
          m.hashNext == if m == Neighbour(chain, q - 1) then Neighbour(chain, q + 1) else old(m.hashNext)
      requires var chain := old(chains)[n.hashIndex];
        var q := PositionOf(chain, n);
        forall m :: m in nodes ==>
          m.hashPrev == if m == Neighbour(chain, q + 1) then Neighbour(chain, q - 1) else old(m.hashPrev)
      requires forall b :: 0 <= b < table.Length ==>
        table[b] == if b == n.hashIndex && old(table[b]) == n then Neighbour(old(chains)[b], 1) else old(table[b])
      ensures BucketOk(n.hashIndex, Live() - {n})
    {
      var index := n.hashIndex;
      var chain := old(chains)[index];
      var q: int := PositionOf(chain, n);
      assert old(BucketOk(index, Live()));
      BypassedNoRepeats(chain, q);
      BypassedMembers(chain, q);
      ChainBypassed(Place(chain, q));
    }

    /** And the buckets thread exactly the other nodes. */
    twostate lemma BucketsBypassed(n: Node<K, E>)
      requires old(BucketsOk(Live())) && n in nodes && nodes == old(nodes)
      requires var chain := old(chains)[n.hashIndex];
        chains == old(chains)[n.hashIndex := Without(chain, PositionOf(chain, n))]
      requires var chain := old(chains)[n.hashIndex];
        var q := PositionOf(chain, n);
        forall m :: m in nodes ==>
          m.hashNext == if m == Neighbour(chain, q - 1) then Neighbour(chain, q + 1) else old(m.hashNext)
      requires var chain := old(chains)[n.hashIndex];
        var q := PositionOf(chain, n);
        forall m :: m in nodes ==>
          m.hashPrev == if m == Neighbour(chain, q + 1) then Neighbour(chain, q - 1) else old(m.hashPrev)
      requires forall b :: 0 <= b < table.Length ==>
        table[b] == if b == n.hashIndex && old(table[b]) == n then Neighbour(old(chains)[b], 1) else old(table[b])
      ensures BucketsOk(Live() - {n})
    {
      hide ChainLinked;
      var index := n.hashIndex;
      var chain := old(chains)[index];
      OwnBucketBypassed(n);
      assert old(BucketOk(index, Live()));
      BypassedMembers(chain, PositionOf(chain, n));
      assert forall m :: m in chain ==> m.hashIndex == index;
      assert forall m :: m in nodes && m.hashIndex != index ==>
        m.hashPrev == old(m.hashPrev) && m.hashNext == old(m.hashNext);
      OtherBucketsKept(n);
    }

    /** Buckets other than that of n are as they were. */
    twostate lemma OtherBucketsKept(n: Node<K, E>)
      requires old(BucketsOk(Live())) && n in nodes && nodes == old(nodes)
      requires |chains| == |old(chains)|
      requires forall b :: 0 <= b < |chains| && b != n.hashIndex ==>
        chains[b] == old(chains)[b] && table[b] == old(table[b])
      requires forall m :: m in nodes && m.hashIndex != n.hashIndex ==> m.hashPrev == old(m.hashPrev)
      requires forall m :: m in nodes && m.hashIndex != n.hashIndex ==> m.hashNext == old(m.hashNext)
      ensures forall b :: 0 <= b < |chains| && b != n.hashIndex ==> BucketOk(b, Live() - {n})
    {
      forall b | 0 <= b < |chains| && b != n.hashIndex ensures BucketOk(b, Live() - {n}) {
        assert old(BucketOk(b, Live()));
        forall i | 0 <= i < |chains[b]|
          ensures chains[b][i].hashPrev == old(chains[b][i].hashPrev)
          ensures chains[b][i].hashNext == old(chains[b][i].hashNext)
        {
          assert chains[b][i] in chains[b];
        }
      }
    }

    /** Writes to list links only do not disturb the buckets. */
    twostate lemma BucketsUntouched(live: set<Node<K, E>>)
      requires old(BucketsOk(live)) && chains == old(chains)
      requires forall b :: 0 <= b < table.Length ==> table[b] == old(table[b])
      requires forall m :: m in live ==> m.hashPrev == old(m.hashPrev) && m.hashNext == old(m.hashNext)
      ensures BucketsOk(live)
    {
      forall b | 0 <= b < |chains| ensures BucketOk(b, live) {
        assert old(BucketOk(b, live));
        forall i | 0 <= i < |chains[b]| ensures chains[b][i] in live {
          assert chains[b][i] in chains[b];
        }
      }
    }

    /** Once the node at p has been bypassed in the list, the list threads the other nodes. */
    twostate lemma ListOkBypassed(at: Place<K, E>)
      requires old(ListOk()) && at.s == old(nodes) && at.pos < |at.s| && nodes == Without(at.s, at.pos)
      requires forall m :: m in at.s ==> m.listNext == if m == at.Before() then at.After() else old(m.listNext)
      requires forall m :: m in at.s ==> m.listPrev == if m == at.After() then at.Before() else old(m.listPrev)
      requires first == if at.Before() == null then at.After() else old(first)
      requires last == if at.After() == null then at.Before() else old(last)
      ensures ListOk()
    {
      BypassedNoRepeats(at.s, at.pos);
      ListBypassed(at);
    }

    method UnlinkFromList(n: Node<K, E>, ghost p: nat)
      requires ListOk() && p < |nodes| && nodes[p] == n
      modifies this`nodes, this`first, this`last, nodes
      ensures ListOk() && nodes == Without(old(nodes), p)
      ensures forall m :: m in old(nodes) ==> m.hashPrev == old(m.hashPrev) && m.hashNext == old(m.hashNext)
      ensures n.listNext == Neighbour(old(nodes), p + 1) == old(n.listNext)
    {
      var before, after := n.listPrev, n.listNext;
      ghost var rest, at := Without(nodes, p), Place(nodes, p);
      assert before == at.Before() && after == at.After();
      if before == null {
        first := after;
        if after != null { after.listPrev := null; } else { last := null; }
      } else {
        before.listNext := after;
        if after != null { after.listPrev := before; } else { last := before; }
      }
      nodes := rest;
      ListOkBypassed(at);
    }

    /** Removing the node at p from a valid list keeps the keys distinct and the entries in order. */
    twostate lemma EntriesWithout(p: nat)
      requires p < |old(nodes)| && nodes == Without(old(nodes), p)
      requires old(KeysOk()) && NoRepeats(old(nodes))
      ensures KeysOk() && NoRepeats(nodes)
      ensures Entries() == Without(old(Entries()), p)
    {
      BypassedNoRepeats(old(nodes), p);
    }

    lemma CursorIs(i: int)
      requires NoRepeats(nodes) && cur == Neighbour(nodes, i)
      ensures CursorPos() == CursorAt(i, |nodes|)
    {
      if 0 <= i < |nodes| { assert cur in nodes; }
    }

    lemma UniqueNodes()
      requires ListOk()
      ensures NoRepeats(nodes)
    {
    }

    /** Writes to hash links only do not disturb the list. */
    twostate lemma ListUntouched()
      requires old(ListOk()) && nodes == old(nodes) && first == old(first) && last == old(last)
      requires forall m :: m in nodes ==> m.listPrev == old(m.listPrev) && m.listNext == old(m.listNext)
      ensures ListOk()
    {
    }

    /** The relinking half of DeleteCurrentElement: n leaves its bucket, then the list. */
    method Unlink(n: Node<K, E>, ghost p: nat)
      requires Valid() && p < |nodes| && nodes[p] == n
      modifies this`chains, this`nodes, this`first, this`last, table, nodes
      ensures Valid()
      ensures nodes == Without(old(nodes), p) && Live() <= old(Live()) && Entries() == Without(old(Entries()), p)
      ensures n.listNext == Neighbour(nodes, p) && n.listNext == old(n.listNext)
    {
      hide BucketsOk, KeysOk, ListOk, Entries;
      UniqueNodes();
      UnlinkFromBucket(n);
      ListUntouched();
      label unhashed:
      UnlinkFromList(n, p);
      BypassedMembers(old(nodes), p);
      assert Live() == old(Live()) - {n};
      BucketsUntouched@unhashed(Live());
      EntriesWithout(p);
    }

    method DeleteCurrentElement() returns (status: Status)
      requires Valid() && View().CursorUsable()
      modifies this, table, nodes
      ensures Valid()
      ensures (View(), status) == AfterDeleteCurrent(old(View())) && Live() <= old(Live())
      ensures status == (if old(cur) == null then NoCurrent else Ok)
      ensures old(cur) != null ==> cur == old(cur.listNext)
    {
      hide BucketsOk, KeysOk, ListOk;
      if cur == null { return NoCurrent; }
      ghost var p := CursorPos().pos;
      var n: Node<K, E> := cur;
      Unlink(n, p);
      cur := n.listNext;
      status := Ok;
      UniqueNodes();
      CursorIs(p);
    }

    // ---- searching a bucket ----

    /** The node with key k, when there is one, is the entry Find names. */
    lemma FoundIs(k: K, n: Node<K, E>)
      requires ListOk() && KeysOk() && n in nodes && n.key == k
      ensures Find(Entries(), k) < |nodes| && nodes[Find(Entries(), k)] == n
    {
      var f := Find(Entries(), k);
      var i := PositionOf(nodes, n);
      assert Entries()[i].key == k;
      assert Entries()[f] == Entry(nodes[f].key, nodes[f].element);
    }

    /** No node of the bucket of k has key k: k is not in the table. */
    lemma MissingIs(k: K)
      requires Valid() && 0 <= getIndex(k) < hashSize
      requires forall n :: n in chains[getIndex(k)] ==> n.key != k
      ensures Find(Entries(), k) == |nodes|
    {
      forall i | 0 <= i < |nodes| ensures Entries()[i].key != k {
        assert nodes[i] in Live();
      }
    }

    /** One step along a chain. */
    lemma ChainStep(b: nat, q: nat)
      requires BucketsOk(Live()) && b < |chains| && q < |chains[b]|
      ensures chains[b][q] in nodes && chains[b][q].hashNext == Neighbour(chains[b], q + 1)
    {
      assert BucketOk(b, Live());
      assert chains[b][q] in chains[b];
    }

    method GotoElement(k: K) returns (status: Status)
      requires Valid() && getIndex(k) >= 0
      modifies this`cur
      ensures Valid()
      ensures (View(), status) == AfterGoto(old(View()), k, getIndex(k) < hashSize)
      ensures status == InvalidIndex ==> cur == old(cur)
      ensures status == KeyNotFound ==> cur == null
      ensures status == Ok ==> cur != null && cur in nodes && cur.key == k
    {
      var index := getIndex(k);
      if index >= hashSize { return InvalidIndex; }
      assert BucketOk(index, Live());
      cur := table[index];
      var found := false;
      ghost var chain, q := chains[index], 0;
      while !found && cur != null
        invariant 0 <= q <= |chain| && cur == Neighbour(chain, q)
        invariant found ==> q < |chain| && chain[q].key == k
        invariant forall j :: 0 <= j < q ==> chain[j].key != k
        decreases |chain| - q, !found
      {
        ChainStep(index, q);
        if cur.key == k {
          found := true;
        } else {
          cur := cur.hashNext;
          q := q + 1;
        }
      }
      if found {
        ChainStep(index, q);
        FoundIs(k, chain[q]);
        CursorIs(Find(Entries(), k));
        return Ok;
      }
      MissingIs(k);
      return KeyNotFound;
    }

    method HasElement(k: K) returns (found: bool)
      requires Valid() && getIndex(k) >= 0
      ensures found <==> exists i :: 0 <= i < |Entries()| && Entries()[i].key == k
    {
      var index := getIndex(k);
      if index >= hashSize {
        forall i | 0 <= i < |Entries()| ensures Entries()[i].key != k {
          assert nodes[i] in Live();
        }
        return false;
      }
      assert BucketOk(index, Live());
      var tmp := table[index];
      found := false;
      ghost var chain, q := chains[index], 0;
      while !found && tmp != null
        invariant 0 <= q <= |chain| && tmp == Neighbour(chain, q)
        invariant found ==> q < |chain| && chain[q].key == k
        invariant forall j :: 0 <= j < q ==> chain[j].key != k
        decreases |chain| - q, !found
      {
        ChainStep(index, q);
        if tmp.key == k {
          found := true;
        } else {
          tmp := tmp.hashNext;
          q := q + 1;
        }
      }
      if found {
        ChainStep(index, q);
        FoundIs(k, chain[q]);
      } else {
        MissingIs(k);
      }
    }

    // ---- the cursor ----

    method GotoFirstElement()
      requires Valid()
      modifies this`cur
      ensures Valid() && View() == old(View()).(cursor := CursorAt(0, |Entries()|))
    {
      cur := first;
      CursorIs(0);
    }

    method GotoLastElement()
      requires Valid()
      modifies this`cur
      ensures Valid() && View() == old(View()).(cursor := CursorAt(|Entries()| - 1, |Entries()|))
    {
      cur := last;
      CursorIs(|nodes| - 1);
    }

    method HasCurrentElement() returns (r: bool)
      requires Valid()
      ensures r <==> !View().cursor.Null?
    {
      r := cur != null;
    }

    method GetCurrent() returns (k: K, e: E)
      requires Valid() && View().CursorUsable() && View().cursor.At?
      ensures Entry(k, e) == View().entries[View().cursor.pos]
    {
      k, e := cur.key, cur.element;
    }

    method GotoNextElement()
      requires Valid() && View().CursorUsable()
      modifies this`cur
      ensures Valid() && View() == AfterMove(old(View()), 1)
      ensures cur == if old(cur) == null then null else old(cur.listNext)
    {
      ghost var c := CursorPos();
      if cur != null {
        cur := cur.listNext;
        CursorIs(c.pos + 1);
      }
    }

    method GotoPreviousElement()
      requires Valid() && View().CursorUsable()
      modifies this`cur
      ensures Valid() && View() == AfterMove(old(View()), -1)
      ensures cur == if old(cur) == null then null else old(cur.listPrev)
    {
      ghost var c := CursorPos();
      if cur != null {
        cur := cur.listPrev;
        CursorIs(c.pos - 1);
      }
    }

    method DeleteElement(k: K) returns (status: Status)
      requires Valid() && getIndex(k) >= 0
      modifies this, table, nodes
      ensures Valid()
      ensures (View(), status) == AfterDelete(old(View()), k, getIndex(k) < hashSize) && Live() <= old(Live())
    {
      status := GotoElement(k);
      if status != Ok { return; }
      status := DeleteCurrentElement();
    }

    // ---- adding ----

    /** A new node pushed on the front of its chain leaves every bucket in order. */
    twostate lemma BucketsPushed(n: Node<K, E>)
      requires old(BucketsOk(Live())) && nodes == old(nodes) && n !in nodes && 0 <= n.hashIndex < table.Length
      requires chains == old(chains)[n.hashIndex := [n] + old(chains)[n.hashIndex]]
      requires n.hashPrev == null && n.hashNext == old(table[n.hashIndex]) && table[n.hashIndex] == n
      requires forall b :: 0 <= b < table.Length && b != n.hashIndex ==> table[b] == old(table[b])
      requires forall m :: m in nodes ==> m.hashNext == old(m.hashNext)
      requires forall m :: m in nodes ==>
        m.hashPrev == if m == old(table[n.hashIndex]) then n else old(m.hashPrev)
      ensures BucketsOk(Live() + {n})
    {
      var index, live := n.hashIndex, Live() + {n};
      var chain := old(chains)[index];
      forall b | 0 <= b < |chains| && b != index ensures BucketOk(b, live) {
        assert old(BucketOk(b, Live())) && old(BucketOk(index, Live()));
        forall i | 0 <= i < |chains[b]|
          ensures chains[b][i] in nodes && chains[b][i] != old(table[index])
        {
          assert chains[b][i] in chains[b];
          assert |chain| > 0 ==> chain[0] in chain;
        }
      }
      assert BucketOk(index, live) by {
        assert old(BucketOk(index, Live()));
        forall i | 0 <= i < |chain| ensures chain[i] in nodes {
          assert chain[i] in chain;
        }
        assert forall i :: 0 < i < |chains[index]| ==> chains[index][i] == chain[i - 1];
      }
    }

    /** A new node linked behind the last one leaves the list in order. */
    twostate lemma ListAppended()
      requires old(ListOk())
      requires |nodes| == |old(nodes)| + 1 && nodes[..|old(nodes)|] == old(nodes)
      requires nodes[|old(nodes)|] !in old(nodes)
      requires var n := nodes[|old(nodes)|];
        n.listPrev == old(last) && n.listNext == null && last == n
      requires first == if old(first) == null then nodes[|old(nodes)|] else old(first)
      requires forall m :: m in old(nodes) ==> m.listPrev == old(m.listPrev)
      requires forall m :: m in old(nodes) ==>
        m.listNext == if m == old(last) then nodes[|old(nodes)|] else old(m.listNext)
      ensures ListOk()
    {
      var s, c := old(nodes), |old(nodes)|;
      assert NoRepeats(nodes) by {
        AppendedNoRepeats(s, nodes[c]);
        assert nodes == s + [nodes[c]];
      }
      forall i | 0 <= i < |nodes|
        ensures nodes[i].listPrev == Neighbour(nodes, i - 1) && nodes[i].listNext == Neighbour(nodes, i + 1)
      {
        if i < c {
          assert nodes[i] == s[i] && s[i] in s;
          assert old(s[i].listNext) == Neighbour(s, i + 1);
          assert i + 1 < c ==> s[i + 1] == nodes[i + 1];
          assert i > 0 ==> s[i - 1] == nodes[i - 1];
        }
      }
    }

    method PushOnBucket(n: Node<K, E>)
      requires BucketsOk(Live()) && ListOk() && 0 <= n.hashIndex < hashSize && n !in nodes
      requires n.hashPrev == null && n.hashNext == null
      modifies this`chains, table, nodes, n
      ensures BucketsOk(Live() + {n}) && ListOk()
      ensures n.listPrev == old(n.listPrev) && n.listNext == old(n.listNext)
    {
      var index := n.hashIndex;
      ghost var pushed := chains[index := [n] + chains[index]];
      var e := table[index];
      assert e == null || e in nodes by {
        assert BucketOk(index, Live());
        assert |chains[index]| > 0 ==> chains[index][0] in chains[index];
      }
      table[index] := n;
      n.hashNext := e;
      if e != null { e.hashPrev := n; }
      chains := pushed;
      BucketsPushed(n);
    }

    method AppendToList(n: Node<K, E>)
      requires ListOk() && n !in nodes && n.listPrev == null && n.listNext == null
      modifies this`nodes, this`first, this`last, nodes, n
      ensures ListOk() && nodes == old(nodes) + [n]
      ensures forall m :: m in nodes ==> m.hashPrev == old(m.hashPrev) && m.hashNext == old(m.hashNext)
    {
      if first == null {
        first := n;
        last := n;
      } else {
        last.listNext := n;
        n.listPrev := last;
        last := n;
      }
      nodes := nodes + [n];
      ListAppended();
    }

    /** Appending an entry with a new key keeps the keys distinct. */
    twostate lemma EntriesWith(n: Node<K, E>)
      requires old(KeysOk()) && nodes == old(nodes) + [n] && n.hashIndex == getIndex(n.key)
      requires Find(old(Entries()), n.key) == |old(nodes)|
      ensures KeysOk() && Entries() == old(Entries()) + [Entry(n.key, n.element)]
    {
      forall i | 0 <= i < |old(nodes)| ensures nodes[i].key != n.key {
        assert old(Entries())[i].key != n.key;
      }
    }

    /** Appending a node other than the current one does not move the cursor. */
    twostate lemma CursorKept(n: Node<K, E>)
      requires nodes == old(nodes) + [n] && NoRepeats(nodes) && cur == old(cur) && cur != n
      ensures CursorPos() == old(CursorPos())
    {
      if cur != null && cur in old(nodes) {
        CursorIs(PositionOf(old(nodes), cur));
      }
    }

    /** The linking half of AddElement: n enters its bucket, then the list. */
    method Link(n: Node<K, E>)
      requires Valid() && n !in nodes && cur != n
      requires 0 <= n.hashIndex == getIndex(n.key) < hashSize
      requires Find(Entries(), n.key) == |nodes|
      requires n.hashPrev == null && n.hashNext == null && n.listPrev == null && n.listNext == null
      modifies this`chains, this`nodes, this`first, this`last, table, nodes, n
      ensures Valid() && nodes == old(nodes) + [n]
      ensures View() == old(View()).(entries := old(Entries()) + [Entry(n.key, n.element)])
    {
      hide BucketsOk, KeysOk, Find;
      PushOnBucket(n);
      label pushed:
      AppendToList(n);
      assert Live() == old(Live()) + {n};
      BucketsUntouched@pushed(Live());
      EntriesWith(n);
      CursorKept(n);
    }

    /** memory says whether the allocation of a node succeeds; the source reports its failure
        and leaves the table as it is. */
    method AddElement(k: K, e: E, memory: bool) returns (status: Status)
      requires Valid() && getIndex(k) >= 0
      modifies this, table, nodes
      ensures Valid()
      ensures (View(), status) == AfterAdd(old(View()), k, e, getIndex(k) < hashSize, memory)
      ensures cur == old(cur)
      ensures status == InvalidIndex <==> getIndex(k) >= hashSize
      ensures status == KeyExists <==> getIndex(k) < hashSize && k in KeysOf(old(Entries()))
      ensures fresh(Live() - old(Live()))
    {
      var index := getIndex(k);
      if index >= hashSize { return InvalidIndex; }
      var found := HasElement(k);
      if found { return KeyExists; }
      if !memory { return OutOfMemory; }
      var n := new Node(k, e, index);
      Link(n);
      return Ok;
    }

    /** Clear forgets the buckets, then walks the list releasing each node; the cursor is
        left as it was.  `freed` records the nodes released. */
    method Clear() returns (ghost freed: seq<Node<K, E>>)
      requires Valid()
      modifies this`first, this`last, this`nodes, this`chains, table
      ensures Valid() && freed == old(nodes) && NoRepeats(freed)
      ensures View() == AfterClear(old(View())) && cur == old(cur)
    {
      for i := 0 to hashSize
        invariant forall b :: 0 <= b < i ==> table[b] == null
        modifies table
      {
        table[i] := null;
      }
      chains := seq(hashSize, _ => []);
      freed := [];
      assert ListOk();
      var tmp := first;
      while tmp != null
        invariant |freed| <= |nodes| && freed == nodes[..|freed|] && tmp == Neighbour(nodes, |freed|)
        decreases |nodes| - |freed|
      {
        var next := tmp.listNext;
        freed := freed + [tmp];
        tmp := next;
      }
      first, last := null, null;
      nodes := [];
    }

    // ---- runs and traversals ----

    method Perform(op: Op<K, E>) returns (status: Status)
      requires Valid() && Defined(View(), op)
      requires (op.Add? || op.Delete? || op.Goto?) ==> getIndex(op.key) >= 0
      modifies this, table, nodes
      ensures Valid()
      ensures (View(), status) == Apply(old(View()), op, getIndex, hashSize)
      ensures fresh(Live() - old(Live()))
    {
      status := Ok;
      match op
      case Add(k, e, memory) => status := AddElement(k, e, memory);
      case Delete(k) => status := DeleteElement(k);
      case Goto(k) => status := GotoElement(k);
      case DeleteCurrent => status := DeleteCurrentElement();
      case Clear => ghost var _ := Clear();
      case GotoFirst => GotoFirstElement();
      case GotoLast => GotoLastElement();
      case GotoNext => GotoNextElement();
      case GotoPrevious => GotoPreviousElement();
    }

    /** Any defined run of operations on the heap does what the value semantics says. */
    method Replay(ops: seq<Op<K, E>>) returns (statuses: seq<Status>)
      requires Valid() && RunDefined(View(), ops, getIndex, hashSize)
      requires forall op :: op in ops && (op.Add? || op.Delete? || op.Goto?) ==> getIndex(op.key) >= 0
      modifies this, table, nodes
      ensures Valid()
      ensures (View(), statuses) == Run(old(View()), ops, getIndex, hashSize)
    {
      ghost var start := View();
      statuses := [];
      for i := 0 to |ops|
        invariant Valid() && fresh(Live() - old(Live()))
        invariant RunDefined(start, ops[..i], getIndex, hashSize)
        invariant (View(), statuses) == Run(start, ops[..i], getIndex, hashSize)
      {
        RunPrefixDefined(start, ops, i + 1, getIndex, hashSize);
        assert ops[..i + 1] == ops[..i] + [ops[i]];
        RunExtend(start, ops[..i], ops[i], getIndex, hashSize);
        var status := Perform(ops[i]);
        statuses := statuses + [status];
      }
      assert ops[..|ops|] == ops;
    }

    /** The traversal idiom of the library: at each entry either delete it or step on.  Every
        entry is visited once, in insertion order, and exactly the kept ones remain. */
    method Sweep(keep: Entry<K, E> -> bool) returns (visited: seq<Entry<K, E>>)
      requires Valid()
      modifies this, table, nodes
      ensures Valid()
      ensures visited == old(Entries())
      ensures View() == Table(Kept(old(Entries()), keep), Null)
    {
      hide Valid;
      ghost var all := Entries();
      visited := [];
      GotoFirstElement();
      SweepStart(all, keep, View());
      while cur != null
        invariant Valid() && forall i :: 0 <= i < |nodes| ==> nodes[i] in old(nodes)
        invariant Swept(all, visited, keep, View())
        decreases |all| - |visited|
      {
        ghost var before, done := View(), visited;
        var v := VisitCurrent(keep);
        visited := visited + [v];
        SweepStep(all, done, keep, before, View());
      }
      SweepEnd(all, visited, keep, View());
    }

    method VisitCurrent(keep: Entry<K, E> -> bool) returns (v: Entry<K, E>)
      requires Valid() && CursorPos().At?
      modifies this, table, nodes
      ensures Valid() && forall i :: 0 <= i < |nodes| ==> nodes[i] in old(nodes)
      ensures v == old(Entries()[CursorPos().pos])
      ensures View() == if keep(v) then AfterMove(old(View()), 1) else AfterDeleteCurrent(old(View())).0
    {
      var k, e := GetCurrent();
      v := Entry(k, e);
      if keep(v) {
        GotoNextElement();
      } else {
        var _ := DeleteCurrentElement();
        assert forall n :: n in nodes ==> n in Live();
      }
    }
  }

  /** RTPHashTable: the same structure keyed on the element itself. */
  type ElementHashTable<E(==)> = KeyHashTable<E, ()>
}
