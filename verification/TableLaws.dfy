/** The client operations of a hash table stated apart from how they are computed: by which keys
    are in the table, and by which entry the cursor is on before and after. */
module TableLaws {
  import opened Common
  import opened OrderedTable

  /** The entry under the cursor, when it is on one. */
  function Current<K, E>(t: Table<K, E>): Option<Entry<K, E>> {
    if t.cursor.At? && t.cursor.pos < |t.entries| then Some(t.entries[t.cursor.pos]) else None
  }

  ghost predicate IsLast<K, E>(entries: seq<Entry<K, E>>, x: Entry<K, E>) {
    |entries| > 0 && entries[|entries| - 1] == x
  }

  /** x stands directly in front of y. */
  ghost predicate Before<K, E>(entries: seq<Entry<K, E>>, x: Entry<K, E>, y: Entry<K, E>) {
    exists i :: 0 <= i < |entries| - 1 && entries[i] == x && entries[i + 1] == y
  }

  /** Whatever its outcome, adding leaves the cursor where it is and on the same entry. */
  ghost predicate AddLaw<K, E>(t: Table<K, E>, t': Table<K, E>, status: Status, op: Op<K, E>, inRange: bool)
    requires op.Add?
  {
    && t'.cursor == t.cursor && (t.CursorUsable() ==> Current(t') == Current(t))
    && (status == InvalidIndex <==> !inRange)
    && (status == KeyExists <==> inRange && op.key in KeysOf(t.entries))
    && (status == OutOfMemory <==> inRange && op.key !in KeysOf(t.entries) && !op.memory)
    && (status == Ok <==> inRange && op.key !in KeysOf(t.entries) && op.memory)
    && (status == Ok ==> t'.entries == t.entries + [Entry(op.key, op.element)])
    && (status != Ok ==> t'.entries == t.entries)
  }

  /** A refused index changes nothing, a missing key leaves a null cursor, and a key in the
      table puts the cursor on its entry. */
  ghost predicate GotoLaw<K, E>(t: Table<K, E>, t': Table<K, E>, status: Status, k: K, inRange: bool) {
    && t'.entries == t.entries
    && (status == InvalidIndex <==> !inRange)
    && (status == KeyNotFound <==> inRange && k !in KeysOf(t.entries))
    && (status == Ok <==> inRange && k in KeysOf(t.entries))
    && (status == InvalidIndex ==> t'.cursor == t.cursor)
    && (status == KeyNotFound ==> t'.cursor == Null)
    && (status == Ok ==> Current(t').Some? && Current(t').value.key == k)
  }

  /** An entry x goes, those in front of it and behind it stay in order, and the cursor is on
      the one that followed x, or null when none did. */
  ghost predicate Removed<K, E>(t: Table<K, E>, t': Table<K, E>, x: Entry<K, E>) {
    exists i :: 0 <= i < |t.entries| && t.entries[i] == x && RemovedAt(t, t', i)
  }

  ghost predicate RemovedAt<K, E>(t: Table<K, E>, t': Table<K, E>, i: nat)
    requires i < |t.entries|
  {
    && t'.entries == t.entries[..i] + t.entries[i + 1..]
    && (i + 1 == |t.entries| ==> t'.cursor.Null?)
    && (i + 1 < |t.entries| ==> Current(t') == Some(t.entries[i + 1]))
  }

  ghost predicate DeleteLaw<K, E>(t: Table<K, E>, t': Table<K, E>, status: Status, k: K, inRange: bool) {
    && (status == InvalidIndex <==> !inRange)
    && (status == KeyNotFound <==> inRange && k !in KeysOf(t.entries))
    && (status == Ok <==> inRange && k in KeysOf(t.entries))
    && (status == InvalidIndex ==> t' == t)
    && (status == KeyNotFound ==> t' == t.(cursor := Null))
    && (status == Ok ==> exists x :: x in t.entries && x.key == k && Removed(t, t', x))
  }

  ghost predicate DeleteCurrentLaw<K, E>(t: Table<K, E>, t': Table<K, E>, status: Status) {
    && (status == NoCurrent <==> t.cursor.Null?)
    && (status == Ok <==> !t.cursor.Null?)
    && (status == NoCurrent ==> t' == t)
    && (status == Ok ==> Current(t).Some? && Removed(t, t', Current(t).value))
  }

  /** Clear leaves a cursor that is not null on a released entry. */
  ghost predicate ClearLaw<K, E>(t: Table<K, E>, t': Table<K, E>, status: Status) {
    status == Ok && t'.entries == [] && (t'.cursor.Null? <==> t.cursor.Null?)
    && (t'.cursor.Dangling? <==> !t.cursor.Null?)
  }

  ghost predicate GotoFirstLaw<K, E>(t: Table<K, E>, t': Table<K, E>, status: Status) {
    && status == Ok && t'.entries == t.entries
    && (t'.cursor.Null? <==> |t.entries| == 0)
    && (|t.entries| > 0 ==> Current(t') == Some(t.entries[0]))
  }

  ghost predicate GotoLastLaw<K, E>(t: Table<K, E>, t': Table<K, E>, status: Status) {
    && status == Ok && t'.entries == t.entries
    && (t'.cursor.Null? <==> |t.entries| == 0)
    && (|t.entries| > 0 ==> Current(t').Some? && IsLast(t.entries, Current(t').value))
  }

  /** Onto the entry behind; past the last one, and from nowhere, to nowhere. */
  ghost predicate GotoNextLaw<K, E>(t: Table<K, E>, t': Table<K, E>, status: Status) {
    && status == Ok && t'.entries == t.entries
    && (t.cursor.Null? ==> t'.cursor.Null?)
    && (Current(t).Some? && t'.cursor.Null? ==> IsLast(t.entries, Current(t).value))
    && (!t'.cursor.Null? ==>
          Current(t).Some? && Current(t').Some? && Before(t.entries, Current(t).value, Current(t').value))
  }

  /** Onto the entry in front; before the first one, and from nowhere, to nowhere. */
  ghost predicate GotoPreviousLaw<K, E>(t: Table<K, E>, t': Table<K, E>, status: Status) {
    && status == Ok && t'.entries == t.entries
    && (t.cursor.Null? ==> t'.cursor.Null?)
    && (Current(t).Some? && t'.cursor.Null? ==> t.entries[0] == Current(t).value)
    && (!t'.cursor.Null? ==>
          Current(t).Some? && Current(t').Some? && Before(t.entries, Current(t').value, Current(t).value))
  }

  ghost predicate Law<K, E>(t: Table<K, E>, t': Table<K, E>, status: Status, op: Op<K, E>,
                            getIndex: K -> int, size: nat)
  {
    match op
    case Add(k, _, _) => AddLaw(t, t', status, op, getIndex(k) < size)
    case Delete(k) => DeleteLaw(t, t', status, k, getIndex(k) < size)
    case Goto(k) => GotoLaw(t, t', status, k, getIndex(k) < size)
    case DeleteCurrent => DeleteCurrentLaw(t, t', status)
    case Clear => ClearLaw(t, t', status)
    case GotoFirst => GotoFirstLaw(t, t', status)
    case GotoLast => GotoLastLaw(t, t', status)
    case GotoNext => GotoNextLaw(t, t', status)
    case GotoPrevious => GotoPreviousLaw(t, t', status)
  }

  lemma AddObeys<K, E>(t: Table<K, E>, op: Op<K, E>, inRange: bool)
    requires op.Add?
    ensures var (t', status) := AfterAdd(t, op.key, op.element, inRange, op.memory);
      AddLaw(t, t', status, op, inRange)
  {
    hide Find, KeysOf;
    FindFinds(t.entries, op.key);
  }

  lemma GotoObeys<K, E>(t: Table<K, E>, k: K, inRange: bool)
    ensures var (t', status) := AfterGoto(t, k, inRange);
      GotoLaw(t, t', status, k, inRange)
  {
    hide Find, KeysOf;
    FindFinds(t.entries, k);
  }

  lemma RemovalObeys<K, E>(t: Table<K, E>, i: nat)
    requires i < |t.entries|
    ensures Removed(t, Table(Without(t.entries, i), CursorAt(i, |t.entries| - 1)), t.entries[i])
  {
    assert RemovedAt(t, Table(Without(t.entries, i), CursorAt(i, |t.entries| - 1)), i);
  }

  lemma DeleteObeys<K, E>(t: Table<K, E>, k: K, inRange: bool)
    ensures var (t', status) := AfterDelete(t, k, inRange);
      DeleteLaw(t, t', status, k, inRange)
  {
    hide Find, KeysOf, Removed, Without;
    FindFinds(t.entries, k);
    var i := Find(t.entries, k);
    if i < |t.entries| { RemovalObeys(t, i); }
  }

  lemma MoveObeys<K, E>(t: Table<K, E>)
    requires t.CursorUsable()
    ensures GotoNextLaw(t, AfterMove(t, 1), Ok)
    ensures GotoPreviousLaw(t, AfterMove(t, -1), Ok)
  {
    if t.cursor.At? && t.cursor.pos > 0 {
      assert t.entries[t.cursor.pos - 1 + 1] == t.entries[t.cursor.pos];
    }
  }

  /** Every operation does what its law says. */
  lemma ApplyLaw<K, E>(t: Table<K, E>, op: Op<K, E>, getIndex: K -> int, size: nat)
    requires Defined(t, op)
    ensures var (t', status) := Apply(t, op, getIndex, size);
      Law(t, t', status, op, getIndex, size)
  {
    hide AddLaw, DeleteLaw, GotoLaw, GotoNextLaw, GotoPreviousLaw, Removed;
    hide AfterAdd, AfterDelete, AfterGoto, AfterMove, Without;
    match op
    case Add(k, _, _) => AddObeys(t, op, getIndex(k) < size);
    case Delete(k) => DeleteObeys(t, k, getIndex(k) < size);
    case Goto(k) => GotoObeys(t, k, getIndex(k) < size);
    case DeleteCurrent => if t.cursor.At? { RemovalObeys(t, t.cursor.pos); }
    case GotoNext => MoveObeys(t);
    case GotoPrevious => MoveObeys(t);
    case _ =>
  }

  /** Over a run: every status and every move of the cursor obeys the law of its operation. */
  lemma {:induction false} RunLaw<K, E>(t: Table<K, E>, ops: seq<Op<K, E>>, i: nat, getIndex: K -> int, size: nat)
    requires RunDefined(t, ops, getIndex, size) && i < |ops|
    ensures RunDefined(t, ops[..i], getIndex, size) && RunDefined(t, ops[..i + 1], getIndex, size)
    ensures |Run(t, ops, getIndex, size).1| == |ops|
    ensures Law(Run(t, ops[..i], getIndex, size).0, Run(t, ops[..i + 1], getIndex, size).0,
                Run(t, ops, getIndex, size).1[i], ops[i], getIndex, size)
    decreases i
  {
    hide Law, Apply;
    RunLength(t, ops, getIndex, size);
    var (t1, status) := Apply(t, ops[0], getIndex, size);
    assert ops[..i + 1][1..] == ops[1..][..i] && ops[..i + 1][0] == ops[0];
    if i == 0 {
      ApplyLaw(t, ops[0], getIndex, size);
      assert ops[..0] == [] && ops[1..][..0] == [];
    } else {
      assert ops[..i][1..] == ops[1..][..i - 1] && ops[..i][0] == ops[0];
      RunLaw(t1, ops[1..], i - 1, getIndex, size);
    }
  }

  lemma {:induction false} RunLength<K, E>(t: Table<K, E>, ops: seq<Op<K, E>>, getIndex: K -> int, size: nat)
    requires RunDefined(t, ops, getIndex, size)
    ensures |Run(t, ops, getIndex, size).1| == |ops|
    decreases |ops|
  {
    if ops != [] { RunLength(Apply(t, ops[0], getIndex, size).0, ops[1..], getIndex, size); }
  }

  /** An iteration is not disturbed by adding on the way, whatever is added and however it ends. */
  lemma {:induction false} AddingKeepsCursor<K, E>(t: Table<K, E>, ops: seq<Op<K, E>>, getIndex: K -> int, size: nat)
    requires forall i :: 0 <= i < |ops| ==> ops[i].Add?
    requires t.CursorUsable()
    ensures RunDefined(t, ops, getIndex, size)
    ensures var t' := Run(t, ops, getIndex, size).0;
      t'.cursor == t.cursor && Current(t') == Current(t) && t.entries <= t'.entries
    decreases |ops|
  {
    hide AfterAdd;
    if ops != [] {
      var t1 := Apply(t, ops[0], getIndex, size).0;
      AddObeys(t, ops[0], getIndex(ops[0].key) < size);
      AddingKeepsCursor(t1, ops[1..], getIndex, size);
    }
  }

  /** The dictionary binds the key of each entry to its element, and no other key. */
  lemma DictionaryIs<K, E>(entries: seq<Entry<K, E>>)
    requires UniqueKeys(entries)
    ensures forall i :: 0 <= i < |entries| ==>
      entries[i].key in Dictionary(entries) && Dictionary(entries)[entries[i].key] == entries[i].element
    ensures forall k :: k in Dictionary(entries) ==> exists i :: 0 <= i < |entries| && entries[i].key == k
  {
    hide Find;
    forall i | 0 <= i < |entries|
      ensures entries[i].key in Dictionary(entries) && Dictionary(entries)[entries[i].key] == entries[i].element
    {
      FindAt(entries, i);
      assert entries[i].key in KeysOf(entries);
    }
  }

  /** What a sweep keeps: of each entry itself or nothing, put together in order. */
  lemma {:induction false} KeptAppends<K, E>(a: seq<Entry<K, E>>, b: seq<Entry<K, E>>, keep: Entry<K, E> -> bool)
    ensures Kept(a + b, keep) == Kept(a, keep) + Kept(b, keep)
    ensures forall x :: x in Kept(b, keep) <==> x in b && keep(x)
    decreases |b|
  {
    if b == [] {
      assert a + b == a;
    } else {
      var last := b[|b| - 1];
      assert (a + b)[..|a + b| - 1] == a + b[..|b| - 1];
      KeptAppends(a, b[..|b| - 1], keep);
      assert b == b[..|b| - 1] + [last];
    }
  }
}
