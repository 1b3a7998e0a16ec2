/** What a jrtplib hash table means to its clients: a list of entries in insertion order,
    no key twice, and a movable cursor.  Hashing does not show, except that a key whose hash
    index is out of range is refused. */
module OrderedTable {

  datatype Status = Ok | InvalidIndex | KeyExists | KeyNotFound | NoCurrent | OutOfMemory

  datatype Entry<+K, +E> = Entry(key: K, element: E)

  /** The constructor and Clear leave the cursor untouched, so it may designate an entry
      that is no longer (or was never) in the table. */
  datatype Cursor = Null | At(pos: nat) | Dangling

  datatype Table<+K, +E> = Table(entries: seq<Entry<K, E>>, cursor: Cursor) {
    predicate CursorUsable() {
      !cursor.Dangling? && (cursor.At? ==> cursor.pos < |entries|)
    }
  }

  /** Position of key k, or |entries| when it is absent. */
  function Find<K(==), E>(entries: seq<Entry<K, E>>, k: K): (i: nat)
    ensures i <= |entries|
    ensures i < |entries| ==> entries[i].key == k
    ensures forall j :: 0 <= j < i ==> entries[j].key != k
  {
    if entries == [] then 0
    else if entries[0].key == k then 0
    else 1 + Find(entries[1..], k)
  }

  ghost predicate UniqueKeys<K, E>(entries: seq<Entry<K, E>>) {
    forall i, j :: 0 <= i < j < |entries| ==> entries[i].key != entries[j].key
  }

  function Without<T>(s: seq<T>, i: nat): (r: seq<T>)
    requires i < |s|
    ensures |r| == |s| - 1
    ensures forall j :: 0 <= j < |r| ==> r[j] == s[if j < i then j else j + 1]
  {
    s[..i] + s[i + 1..]
  }

  /** The client operations. */
  datatype Op<K, E> =
    | Add(key: K, element: E, memory: bool)  // memory: the allocation of a node succeeds
    | Delete(key: K)
    | Goto(key: K)
    | DeleteCurrent
    | Clear
    | GotoFirst
    | GotoLast
    | GotoNext
    | GotoPrevious

  function CursorAt(i: int, n: nat): Cursor {
    if 0 <= i < n then At(i) else Null
  }

  function AfterGoto<K(==), E>(t: Table<K, E>, k: K, inRange: bool): (Table<K, E>, Status) {
    if !inRange then (t, InvalidIndex)
    else
      var i := Find(t.entries, k);
      (t.(cursor := CursorAt(i, |t.entries|)), if i < |t.entries| then Ok else KeyNotFound)
  }

  function AfterDeleteCurrent<K, E>(t: Table<K, E>): (Table<K, E>, Status)
    requires t.CursorUsable()
  {
    match t.cursor
    case Null => (t, NoCurrent)
    case At(i) => (Table(Without(t.entries, i), CursorAt(i, |t.entries| - 1)), Ok)
  }

  function AfterAdd<K(==), E>(t: Table<K, E>, k: K, e: E, inRange: bool, memory: bool): (Table<K, E>, Status) {
    if !inRange then (t, InvalidIndex)
    else if Find(t.entries, k) < |t.entries| then (t, KeyExists)
    else if !memory then (t, OutOfMemory)
    else (t.(entries := t.entries + [Entry(k, e)]), Ok)
  }

  function AfterDelete<K(==), E>(t: Table<K, E>, k: K, inRange: bool): (Table<K, E>, Status) {
    var (t', status) := AfterGoto(t, k, inRange);
    if status != Ok then (t', status) else AfterDeleteCurrent(t')
  }

  function AfterClear<K, E>(t: Table<K, E>): Table<K, E> {
    Table([], if t.cursor.Null? then Null else Dangling)
  }

  function AfterMove<K, E>(t: Table<K, E>, step: int): Table<K, E>
    requires t.CursorUsable()
  {
    match t.cursor
    case Null => t
    case At(i) => t.(cursor := CursorAt(i + step, |t.entries|))
  }

  // ---- runs of operations ----

  /** GotoNext, GotoPrevious and DeleteCurrent read through the cursor: calling them while it
      dangles is a use after release, so such runs are not defined. */
  predicate Defined<K, E>(t: Table<K, E>, op: Op<K, E>) {
    op.DeleteCurrent? || op.GotoNext? || op.GotoPrevious? ==> t.CursorUsable()
  }

  function Apply<K(==), E>(t: Table<K, E>, op: Op<K, E>, getIndex: K -> int, size: nat): (Table<K, E>, Status)
    requires Defined(t, op)
  {
    match op
    case Add(k, e, memory) => AfterAdd(t, k, e, getIndex(k) < size, memory)
    case Delete(k) => AfterDelete(t, k, getIndex(k) < size)
    case Goto(k) => AfterGoto(t, k, getIndex(k) < size)
    case DeleteCurrent => AfterDeleteCurrent(t)
    case Clear => (AfterClear(t), Ok)
    case GotoFirst => (t.(cursor := CursorAt(0, |t.entries|)), Ok)
    case GotoLast => (t.(cursor := CursorAt(|t.entries| - 1, |t.entries|)), Ok)
    case GotoNext => (AfterMove(t, 1), Ok)
    case GotoPrevious => (AfterMove(t, -1), Ok)
  }

  predicate RunDefined<K(==), E>(t: Table<K, E>, ops: seq<Op<K, E>>, getIndex: K -> int, size: nat)
    decreases |ops|
  {
    ops == [] ||
    (Defined(t, ops[0]) && RunDefined(Apply(t, ops[0], getIndex, size).0, ops[1..], getIndex, size))
  }

  /** Final table and the status of every operation. */
  function Run<K(==), E>(t: Table<K, E>, ops: seq<Op<K, E>>, getIndex: K -> int, size: nat)
    : (Table<K, E>, seq<Status>)
    requires RunDefined(t, ops, getIndex, size)
    decreases |ops|
  {
    if ops == [] then (t, [])
    else
      var (t1, status) := Apply(t, ops[0], getIndex, size);
      var (t2, statuses) := Run(t1, ops[1..], getIndex, size);
      (t2, [status] + statuses)
  }

  // ---- the table as a dictionary ----

  function KeysOf<K, E>(entries: seq<Entry<K, E>>): set<K> {
    set i | 0 <= i < |entries| :: entries[i].key
  }

  /** The dictionary a list of entries stands for. */
  function Dictionary<K(==), E>(entries: seq<Entry<K, E>>): map<K, E> {
    map k | k in KeysOf(entries) :: ValueAt(entries, k)
  }

  function ValueAt<K(==), E>(entries: seq<Entry<K, E>>, k: K): E
    requires k in KeysOf(entries)
  {
    FindFinds(entries, k);
    entries[Find(entries, k)].element
  }

  lemma FindFinds<K, E>(entries: seq<Entry<K, E>>, k: K)
    ensures k in KeysOf(entries) <==> Find(entries, k) < |entries|
  {
    if k in KeysOf(entries) {
      var i :| 0 <= i < |entries| && entries[i].key == k;
    }
    if Find(entries, k) < |entries| {
      assert entries[Find(entries, k)].key == k;
    }
  }

  /** Under distinct keys every entry is the one Find returns for its key. */
  lemma FindAt<K, E>(entries: seq<Entry<K, E>>, i: nat)
    requires UniqueKeys(entries) && i < |entries|
    ensures Find(entries, entries[i].key) == i
  {
  }

  /** A new key added behind the last entry adds exactly its binding. */
  lemma AppendExtendsDictionary<K, E>(entries: seq<Entry<K, E>>, k: K, e: E)
    requires UniqueKeys(entries) && k !in KeysOf(entries)
    ensures UniqueKeys(entries + [Entry(k, e)])
    ensures Dictionary(entries + [Entry(k, e)]) == Dictionary(entries)[k := e]
  {
    hide Find;
    var longer := entries + [Entry(k, e)];
    assert longer[|entries|].key == k;
    forall i | 0 <= i < |entries| ensures entries[i].key != k && longer[i] == entries[i] {
      assert entries[i].key in KeysOf(entries);
    }
    forall x | x in KeysOf(entries) ensures x in KeysOf(longer) {
      var i :| 0 <= i < |entries| && entries[i].key == x;
      assert longer[i].key == x;
    }
    forall x | x in KeysOf(longer)
      ensures x in KeysOf(entries) + {k} && ValueAt(longer, x) == Dictionary(entries)[k := e][x]
    {
      FindFinds(longer, x);
      FindFinds(entries, x);
      var f := Find(longer, x);
      FindAt(longer, f);
      if f < |entries| {
        assert entries[f].key == x;
        FindAt(entries, f);
      }
    }
  }

  /** AddElement extends the dictionary exactly when the key is new, its index is in range and
      there is memory for a node; a failed allocation is reported only where it would have
      been added. */
  lemma AddExtendsDictionary<K, E>(t: Table<K, E>, k: K, e: E, inRange: bool, memory: bool)
    requires UniqueKeys(t.entries)
    ensures var (t', status) := AfterAdd(t, k, e, inRange, memory);
      var before, after := Dictionary(t.entries), Dictionary(t'.entries);
      && UniqueKeys(t'.entries)
      && (status == Ok <==> inRange && k !in before && memory)
      && (status == OutOfMemory <==> inRange && k !in before && !memory)
      && after == if status == Ok then before[k := e] else before
  {
    FindFinds(t.entries, k);
    if k !in KeysOf(t.entries) { AppendExtendsDictionary(t.entries, k, e); }
    hide Find, UniqueKeys, ValueAt;
  }

  /** Dropping position i drops exactly its key from the dictionary. */
  lemma WithoutShrinksDictionary<K, E>(entries: seq<Entry<K, E>>, i: nat)
    requires UniqueKeys(entries) && i < |entries|
    ensures UniqueKeys(Without(entries, i))
    ensures Dictionary(Without(entries, i)) == Dictionary(entries) - {entries[i].key}
  {
    hide Find, Without, UniqueKeys;
    var r := Without(entries, i);
    WithoutDropsKey(entries, i);
    forall x | x in KeysOf(r) ensures ValueAt(r, x) == ValueAt(entries, x) {
      FindFinds(r, x);
      var g := Find(r, x);
      var f := if g < i then g else g + 1;
      assert r[g] == entries[f];
      FindAt(entries, f);
    }
  }

  lemma WithoutDropsKey<K, E>(entries: seq<Entry<K, E>>, i: nat)
    requires UniqueKeys(entries) && i < |entries|
    ensures UniqueKeys(Without(entries, i))
    ensures KeysOf(Without(entries, i)) == KeysOf(entries) - {entries[i].key}
  {
    var r := Without(entries, i);
    forall x | x in KeysOf(entries) && x != entries[i].key ensures x in KeysOf(r) {
      var f :| 0 <= f < |entries| && entries[f].key == x;
      assert r[if f < i then f else f - 1] == entries[f];
    }
    forall x | x in KeysOf(r) ensures x in KeysOf(entries) && x != entries[i].key {
      var g :| 0 <= g < |r| && r[g].key == x;
      assert r[g] == entries[if g < i then g else g + 1];
    }
  }

  /** DeleteElement removes exactly its key, succeeds exactly on present keys, and afterwards
      the cursor stands on the entry that followed, or is null when the key was missing. */
  lemma DeleteShrinksDictionary<K, E>(t: Table<K, E>, k: K, inRange: bool)
    requires UniqueKeys(t.entries)
    ensures var (t', status) := AfterDelete(t, k, inRange);
      var before, after := Dictionary(t.entries), Dictionary(t'.entries);
      && UniqueKeys(t'.entries)
      && (status == Ok <==> inRange && k in before)
      && after == (if status == Ok then before - {k} else before)
      && (status == Ok && t'.cursor.At? ==>
            t'.entries[t'.cursor.pos] == t.entries[Find(t.entries, k) + 1])
      && (status == Ok && t'.cursor.Null? ==> Find(t.entries, k) == |t.entries| - 1)
      && (status == KeyNotFound ==> t' == t.(cursor := Null))
  {
    FindFinds(t.entries, k);
    if inRange && Find(t.entries, k) < |t.entries| {
      WithoutShrinksDictionary(t.entries, Find(t.entries, k));
    }
  }

  /** Every entry has an index in range, so Delete and Goto reach it. */
  ghost predicate InRange<K, E>(entries: seq<Entry<K, E>>, getIndex: K -> int, size: nat) {
    forall i :: 0 <= i < |entries| ==> getIndex(entries[i].key) < size
  }

  /** The only edits an operation makes to the list: none, drop everything, drop one entry,
      or add one behind the last.  Entries are never reordered. */
  ghost predicate OneEdit<K, E>(before: seq<Entry<K, E>>, after: seq<Entry<K, E>>, op: Op<K, E>) {
    || after == before
    || (op.Clear? && after == [])
    || ((op.Delete? || op.DeleteCurrent?) && exists i :: 0 <= i < |before| && after == Without(before, i))
    || (op.Add? && after == before + [Entry(op.key, op.element)])
  }

  /** What one operation does to the keys, the order and the cursor. */
  ghost predicate Keeps<K, E>(t: Table<K, E>, t': Table<K, E>, op: Op<K, E>, getIndex: K -> int, size: nat) {
    && UniqueKeys(t'.entries) && InRange(t'.entries, getIndex, size)
    && (t.CursorUsable() && !op.Clear? ==> t'.CursorUsable())
    && (op.Clear? ==> (t'.CursorUsable() <==> t.cursor == Null))
    && (op.Add? ==> t'.cursor == t.cursor)
    && OneEdit(t.entries, t'.entries, op)
  }

  lemma AddKeeps<K, E>(t: Table<K, E>, op: Op<K, E>, getIndex: K -> int, size: nat)
    requires op.Add? && UniqueKeys(t.entries) && InRange(t.entries, getIndex, size)
    ensures Keeps(t, AfterAdd(t, op.key, op.element, getIndex(op.key) < size, op.memory).0, op, getIndex, size)
  {
    hide UniqueKeys, InRange, Find, Without;
    if getIndex(op.key) < size && Find(t.entries, op.key) == |t.entries| {
      AppendKeeps(t.entries, op.key, op.element, getIndex, size);
    }
  }

  lemma RemovalKeeps<K, E>(t: Table<K, E>, i: nat, op: Op<K, E>, getIndex: K -> int, size: nat)
    requires (op.Delete? || op.DeleteCurrent?) && UniqueKeys(t.entries) && InRange(t.entries, getIndex, size)
    requires i < |t.entries|
    ensures Keeps(t, Table(Without(t.entries, i), CursorAt(i, |t.entries| - 1)), op, getIndex, size)
  {
    hide UniqueKeys, InRange, Without;
    WithoutKeeps(t.entries, i, getIndex, size);
  }

  /** Moving the cursor, or losing it where it was not usable, keeps everything. */
  lemma MoveKeeps<K, E>(t: Table<K, E>, c: Cursor, op: Op<K, E>, getIndex: K -> int, size: nat)
    requires !op.Clear? && !op.Add? && UniqueKeys(t.entries) && InRange(t.entries, getIndex, size)
    requires t.CursorUsable() ==> t.(cursor := c).CursorUsable()
    ensures Keeps(t, t.(cursor := c), op, getIndex, size)
  {
    hide UniqueKeys, InRange;
  }

  lemma ClearKeeps<K, E>(t: Table<K, E>, op: Op<K, E>, getIndex: K -> int, size: nat)
    requires op.Clear?
    ensures Keeps(t, AfterClear(t), op, getIndex, size)
  {
  }

  /** One operation keeps keys distinct and in range, keeps a usable cursor usable except
      across Clear (which keeps it exactly when it is null), and never reorders. */
  lemma ApplyKeeps<K, E>(t: Table<K, E>, op: Op<K, E>, getIndex: K -> int, size: nat)
    requires Defined(t, op) && UniqueKeys(t.entries) && InRange(t.entries, getIndex, size)
    ensures Keeps(t, Apply(t, op, getIndex, size).0, op, getIndex, size)
  {
    hide UniqueKeys, InRange, Find, Without, Keeps, AfterAdd, AfterClear;
    match op
    case Add(_, _, _) => AddKeeps(t, op, getIndex, size);
    case Delete(k) =>
      var i := Find(t.entries, k);
      if getIndex(k) < size && i < |t.entries| {
        RemovalKeeps(t, i, op, getIndex, size);
      } else {
        MoveKeeps(t, Apply(t, op, getIndex, size).0.cursor, op, getIndex, size);
      }
    case DeleteCurrent =>
      if t.cursor.At? {
        RemovalKeeps(t, t.cursor.pos, op, getIndex, size);
      } else {
        MoveKeeps(t, t.cursor, op, getIndex, size);
      }
    case Clear => ClearKeeps(t, op, getIndex, size);
    case _ => MoveKeeps(t, Apply(t, op, getIndex, size).0.cursor, op, getIndex, size);
  }

  lemma AppendKeeps<K, E>(entries: seq<Entry<K, E>>, k: K, e: E, getIndex: K -> int, size: nat)
    requires UniqueKeys(entries) && InRange(entries, getIndex, size)
    requires Find(entries, k) == |entries| && getIndex(k) < size
    ensures UniqueKeys(entries + [Entry(k, e)]) && InRange(entries + [Entry(k, e)], getIndex, size)
  {
    hide Find;
  }

  lemma WithoutKeeps<K, E>(entries: seq<Entry<K, E>>, i: nat, getIndex: K -> int, size: nat)
    requires UniqueKeys(entries) && InRange(entries, getIndex, size) && i < |entries|
    ensures UniqueKeys(Without(entries, i)) && InRange(Without(entries, i), getIndex, size)
  {
    hide Without;
  }

  /** From a constructed (empty) table no run of operations ever stores a key twice or out of range. */
  lemma {:induction false} RunKeepsKeys<K, E>(t: Table<K, E>, ops: seq<Op<K, E>>, getIndex: K -> int, size: nat)
    requires RunDefined(t, ops, getIndex, size)
    requires UniqueKeys(t.entries) && InRange(t.entries, getIndex, size)
    ensures var t' := Run(t, ops, getIndex, size).0;
      UniqueKeys(t'.entries) && InRange(t'.entries, getIndex, size)
    decreases |ops|
  {
    if ops != [] {
      ApplyKeeps(t, ops[0], getIndex, size);
      hide UniqueKeys, InRange, OneEdit;
      RunKeepsKeys(Apply(t, ops[0], getIndex, size).0, ops[1..], getIndex, size);
    }
  }

  lemma {:induction false} RunExtend<K, E>(t: Table<K, E>, ops: seq<Op<K, E>>, op: Op<K, E>,
                                           getIndex: K -> int, size: nat)
    requires RunDefined(t, ops + [op], getIndex, size)
    ensures RunDefined(t, ops, getIndex, size)
    ensures var (t1, statuses) := Run(t, ops, getIndex, size);
      && Defined(t1, op)
      && var (t2, status) := Apply(t1, op, getIndex, size);
      Run(t, ops + [op], getIndex, size) == (t2, statuses + [status])
    decreases |ops|
  {
    if ops == [] {
      assert ops + [op] == [op] && [op][1..] == [];
      var (t2, status) := Apply(t, op, getIndex, size);
      assert Run(t2, [op][1..], getIndex, size) == (t2, []);
      assert [status] + [] == [] + [status];
    } else {
      assert (ops + [op])[1..] == ops[1..] + [op];
      var (t1, first) := Apply(t, ops[0], getIndex, size);
      RunExtend(t1, ops[1..], op, getIndex, size);
      var rest := Run(t1, ops[1..], getIndex, size).1;
      var status := Apply(Run(t1, ops[1..], getIndex, size).0, op, getIndex, size).1;
      assert [first] + (rest + [status]) == ([first] + rest) + [status];
    }
  }

  lemma {:induction false} RunPrefixDefined<K, E>(t: Table<K, E>, ops: seq<Op<K, E>>, n: nat,
                                                  getIndex: K -> int, size: nat)
    requires RunDefined(t, ops, getIndex, size) && n <= |ops|
    ensures RunDefined(t, ops[..n], getIndex, size)
    decreases n
  {
    if n > 0 {
      assert ops[..n][1..] == ops[1..][..n - 1];
      RunPrefixDefined(Apply(t, ops[0], getIndex, size).0, ops[1..], n - 1, getIndex, size);
    }
  }

  // ---- sweeping ----

  function Kept<K, E>(entries: seq<Entry<K, E>>, keep: Entry<K, E> -> bool): seq<Entry<K, E>> {
    if entries == [] then []
    else
      var last := entries[|entries| - 1];
      Kept(entries[..|entries| - 1], keep) + if keep(last) then [last] else []
  }

  /** A sweep under way: of `all`, the entries `done` have been visited and the cursor stands
      on the next one, behind those kept so far. */
  ghost predicate Swept<K, E>(all: seq<Entry<K, E>>, done: seq<Entry<K, E>>, keep: Entry<K, E> -> bool,
                              t: Table<K, E>)
  {
    && |done| <= |all| && done == all[..|done|]
    && t.entries == Kept(done, keep) + all[|done|..]
    && t.cursor == CursorAt(|Kept(done, keep)|, |t.entries|)
  }

  lemma SweepStart<K, E>(all: seq<Entry<K, E>>, keep: Entry<K, E> -> bool, t: Table<K, E>)
    requires t == Table(all, CursorAt(0, |all|))
    ensures Swept(all, [], keep, t)
  {
  }

  lemma SweepEnd<K, E>(all: seq<Entry<K, E>>, done: seq<Entry<K, E>>, keep: Entry<K, E> -> bool, t: Table<K, E>)
    requires Swept(all, done, keep, t) && t.cursor.Null?
    ensures done == all && t == Table(Kept(all, keep), Null)
  {
    assert all[|done|..] == [];
  }

  /** Keeping or dropping the current entry moves the sweep on by exactly that entry. */
  lemma SweepStep<K, E>(all: seq<Entry<K, E>>, done: seq<Entry<K, E>>, keep: Entry<K, E> -> bool,
                        t: Table<K, E>, t': Table<K, E>)
    requires Swept(all, done, keep, t) && t.cursor.At?
    requires t' == if keep(t.entries[t.cursor.pos]) then AfterMove(t, 1) else AfterDeleteCurrent(t).0
    ensures Swept(all, done + [t.entries[t.cursor.pos]], keep, t')
  {
    var n := |Kept(done, keep)|;
    var x := all[|done|];
    assert t.entries[n] == x;
    assert all[..|done| + 1] == done + [x];
    assert (done + [x])[..|done|] == done;
    if keep(x) {
      assert t.entries == (Kept(done, keep) + [x]) + all[|done| + 1..];
    } else {
      assert Without(t.entries, n) == Kept(done, keep) + all[|done| + 1..];
    }
  }
}
