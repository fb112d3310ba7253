/**
  Building tables: what the constructors of `FieldValue`, `TableEntry` and
  `Table` leave in memory (include/rmqcxx/FieldValue.hpp, TableEntry.hpp,
  Table.hpp), and that reading it deeply gives back the tree it was built from.
*/
module Flatten {
  import opened FieldTree

  const INT_LIMIT: int := 0x8000_0000

  /** `static_cast<int>` of a container's size. */
  function ToInt(n: nat): (i: int)
    ensures -INT_LIMIT <= i < INT_LIMIT && (n - i) % (2 * INT_LIMIT) == 0
  {
    var m := n % (2 * INT_LIMIT);
    if m < INT_LIMIT then m else m - 2 * INT_LIMIT
  }

  // ---------------------------------------------------------------- allocation

  /** Buffers in use and the next address, never used before. Address 0 is the null pointer. */
  datatype Memory = Memory(heap: Heap, next: nat) {
    ghost predicate Valid() {
      next > 0 && forall p :: p in heap ==> 0 < p < next
    }

    function Store(b: Block): (Memory, nat) {
      (Memory(heap[next := b], next + 1), next)
    }

    /** `m` has the buffers of `this`, unchanged, and maybe more. */
    ghost predicate GrowsTo(m: Memory) {
      m.Valid() && next <= m.next && Extends(heap, m.heap)
    }
  }

  // ---------------------------------------------------------------- constructors

  /** `bytes(container)`: the container's own buffer and its length. */
  function FlattenBytes(m: Memory, s: string): (Memory, RawBytes) {
    var (m', p) := m.Store(Chars(s));
    (m', RawBytes(|s|, p))
  }

  /**
    The `FieldValue` constructors; nested tables and arrays are built first. A list
    with a negative count can only be handed over raw.
  */
  function FlattenValue(m: Memory, v: Value): (Memory, RawValue)
    decreases v, 1
  {
    match v
    case Scalar(kind, n) => (m, RScalar(kind, n))
    case Decimal(decimals, value) => (m, RDecimal(decimals, value))
    case Text(utf8, data) =>
      var (m', b) := FlattenBytes(m, data);
      (m', RText(utf8, b))
    case TableOf(entries) =>
      var (m1, es) := FlattenEntries(m, entries);
      var (m2, t) := MakeTable(m1, es);
      (m2, RTable(t))
    case ArrayOf(items) =>
      var (m1, vs) := FlattenItems(m, items);
      var (m2, p) := m1.Store(Fields(vs));
      (m2, RArray(ToInt(|vs|), p))
    case Hollow(table, count) => (m, if table then RTable(RawTable(count, 0)) else RArray(count, 0))
  }

  /** The `Table` constructor: entries in one buffer, counted. (A count too large for an `int` does not compile.) */
  function MakeTable(m: Memory, es: seq<RawEntry>): (Memory, RawTable) {
    var (m', p) := m.Store(Entries(es));
    (m', RawTable(ToInt(|es|), p))
  }

  function FlattenItems(m: Memory, items: seq<Value>): (Memory, seq<RawValue>)
    decreases items, 1
  {
    if items == [] then (m, [])
    else
      var (m1, r) := FlattenValue(m, items[0]);
      var (m2, rs) := FlattenItems(m1, items[1..]);
      (m2, [r] + rs)
  }

  /** The conversion of `TableEntry` to a raw entry. */
  function FlattenEntry(m: Memory, e: Entry): (Memory, RawEntry)
    decreases e, 1
  {
    var (m1, v) := FlattenValue(m, e.value);
    var (m2, k) := FlattenBytes(m1, e.key);
    (m2, RawEntry(k, v))
  }

  function FlattenEntries(m: Memory, entries: seq<Entry>): (Memory, seq<RawEntry>)
    decreases entries, 1
  {
    if entries == [] then (m, [])
    else
      var (m1, r) := FlattenEntry(m, entries[0]);
      var (m2, rs) := FlattenEntries(m1, entries[1..]);
      (m2, [r] + rs)
  }

  /** No list in the tree is too long to be counted by an `int`. */
  ghost predicate Countable(v: Value) {
    match v
    case TableOf(entries) => |entries| < INT_LIMIT && forall i :: 0 <= i < |entries| ==> Countable(entries[i].value)
    case ArrayOf(items) => |items| < INT_LIMIT && forall i :: 0 <= i < |items| ==> Countable(items[i])
    case _ => true
  }

  // ---------------------------------------------------------------- meaning

  lemma ToIntFacts(n: nat)
    ensures ToInt(n) <= n
    ensures ToInt(n) == n <==> n < INT_LIMIT
  {
  }

  lemma BytesKept(m: Memory, s: string)
    requires m.Valid()
    ensures var (m', b) := FlattenBytes(m, s);
            m.GrowsTo(m') && LiveBytes(m'.heap, b) && ReadBytes(m'.heap, b) == s
  {
  }

  lemma LiveBytesExtended(h: Heap, h': Heap, b: RawBytes)
    requires LiveBytes(h, b) && Extends(h, h')
    ensures LiveBytes(h', b) && ReadBytes(h', b) == ReadBytes(h, b)
  {
  }

  /**
    `v` is alive in `m`, and stands for `tree` exactly when that can be counted. Built
    structures are never deeper than there are buffers.
  */
  ghost predicate Stands(m: Memory, v: RawValue, tree: Value) {
    && Live(m.heap, v, m.next)
    && (ReadValue(m.heap, v, m.next) == tree <==> Countable(tree))
  }

  lemma StandsLater(m: Memory, m': Memory, v: RawValue, tree: Value)
    requires Stands(m, v, tree) && m.GrowsTo(m')
    ensures Stands(m', v, tree) && Same(m.heap, m.next, m'.heap, m'.next, v)
  {
    ReadExtended(m.heap, m.next, m'.heap, m'.next, v);
  }

  /**
    Flattening preserves meaning, whatever else is in memory: reading the
    structures deeply gives back the tree, exactly when no list in it overflows
    its `int` count. Nothing that was in memory before is touched.
  */
  lemma {:induction false} FlattenPreservesMeaning(m: Memory, v: Value)
    requires m.Valid()
    ensures var (m', r) := FlattenValue(m, v);
            m.GrowsTo(m') && Stands(m', r, v)
    decreases v, 1
  {
    match v
    case Text(utf8, data) => BytesKept(m, data);
    case TableOf(entries) =>
      var (m1, es) := FlattenEntries(m, entries);
      FlattenEntriesStand(m, entries);
      TableStands(m1, es, entries);
    case ArrayOf(items) =>
      var (m1, vs) := FlattenItems(m, items);
      FlattenItemsStand(m, items);
      ArrayStands(m1, vs, items);
    case _ =>
  }

  lemma {:induction false} FlattenItemsStand(m: Memory, items: seq<Value>)
    requires m.Valid()
    ensures var (m', vs) := FlattenItems(m, items);
            && m.GrowsTo(m') && |vs| == |items|
            && forall i :: 0 <= i < |items| ==> Stands(m', vs[i], items[i])
    decreases items, 1
  {
    if items != [] {
      var (m1, r) := FlattenValue(m, items[0]);
      var (m2, rs) := FlattenItems(m1, items[1..]);
      FlattenPreservesMeaning(m, items[0]);
      FlattenItemsStand(m1, items[1..]);
      StandsLater(m1, m2, r, items[0]);
      assert forall i :: 1 <= i < |items| ==> items[i] == items[1..][i - 1];
    }
  }

  ghost predicate EntryStands(m: Memory, r: RawEntry, e: Entry) {
    LiveBytes(m.heap, r.key) && ReadBytes(m.heap, r.key) == e.key && Stands(m, r.value, e.value)
  }

  lemma {:induction false} FlattenEntryStands(m: Memory, e: Entry)
    requires m.Valid()
    ensures var (m', r) := FlattenEntry(m, e);
            m.GrowsTo(m') && EntryStands(m', r, e)
    decreases e, 1
  {
    var (m1, v) := FlattenValue(m, e.value);
    var (m2, k) := FlattenBytes(m1, e.key);
    FlattenPreservesMeaning(m, e.value);
    BytesKept(m1, e.key);
    StandsLater(m1, m2, v, e.value);
  }

  lemma EntryStandsLater(m: Memory, m': Memory, r: RawEntry, e: Entry)
    requires EntryStands(m, r, e) && m.GrowsTo(m')
    ensures EntryStands(m', r, e) && SameEntry(m.heap, m.next, m'.heap, m'.next, r)
  {
    StandsLater(m, m', r.value, e.value);
    LiveBytesExtended(m.heap, m'.heap, r.key);
  }

  lemma {:induction false} FlattenEntriesStand(m: Memory, entries: seq<Entry>)
    requires m.Valid()
    ensures var (m', es) := FlattenEntries(m, entries);
            && m.GrowsTo(m') && |es| == |entries|
            && forall i :: 0 <= i < |entries| ==> EntryStands(m', es[i], entries[i])
    decreases entries, 1
  {
    if entries != [] {
      var (m1, r) := FlattenEntry(m, entries[0]);
      var (m2, rs) := FlattenEntries(m1, entries[1..]);
      FlattenEntryStands(m, entries[0]);
      FlattenEntriesStand(m1, entries[1..]);
      EntryStandsLater(m1, m2, r, entries[0]);
      assert forall i :: 1 <= i < |entries| ==> entries[i] == entries[1..][i - 1];
    }
  }

  /** `v`, alive in `m`, still is when one more buffer was added, seen to the old depth. */
  lemma StandsBelow(m: Memory, b: Block, v: RawValue, tree: Value)
    requires m.Valid() && Stands(m, v, tree)
    ensures var m' := m.Store(b).0;
            m.GrowsTo(m') && Live(m'.heap, v, m.next) && ReadValue(m'.heap, v, m.next) == ReadValue(m.heap, v, m.next)
  {
    ReadExtended(m.heap, m.next, m.Store(b).0.heap, m.next, v);
  }

  lemma ArrayStands(m: Memory, vs: seq<RawValue>, items: seq<Value>)
    requires m.Valid() && |vs| == |items|
    requires forall i :: 0 <= i < |items| ==> Stands(m, vs[i], items[i])
    ensures var (m', p) := m.Store(Fields(vs));
            m.GrowsTo(m') && Stands(m', RArray(ToInt(|vs|), p), ArrayOf(items))
  {
    var (m', p) := m.Store(Fields(vs));
    var r := RArray(ToInt(|vs|), p);
    ToIntFacts(|vs|);
    forall i | 0 <= i < |items|
      ensures Live(m'.heap, vs[i], m.next) && (ReadValue(m'.heap, vs[i], m.next) == items[i] <==> Countable(items[i]))
    {
      StandsBelow(m, Fields(vs), vs[i], items[i]);
    }
    assert Live(m'.heap, r, m'.next);
    if r.count >= 0 {
      ReadArrayAt(m'.heap, r, m'.next);
      var read := ReadValue(m'.heap, r, m'.next).items;
      if |items| < INT_LIMIT {
        assert vs[..|vs|] == vs;
        assert items != [] ==> FieldsOf(m'.heap, r, m'.next) == vs;
        assert forall i :: 0 <= i < |items| ==> read[i] == ReadValue(m'.heap, vs[i], m.next);
        assert read == items <==> forall i :: 0 <= i < |items| ==> read[i] == items[i];
      } else {
        assert |read| != |items|;
      }
    }
  }

  lemma TableStands(m: Memory, es: seq<RawEntry>, entries: seq<Entry>)
    requires m.Valid() && |es| == |entries|
    requires forall i :: 0 <= i < |entries| ==> EntryStands(m, es[i], entries[i])
    ensures var (m', t) := MakeTable(m, es);
            m.GrowsTo(m') && Stands(m', RTable(t), TableOf(entries))
  {
    var (m', t) := MakeTable(m, es);
    ToIntFacts(|es|);
    forall i | 0 <= i < |entries|
      ensures && LiveBytes(m'.heap, es[i].key) && ReadBytes(m'.heap, es[i].key) == entries[i].key
              && Live(m'.heap, es[i].value, m.next)
              && (ReadValue(m'.heap, es[i].value, m.next) == entries[i].value <==> Countable(entries[i].value))
    {
      StandsBelow(m, Entries(es), es[i].value, entries[i].value);
      LiveBytesExtended(m.heap, m'.heap, es[i].key);
    }
    assert LiveTable(m'.heap, t, m'.next);
    ReadTableAt(m'.heap, t, m'.next);
    var read := ReadTable(m'.heap, t, m'.next);
    if |entries| < INT_LIMIT {
      assert es[..|es|] == es;
      assert entries != [] ==> EntriesOf(m'.heap, t, m'.next) == es;
      assert forall i :: 0 <= i < |entries| ==>
        read[i] == Entry(entries[i].key, ReadValue(m'.heap, es[i].value, m.next));
      assert read == entries <==> forall i :: 0 <= i < |entries| ==> read[i] == entries[i];
    } else if t.count >= 0 {
      assert |read| != |entries|;
    }
  }

  /**
    Building one more tree leaves the meaning of every value built before alone;
    and it stays so when buffers outside its own backing storage are freed.
  */
  lemma BuildingKeepsOthers(m: Memory, other: RawValue, d: nat, v: Value, freed: set<nat>)
    requires m.Valid() && Live(m.heap, other, d)
    requires freed !! Reach(m.heap, other, d)
    ensures var (m', _) := FlattenValue(m, v);
            Same(m.heap, d, m'.heap - freed, d, other)
  {
    FlattenPreservesMeaning(m, v);
    ReachExists(m.heap, other, d);
    var (m', _) := FlattenValue(m, v);
    ReadFrame(m.heap, d, m'.heap - freed, d, other);
  }

  // ---------------------------------------------------------------- layout

  /**
    What lies in memory for a tree, structure by structure and apart from how it is
    read: the kind, the count, and the items in order in one buffer.
  */
  ghost predicate LaidOut(h: Heap, r: RawValue, v: Value)
    decreases v, 1
  {
    match v
    case Scalar(kind, n) => r == RScalar(kind, n)
    case Decimal(decimals, value) => r == RDecimal(decimals, value)
    case Text(utf8, data) => r.RText? && r.utf8 == utf8 && BytesLaidOut(h, r.bytes, data)
    case TableOf(entries) =>
      && r.RTable? && r.table.count == ToInt(|entries|)
      && r.table.ptr in h && h[r.table.ptr].Entries? && EntriesLaidOut(h, h[r.table.ptr].entries, entries)
    case ArrayOf(items) =>
      && r.RArray? && r.count == ToInt(|items|)
      && r.ptr in h && h[r.ptr].Fields? && ItemsLaidOut(h, h[r.ptr].fields, items)
    case Hollow(table, count) => if table then r.RTable? && r.table.count == count else r.RArray? && r.count == count
  }

  ghost predicate BytesLaidOut(h: Heap, b: RawBytes, s: string) {
    b.len == |s| && b.ptr in h && h[b.ptr] == Chars(s)
  }

  ghost predicate ItemsLaidOut(h: Heap, vs: seq<RawValue>, items: seq<Value>)
    decreases items, 0
  {
    |vs| == |items| && forall i :: 0 <= i < |items| ==> LaidOut(h, vs[i], items[i])
  }

  ghost predicate EntryLaidOut(h: Heap, r: RawEntry, e: Entry)
    decreases e, 2
  {
    BytesLaidOut(h, r.key, e.key) && LaidOut(h, r.value, e.value)
  }

  ghost predicate EntriesLaidOut(h: Heap, es: seq<RawEntry>, entries: seq<Entry>)
    decreases entries, 0
  {
    |es| == |entries| && forall i :: 0 <= i < |entries| ==> EntryLaidOut(h, es[i], entries[i])
  }

  lemma {:induction false} LaidOutLater(h: Heap, h': Heap, r: RawValue, v: Value)
    requires LaidOut(h, r, v) && Extends(h, h')
    ensures LaidOut(h', r, v)
    decreases v, 1
  {
    match v
    case TableOf(entries) =>
      var es := h[r.table.ptr].entries;
      forall i | 0 <= i < |entries| ensures EntryLaidOut(h', es[i], entries[i]) {
        EntryLaidOutLater(h, h', es[i], entries[i]);
      }
    case ArrayOf(items) =>
      var vs := h[r.ptr].fields;
      forall i | 0 <= i < |items| ensures LaidOut(h', vs[i], items[i]) {
        LaidOutLater(h, h', vs[i], items[i]);
      }
    case _ =>
  }

  lemma {:induction false} EntryLaidOutLater(h: Heap, h': Heap, r: RawEntry, e: Entry)
    requires EntryLaidOut(h, r, e) && Extends(h, h')
    ensures EntryLaidOut(h', r, e)
    decreases e, 2
  {
    LaidOutLater(h, h', r.value, e.value);
  }

  /** The constructors lay out every tree so. */
  lemma {:induction false} FlattenLaysOut(m: Memory, v: Value)
    requires m.Valid()
    ensures var (m', r) := FlattenValue(m, v);
            m.GrowsTo(m') && LaidOut(m'.heap, r, v)
    decreases v, 1
  {
    match v
    case TableOf(entries) =>
      var (m1, es) := FlattenEntries(m, entries);
      var (m2, t) := MakeTable(m1, es);
      FlattenEntriesLaysOut(m, entries);
      forall i | 0 <= i < |entries| ensures EntryLaidOut(m2.heap, es[i], entries[i]) {
        EntryLaidOutLater(m1.heap, m2.heap, es[i], entries[i]);
      }
    case ArrayOf(items) =>
      var (m1, vs) := FlattenItems(m, items);
      var (m2, p) := m1.Store(Fields(vs));
      FlattenItemsLaysOut(m, items);
      forall i | 0 <= i < |items| ensures LaidOut(m2.heap, vs[i], items[i]) {
        LaidOutLater(m1.heap, m2.heap, vs[i], items[i]);
      }
    case _ =>
  }

  lemma {:induction false} FlattenItemsLaysOut(m: Memory, items: seq<Value>)
    requires m.Valid()
    ensures var (m', vs) := FlattenItems(m, items);
            m.GrowsTo(m') && ItemsLaidOut(m'.heap, vs, items)
    decreases items, 1
  {
    if items != [] {
      var (m1, r) := FlattenValue(m, items[0]);
      var (m2, rs) := FlattenItems(m1, items[1..]);
      FlattenLaysOut(m, items[0]);
      FlattenItemsLaysOut(m1, items[1..]);
      LaidOutLater(m1.heap, m2.heap, r, items[0]);
      assert forall i :: 1 <= i < |items| ==> items[i] == items[1..][i - 1];
    }
  }

  lemma {:induction false} FlattenEntryLaysOut(m: Memory, e: Entry)
    requires m.Valid()
    ensures var (m', r) := FlattenEntry(m, e);
            m.GrowsTo(m') && EntryLaidOut(m'.heap, r, e)
    decreases e, 2
  {
    var (m1, v) := FlattenValue(m, e.value);
    var (m2, k) := FlattenBytes(m1, e.key);
    FlattenLaysOut(m, e.value);
    LaidOutLater(m1.heap, m2.heap, v, e.value);
  }

  lemma {:induction false} FlattenEntriesLaysOut(m: Memory, entries: seq<Entry>)
    requires m.Valid()
    ensures var (m', es) := FlattenEntries(m, entries);
            m.GrowsTo(m') && EntriesLaidOut(m'.heap, es, entries)
    decreases entries, 1
  {
    if entries != [] {
      var (m1, r) := FlattenEntry(m, entries[0]);
      var (m2, rs) := FlattenEntries(m1, entries[1..]);
      FlattenEntryLaysOut(m, entries[0]);
      FlattenEntriesLaysOut(m1, entries[1..]);
      EntryLaidOutLater(m1.heap, m2.heap, r, entries[0]);
      assert forall i :: 1 <= i < |entries| ==> entries[i] == entries[1..][i - 1];
    }
  }
}
