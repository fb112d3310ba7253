/**
  Nested argument tables: the tree a caller writes down with `TableEntry`,
  `FieldValue` and `Table`, and the count-and-pointer structures those
  constructors leave in memory for the C library (the in-memory form of the
  field tables of AMQP 0-9-1, section 4.2.5.5).
*/
module FieldTree {

  // ---------------------------------------------------------------- trees

  datatype ScalarKind = BOOLEAN | I8 | U8 | I16 | U16 | I32 | U32 | I64 | U64

  type Negative = n: int | n < 0 witness -1

  /**
    `Hollow` is a table or array with a negative count: it has no items to visit, but
    is told from an empty one, and from others of its kind, by the count.
  */
  datatype Value =
    | Scalar(kind: ScalarKind, n: int)
    | Decimal(decimals: nat, value: nat)
    | Text(utf8: bool, data: string)
    | TableOf(entries: seq<Entry>)
    | ArrayOf(items: seq<Value>)
    | Hollow(table: bool, count: Negative)

  datatype Entry = Entry(key: string, value: Value)

  /** The `kind` tags, as rabbitmq-c's amqp.h numbers them: by the characters of the AMQP grammar. */
  function ScalarTag(k: ScalarKind): char {
    match k
    case BOOLEAN => 't'
    case I8 => 'b'
    case U8 => 'B'
    case I16 => 's'
    case U16 => 'u'
    case I32 => 'I'
    case U32 => 'i'
    case I64 => 'l'
    case U64 => 'L'
  }

  function Tag(v: Value): char {
    match v
    case Scalar(k, _) => ScalarTag(k)
    case Decimal(_, _) => 'D'
    case Text(utf8, _) => if utf8 then 'S' else 'x'
    case TableOf(_) => 'F'
    case ArrayOf(_) => 'A'
    case Hollow(table, _) => if table then 'F' else 'A'
  }

  // ---------------------------------------------------------------- memory

  datatype RawBytes = RawBytes(len: nat, ptr: nat)

  datatype RawTable = RawTable(count: int, ptr: nat)

  datatype RawValue =
    | RScalar(kind: ScalarKind, n: int)
    | RDecimal(decimals: nat, value: nat)
    | RText(utf8: bool, bytes: RawBytes)
    | RTable(table: RawTable)
    | RArray(count: int, ptr: nat)

  function RawTag(v: RawValue): char {
    match v
    case RScalar(k, _) => ScalarTag(k)
    case RDecimal(_, _) => 'D'
    case RText(utf8, _) => if utf8 then 'S' else 'x'
    case RTable(_) => 'F'
    case RArray(_, _) => 'A'
  }

  datatype RawEntry = RawEntry(key: RawBytes, value: RawValue)

  /** What one buffer owned by a string or a vector holds. */
  datatype Block = Chars(chars: string) | Fields(fields: seq<RawValue>) | Entries(entries: seq<RawEntry>)

  type Heap = map<nat, Block>

  // ---------------------------------------------------------------- liveness

  ghost predicate LiveBytes(h: Heap, b: RawBytes) {
    b.len > 0 ==> b.ptr in h && h[b.ptr].Chars? && b.len <= |h[b.ptr].chars|
  }

  /**
    Every buffer reachable from `v` exists, has the right type and is at least as
    long as its count says; and pointers lead through at most `d` buffers of items
    one after the other. Some `d` will do for every structure that does not lead
    into itself; where its buffers lie, and which came first, does not matter.
  */
  ghost predicate Live(h: Heap, v: RawValue, d: nat)
    decreases d, 1
  {
    match v
    case RText(_, b) => LiveBytes(h, b)
    case RTable(t) => LiveTable(h, t, d)
    case RArray(count, ptr) =>
      count > 0 ==>
        && d > 0 && ptr in h && h[ptr].Fields? && count <= |h[ptr].fields|
        && LiveFields(h, h[ptr].fields[..count], d - 1)
    case _ => true
  }

  ghost predicate LiveTable(h: Heap, t: RawTable, d: nat)
    decreases d, 0
  {
    t.count > 0 ==>
      && d > 0 && t.ptr in h && h[t.ptr].Entries? && t.count <= |h[t.ptr].entries|
      && LiveEntries(h, h[t.ptr].entries[..t.count], d - 1)
  }

  ghost predicate LiveFields(h: Heap, vs: seq<RawValue>, d: nat)
    decreases d, 2
  {
    forall i :: 0 <= i < |vs| ==> Live(h, vs[i], d)
  }

  ghost predicate LiveEntries(h: Heap, es: seq<RawEntry>, d: nat)
    decreases d, 2
  {
    forall i :: 0 <= i < |es| ==> LiveBytes(h, es[i].key) && Live(h, es[i].value, d)
  }

  // ---------------------------------------------------------------- deep reading

  function ReadBytes(h: Heap, b: RawBytes): string
    requires LiveBytes(h, b)
  {
    if b.len == 0 then [] else h[b.ptr].chars[..b.len]
  }

  /** The elements a loop `for i in 0..count` visits. */
  ghost function FieldsOf(h: Heap, v: RawValue, d: nat): seq<RawValue>
    requires v.RArray? && Live(h, v, d)
  {
    if v.count <= 0 then [] else h[v.ptr].fields[..v.count]
  }

  ghost function EntriesOf(h: Heap, t: RawTable, d: nat): seq<RawEntry>
    requires LiveTable(h, t, d)
  {
    if t.count <= 0 then [] else h[t.ptr].entries[..t.count]
  }

  /** The tree a value stands for, read through all its pointers. */
  ghost function ReadValue(h: Heap, v: RawValue, d: nat): Value
    requires Live(h, v, d)
    decreases d, 1
  {
    match v
    case RScalar(kind, n) => Scalar(kind, n)
    case RDecimal(decimals, value) => Decimal(decimals, value)
    case RText(utf8, b) => Text(utf8, ReadBytes(h, b))
    case RTable(t) => if t.count < 0 then Hollow(true, t.count) else TableOf(ReadTable(h, t, d))
    case RArray(count, ptr) =>
      if count < 0 then Hollow(false, count)
      else ArrayOf(if count == 0 then [] else ReadFields(h, FieldsOf(h, v, d), d - 1))
  }

  ghost function ReadTable(h: Heap, t: RawTable, d: nat): seq<Entry>
    requires LiveTable(h, t, d)
    decreases d, 0
  {
    if t.count <= 0 then [] else ReadEntries(h, EntriesOf(h, t, d), d - 1)
  }

  ghost function ReadFields(h: Heap, vs: seq<RawValue>, d: nat): (r: seq<Value>)
    requires LiveFields(h, vs, d)
    ensures |r| == |vs|
    decreases d, 2
  {
    seq(|vs|, i requires 0 <= i < |vs| && LiveFields(h, vs, d) => ReadValue(h, vs[i], d))
  }

  ghost function ReadEntries(h: Heap, es: seq<RawEntry>, d: nat): (r: seq<Entry>)
    requires LiveEntries(h, es, d)
    ensures |r| == |es|
    decreases d, 2
  {
    seq(|es|, i requires 0 <= i < |es| && LiveEntries(h, es, d) =>
      Entry(ReadBytes(h, es[i].key), ReadValue(h, es[i].value, d)))
  }

  /** Deep reading, element by element. */
  lemma ReadArrayAt(h: Heap, v: RawValue, d: nat)
    requires v.RArray? && v.count >= 0 && Live(h, v, d)
    ensures var vs := FieldsOf(h, v, d);
            && ReadValue(h, v, d).ArrayOf? && |ReadValue(h, v, d).items| == |vs|
            && forall i :: 0 <= i < |vs| ==>
                 d > 0 && Live(h, vs[i], d - 1) && ReadValue(h, v, d).items[i] == ReadValue(h, vs[i], d - 1)
  {
    if v.count > 0 {
      assert LiveFields(h, FieldsOf(h, v, d), d - 1);
    }
  }

  lemma ReadTableAt(h: Heap, t: RawTable, d: nat)
    requires LiveTable(h, t, d)
    ensures var es := EntriesOf(h, t, d);
            && |ReadTable(h, t, d)| == |es|
            && forall i :: 0 <= i < |es| ==>
                 && d > 0 && LiveBytes(h, es[i].key) && Live(h, es[i].value, d - 1)
                 && ReadTable(h, t, d)[i] == Entry(ReadBytes(h, es[i].key), ReadValue(h, es[i].value, d - 1))
  {
    if t.count > 0 {
      assert LiveEntries(h, EntriesOf(h, t, d), d - 1);
    }
  }

  // ---------------------------------------------------------------- framing

  function ReachBytes(b: RawBytes): set<nat> {
    if b.len == 0 then {} else {b.ptr}
  }

  /** The buffers deep reading looks at: the backing storage of `v`. */
  ghost function Reach(h: Heap, v: RawValue, d: nat): set<nat>
    requires Live(h, v, d)
    decreases d, 1
  {
    match v
    case RText(_, b) => ReachBytes(b)
    case RTable(t) => ReachTable(h, t, d)
    case RArray(count, ptr) => if count <= 0 then {} else {ptr} + ReachFields(h, FieldsOf(h, v, d), d - 1)
    case _ => {}
  }

  ghost function ReachTable(h: Heap, t: RawTable, d: nat): set<nat>
    requires LiveTable(h, t, d)
    decreases d, 0
  {
    if t.count <= 0 then {} else {t.ptr} + ReachEntries(h, EntriesOf(h, t, d), d - 1)
  }

  ghost function ReachFields(h: Heap, vs: seq<RawValue>, d: nat): set<nat>
    requires LiveFields(h, vs, d)
    decreases d, 2
  {
    set i, p | 0 <= i < |vs| && p in Reach(h, vs[i], d) :: p
  }

  ghost function ReachEntries(h: Heap, es: seq<RawEntry>, d: nat): set<nat>
    requires LiveEntries(h, es, d)
    decreases d, 2
  {
    set i, p | 0 <= i < |es| && p in ReachBytes(es[i].key) + Reach(h, es[i].value, d) :: p
  }

  ghost predicate SameOn(h: Heap, h': Heap, ps: set<nat>) {
    forall p :: p in ps ==> p in h && p in h' && h'[p] == h[p]
  }

  /** `v` means the same in `h`, seen to depth `d`, as in `h'`, seen to depth `e`. */
  ghost predicate Same(h: Heap, d: nat, h': Heap, e: nat, v: RawValue) {
    && Live(h, v, d) && Live(h', v, e)
    && ReadValue(h', v, e) == ReadValue(h, v, d)
    && Reach(h', v, e) == Reach(h, v, d)
  }

  ghost predicate SameTable(h: Heap, d: nat, h': Heap, e: nat, t: RawTable) {
    && LiveTable(h, t, d) && LiveTable(h', t, e)
    && ReadTable(h', t, e) == ReadTable(h, t, d)
    && ReachTable(h', t, e) == ReachTable(h, t, d)
  }

  /**
    Nothing outside the backing storage of a value matters to its meaning, whatever is
    built, changed or freed there; nor does it matter how much deeper one may look.
  */
  lemma {:induction false} ReadFrame(h: Heap, d: nat, h': Heap, e: nat, v: RawValue)
    requires Live(h, v, d) && SameOn(h, h', Reach(h, v, d)) && d <= e
    ensures Same(h, d, h', e, v)
    decreases d, 1
  {
    match v
    case RTable(t) => ReadTableFrame(h, d, h', e, t);
    case RArray(count, ptr) =>
      if count > 0 {
        var vs := FieldsOf(h, v, d);
        assert Reach(h, v, d) == {ptr} + ReachFields(h, vs, d - 1);
        ReadFieldsFrame(h, d - 1, h', e - 1, vs);
        assert h'[ptr] == h[ptr] && Live(h', v, e) && FieldsOf(h', v, e) == vs;
      }
    case _ =>
  }

  lemma {:induction false} ReadFieldsFrame(h: Heap, d: nat, h': Heap, e: nat, vs: seq<RawValue>)
    requires LiveFields(h, vs, d) && SameOn(h, h', ReachFields(h, vs, d)) && d <= e
    ensures LiveFields(h', vs, e)
    ensures ReadFields(h', vs, e) == ReadFields(h, vs, d) && ReachFields(h', vs, e) == ReachFields(h, vs, d)
    decreases d, 2
  {
    forall i | 0 <= i < |vs| ensures Same(h, d, h', e, vs[i]) {
      assert Reach(h, vs[i], d) <= ReachFields(h, vs, d);
      ReadFrame(h, d, h', e, vs[i]);
    }
    assert forall i :: 0 <= i < |vs| ==> ReadFields(h', vs, e)[i] == ReadFields(h, vs, d)[i];
  }

  ghost predicate SameEntry(h: Heap, d: nat, h': Heap, e: nat, r: RawEntry) {
    && LiveBytes(h, r.key) && LiveBytes(h', r.key) && ReadBytes(h', r.key) == ReadBytes(h, r.key)
    && Same(h, d, h', e, r.value)
  }

  lemma {:induction false} ReadTableFrame(h: Heap, d: nat, h': Heap, e: nat, t: RawTable)
    requires LiveTable(h, t, d) && SameOn(h, h', ReachTable(h, t, d)) && d <= e
    ensures SameTable(h, d, h', e, t)
    decreases d, 0
  {
    if t.count > 0 {
      var es := EntriesOf(h, t, d);
      assert ReachTable(h, t, d) == {t.ptr} + ReachEntries(h, es, d - 1);
      ReadEntriesFrame(h, d - 1, h', e - 1, es);
      assert h'[t.ptr] == h[t.ptr] && LiveTable(h', t, e) && EntriesOf(h', t, e) == es;
    }
  }

  lemma {:induction false} ReadEntriesFrame(h: Heap, d: nat, h': Heap, e: nat, es: seq<RawEntry>)
    requires LiveEntries(h, es, d) && SameOn(h, h', ReachEntries(h, es, d)) && d <= e
    ensures LiveEntries(h', es, e)
    ensures ReadEntries(h', es, e) == ReadEntries(h, es, d) && ReachEntries(h', es, e) == ReachEntries(h, es, d)
    decreases d, 2
  {
    forall i | 0 <= i < |es| ensures SameEntry(h, d, h', e, es[i]) {
      EntryReaches(h, es, d, i);
      ReadFrame(h, d, h', e, es[i].value);
    }
    SameEntries(h, d, h', e, es);
  }

  lemma EntryReaches(h: Heap, es: seq<RawEntry>, d: nat, i: nat)
    requires LiveEntries(h, es, d) && i < |es|
    ensures LiveBytes(h, es[i].key) && Live(h, es[i].value, d)
    ensures ReachBytes(es[i].key) <= ReachEntries(h, es, d) && Reach(h, es[i].value, d) <= ReachEntries(h, es, d)
  {
    assert ReachBytes(es[i].key) + Reach(h, es[i].value, d) <= ReachEntries(h, es, d);
  }

  lemma SameEntries(h: Heap, d: nat, h': Heap, e: nat, es: seq<RawEntry>)
    requires forall i :: 0 <= i < |es| ==> SameEntry(h, d, h', e, es[i])
    ensures LiveEntries(h, es, d) && LiveEntries(h', es, e)
    ensures ReadEntries(h', es, e) == ReadEntries(h, es, d)
    ensures ReachEntries(h', es, e) == ReachEntries(h, es, d)
  {
    assert forall i :: 0 <= i < |es| ==> ReadEntries(h', es, e)[i] == ReadEntries(h, es, d)[i];
  }

  /** What is reachable exists. */
  lemma {:induction false} ReachExists(h: Heap, v: RawValue, d: nat)
    requires Live(h, v, d)
    ensures forall p :: p in Reach(h, v, d) ==> p in h
    decreases d, 1
  {
    match v
    case RTable(t) => ReachTableExists(h, t, d);
    case RArray(count, ptr) =>
      if count > 0 {
        var vs := FieldsOf(h, v, d);
        forall i | 0 <= i < |vs| ensures forall p :: p in Reach(h, vs[i], d - 1) ==> p in h {
          ReachExists(h, vs[i], d - 1);
        }
      }
    case _ =>
  }

  lemma {:induction false} ReachTableExists(h: Heap, t: RawTable, d: nat)
    requires LiveTable(h, t, d)
    ensures forall p :: p in ReachTable(h, t, d) ==> p in h
    decreases d, 0
  {
    if t.count > 0 {
      ReachEntriesExist(h, EntriesOf(h, t, d), d - 1);
    }
  }

  lemma {:induction false} ReachEntriesExist(h: Heap, es: seq<RawEntry>, d: nat)
    requires LiveEntries(h, es, d)
    ensures forall p :: p in ReachEntries(h, es, d) ==> p in h
    decreases d, 2
  {
    forall i | 0 <= i < |es| ensures forall p :: p in Reach(h, es[i].value, d) ==> p in h {
      ReachExists(h, es[i].value, d);
    }
  }

  ghost predicate Extends(h: Heap, h': Heap) {
    forall p :: p in h ==> p in h' && h'[p] == h[p]
  }

  lemma ReadExtended(h: Heap, d: nat, h': Heap, e: nat, v: RawValue)
    requires Live(h, v, d) && Extends(h, h') && d <= e
    ensures Same(h, d, h', e, v)
  {
    ReachExists(h, v, d);
    ReadFrame(h, d, h', e, v);
  }

  /** A table that leads to a buffer which is not there is not alive, to no depth. */
  lemma MissingBufferKills(h: Heap, d: nat, h': Heap, e: nat, t: RawTable, p: nat)
    requires LiveTable(h, t, d) && p in ReachTable(h, t, d)
    requires Extends(h', h) && p !in h'
    ensures !LiveTable(h', t, e)
  {
    if LiveTable(h', t, e) {
      var f := if d <= e then e else d;
      ReachTableExists(h, t, d);
      ReachTableExists(h', t, e);
      ReadTableFrame(h, d, h, f, t);
      ReadTableFrame(h', e, h, f, t);
    }
  }
}
