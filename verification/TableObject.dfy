/**
  The `Table` class (include/rmqcxx/Table.hpp): a vector of raw entries,
  `cache_`, and a count-and-pointer view of it, `value_`, that every constructor
  and assignment must point at the object's own vector.
*/
module TableObject {
  import opened FieldTree
  import opened Flatten

  // ---------------------------------------------------------------- state and its changes

  /** A vector: no buffer at all (after its buffer was moved away), or a buffer and a size. */
  datatype Vec = NoBuffer | Buffer(data: nat, size: nat) {
    function Data(): nat {
      if Buffer? then data else 0
    }

    function Size(): nat {
      if Buffer? then size else 0
    }

    function View(): RawTable {
      RawTable(ToInt(Size()), Data())
    }
  }

  datatype TableState = TableState(cache: Vec, value: RawTable)

  /** The vector's buffer is there and holds as many entries as the vector says. */
  ghost predicate Owned(m: Memory, v: Vec) {
    v.Buffer? ==> v.data in m.heap && m.heap[v.data].Entries? && |m.heap[v.data].entries| == v.size
  }

  function NewVec(m: Memory, es: seq<RawEntry>): (Memory, Vec) {
    var (m', p) := m.Store(Entries(es));
    (m', Buffer(p, |es|))
  }

  function Contents(m: Memory, v: Vec): seq<RawEntry>
    requires Owned(m, v)
  {
    if v.NoBuffer? then [] else m.heap[v.data].entries
  }

  function CopyVec(m: Memory, v: Vec): (Memory, Vec)
    requires Owned(m, v)
  {
    if v.NoBuffer? then (m, NoBuffer) else NewVec(m, m.heap[v.data].entries)
  }

  function FreeVec(m: Memory, v: Vec): Memory {
    if v.NoBuffer? then m else Memory(m.heap - {v.data}, m.next)
  }

  function Construct(m: Memory, es: seq<RawEntry>): (Memory, TableState) {
    var (m', v) := NewVec(m, es);
    (m', TableState(v, v.View()))
  }

  function CopyConstruct(m: Memory, other: TableState): (Memory, TableState)
    requires Owned(m, other.cache)
  {
    var (m', v) := CopyVec(m, other.cache);
    (m', TableState(v, v.View()))
  }

  /** The new table takes the buffer; the other keeps a view of what it no longer owns. */
  function MoveConstruct(other: TableState): (TableState, TableState) {
    (TableState(other.cache, other.cache.View()), other.(cache := NoBuffer))
  }

  /** A vector that is assigned to may write into the buffer it has, or get a new one and free the old. */
  function CopyAssign(m: Memory, dst: TableState, other: TableState, reuse: bool): (Memory, TableState)
    requires Owned(m, other.cache)
  {
    if reuse && dst.cache.Buffer? then
      var v := Buffer(dst.cache.data, |Contents(m, other.cache)|);
      (Memory(m.heap[v.data := Entries(Contents(m, other.cache))], m.next), TableState(v, v.View()))
    else
      var (m', v) := CopyVec(m, other.cache);
      (FreeVec(m', dst.cache), TableState(v, v.View()))
  }

  function SelfAssign(dst: TableState): TableState {
    TableState(dst.cache, dst.cache.View())
  }

  function MoveAssign(m: Memory, dst: TableState, other: TableState): (Memory, TableState, TableState) {
    var (dst', other') := MoveConstruct(other);
    (FreeVec(m, dst.cache), dst', other')
  }

  /** What assigning a vector to itself by move leaves is unspecified: here all its entries, or none. */
  function SelfMoveAssign(m: Memory, dst: TableState, keeps: bool): (Memory, TableState) {
    if keeps then (m, SelfAssign(dst)) else (FreeVec(m, dst.cache), TableState(NoBuffer, NoBuffer.View()))
  }

  // ---------------------------------------------------------------- the class

  /** The memory all tables share. */
  class Store {
    var m: Memory

    constructor (m: Memory)
      ensures this.m == m
    {
      this.m := m;
    }

    method NewBuffer(es: seq<RawEntry>) returns (v: Vec)
      modifies this
      ensures (m, v) == NewVec(old(m), es)
    {
      v := Buffer(m.next, |es|);
      m := Memory(m.heap[m.next := Entries(es)], m.next + 1);
    }

    method Free(v: Vec)
      modifies this
      ensures m == FreeVec(old(m), v)
    {
      if v.Buffer? {
        m := Memory(m.heap - {v.data}, m.next);
      }
    }

    method Overwrite(p: nat, es: seq<RawEntry>)
      modifies this
      ensures m == Memory(old(m).heap[p := Entries(es)], old(m).next)
    {
      m := Memory(m.heap[p := Entries(es)], m.next);
    }
  }

  class Table {
    var cache: Vec
    var value: RawTable

    ghost function State(): TableState
      reads this
    {
      TableState(cache, value)
    }

    constructor FromEntries(store: Store, es: seq<RawEntry>)
      modifies store
      ensures (store.m, State()) == Construct(old(store.m), es)
      ensures cache == Buffer(old(store.m.next), |es|) && value == RawTable(ToInt(|es|), old(store.m.next))
      ensures store.m.heap == old(store.m.heap)[old(store.m.next) := Entries(es)]
    {
      var v := store.NewBuffer(es);
      cache := v;
      value := RawTable(ToInt(|es|), v.Data());
    }

    constructor Copy(store: Store, other: Table)
      requires Owned(store.m, other.cache)
      modifies store
      ensures (store.m, State()) == CopyConstruct(old(store.m), old(other.State()))
      ensures other.cache == NoBuffer ==> store.m == old(store.m) && cache == NoBuffer
      ensures other.cache.Buffer? ==>
                && cache == Buffer(old(store.m.next), |old(store.m.heap)[other.cache.data].entries|)
                && store.m.heap == old(store.m.heap)[old(store.m.next) := old(store.m.heap)[other.cache.data]]
      ensures value == RawTable(ToInt(cache.Size()), cache.Data())
      ensures other.State() == old(other.State())
    {
      var v := NoBuffer;
      if other.cache.Buffer? {
        v := store.NewBuffer(store.m.heap[other.cache.data].entries);
      }
      cache := v;
      value := RawTable(ToInt(v.Size()), v.Data());
    }

    constructor Move(other: Table)
      modifies other
      ensures (State(), other.State()) == MoveConstruct(old(other.State()))
      ensures cache == old(other.cache) && value == RawTable(ToInt(cache.Size()), cache.Data())
      ensures other.cache == NoBuffer && other.value == old(other.value)
    {
      var v := other.cache;
      other.cache := NoBuffer;
      cache := v;
      value := RawTable(ToInt(v.Size()), v.Data());
    }

    method Assign(store: Store, other: Table, reuse: bool)
      requires Owned(store.m, other.cache)
      modifies this, store
      ensures other == this ==> store.m == old(store.m) && State() == SelfAssign(old(State()))
      ensures other != this ==>
                && (store.m, State()) == CopyAssign(old(store.m), old(State()), old(other.State()), reuse)
                && other.State() == old(other.State())
      ensures value == RawTable(ToInt(cache.Size()), cache.Data())
      ensures other != this && old(other.cache).Buffer? && old(store.m.Valid() && Owned(store.m, cache)) ==>
                && cache.Buffer? && cache.data in store.m.heap
                && store.m.heap[cache.data] == old(store.m.heap)[other.cache.data]
                && cache.data == if reuse && old(cache).Buffer? then old(cache).data else old(store.m.next)
    {
      if other != this {
        var es := if other.cache.Buffer? then store.m.heap[other.cache.data].entries else [];
        if reuse && cache.Buffer? {
          store.Overwrite(cache.data, es);
          cache := Buffer(cache.data, |es|);
        } else {
          var v := NoBuffer;
          if other.cache.Buffer? {
            v := store.NewBuffer(es);
          }
          store.Free(cache);
          cache := v;
        }
      }
      value := RawTable(ToInt(cache.Size()), value.ptr);
      value := RawTable(value.count, cache.Data());
    }

    method AssignMoved(store: Store, other: Table, keeps: bool)
      modifies this, other, store
      ensures other == this ==> (store.m, State()) == SelfMoveAssign(old(store.m), old(State()), keeps)
      ensures other != this ==>
                (store.m, State(), other.State()) == MoveAssign(old(store.m), old(State()), old(other.State()))
      ensures value == RawTable(ToInt(cache.Size()), cache.Data())
      ensures other != this ==>
                && cache == old(other.cache) && other.cache == NoBuffer && other.value == old(other.value)
                && store.m.heap == old(store.m.heap) - (if old(cache).Buffer? then {old(cache).data} else {})
    {
      if other != this {
        store.Free(cache);
        cache := other.cache;
        other.cache := NoBuffer;
      } else if !keeps {
        store.Free(cache);
        cache := NoBuffer;
      }
      value := RawTable(ToInt(cache.Size()), value.ptr);
      value := RawTable(value.count, cache.Data());
    }

    method Destroy(store: Store)
      modifies store
      ensures store.m == FreeVec(old(store.m), old(cache))
      ensures store.m.heap == old(store.m.heap) - (if cache.Buffer? then {cache.data} else {})
    {
      store.Free(cache);
    }
  }

  // ---------------------------------------------------------------- programs over tables

  /** Live tables by name; `movedFrom` are those whose contents were last taken away. */
  datatype World = World(m: Memory, tables: map<nat, TableState>, movedFrom: set<nat>)

  datatype Op =
    | DoConstruct(id: nat, es: seq<RawEntry>)
    | DoCopy(id: nat, from: nat)
    | DoMove(id: nat, from: nat)
    | DoAssign(id: nat, from: nat, reuse: bool)
    | DoAssignMoved(id: nat, from: nat, keeps: bool)
    | DoDestroy(id: nat)

  ghost predicate Enabled(w: World, op: Op) {
    match op
    case DoConstruct(id, _) => id !in w.tables
    case DoCopy(id, from) => id !in w.tables && from in w.tables && Owned(w.m, w.tables[from].cache)
    case DoMove(id, from) => id !in w.tables && from in w.tables
    case DoAssign(id, from, _) => id in w.tables && from in w.tables && Owned(w.m, w.tables[from].cache)
    case DoAssignMoved(id, from, _) => id in w.tables && from in w.tables
    case DoDestroy(id) => id in w.tables
  }

  ghost function Step(w: World, op: Op): World
    requires Enabled(w, op)
  {
    match op
    case DoConstruct(id, es) =>
      var (m, t) := Construct(w.m, es);
      World(m, w.tables[id := t], w.movedFrom - {id})
    case DoCopy(id, from) =>
      var (m, t) := CopyConstruct(w.m, w.tables[from]);
      World(m, w.tables[id := t], w.movedFrom - {id})
    case DoMove(id, from) =>
      var (t, rest) := MoveConstruct(w.tables[from]);
      World(w.m, w.tables[from := rest][id := t], w.movedFrom - {id} + {from})
    case DoAssign(id, from, reuse) =>
      if id == from then World(w.m, w.tables[id := SelfAssign(w.tables[id])], w.movedFrom - {id})
      else
        var (m, t) := CopyAssign(w.m, w.tables[id], w.tables[from], reuse);
        World(m, w.tables[id := t], w.movedFrom - {id})
    case DoAssignMoved(id, from, keeps) =>
      if id == from then
        var (m, t) := SelfMoveAssign(w.m, w.tables[id], keeps);
        World(m, w.tables[id := t], w.movedFrom - {id})
      else
        var (m, t, rest) := MoveAssign(w.m, w.tables[id], w.tables[from]);
        World(m, w.tables[from := rest][id := t], w.movedFrom - {id} + {from})
    case DoDestroy(id) =>
      World(FreeVec(w.m, w.tables[id].cache), w.tables - {id}, w.movedFrom - {id})
  }

  /** The view counts the table's own vector and points at it. */
  ghost predicate ViewsItself(t: TableState) {
    t.value == RawTable(ToInt(t.cache.Size()), t.cache.Data())
  }

  /** Every vector has its own buffer; every table not moved from views its own vector, and the others have none. */
  ghost predicate Inv(w: World) {
    && w.m.Valid()
    && (forall i :: i in w.tables ==> Owned(w.m, w.tables[i].cache))
    && (forall i, j :: i in w.tables && j in w.tables && i != j ==>
          (w.tables[i].cache.Buffer? && w.tables[j].cache.Buffer? ==> w.tables[i].cache.data != w.tables[j].cache.data))
    && (forall i :: i in w.tables && i !in w.movedFrom ==> ViewsItself(w.tables[i]))
    && (forall i :: i in w.movedFrom ==> i in w.tables && w.tables[i].cache == NoBuffer)
  }

  lemma StepKeepsInv(w: World, op: Op)
    requires Inv(w) && Enabled(w, op)
    ensures Inv(Step(w, op))
  {
    match op
    case DoConstruct(id, es) => NewTableKeepsInv(w, id, NewVec(w.m, es));
    case DoCopy(id, from) => NewTableKeepsInv(w, id, CopyVec(w.m, w.tables[from].cache));
    case DoMove(id, from) => MoveKeepsInv(w, id, from, w.m);
    case DoAssign(id, from, reuse) => AssignKeepsInv(w, id, from, reuse);
    case DoAssignMoved(id, from, keeps) => AssignMovedKeepsInv(w, id, from, keeps);
    case DoDestroy(id) => assert Step(w, op) == FreedFirst(w, id);
  }

  lemma AssignKeepsInv(w: World, id: nat, from: nat, reuse: bool)
    requires Inv(w) && id in w.tables && from in w.tables
    ensures Inv(Step(w, DoAssign(id, from, reuse)))
  {
    if id == from {
      assert w.tables[id := SelfAssign(w.tables[id])][id].cache == w.tables[id].cache;
    } else if reuse && w.tables[id].cache.Buffer? {
      OverwriteKeepsInv(w, id, Contents(w.m, w.tables[from].cache));
    } else {
      var (m', v) := CopyVec(w.m, w.tables[from].cache);
      ReplaceKeepsInv(w, id, m', v);
    }
  }

  lemma AssignMovedKeepsInv(w: World, id: nat, from: nat, keeps: bool)
    requires Inv(w) && id in w.tables && from in w.tables
    ensures Inv(Step(w, DoAssignMoved(id, from, keeps)))
  {
    if id == from {
      ReplaceKeepsInv(w, id, w.m, NoBuffer);
    } else {
      var freed := FreedFirst(w, id);
      MoveKeepsInv(freed, id, from, freed.m);
      var (t, rest) := MoveConstruct(w.tables[from]);
      assert freed.tables[from := rest][id := t] == w.tables[from := rest][id := t];
    }
  }

  /** A vector that `m'` has and `m` did not: fresh, or no buffer at all. */
  ghost predicate FreshVec(m: Memory, r: (Memory, Vec)) {
    && m.GrowsTo(r.0) && Owned(r.0, r.1)
    && (r.1.Buffer? ==> r.1.data !in m.heap)
  }

  lemma NewTableKeepsInv(w: World, id: nat, r: (Memory, Vec))
    requires Inv(w) && id !in w.tables && FreshVec(w.m, r)
    ensures Inv(World(r.0, w.tables[id := TableState(r.1, r.1.View())], w.movedFrom - {id}))
  {
  }

  lemma ReplaceKeepsInv(w: World, id: nat, m': Memory, v: Vec)
    requires Inv(w) && id in w.tables && FreshVec(w.m, (m', v))
    ensures Inv(World(FreeVec(m', w.tables[id].cache), w.tables[id := TableState(v, v.View())], w.movedFrom - {id}))
  {
  }

  lemma OverwriteKeepsInv(w: World, id: nat, es: seq<RawEntry>)
    requires Inv(w) && id in w.tables && w.tables[id].cache.Buffer?
    ensures var v := Buffer(w.tables[id].cache.data, |es|);
            var m := Memory(w.m.heap[v.data := Entries(es)], w.m.next);
            Inv(World(m, w.tables[id := TableState(v, v.View())], w.movedFrom - {id}))
  {
  }

  /** `w` with the vector of `id` gone. */
  ghost function FreedFirst(w: World, id: nat): (w': World)
    requires Inv(w) && id in w.tables
    ensures Inv(w')
  {
    World(FreeVec(w.m, w.tables[id].cache), w.tables - {id}, w.movedFrom - {id})
  }

  lemma MoveKeepsInv(w: World, id: nat, from: nat, m: Memory)
    requires Inv(w) && from in w.tables && id !in w.tables && m == w.m
    ensures var (t, rest) := MoveConstruct(w.tables[from]);
            Inv(World(m, w.tables[from := rest][id := t], w.movedFrom - {id} + {from}))
  {
  }

  /** `ops` runs from `w` to `w'`, each operation on tables that exist. */
  ghost predicate Runs(w: World, ops: seq<Op>, w': World)
    decreases |ops|
  {
    if ops == [] then w == w' else Enabled(w, ops[0]) && Runs(Step(w, ops[0]), ops[1..], w')
  }

  ghost predicate Start(w: World) {
    w.m.Valid() && w.tables == map[] && w.movedFrom == {}
  }

  /** The buffer at `p` belongs to a table. */
  ghost predicate Held(w: World, p: nat) {
    exists j :: Holds(w, j, p)
  }

  ghost predicate Holds(w: World, j: nat, p: nat) {
    j in w.tables && w.tables[j].cache.Buffer? && w.tables[j].cache.data == p
  }

  /** A view of nothing, of a buffer that some table has, or of one that is gone and was not given out again. */
  ghost predicate ViewAccounted(w: World, i: nat)
    requires i in w.tables
  {
    var p := w.tables[i].value.ptr;
    p < w.m.next && (p == 0 || Held(w, p) || p !in w.m.heap)
  }

  ghost predicate ViewsAccounted(w: World) {
    forall i :: i in w.tables ==> ViewAccounted(w, i)
  }

  /** What a step does to buffers: each that was held is held still, or gone; none that was gone is back. */
  lemma {:induction false} BufferStaysHeld(w: World, op: Op, p: nat)
    requires Inv(w) && Enabled(w, op) && 0 < p < w.m.next
    requires Held(w, p) || p !in w.m.heap
    ensures Held(Step(w, op), p) || p !in Step(w, op).m.heap
  {
    var w' := Step(w, op);
    if Held(w, p) && p in w'.m.heap {
      var j: nat :| Holds(w, j, p);
      var k := if op.DoMove? && op.from == j then op.id
               else if op.DoAssignMoved? && op.from == j && op.id != j then op.id else j;
      assert Holds(w', k, p);
    }
  }

  /** What is viewed anew is held, or null. */
  lemma NewViewsAccounted(w: World, op: Op, i: nat)
    requires Inv(w) && ViewsAccounted(w) && Enabled(w, op) && i in Step(w, op).tables
    requires i !in w.tables || Step(w, op).tables[i].value != w.tables[i].value
    ensures ViewAccounted(Step(w, op), i)
  {
    var w' := Step(w, op);
    StepKeepsInv(w, op);
    assert ViewsItself(w'.tables[i]);
    if w'.tables[i].cache.Buffer? {
      assert Holds(w', i, w'.tables[i].value.ptr);
    }
  }

  lemma StepKeepsViews(w: World, op: Op)
    requires Inv(w) && ViewsAccounted(w) && Enabled(w, op)
    ensures ViewsAccounted(Step(w, op))
  {
    var w' := Step(w, op);
    forall i | i in w'.tables ensures ViewAccounted(w', i) {
      if i in w.tables && w'.tables[i].value == w.tables[i].value {
        assert ViewAccounted(w, i);
        if w.tables[i].value.ptr != 0 {
          BufferStaysHeld(w, op, w.tables[i].value.ptr);
        }
      } else {
        NewViewsAccounted(w, op, i);
      }
    }
  }

  lemma {:induction false} RunKeepsViews(w: World, ops: seq<Op>, w': World)
    requires Inv(w) && ViewsAccounted(w) && Runs(w, ops, w')
    ensures Inv(w') && ViewsAccounted(w')
    decreases |ops|
  {
    if ops != [] {
      StepKeepsInv(w, ops[0]);
      StepKeepsViews(w, ops[0]);
      RunKeepsViews(Step(w, ops[0]), ops[1..], w');
    }
  }

  /**
    Whatever is done to tables, each one not moved from counts its own entries and
    points at its own buffer, which is there and which no other table has.
  */
  lemma TablesViewThemselves(w: World, ops: seq<Op>, w': World, i: nat)
    requires Start(w) && Runs(w, ops, w') && i in w'.tables && i !in w'.movedFrom
    ensures ViewsItself(w'.tables[i]) && Owned(w'.m, w'.tables[i].cache)
    ensures w'.tables[i].cache.Buffer? ==>
      forall j :: j in w'.tables && j != i ==> w'.tables[j].cache.Data() != w'.tables[i].cache.data
  {
    RunKeepsViews(w, ops, w');
  }

  /**
    And exactly when is a view a table's own? When the table was not moved from since
    it was last given contents, or had no buffer to lose.
  */
  lemma ViewsItselfIff(w: World, ops: seq<Op>, w': World, i: nat)
    requires Start(w) && Runs(w, ops, w') && i in w'.tables
    ensures ViewsItself(w'.tables[i]) <==> i !in w'.movedFrom || w'.tables[i].value == RawTable(0, 0)
  {
    RunKeepsViews(w, ops, w');
    if i in w'.movedFrom {
      assert w'.tables[i].cache == NoBuffer && NoBuffer.View() == RawTable(0, 0);
    }
  }

  /**
    A table that was moved from, in any reachable state, has no buffer, and views the
    buffer of another table, or one that is gone; unless it is a null view.
  */
  lemma MovedFromViewsAnother(w: World, ops: seq<Op>, w': World, i: nat)
    requires Start(w) && Runs(w, ops, w') && i in w'.movedFrom
    ensures i in w'.tables && w'.tables[i].cache == NoBuffer
    ensures var p := w'.tables[i].value.ptr;
            p == 0 || p !in w'.m.heap || exists j :: j != i && Holds(w', j, p)
  {
    RunKeepsViews(w, ops, w');
    assert ViewAccounted(w', i);
  }

  // ---------------------------------------------------------------- meaning of copies

  /** The entries of a table, in another buffer, in a memory that keeps what they lead to. */
  lemma SameEntriesElsewhere(h: Heap, h': Heap, src: RawTable, t: RawTable, d: nat)
    requires LiveTable(h, src, d) && t.count == src.count
    requires src.count > 0 ==>
      && SameOn(h, h', ReachEntries(h, EntriesOf(h, src, d), d - 1))
      && t.ptr in h' && h'[t.ptr].Entries? && t.count <= |h'[t.ptr].entries|
      && h'[t.ptr].entries[..t.count] == EntriesOf(h, src, d)
    ensures LiveTable(h', t, d) && ReadTable(h', t, d) == ReadTable(h, src, d)
    ensures src.count > 0 ==>
      && EntriesOf(h', t, d) == EntriesOf(h, src, d)
      && ReachEntries(h', EntriesOf(h', t, d), d - 1) == ReachEntries(h, EntriesOf(h, src, d), d - 1)
  {
    if src.count > 0 {
      ReadEntriesFrame(h, d - 1, h', d - 1, EntriesOf(h, src, d));
    }
  }

  /** `src` leads back into its own buffer. */
  ghost predicate LeadsToItself(h: Heap, t: RawTable, d: nat)
    requires LiveTable(h, t, d)
  {
    t.count > 0 && t.ptr in ReachEntries(h, EntriesOf(h, t, d), d - 1)
  }

  /**
    A new table has all the entries it was given, in order, in a buffer of its own, and
    views that; and it means what they mean.
  */
  lemma ConstructedMeansItsEntries(m: Memory, es: seq<RawEntry>, d: nat)
    requires m.Valid() && LiveEntries(m.heap, es, d)
    ensures var (m', t) := Construct(m, es);
            && t.cache.Buffer? && t.cache.size == |es| && t.cache.data !in m.heap
            && m'.heap == m.heap[t.cache.data := Entries(es)]
            && t.value.count == ToInt(|es|) && t.value.ptr == t.cache.data
            && (m', t.value) == MakeTable(m, es)
            && LiveTable(m'.heap, t.value, d + 1)
            && (|es| < INT_LIMIT ==> ReadTable(m'.heap, t.value, d + 1) == ReadEntries(m.heap, es, d))
  {
    var (m', t) := Construct(m, es);
    ConstructedLeadsElsewhere(m, es, d);
    ReachEntriesExist(m.heap, es, d);
    ReadEntriesFrame(m.heap, d, m'.heap, d, es);
    if |es| < INT_LIMIT && es != [] {
      assert es[..|es|] == es;
      assert EntriesOf(m'.heap, t.value, d + 1) == es;
    }
  }

  /** A table made from live entries does not lead to itself: what its entries lead to was there before. */
  lemma ConstructedLeadsElsewhere(m: Memory, es: seq<RawEntry>, d: nat)
    requires m.Valid() && LiveEntries(m.heap, es, d)
    ensures var (m', t) := Construct(m, es);
            m.GrowsTo(m') && LiveTable(m'.heap, t.value, d + 1) && !LeadsToItself(m'.heap, t.value, d + 1)
  {
    var (m', t) := Construct(m, es);
    ToIntFacts(|es|);
    ReachEntriesExist(m.heap, es, d);
    ReadEntriesFrame(m.heap, d, m'.heap, d, es);
    if t.value.count > 0 {
      var some := es[..t.value.count];
      assert LiveEntries(m'.heap, some, d);
      assert ReachEntries(m'.heap, some, d) <= ReachEntries(m'.heap, es, d);
      assert EntriesOf(m'.heap, t.value, d + 1) == some;
    }
  }

  /**
    A copy means what its source means, and what was in memory stays as it was. It
    never leads to itself, and leads to the source's top-level buffer only if the
    source did so itself.
  */
  lemma CopyMeansTheSame(m: Memory, src: TableState, d: nat)
    requires m.Valid() && Owned(m, src.cache) && ViewsItself(src) && LiveTable(m.heap, src.value, d)
    ensures var (m', t) := CopyConstruct(m, src);
            && m.GrowsTo(m') && ViewsItself(t)
            && LiveTable(m'.heap, t.value, d) && ReadTable(m'.heap, t.value, d) == ReadTable(m.heap, src.value, d)
            && t.value.count == src.value.count && !LeadsToItself(m'.heap, t.value, d)
            && (src.value.count > 0 ==>
                  (src.value.ptr in ReachTable(m'.heap, t.value, d) <==> LeadsToItself(m.heap, src.value, d)))
  {
    var (m', t) := CopyConstruct(m, src);
    ReachTableExists(m.heap, src.value, d);
    SameEntriesElsewhere(m.heap, m'.heap, src.value, t.value, d);
    if src.value.count > 0 {
      CopyLeads(m.heap, m'.heap, src.value, t.value, d);
    }
  }

  lemma CopyLeads(h: Heap, h': Heap, src: RawTable, t: RawTable, d: nat)
    requires LiveTable(h, src, d) && LiveTable(h', t, d) && src.count > 0 && t.count > 0
    requires ReachEntries(h', EntriesOf(h', t, d), d - 1) == ReachEntries(h, EntriesOf(h, src, d), d - 1)
    requires src.ptr in h && t.ptr !in h
    ensures !LeadsToItself(h', t, d)
    ensures src.ptr in ReachTable(h', t, d) <==> LeadsToItself(h, src, d)
  {
    ReachEntriesExist(h, EntriesOf(h, src, d), d - 1);
    assert ReachTable(h', t, d) == {t.ptr} + ReachEntries(h', EntriesOf(h', t, d), d - 1);
  }

  /**
    The same for assignment, whether the target's buffer is written over or replaced, as
    long as the source does not lead into that buffer.
  */
  lemma AssignMeansTheSame(m: Memory, dst: TableState, src: TableState, reuse: bool, d: nat)
    requires m.Valid() && Owned(m, src.cache) && Owned(m, dst.cache) && ViewsItself(src)
    requires LiveTable(m.heap, src.value, d)
    requires dst.cache.Buffer? ==> dst.cache.data !in ReachTable(m.heap, src.value, d)
    ensures var (m', t) := CopyAssign(m, dst, src, reuse);
            && ViewsItself(t) && t.value.count == src.value.count
            && LiveTable(m'.heap, t.value, d) && ReadTable(m'.heap, t.value, d) == ReadTable(m.heap, src.value, d)
            && SameTable(m.heap, d, m'.heap, d, src.value)
  {
    var (m', t) := CopyAssign(m, dst, src, reuse);
    ReachTableExists(m.heap, src.value, d);
    ReadTableFrame(m.heap, d, m'.heap, d, src.value);
    SameEntriesElsewhere(m.heap, m'.heap, src.value, t.value, d);
  }

  ghost predicate Alive(h: Heap, t: RawTable) {
    exists d: nat :: LiveTable(h, t, d)
  }

  /**
    When the target's buffer is replaced that condition is exact: if the source leads
    into the buffer, then both tables lead into freed memory. (Two tables never have
    the same buffer, see `TablesViewThemselves`.)
  */
  lemma AssignKeepsAliveIff(m: Memory, dst: TableState, src: TableState, d: nat)
    requires m.Valid() && Owned(m, src.cache) && Owned(m, dst.cache) && ViewsItself(src)
    requires LiveTable(m.heap, src.value, d)
    requires src.cache.Buffer? && dst.cache.Buffer? ==> dst.cache.data != src.cache.data
    ensures var (m', t) := CopyAssign(m, dst, src, false);
            var apart := dst.cache.Buffer? ==> dst.cache.data !in ReachTable(m.heap, src.value, d);
            (Alive(m'.heap, src.value) <==> apart) && (Alive(m'.heap, t.value) <==> apart)
  {
    var (m', t) := CopyAssign(m, dst, src, false);
    if dst.cache.Buffer? ==> dst.cache.data !in ReachTable(m.heap, src.value, d) {
      AssignMeansTheSame(m, dst, src, false, d);
      assert LiveTable(m'.heap, src.value, d) && LiveTable(m'.heap, t.value, d);
    } else {
      var (m1, _) := CopyConstruct(m, src);
      var p := dst.cache.data;
      CopyMeansTheSame(m, src, d);
      ReachTableExists(m.heap, src.value, d);
      ReadTableFrame(m.heap, d, m1.heap, d, src.value);
      SameEntriesElsewhere(m.heap, m1.heap, src.value, t.value, d);
      assert p in ReachTable(m1.heap, src.value, d) && p in ReachTable(m1.heap, t.value, d);
      forall e: nat ensures !LiveTable(m'.heap, src.value, e) && !LiveTable(m'.heap, t.value, e) {
        MissingBufferKills(m1.heap, d, m'.heap, e, src.value, p);
        MissingBufferKills(m1.heap, d, m'.heap, e, t.value, p);
      }
    }
  }

  const SEVEN := RawEntry(RawBytes(0, 0), RScalar(I8, 7))
  const INTO := RawEntry(RawBytes(0, 0), RTable(RawTable(1, 2)))
  const SHARING := Memory(map[1 := Entries([SEVEN, INTO]), 2 := Entries([SEVEN])], 3)

  /**
    When the target's buffer is written over, the condition is not necessary: a source
    that leads into it by a view of one entry, which the writing leaves as it was.
  */
  lemma OverwrittenMayBeUnharmed()
    ensures var src, dst := TableState(Buffer(1, 2), RawTable(2, 1)), TableState(Buffer(2, 1), RawTable(1, 2));
            && LiveTable(SHARING.heap, src.value, 2) && 2 in ReachTable(SHARING.heap, src.value, 2)
            && Owned(SHARING, src.cache)
            && var (m', t) := CopyAssign(SHARING, dst, src, true);
               && LiveTable(m'.heap, t.value, 2)
               && ReadTable(m'.heap, t.value, 2) == ReadTable(SHARING.heap, src.value, 2)
  {
    var src, dst := TableState(Buffer(1, 2), RawTable(2, 1)), TableState(Buffer(2, 1), RawTable(1, 2));
    var (m', t) := CopyAssign(SHARING, dst, src, true);
    var h, h' := SHARING.heap, m'.heap;
    assert h[1].entries[..2] == [SEVEN, INTO] && h[2].entries[..1] == [SEVEN];
    assert h'[2].entries[..2] == [SEVEN, INTO] && h'[2].entries[..1] == [SEVEN];
    LeadsIntoTwo(h, src.value);
    LeadsIntoTwo(h', t.value);
  }

  lemma LeadsIntoTwo(h: Heap, t: RawTable)
    requires t.count == 2 && t.ptr in h && h[t.ptr].Entries? && |h[t.ptr].entries| >= 2
    requires h[t.ptr].entries[..2] == [SEVEN, INTO]
    requires 2 in h && h[2].Entries? && |h[2].entries| >= 1 && h[2].entries[..1] == [SEVEN]
    ensures LiveTable(h, t, 2) && 2 in ReachTable(h, t, 2)
    ensures ReadTable(h, t, 2) == [Entry("", Scalar(I8, 7)), Entry("", TableOf([Entry("", Scalar(I8, 7))]))]
  {
    var inner := RawTable(1, 2);
    assert LiveEntries(h, [SEVEN], 0);
    assert LiveTable(h, inner, 1);
    assert ReadTable(h, inner, 1) == [Entry("", Scalar(I8, 7))] by { ReadTableAt(h, inner, 1); }
    assert LiveEntries(h, [SEVEN, INTO], 1);
    assert LiveTable(h, t, 2) && EntriesOf(h, t, 2) == [SEVEN, INTO];
    ReadTableAt(h, t, 2);
    assert ReachTable(h, inner, 1) <= ReachEntries(h, [SEVEN, INTO], 1) by { EntryReaches(h, [SEVEN, INTO], 1, 1); }
  }
}
