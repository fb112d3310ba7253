/**
  Programs over objects of the class `Table`: executing one has the effect of the
  steps that the theorems about every program are stated for.
*/
module TableScope {
  import opened FieldTree
  import opened Flatten
  import opened TableObject

  class Scope {
    const store: Store
    var tables: map<nat, Table>
    ghost var movedFrom: set<nat>

    ghost predicate Valid()
      reads this
    {
      forall i, j :: i in tables && j in tables && tables[i] == tables[j] ==> i == j
    }

    ghost function View(): World
      reads this, store, tables.Values
    {
      World(store.m, map i | i in tables :: tables[i].State(), movedFrom)
    }

    constructor (m: Memory)
      ensures Valid() && View() == World(m, map[], {}) && fresh(store)
    {
      store := new Store(m);
      tables, movedFrom := map[], {};
    }

    method Exec(op: Op)
      requires Valid() && Enabled(View(), op)
      modifies this, store, tables.Values
      ensures Valid() && View() == Step(old(View()), op)
      ensures forall o :: o in tables.Values ==> o in old(tables.Values) || fresh(o)
    {
      match op {
        case DoConstruct(id, es) => ExecConstruct(id, es);
        case DoCopy(id, from) => ExecCopy(id, from);
        case DoMove(id, from) => ExecMove(id, from);
        case DoAssign(id, from, reuse) => ExecAssign(id, from, reuse);
        case DoAssignMoved(id, from, keeps) => ExecAssignMoved(id, from, keeps);
        case DoDestroy(id) => ExecDestroy(id);
      }
    }

    /** An object gets a name. */
    method Bind(id: nat, t: Table)
      requires Valid() && id !in tables && t !in tables.Values
      modifies `tables
      ensures tables == old(tables)[id := t]
      ensures Valid() && View() == old(View()).(tables := old(View().tables)[id := t.State()])
    {
      tables := tables[id := t];
    }

    method ExecConstruct(id: nat, es: seq<RawEntry>)
      requires Valid() && id !in tables
      modifies this, store
      ensures Valid() && View() == Step(old(View()), DoConstruct(id, es))
      ensures forall o :: o in tables.Values ==> o in old(tables.Values) || fresh(o)
    {
      var t := new Table.FromEntries(store, es);
      assert View().tables == old(View()).tables;
      Bind(id, t);
      movedFrom := movedFrom - {id};
    }

    method ExecCopy(id: nat, from: nat)
      requires Valid() && Enabled(View(), DoCopy(id, from))
      modifies this, store
      ensures Valid() && View() == Step(old(View()), DoCopy(id, from))
      ensures forall o :: o in tables.Values ==> o in old(tables.Values) || fresh(o)
    {
      var t := CopyOf(from);
      Bind(id, t);
      movedFrom := movedFrom - {id};
    }

    /** A new object, not named yet, with a copy of what `from` has. */
    method CopyOf(from: nat) returns (t: Table)
      requires Valid() && from in tables && Owned(store.m, tables[from].cache)
      modifies store
      ensures Valid() && fresh(t) && tables == old(tables)
      ensures var (m, copy) := CopyConstruct(old(store.m), old(View().tables)[from]);
              t.State() == copy && View() == old(View()).(m := m)
    {
      t := new Table.Copy(store, tables[from]);
    }

    method ExecMove(id: nat, from: nat)
      requires Valid() && Enabled(View(), DoMove(id, from))
      modifies this, tables[from]
      ensures Valid() && View() == Step(old(View()), DoMove(id, from))
      ensures forall o :: o in tables.Values ==> o in old(tables.Values) || fresh(o)
    {
      ghost var before := View();
      var t := TakeFrom(from);
      ghost var taken := View();
      assert taken == before.(tables := before.tables[from := MoveConstruct(before.tables[from]).1]);
      Bind(id, t);
      assert View() == taken.(tables := taken.tables[id := MoveConstruct(before.tables[from]).0]);
      movedFrom := movedFrom - {id} + {from};
    }

    /** A new object, not named yet, with what `from` had. */
    method TakeFrom(from: nat) returns (t: Table)
      requires Valid() && from in tables
      modifies tables[from]
      ensures Valid() && fresh(t) && tables == old(tables)
      ensures var (taken, rest) := MoveConstruct(old(View().tables)[from]);
              t.State() == taken && View() == old(View()).(tables := old(View().tables)[from := rest])
    {
      t := new Table.Move(tables[from]);
    }

    method ExecAssign(id: nat, from: nat, reuse: bool)
      requires Valid() && Enabled(View(), DoAssign(id, from, reuse))
      modifies this, store, tables[id]
      ensures Valid() && View() == Step(old(View()), DoAssign(id, from, reuse))
      ensures tables == old(tables)
    {
      ghost var before := View();
      AssignAt(id, from, reuse);
      assert tables[id].State() == View().tables[id] && before.tables[from] == old(tables[from].State());
      movedFrom := movedFrom - {id};
    }

    method AssignAt(id: nat, from: nat, reuse: bool)
      requires Valid() && Enabled(View(), DoAssign(id, from, reuse))
      modifies store, tables[id]
      ensures Valid() && tables == old(tables)
      ensures View().tables == old(View()).tables[id := tables[id].State()]
      ensures (View().m, tables[id].State())
           == if id == from then (old(View()).m, SelfAssign(old(tables[id].State())))
              else CopyAssign(old(View()).m, old(tables[id].State()), old(tables[from].State()), reuse)
    {
      tables[id].Assign(store, tables[from], reuse);
    }

    method ExecAssignMoved(id: nat, from: nat, keeps: bool)
      requires Valid() && Enabled(View(), DoAssignMoved(id, from, keeps))
      modifies this, store, tables[id], tables[from]
      ensures Valid() && View() == Step(old(View()), DoAssignMoved(id, from, keeps))
      ensures tables == old(tables)
    {
      if id == from {
        SelfMoveAt(id, keeps);
        movedFrom := movedFrom - {id};
      } else {
        MoveAt(id, from);
        movedFrom := movedFrom - {id} + {from};
      }
    }

    method SelfMoveAt(id: nat, keeps: bool)
      requires Valid() && id in tables
      modifies store, tables[id]
      ensures Valid() && tables == old(tables)
      ensures View().tables == old(View()).tables[id := tables[id].State()]
      ensures (View().m, tables[id].State()) == SelfMoveAssign(old(View()).m, old(tables[id].State()), keeps)
    {
      tables[id].AssignMoved(store, tables[id], keeps);
    }

    method MoveAt(id: nat, from: nat)
      requires Valid() && id in tables && from in tables && id != from
      modifies store, tables[id], tables[from]
      ensures Valid() && tables == old(tables)
      ensures View().tables == old(View()).tables[from := tables[from].State()][id := tables[id].State()]
      ensures (View().m, tables[id].State(), tables[from].State())
           == MoveAssign(old(View()).m, old(tables[id].State()), old(tables[from].State()))
    {
      tables[id].AssignMoved(store, tables[from], false);
    }

    method ExecDestroy(id: nat)
      requires Valid() && id in tables
      modifies this, store
      ensures Valid() && View() == Step(old(View()), DoDestroy(id))
      ensures tables.Values <= old(tables.Values)
    {
      tables[id].Destroy(store);
      tables, movedFrom := tables - {id}, movedFrom - {id};
    }

    method Run(ops: seq<Op>, ghost end: World)
      requires Valid() && Runs(View(), ops, end)
      modifies this, store, tables.Values
      ensures Valid() && View() == end
    {
      var i := 0;
      while i < |ops|
        invariant 0 <= i <= |ops|
        invariant Valid() && Runs(View(), ops[i..], end)
        invariant forall o :: o in tables.Values ==> o in old(tables.Values) || fresh(o)
      {
        assert ops[i..][0] == ops[i] && ops[i..][1..] == ops[i + 1..];
        Exec(ops[i]);
        i := i + 1;
      }
    }
  }
}
