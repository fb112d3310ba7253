/**
  Programs over objects of the classes `Connection` and `Channel`: executing one
  has the effect, and makes the trace, of the transition system that the
  theorems about every program are stated for.
*/
module LifecycleScope {
  import opened Replies
  import opened Lifecycle

  /** An object in scope; `at` is the place of a channel's connection. */
  datatype Slot = ConnSlot(c: Connection) | ChanSlot(ch: Channel, at: nat) {
    ghost function Obj(): object {
      if ConnSlot? then c else ch
    }

    ghost function State(): Object
      reads Obj()
    {
      if ConnSlot? then Conn(c.handle) else Chan(at, ch.id, ch.moved)
    }
  }

  ghost function Objs(slots: seq<Slot>): set<object> {
    set i | 0 <= i < |slots| :: slots[i].Obj()
  }

  class Scope {
    const lib: Library
    var slots: seq<Slot>

    ghost predicate Valid()
      reads this
    {
      && (forall i :: 0 <= i < |slots| && slots[i].ConnSlot? ==> slots[i].c.lib == lib)
      && (forall i :: 0 <= i < |slots| && slots[i].ChanSlot? ==>
            slots[i].at < i && slots[slots[i].at] == ConnSlot(slots[i].ch.connection))
      && (forall i, j :: 0 <= i < j < |slots| ==> slots[i].Obj() != slots[j].Obj())
    }

    ghost function View(): World
      reads this, lib, Objs(slots)
    {
      var stack := seq(|slots|, i requires 0 <= i < |slots| reads this, Objs(slots) => slots[i].State());
      World(stack, lib.handles, lib.trace)
    }

    constructor ()
      ensures Valid() && View() == START && fresh(lib)
    {
      lib := new Library();
      slots := [];
    }

    method Exec(op: Op)
      requires Valid() && Enabled(View(), op)
      modifies this, lib, Objs(slots)
      ensures Valid() && View() == Step(old(View()), op)
      ensures forall o :: o in Objs(slots) ==> o in old(Objs(slots)) || fresh(o)
    {
      match op {
        case DoConnect(a) => ExecConnect(a);
        case DoOpenChannel(c, id, reply) => ExecOpenChannel(c, id, reply);
        case DoMoveConnection(c) => ExecMoveConnection(c);
        case DoMoveChannel(c) => ExecMoveChannel(c);
        case DoConnectionRpc(c, release, name, reply) =>
          assert View().stack[c] == slots[c].State();
          var _ := slots[c].c.Rpc(release, OtherRemote(name), reply);
        case DoChannelRpc(c, name, reply) =>
          assert View().stack[c] == slots[c].State() && View().stack[slots[c].at] == slots[slots[c].at].State();
          var _ := slots[c].ch.Rpc(OtherRemote(name), reply);
        case DoLeave(reply) => ExecLeave(reply);
      }
    }

    /** A new object comes into scope. */
    method Push(slot: Slot)
      requires Valid() && slot.Obj() !in Objs(slots)
      requires slot.ConnSlot? ==> slot.c.lib == lib
      requires slot.ChanSlot? ==> slot.at < |slots| && slots[slot.at] == ConnSlot(slot.ch.connection)
      modifies `slots
      ensures slots == old(slots) + [slot]
      ensures Valid() && View() == old(View()).(stack := old(View().stack) + [slot.State()])
    {
      slots := slots + [slot];
      assert View().stack == old(View().stack) + [slot.State()];
    }

    method ExecConnect(a: Answers)
      requires Valid()
      modifies this, lib
      ensures Valid() && View() == Step(old(View()), DoConnect(a))
      ensures forall o :: o in Objs(slots) ==> o in old(Objs(slots)) || fresh(o)
    {
      var r, thrown := Connect(lib, a);
      assert View().stack == old(View()).stack;
      if thrown.None? {
        Push(ConnSlot(r.value));
      }
    }

    method ExecOpenChannel(c: nat, id: nat, reply: Reply)
      requires Valid() && IsOwner(View(), c)
      modifies this, lib
      ensures Valid() && View() == Step(old(View()), DoOpenChannel(c, id, reply))
      ensures forall o :: o in Objs(slots) ==> o in old(Objs(slots)) || fresh(o)
    {
      assert View().stack[c] == slots[c].State();
      var r, thrown := OpenChannelOn(slots[c].c, id, reply);
      assert View().stack == old(View()).stack;
      if thrown.None? {
        Push(ChanSlot(r.value, c));
      }
    }

    method ExecMoveConnection(c: nat)
      requires Valid() && Enabled(View(), DoMoveConnection(c))
      modifies this, Objs(slots)
      ensures Valid() && View() == Step(old(View()), DoMoveConnection(c))
      ensures forall o :: o in Objs(slots) ==> o in old(Objs(slots)) || fresh(o)
    {
      assert View().stack[c] == slots[c].State();
      var moved := new Connection.Move(slots[c].c);
      slots := slots + [ConnSlot(moved)];
      assert View().stack == Step(old(View()), DoMoveConnection(c)).stack;
    }

    method ExecMoveChannel(c: nat)
      requires Valid() && IsOpen(View(), c)
      modifies this, Objs(slots)
      ensures Valid() && View() == Step(old(View()), DoMoveChannel(c))
      ensures forall o :: o in Objs(slots) ==> o in old(Objs(slots)) || fresh(o)
    {
      assert View().stack[c] == slots[c].State();
      var moved := new Channel.Move(slots[c].ch);
      slots := slots + [ChanSlot(moved, slots[c].at)];
      assert View().stack == Step(old(View()), DoMoveChannel(c)).stack;
    }

    /** The innermost object is destroyed. */
    method ExecLeave(reply: Reply)
      requires Valid() && Enabled(View(), DoLeave(reply))
      modifies this, lib
      ensures Valid() && View() == Step(old(View()), DoLeave(reply))
      ensures Objs(slots) <= old(Objs(slots))
    {
      var n := |slots| - 1;
      assert View().stack[n] == slots[n].State();
      match slots[n] {
        case ConnSlot(c) => c.Destroy(reply);
        case ChanSlot(ch, at) =>
          assert View().stack[at] == slots[at].State();
          ch.Destroy(reply);
      }
      slots := slots[..n];
      assert View().stack == Step(old(View()), DoLeave(reply)).stack;
    }

    method Run(ops: seq<Op>, ghost end: World)
      requires Valid() && Runs(View(), ops, end)
      modifies this, lib, Objs(slots)
      ensures Valid() && View() == end
    {
      var i := 0;
      while i < |ops|
        invariant 0 <= i <= |ops|
        invariant Valid() && Runs(View(), ops[i..], end)
        invariant forall o :: o in Objs(slots) ==> o in old(Objs(slots)) || fresh(o)
      {
        assert ops[i..][0] == ops[i] && ops[i..][1..] == ops[i + 1..];
        Exec(ops[i]);
        i := i + 1;
      }
    }
  }
}
