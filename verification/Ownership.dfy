/**
  Who owns a raw envelope or message (include/rmqcxx/AMQPStruct.hpp, with the
  destructors of Envelope.hpp and Message.hpp).

  A raw structure is identified by a number; owning it means having to destroy it.
*/
module Ownership {

  type Raw = nat

  // ---------------------------------------------------------------- the class

  datatype Struct = Struct(memory: Raw, moved: bool)

  /** The calls of `amqp_destroy_envelope` and `amqp_destroy_message`. */
  class Library {
    var destroyed: seq<Raw>

    constructor ()
      ensures destroyed == []
    {
      destroyed := [];
    }

    method DestroyRaw(raw: Raw)
      modifies this
      ensures destroyed == old(destroyed) + [raw]
    {
      destroyed := destroyed + [raw];
    }
  }

  class AMQPStruct {
    var memory: Raw
    var moved: bool

    ghost function State(): Struct
      reads this
    {
      Struct(memory, moved)
    }

    constructor (raw: Raw)
      ensures State() == Struct(raw, false)
    {
      memory, moved := raw, false;
    }

    constructor Move(other: AMQPStruct)
      modifies other
      ensures State() == Struct(old(other.memory), false)
      ensures other.State() == Struct(old(other.memory), true)
    {
      memory := other.memory;
      moved := false;
      new;
      other.moved := true;
    }

    /** Lines 65-70. Assigning an object to itself leaves it moved. */
    method Assign(other: AMQPStruct)
      modifies this, other
      ensures State() == Struct(old(other.memory), other == this)
      ensures other.State() == Struct(old(other.memory), true)
    {
      memory := other.memory;
      moved := false;
      other.moved := true;
    }

    /** The destructors of the derived classes. */
    method Destroy(lib: Library)
      modifies lib
      ensures lib.destroyed == old(lib.destroyed) + (if moved then [] else [memory])
    {
      if !moved {
        lib.DestroyRaw(memory);
      }
    }
  }

  // ---------------------------------------------------------------- programs

  /** Variables in scope, and what happened to the raw structures `0 .. created`. */
  datatype World = World(slots: map<nat, Struct>, created: nat, destroyed: seq<Raw>, dropped: seq<Raw>)

  datatype Op = Create(id: nat) | MoveNew(id: nat, from: nat) | MoveAssign(id: nat, from: nat) | Destroy(id: nat)

  ghost predicate Enabled(w: World, op: Op) {
    match op
    case Create(id) => id !in w.slots
    case MoveNew(id, from) => id !in w.slots && from in w.slots
    case MoveAssign(id, from) => id in w.slots && from in w.slots
    case Destroy(id) => id in w.slots
  }

  /** What callers must see to: only an owner is moved from. The class does not check it. */
  ghost predicate SourceOwns(w: World, op: Op)
    requires Enabled(w, op)
  {
    (op.MoveNew? || op.MoveAssign?) ==> !w.slots[op.from].moved
  }

  ghost function Step(w: World, op: Op): World
    requires Enabled(w, op)
  {
    match op
    case Create(id) => World(w.slots[id := Struct(w.created, false)], w.created + 1, w.destroyed, w.dropped)
    case MoveNew(id, from) =>
      var raw := w.slots[from].memory;
      w.(slots := w.slots[from := Struct(raw, true)][id := Struct(raw, false)])
    case MoveAssign(id, from) =>
      var raw := w.slots[from].memory;
      var lost := if w.slots[id].moved then [] else [w.slots[id].memory];
      w.(slots := w.slots[id := Struct(raw, false)][from := Struct(raw, true)], dropped := w.dropped + lost)
    case Destroy(id) =>
      var gone := if w.slots[id].moved then [] else [w.slots[id].memory];
      w.(slots := w.slots - {id}, destroyed := w.destroyed + gone)
  }

  ghost predicate NoRepeats(s: seq<Raw>) {
    forall i, j :: 0 <= i < j < |s| ==> s[i] != s[j]
  }

  ghost predicate Owns(w: World, i: nat) {
    i in w.slots && !w.slots[i].moved
  }

  ghost function Owners(w: World): set<nat> {
    set i | i in w.slots && Owns(w, i)
  }

  /** No raw structure has two owners, and none that is destroyed has one. */
  ghost predicate Safe(w: World) {
    && (forall i, j :: Owns(w, i) && Owns(w, j) && w.slots[i].memory == w.slots[j].memory ==> i == j)
    && (forall i :: Owns(w, i) ==> w.slots[i].memory !in w.destroyed)
    && NoRepeats(w.destroyed)
  }

  /** Every raw structure created is destroyed, dropped or owned, and only one of the three, once. */
  ghost predicate Inv(w: World) {
    && Safe(w)
    && NoRepeats(w.dropped)
    && (forall i :: Owns(w, i) ==> w.slots[i].memory !in w.dropped)
    && (forall r :: r in w.destroyed ==> r !in w.dropped)
    && (forall i :: i in w.slots ==> w.slots[i].memory < w.created)
    && (forall r :: r in w.destroyed || r in w.dropped ==> r < w.created)
    && w.created == |w.destroyed| + |w.dropped| + |Owners(w)|
  }

  lemma StepKeepsInv(w: World, op: Op)
    requires Inv(w) && Enabled(w, op) && SourceOwns(w, op)
    ensures Inv(Step(w, op))
  {
    match op
    case Create(id) => CreateKeepsInv(w, id);
    case MoveNew(id, from) => MoveNewKeepsInv(w, id, from);
    case MoveAssign(id, from) => MoveAssignKeepsInv(w, id, from);
    case Destroy(id) => DestroyKeepsInv(w, id);
  }

  lemma CreateKeepsInv(w: World, id: nat)
    requires Inv(w) && id !in w.slots
    ensures Inv(Step(w, Create(id)))
  {
    CreateKeepsSafe(w, id);
    CreateAddsOwner(w, id);
    OwnedIsKnown(w);
  }

  lemma CreateAddsOwner(w: World, id: nat)
    requires id !in w.slots
    ensures |Owners(Step(w, Create(id)))| == |Owners(w)| + 1
    ensures forall i :: Owns(Step(w, Create(id)), i) <==> i == id || Owns(w, i)
  {
    OneMoreOwner(w, Step(w, Create(id)), id);
  }

  lemma OneMoreOwner(w: World, w': World, id: nat)
    requires !Owns(w, id)
    requires forall i :: Owns(w', i) <==> i == id || Owns(w, i)
    ensures |Owners(w')| == |Owners(w)| + 1
  {
    assert Owners(w') == Owners(w) + {id};
  }

  /** What is owned was created, and is not what the next creation makes. */
  lemma OwnedIsKnown(w: World)
    requires Inv(w)
    ensures w.created !in w.dropped && w.created !in w.destroyed
    ensures forall i :: Owns(w, i) ==> w.slots[i].memory < w.created && w.slots[i].memory !in w.dropped
  {
  }

  /** A raw structure just created is nobody else's and was never destroyed. */
  lemma CreateKeepsSafe(w: World, id: nat)
    requires Inv(w) && id !in w.slots
    ensures Safe(Step(w, Create(id)))
  {
    var w' := Step(w, Create(id));
    forall i | Owns(w', i)
      ensures i == id || (Owns(w, i) && w'.slots[i] == w.slots[i] && w.slots[i].memory < w.created)
    {
    }
  }

  lemma MoveNewKeepsInv(w: World, id: nat, from: nat)
    requires Inv(w) && id !in w.slots && Owns(w, from)
    ensures Inv(Step(w, MoveNew(id, from)))
  {
    var w' := Step(w, MoveNew(id, from));
    assert Owners(w') == Owners(w) - {from} + {id};
    SameOwnership(w, w', id, from);
  }

  /** Ownership passed from one variable to another, and nothing else. */
  lemma SameOwnership(w: World, w': World, id: nat, from: nat)
    requires Inv(w) && Owns(w, from) && id !in w.slots
    requires w' == w.(slots := w'.slots) && |Owners(w')| == |Owners(w)|
    requires Owns(w', id) && w'.slots[id].memory == w.slots[from].memory
    requires forall i :: Owns(w', i) && i != id ==> i != from && Owns(w, i) && w'.slots[i] == w.slots[i]
    requires forall i :: i in w'.slots ==> w'.slots[i].memory < w.created
    ensures Inv(w')
  {
    forall i | Owns(w', i) ensures exists k :: Owns(w, k) && w.slots[k].memory == w'.slots[i].memory {
      var k := if i == id then from else i;
      assert Owns(w, k);
    }
  }

  /** The variable `id` with whatever it owned dropped. */
  ghost function Forget(w: World, id: nat): World
    requires id in w.slots
  {
    var lost := if w.slots[id].moved then [] else [w.slots[id].memory];
    w.(slots := w.slots - {id}, dropped := w.dropped + lost)
  }

  lemma ForgetKeepsInv(w: World, id: nat)
    requires Inv(w) && id in w.slots
    ensures Inv(Forget(w, id))
  {
    var w' := Forget(w, id);
    assert Owners(w') == Owners(w) - {id};
    assert forall i :: Owns(w', i) ==> Owns(w, i) && i != id;
    if !w.slots[id].moved {
      assert Owns(w, id);
      AppendNew(w.dropped, w.slots[id].memory);
    } else {
      assert w'.dropped == w.dropped;
    }
  }

  lemma MoveAssignKeepsInv(w: World, id: nat, from: nat)
    requires Inv(w) && id in w.slots && Owns(w, from)
    ensures Inv(Step(w, MoveAssign(id, from)))
  {
    var w' := Step(w, MoveAssign(id, from));
    var f := Forget(w, id);
    ForgetKeepsInv(w, id);
    if id == from {
      assert Owners(w') == Owners(f);
      assert forall i :: Owns(w', i) <==> Owns(f, i);
    } else {
      MoveNewKeepsInv(f, id, from);
      assert w'.slots == Step(f, MoveNew(id, from)).slots;
    }
  }

  lemma DestroyKeepsInv(w: World, id: nat)
    requires Inv(w) && id in w.slots
    ensures Inv(Step(w, Destroy(id)))
  {
    var w' := Step(w, Destroy(id));
    assert Owners(w') == Owners(w) - {id};
    assert forall i :: Owns(w', i) ==> Owns(w, i) && i != id;
    if !w.slots[id].moved {
      assert Owns(w, id);
      AppendNew(w.destroyed, w.slots[id].memory);
    } else {
      assert w'.destroyed == w.destroyed;
    }
  }

  lemma AppendNew(s: seq<Raw>, r: Raw)
    requires NoRepeats(s) && r !in s
    ensures NoRepeats(s + [r])
    ensures forall x :: x in s + [r] <==> x in s || x == r
  {
  }

  ghost predicate Runs(w: World, ops: seq<Op>, w': World)
    decreases |ops|
  {
    if ops == [] then w == w' else Enabled(w, ops[0]) && Runs(Step(w, ops[0]), ops[1..], w')
  }

  /** Every move on the way is from an owner. */
  ghost predicate MovesFromOwners(w: World, ops: seq<Op>)
    decreases |ops|
  {
    ops != [] ==> Enabled(w, ops[0]) && SourceOwns(w, ops[0]) && MovesFromOwners(Step(w, ops[0]), ops[1..])
  }

  const START := World(map[], 0, [], [])

  /**
    Over every program that moves from owners only: nothing is destroyed twice, and
    created = destroyed + dropped by assignment + owned.
  */
  lemma DestroyedAtMostOnce(ops: seq<Op>, w: World)
    requires MovesFromOwners(START, ops) && Runs(START, ops, w)
    ensures NoRepeats(w.destroyed)
    ensures forall i :: Owns(w, i) ==> w.slots[i].memory !in w.destroyed
    ensures w.created == |w.destroyed| + |w.dropped| + |Owners(w)|
  {
    assert Owners(START) == {};
    RunKeepsInv(START, ops, w);
  }

  lemma {:induction false} RunKeepsInv(w: World, ops: seq<Op>, w': World)
    requires Inv(w) && MovesFromOwners(w, ops) && Runs(w, ops, w')
    ensures Inv(w')
    decreases |ops|
  {
    if ops != [] {
      StepKeepsInv(w, ops[0]);
      RunKeepsInv(Step(w, ops[0]), ops[1..], w');
    }
  }

  /** In particular, once all variables are out of scope everything not dropped was destroyed, exactly once. */
  lemma AllDestroyedAtTheEnd(ops: seq<Op>, w: World)
    requires MovesFromOwners(START, ops) && Runs(START, ops, w) && w.slots == map[]
    ensures NoRepeats(w.destroyed) && w.created == |w.destroyed| + |w.dropped|
  {
    DestroyedAtMostOnce(ops, w);
    assert Owners(w) == {};
  }

  // ---------------------------------------------------------------- leaks

  /** No assignment on the way is to an owner, be it the source itself. */
  ghost predicate AssignsToNonOwners(w: World, ops: seq<Op>)
    decreases |ops|
  {
    ops != [] ==>
      && Enabled(w, ops[0])
      && (ops[0].MoveAssign? ==> !Owns(w, ops[0].id))
      && AssignsToNonOwners(Step(w, ops[0]), ops[1..])
  }

  lemma {:induction false} DroppedGrows(w: World, ops: seq<Op>, w': World)
    requires Runs(w, ops, w')
    ensures |w.dropped| <= |w'.dropped|
    ensures |w'.dropped| == |w.dropped| <==> AssignsToNonOwners(w, ops)
    decreases |ops|
  {
    if ops != [] {
      DroppedGrows(Step(w, ops[0]), ops[1..], w');
    }
  }

  /**
    A program that moves from owners only and leaves all its scopes has destroyed all
    that it created if and only if it never assigned to an owner.
  */
  lemma NothingLeaksIff(ops: seq<Op>, w: World)
    requires MovesFromOwners(START, ops) && Runs(START, ops, w) && w.slots == map[]
    ensures (forall r: Raw :: r < w.created ==> r in w.destroyed) <==> AssignsToNonOwners(START, ops)
  {
    assert Owners(START) == {};
    RunKeepsInv(START, ops, w);
    DroppedGrows(START, ops, w);
    if w.dropped != [] {
      assert w.dropped[0] in w.dropped && w.dropped[0] !in w.destroyed && w.dropped[0] < w.created;
    } else {
      forall r: Raw | r < w.created ensures r in w.destroyed {
        AllAccounted(START, ops, w, r);
      }
    }
  }

  const LEAKING := [Create(0), Create(1), MoveAssign(0, 1), Destroy(0), Destroy(1)]

  /** What variable 0 owned is gone with the assignment: nobody destroys it. */
  lemma AssigningToAnOwnerLeaks()
    ensures exists w: World :: Runs(START, LEAKING, w) && MovesFromOwners(START, LEAKING)
                            && w.slots == map[] && w.created == 2 && w.destroyed == [1] && w.dropped == [0]
  {
    var w1 := Step(START, Create(0));
    var w2 := Step(w1, Create(1));
    var w3 := Step(w2, MoveAssign(0, 1));
    var w4 := Step(w3, Destroy(0));
    var w5 := Step(w4, Destroy(1));
    OneStep(w4, Destroy(1), [], w5);
    OneStep(w3, Destroy(0), [Destroy(1)], w5);
    OneStep(w2, MoveAssign(0, 1), [Destroy(0), Destroy(1)], w5);
    OneStep(w1, Create(1), [MoveAssign(0, 1), Destroy(0), Destroy(1)], w5);
    OneStep(START, Create(0), [Create(1), MoveAssign(0, 1), Destroy(0), Destroy(1)], w5);
    assert w5.slots == map[];
  }

  lemma OneStep(w: World, op: Op, ops: seq<Op>, w': World)
    requires Enabled(w, op) && Runs(Step(w, op), ops, w')
    requires SourceOwns(w, op) && MovesFromOwners(Step(w, op), ops)
    ensures Runs(w, [op] + ops, w') && MovesFromOwners(w, [op] + ops)
  {
    assert ([op] + ops)[1..] == ops;
  }

  // ---------------------------------------------------------------- moving twice

  /**
    In any state reached by moving from owners only, one more move into a new
    variable is safe exactly when the source owns, or what it held last was dropped.
  */
  lemma MoveSafeIff(ops: seq<Op>, w: World, id: nat, from: nat)
    requires MovesFromOwners(START, ops) && Runs(START, ops, w)
    requires Enabled(w, MoveNew(id, from))
    ensures Safe(Step(w, MoveNew(id, from))) <==> !w.slots[from].moved || w.slots[from].memory in w.dropped
  {
    assert Owners(START) == {};
    RunKeepsInv(START, ops, w);
    AllAccounted(START, ops, w, w.slots[from].memory);
    MoveSafeWhenAccounted(w, id, from);
  }

  lemma MoveSafeWhenAccounted(w: World, id: nat, from: nat)
    requires Inv(w) && Enabled(w, MoveNew(id, from))
    requires Accounted(w, w.slots[from].memory)
    ensures Safe(Step(w, MoveNew(id, from))) <==> !w.slots[from].moved || w.slots[from].memory in w.dropped
  {
    var w' := Step(w, MoveNew(id, from));
    var raw := w.slots[from].memory;
    if w.slots[from].moved && raw !in w.dropped {
      assert Owns(w', id) && w'.slots[id].memory == raw;
      if raw !in w.destroyed {
        var i :| Owns(w, i) && w.slots[i].memory == raw;
        assert Owns(w', i) && w'.slots[i].memory == raw;
      }
    }
  }

  /**
    The same for move assignment: it is safe exactly when the source owns, or is the
    target, or what it held last was dropped before, or is what the target owns and
    so is dropped now.
  */
  lemma AssignSafeIff(ops: seq<Op>, w: World, id: nat, from: nat)
    requires MovesFromOwners(START, ops) && Runs(START, ops, w)
    requires Enabled(w, MoveAssign(id, from))
    ensures Safe(Step(w, MoveAssign(id, from))) <==>
              || !w.slots[from].moved || id == from
              || w.slots[from].memory in w.dropped
              || (Owns(w, id) && w.slots[id].memory == w.slots[from].memory)
  {
    assert Owners(START) == {};
    RunKeepsInv(START, ops, w);
    AllAccounted(START, ops, w, w.slots[from].memory);
    if id == from || !w.slots[from].moved {
      AssignSafe(w, id, from);
    } else {
      AssignFromMovedSafeIff(w, id, from);
    }
  }

  lemma AssignSafe(w: World, id: nat, from: nat)
    requires Inv(w) && Enabled(w, MoveAssign(id, from)) && (id == from || Owns(w, from))
    ensures Safe(Step(w, MoveAssign(id, from)))
  {
    var w' := Step(w, MoveAssign(id, from));
    if Owns(w, from) {
      MoveAssignKeepsInv(w, id, from);
    } else {
      assert w'.slots == w.slots;
    }
  }

  lemma AssignFromMovedSafeIff(w: World, id: nat, from: nat)
    requires Inv(w) && Enabled(w, MoveAssign(id, from)) && id != from && w.slots[from].moved
    requires Accounted(w, w.slots[from].memory)
    ensures Safe(Step(w, MoveAssign(id, from))) <==>
              w.slots[from].memory in w.dropped || (Owns(w, id) && w.slots[id].memory == w.slots[from].memory)
  {
    var w' := Step(w, MoveAssign(id, from));
    var raw := w.slots[from].memory;
    assert Owns(w', id) && w'.slots[id].memory == raw;
    assert forall i :: Owns(w', i) && i != id ==> Owns(w, i) && w'.slots[i] == w.slots[i];
    if raw !in w.destroyed && raw !in w.dropped {
      var i :| Owns(w, i) && w.slots[i].memory == raw;
      assert i != id ==> Owns(w', i) && w'.slots[i].memory == raw;
    }
  }

  ghost predicate Accounted(w: World, r: Raw) {
    r in w.destroyed || r in w.dropped || exists i :: Owns(w, i) && w.slots[i].memory == r
  }

  /** Every raw structure created is accounted for, in every run. */
  lemma {:induction false} AllAccounted(w: World, ops: seq<Op>, w': World, r: Raw)
    requires Inv(w) && MovesFromOwners(w, ops) && Runs(w, ops, w')
    requires (r < w.created ==> Accounted(w, r)) && r < w'.created
    ensures Accounted(w', r)
    decreases |ops|
  {
    if ops != [] {
      StepKeepsInv(w, ops[0]);
      if r < w.created { AccountedStep(w, ops[0], r); }
      else if r < Step(w, ops[0]).created { assert Owns(Step(w, ops[0]), ops[0].id); }
      AllAccounted(Step(w, ops[0]), ops[1..], w', r);
    }
  }

  lemma AccountedStep(w: World, op: Op, r: Raw)
    requires Inv(w) && Enabled(w, op) && SourceOwns(w, op) && Accounted(w, r)
    ensures Accounted(Step(w, op), r)
  {
    var w' := Step(w, op);
    if r !in w'.destroyed && r !in w'.dropped {
      var i :| Owns(w, i) && w.slots[i].memory == r;
      if (op.MoveNew? || op.MoveAssign?) && op.from == i {
        assert Owns(w', op.id) && w'.slots[op.id].memory == r;
      } else {
        assert Owns(w', i) && w'.slots[i].memory == r;
      }
    }
  }

  /** Two moves from the same variable, and both new owners destroy. */
  lemma MovingTwiceDestroysTwice()
    ensures exists w: World :: Runs(START, [Create(0), MoveNew(1, 0), MoveNew(2, 0), Destroy(1), Destroy(2)], w)
                            && w.destroyed == [0, 0]
  {
    var w1 := Step(START, Create(0));
    var w2 := Step(w1, MoveNew(1, 0));
    var w3 := Step(w2, MoveNew(2, 0));
    var w4 := Step(w3, Destroy(1));
    var w5 := Step(w4, Destroy(2));
    assert Runs(w4, [Destroy(2)], w5) by { assert [Destroy(2)][1..] == []; }
    assert Runs(w3, [Destroy(1), Destroy(2)], w5) by { assert [Destroy(1), Destroy(2)][1..] == [Destroy(2)]; }
    var ops3 := [MoveNew(2, 0), Destroy(1), Destroy(2)];
    assert Runs(w2, ops3, w5) by { assert ops3[1..] == [Destroy(1), Destroy(2)]; }
    var ops4 := [MoveNew(1, 0)] + ops3;
    assert Runs(w1, ops4, w5) by { assert ops4[1..] == ops3; }
    var ops5 := [Create(0)] + ops4;
    assert Runs(START, ops5, w5) by { assert ops5[1..] == ops4; }
    assert ops5 == [Create(0), MoveNew(1, 0), MoveNew(2, 0), Destroy(1), Destroy(2)];
  }

  // ---------------------------------------------------------------- programs over objects

  /** Variables holding objects of the class; running a program on them is running it on their states. */
  class Scope {
    var slots: map<nat, AMQPStruct>
    var created: nat
    const lib: Library
    ghost var dropped: seq<Raw>

    ghost predicate Valid()
      reads this, lib, slots.Values
    {
      forall i, j :: i in slots && j in slots && slots[i] == slots[j] ==> i == j
    }

    ghost function View(): World
      reads this, lib, slots.Values
    {
      World(map i | i in slots :: slots[i].State(), created, lib.destroyed, dropped)
    }

    constructor ()
      ensures Valid() && View() == START && fresh(lib)
    {
      slots, created, dropped := map[], 0, [];
      lib := new Library();
    }

    method Exec(op: Op)
      requires Valid() && Enabled(View(), op)
      modifies this, lib, slots.Values
      ensures Valid() && View() == Step(old(View()), op)
      ensures forall o :: o in slots.Values ==> o in old(slots.Values) || fresh(o)
    {
      match op {
        case Create(id) => ExecCreate(id);
        case MoveNew(id, from) => ExecMoveNew(id, from);
        case MoveAssign(id, from) => ExecMoveAssign(id, from);
        case Destroy(id) => ExecDestroy(id);
      }
    }

    /** An object gets a name. */
    method Bind(id: nat, o: AMQPStruct)
      requires Valid() && id !in slots && o !in slots.Values
      modifies `slots
      ensures slots == old(slots)[id := o]
      ensures Valid() && View() == old(View()).(slots := old(View().slots)[id := o.State()])
    {
      slots := slots[id := o];
    }

    method ExecCreate(id: nat)
      requires Valid() && id !in slots
      modifies this
      ensures Valid() && View() == Step(old(View()), Create(id))
      ensures forall o :: o in slots.Values ==> o in old(slots.Values) || fresh(o)
    {
      var o := new AMQPStruct(created);
      assert View() == old(View());
      Bind(id, o);
      created := created + 1;
    }

    method ExecMoveNew(id: nat, from: nat)
      requires Valid() && id !in slots && from in slots
      modifies this, slots[from]
      ensures Valid() && View() == Step(old(View()), MoveNew(id, from))
      ensures forall o :: o in slots.Values ==> o in old(slots.Values) || fresh(o)
    {
      var o := new AMQPStruct.Move(slots[from]);
      assert View().slots == old(View()).slots[from := Struct(old(slots[from].memory), true)];
      Bind(id, o);
    }

    method ExecMoveAssign(id: nat, from: nat)
      requires Valid() && id in slots && from in slots
      modifies this, slots[id], slots[from]
      ensures Valid() && View() == Step(old(View()), MoveAssign(id, from))
      ensures slots == old(slots)
    {
      if !slots[id].moved {
        dropped := dropped + [slots[id].memory];
      }
      ghost var raw := slots[from].memory;
      slots[id].Assign(slots[from]);
      assert View().slots == old(View()).slots[id := Struct(raw, false)][from := Struct(raw, true)];
    }

    method ExecDestroy(id: nat)
      requires Valid() && id in slots
      modifies this, lib
      ensures Valid() && View() == Step(old(View()), Destroy(id))
      ensures slots.Values <= old(slots.Values)
    {
      slots[id].Destroy(lib);
      slots := slots - {id};
    }

    /** Any program, whether it moves from owners or not. */
    method Run(ops: seq<Op>, ghost end: World)
      requires Valid() && Runs(View(), ops, end)
      modifies this, lib, slots.Values
      ensures Valid() && View() == end
    {
      var i := 0;
      while i < |ops|
        invariant 0 <= i <= |ops|
        invariant Valid() && Runs(View(), ops[i..], end)
        invariant forall o :: o in slots.Values ==> o in old(slots.Values) || fresh(o)
      {
        assert ops[i..][0] == ops[i] && ops[i..][1..] == ops[i + 1..];
        Exec(ops[i]);
        i := i + 1;
      }
    }
  }
}
