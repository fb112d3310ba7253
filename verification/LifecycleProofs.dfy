/**
  A monitor of what a handle may live through, and the proof that every program
  over connections and channels satisfies it.
*/
module LifecycleProofs {
  import opened Replies
  import opened Lifecycle

  // ---------------------------------------------------------------- the monitor

  /** `open` are the channels opened and not yet closed. */
  datatype HandleState = Live(open: multiset<nat>) | Closed | Gone

  datatype Monitor = Monitor(states: map<Handle, HandleState>, pending: Option<(Handle, Remote)>)

  const NOTHING := Monitor(map[], None)

  /**
    One event: a remote call must be followed by its own reply; channels are
    closed as often as they were opened, before the connection is; the connection
    is closed at most once, and destroyed last.
  */
  ghost function Watch(m: Option<Monitor>, e: Event): Option<Monitor> {
    if m.None? then None
    else
      var Monitor(states, pending) := m.value;
      match e
      case NewConnection(h) =>
        if pending.None? && h !in states then Some(Monitor(states[h := Live(multiset{})], None)) else None
      case SetUp(h, _) =>
        if pending.None? && h in states && states[h].Live? then m else None
      case Send(h, r) =>
        if pending.None? && h in states && states[h].Live? && MaySend(states[h].open, r) then
          Some(Monitor(states[h := AfterSend(states[h].open, r)], Some((h, r))))
        else None
      case Fetch(h, r, reply) =>
        if pending == Some((h, r)) && h in states && states[h] != Gone && (r.OpenChannel? ==> states[h].Live?) then
          if r.OpenChannel? && reply.NormalReply? then
            Some(Monitor(states[h := Live(states[h].open + multiset{r.id})], None))
          else Some(Monitor(states, None))
        else None
      case Release(h) => if pending.None? && h in states && states[h] != Gone then m else None
      case ReleaseChannel(h, _) => if pending.None? && h in states && states[h] != Gone then m else None
      case DestroyConnection(h) =>
        if pending.None? && h in states && (states[h] == Closed || states[h] == Live(multiset{})) then
          Some(Monitor(states[h := Gone], None))
        else None
  }

  ghost predicate MaySend(open: multiset<nat>, r: Remote) {
    match r
    case CloseConnection => open == multiset{}
    case CloseChannel(id) => id in open
    case _ => true
  }

  ghost function AfterSend(open: multiset<nat>, r: Remote): HandleState {
    match r
    case CloseConnection => Closed
    case CloseChannel(id) => Live(open - multiset{id})
    case _ => Live(open)
  }

  ghost function WatchAll(m: Option<Monitor>, events: seq<Event>): Option<Monitor>
    decreases |events|
  {
    if events == [] then m else WatchAll(Watch(m, events[0]), events[1..])
  }

  lemma {:induction false} WatchAppend(m: Option<Monitor>, x: seq<Event>, y: seq<Event>)
    ensures WatchAll(m, x + y) == WatchAll(WatchAll(m, x), y)
    decreases |x|
  {
    if x == [] {
      assert x + y == y;
    } else {
      assert (x + y)[1..] == x[1..] + y;
      WatchAppend(Watch(m, x[0]), x[1..], y);
    }
  }

  lemma WatchOne(m: Option<Monitor>, e: Event)
    ensures WatchAll(m, [e]) == Watch(m, e)
  {
    assert [e][1..] == [];
  }

  lemma WatchTwo(m: Option<Monitor>, e: Event, f: Event)
    ensures WatchAll(m, [e, f]) == Watch(Watch(m, e), f)
  {
    assert [e, f][1..] == [f];
    WatchOne(Watch(m, e), f);
  }

  // ---------------------------------------------------------------- brackets

  /** The state of a handle after a whole remote call. */
  ghost function AfterRpc(open: multiset<nat>, r: Remote, reply: Reply): HandleState {
    if r.OpenChannel? && reply.NormalReply? then Live(open + multiset{r.id}) else AfterSend(open, r)
  }

  lemma RpcWatched(states: map<Handle, HandleState>, h: Handle, release: bool, r: Remote, reply: Reply)
    requires h in states && states[h].Live? && MaySend(states[h].open, r)
    ensures WatchAll(Some(Monitor(states, None)), RpcEvents(h, release, r, reply))
         == Some(Monitor(states[h := AfterRpc(states[h].open, r, reply)], None))
  {
    var m := Some(Monitor(states, None));
    var call := [Send(h, r), Fetch(h, r, reply)];
    WatchTwo(m, call[0], call[1]);
    var sent, done := AfterSend(states[h].open, r), AfterRpc(states[h].open, r, reply);
    assert states[h := sent][h := done] == states[h := done];
    var after := Some(Monitor(states[h := AfterRpc(states[h].open, r, reply)], None));
    assert WatchAll(m, call) == after;
    if release && ProcessReply(reply).None? {
      WatchAppend(m, call, [Release(h)]);
      WatchOne(after, Release(h));
    } else {
      assert RpcEvents(h, release, r, reply) == call;
    }
  }

  lemma ChannelRpcWatched(states: map<Handle, HandleState>, h: Handle, id: nat, name: nat, reply: Reply)
    requires h in states && states[h].Live?
    ensures WatchAll(Some(Monitor(states, None)), ChannelRpcEvents(h, id, OtherRemote(name), reply))
         == Some(Monitor(states, None))
  {
    var m := Some(Monitor(states, None));
    RpcWatched(states, h, false, OtherRemote(name), reply);
    assert states[h := states[h]] == states;
    WatchAppend(m, RpcEvents(h, false, OtherRemote(name), reply), [ReleaseChannel(h, id)]);
    WatchOne(m, ReleaseChannel(h, id));
  }

  lemma CloseWatched(states: map<Handle, HandleState>, h: Handle, reply: Reply)
    requires h in states && states[h] == Live(multiset{})
    ensures WatchAll(Some(Monitor(states, None)), CloseEvents(h, reply) + [DestroyConnection(h)])
         == Some(Monitor(states[h := Gone], None))
  {
    var m := Some(Monitor(states, None));
    RpcWatched(states, h, false, CloseConnection, reply);
    WatchAppend(m, CloseEvents(h, reply), [DestroyConnection(h)]);
    WatchOne(Some(Monitor(states[h := Closed], None)), DestroyConnection(h));
    assert states[h := Closed][h := Gone] == states[h := Gone];
  }

  lemma SetUpWatched(states: map<Handle, HandleState>, h: Handle, a: Answers)
    requires h !in states
    ensures WatchAll(Some(Monitor(states, None)), SetUpEvents(h, a))
         == Some(Monitor(states[h := Live(multiset{})], None))
  {
    var m, m1 := Some(Monitor(states, None)), Some(Monitor(states[h := Live(multiset{})], None));
    var first, open := [NewConnection(h), SetUp(h, MAKE_SOCKET)], [SetUp(h, OPEN_SOCKET)];
    var second := if a.connected == OK && a.handshake.Some? then [SetUp(h, SET_HANDSHAKE_TIMEOUT)] else [];
    var third := if a.connected == OK && (a.handshake.None? || a.handshake.value == OK) then [SetUp(h, LOG_IN)] else [];
    WatchTwo(m, first[0], first[1]);
    WatchOne(m1, SetUp(h, OPEN_SOCKET));
    WatchOne(m1, SetUp(h, SET_HANDSHAKE_TIMEOUT));
    WatchOne(m1, SetUp(h, LOG_IN));
    assert SetUpEvents(h, a) == first + (open + (second + third));
    WatchAppend(m, first, open + (second + third));
    WatchAppend(m1, open, second + third);
    WatchAppend(m1, second, third);
  }

  /** A constructor leaves a live handle, or none, or one that is gone. */
  lemma ConstructorWatched(states: map<Handle, HandleState>, h: Handle, a: Answers)
    requires h !in states
    ensures WatchAll(Some(Monitor(states, None)), ConstructorEvents(h, a))
         == Some(Monitor(if !a.created then states
                         else states[h := if ConstructorFailure(a).None? then Live(multiset{}) else Gone], None))
  {
    var m, m1 := Some(Monitor(states, None)), Some(Monitor(states[h := Live(multiset{})], None));
    assert states[h := Live(multiset{})][h := Gone] == states[h := Gone];
    if a.created && !a.socket {
      WatchTwo(m, NewConnection(h), SetUp(h, MAKE_SOCKET));
      assert ConstructorEvents(h, a) == [NewConnection(h), SetUp(h, MAKE_SOCKET)] + [DestroyConnection(h)];
      WatchAppend(m, [NewConnection(h), SetUp(h, MAKE_SOCKET)], [DestroyConnection(h)]);
      WatchOne(m1, DestroyConnection(h));
    } else if a.created {
      SetUpWatched(states, h, a);
      var last := if ConstructorFailure(a).Some? then CloseEvents(h, a.close) + [DestroyConnection(h)] else [];
      WatchAppend(m, SetUpEvents(h, a), last);
      CloseWatched(states[h := Live(multiset{})], h, a.close);
    }
  }

  // ---------------------------------------------------------------- programs

  /** What `o` adds to the channels open on the connection at position `c`. */
  ghost function OpenId(o: Object, c: nat): multiset<nat> {
    if o.Chan? && !o.moved && o.connection == c then multiset{o.id} else multiset{}
  }

  /** The channels open on the connection at position `c`. */
  ghost function OpenIds(stack: seq<Object>, c: nat): multiset<nat> {
    if stack == [] then multiset{} else OpenIds(stack[..|stack| - 1], c) + OpenId(stack[|stack| - 1], c)
  }

  /** Objects nest: a channel refers to an object further out, and an unmoved one to the owner of a handle. */
  ghost predicate Nested(stack: seq<Object>) {
    forall i :: 0 <= i < |stack| && stack[i].Chan? ==>
      && stack[i].connection < i && stack[stack[i].connection].Conn?
      && (!stack[i].moved ==> stack[stack[i].connection].handle.Some?)
  }

  ghost predicate Holds(stack: seq<Object>, i: nat, h: Handle) {
    i < |stack| && stack[i] == Conn(Some(h))
  }

  /** Each owner's handle is live, with exactly the channels in scope that refer to it. */
  ghost predicate OwnersLive(stack: seq<Object>, states: map<Handle, HandleState>) {
    forall i: nat, h :: Holds(stack, i, h) ==> h in states && states[h] == Live(OpenIds(stack, i))
  }

  ghost predicate OneOwner(stack: seq<Object>) {
    forall i: nat, j: nat, h :: Holds(stack, i, h) && Holds(stack, j, h) ==> i == j
  }

  /** The object at `c`, and no other, owns `h`, and `h` only. */
  ghost predicate Exclusive(stack: seq<Object>, c: nat, h: Handle) {
    Holds(stack, c, h) && forall i: nat, k :: Holds(stack, i, k) ==> (i == c <==> k == h)
  }

  lemma OwnerIsExclusive(stack: seq<Object>, c: nat, h: Handle)
    requires OneOwner(stack) && Holds(stack, c, h)
    ensures Exclusive(stack, c, h)
  {
  }

  ghost predicate Owned(stack: seq<Object>, h: Handle) {
    exists i: nat :: Holds(stack, i, h)
  }

  ghost predicate OthersGone(stack: seq<Object>, states: map<Handle, HandleState>) {
    forall h :: h in states && states[h] != Gone ==> Owned(stack, h)
  }

  ghost predicate Known(handles: nat, states: map<Handle, HandleState>) {
    forall h :: h in states ==> h < handles
  }

  /** The monitor's view of the handles is that of the objects in scope. */
  ghost predicate Agree(stack: seq<Object>, handles: nat, states: map<Handle, HandleState>) {
    Known(handles, states) && OwnersLive(stack, states) && OneOwner(stack) && OthersGone(stack, states)
  }

  ghost predicate Inv(w: World) {
    var m := WatchAll(Some(NOTHING), w.trace);
    && Nested(w.stack)
    && m.Some? && m.value.pending.None?
    && Agree(w.stack, w.handles, m.value.states)
  }

  ghost function States(w: World): map<Handle, HandleState>
    requires Inv(w)
  {
    WatchAll(Some(NOTHING), w.trace).value.states
  }

  lemma {:induction false} NobodyRefersTo(stack: seq<Object>, c: nat)
    requires forall j :: 0 <= j < |stack| && stack[j].Chan? && !stack[j].moved ==> stack[j].connection != c
    ensures OpenIds(stack, c) == multiset{}
  {
    if stack != [] { NobodyRefersTo(stack[..|stack| - 1], c); }
  }

  lemma {:induction false} OpenIdsAppend(stack: seq<Object>, o: Object, c: nat)
    ensures OpenIds(stack + [o], c) == OpenIds(stack, c) + OpenId(o, c)
  {
    assert (stack + [o])[..|stack|] == stack;
  }

  lemma {:induction false} OpenIdsAfterMove(stack: seq<Object>, i: nat, c: nat)
    requires i < |stack| && stack[i].Chan? && !stack[i].moved
    ensures OpenIds(stack, c) == OpenIds(stack[i := stack[i].(moved := true)], c) + OpenId(stack[i], c)
  {
    var n, gone := |stack| - 1, stack[i].(moved := true);
    if i < n {
      OpenIdsAfterMove(stack[..n], i, c);
      assert stack[i := gone][..n] == stack[..n][i := gone];
      SwapSummands(OpenIds(stack[..n][i := gone], c), OpenId(stack[i], c), OpenId(stack[n], c));
    } else {
      assert stack[i := gone][..n] == stack[..n];
    }
  }

  lemma SwapSummands(a: multiset<nat>, b: multiset<nat>, c: multiset<nat>)
    ensures (a + b) + c == (a + c) + b
  {
  }

  lemma {:induction false} OpenIdsSameChannels(stack: seq<Object>, stack': seq<Object>, c: nat)
    requires |stack| == |stack'|
    requires forall i :: 0 <= i < |stack| ==> (stack[i].Chan? || stack'[i].Chan? ==> stack[i] == stack'[i])
    ensures OpenIds(stack, c) == OpenIds(stack', c)
  {
    if stack != [] { OpenIdsSameChannels(stack[..|stack| - 1], stack'[..|stack| - 1], c); }
  }

  lemma StepKeepsInv(w: World, op: Op)
    requires Inv(w) && Enabled(w, op)
    ensures Inv(Step(w, op))
  {
    match op
    case DoConnect(a) => ConnectKeepsInv(w, a);
    case DoOpenChannel(c, id, reply) => OpenChannelKeepsInv(w, c, id, reply);
    case DoMoveConnection(c) => MoveConnectionKeepsInv(w, c);
    case DoMoveChannel(c) => MoveChannelKeepsInv(w, c);
    case DoConnectionRpc(c, release, name, reply) =>
      RpcKeepsInv(w, HandleOf(w, c), c, RpcEvents(HandleOf(w, c), release, OtherRemote(name), reply), Step(w, op));
      assert Holds(w.stack, c, HandleOf(w, c));
      RpcWatched(States(w), HandleOf(w, c), release, OtherRemote(name), reply);
    case DoChannelRpc(c, name, reply) =>
      var at := w.stack[c].connection;
      var events := ChannelRpcEvents(HandleOf(w, at), w.stack[c].id, OtherRemote(name), reply);
      RpcKeepsInv(w, HandleOf(w, at), at, events, Step(w, op));
      assert Holds(w.stack, at, HandleOf(w, at));
      ChannelRpcWatched(States(w), HandleOf(w, at), w.stack[c].id, name, reply);
      assert States(w)[HandleOf(w, at) := States(w)[HandleOf(w, at)]] == States(w);
    case DoLeave(reply) => LeaveKeepsInv(w, reply);
  }

  /** Remote calls that neither open nor close anything. */
  lemma RpcKeepsInv(w: World, h: Handle, c: nat, events: seq<Event>, w': World)
    requires Inv(w) && Holds(w.stack, c, h)
    requires w' == World(w.stack, w.handles, w.trace + events)
    ensures h in States(w) && States(w)[h].Live?
    ensures WatchAll(Some(Monitor(States(w), None)), events) == Some(Monitor(States(w)[h := States(w)[h]], None))
        ==> Inv(w')
  {
    WatchAppend(Some(NOTHING), w.trace, events);
    assert States(w)[h := States(w)[h]] == States(w);
  }

  lemma ConnectKeepsInv(w: World, a: Answers)
    requires Inv(w)
    ensures Inv(Step(w, DoConnect(a)))
  {
    var w', h, states := Step(w, DoConnect(a)), w.handles, States(w);
    WatchAppend(Some(NOTHING), w.trace, ConstructorEvents(h, a));
    ConstructorWatched(states, h, a);
    if ConstructorFailure(a).None? {
      PushConnectionAgrees(w.stack, w.handles, states, h);
    }
  }

  lemma PushConnectionAgrees(stack: seq<Object>, handles: nat, states: map<Handle, HandleState>, h: Handle)
    requires Nested(stack) && Agree(stack, handles, states) && h == handles
    ensures Nested(stack + [Conn(Some(h))])
    ensures Agree(stack + [Conn(Some(h))], handles + 1, states[h := Live(multiset{})])
  {
    var stack', states' := stack + [Conn(Some(h))], states[h := Live(multiset{})];
    var n := |stack|;
    assert forall i: nat, k :: Holds(stack', i, k) <==> Holds(stack, i, k) || (i == n && k == h);
    assert OwnersLive(stack', states') by {
      NobodyRefersTo(stack', n);
      forall i: nat, k | Holds(stack', i, k) ensures k in states' && states'[k] == Live(OpenIds(stack', i)) {
        OpenIdsAppend(stack, Conn(Some(h)), i);
      }
    }
    assert OthersGone(stack', states') by {
      forall k | k in states' && states'[k] != Gone ensures Owned(stack', k) {
        if k == h { assert Holds(stack', n, h); }
        else {
          var i: nat :| Holds(stack, i, k);
          assert Holds(stack', i, k);
        }
      }
    }
  }

  lemma OpenChannelKeepsInv(w: World, c: nat, id: nat, reply: Reply)
    requires Inv(w) && IsOwner(w, c)
    ensures Inv(Step(w, DoOpenChannel(c, id, reply)))
  {
    var h, states := HandleOf(w, c), States(w);
    assert Holds(w.stack, c, h);
    var w' := Step(w, DoOpenChannel(c, id, reply));
    WatchAppend(Some(NOTHING), w.trace, RpcEvents(h, true, OpenChannel(id), reply));
    RpcWatched(states, h, true, OpenChannel(id), reply);
    var after := AfterRpc(states[h].open, OpenChannel(id), reply);
    assert WatchAll(Some(NOTHING), w'.trace) == Some(Monitor(states[h := after], None));
    if reply.NormalReply? {
      assert w'.stack == w.stack + [Chan(c, id, false)];
      PushChannelAgrees(w.stack, w.handles, states, c, h, id);
    } else {
      assert states[h := states[h]] == states && w'.stack == w.stack;
    }
  }

  lemma PushChannelAgrees(
      stack: seq<Object>, handles: nat, states: map<Handle, HandleState>, c: nat, h: Handle, id: nat)
    requires Nested(stack) && Agree(stack, handles, states) && Holds(stack, c, h)
    ensures states[h].Live? && Nested(stack + [Chan(c, id, false)])
    ensures Agree(stack + [Chan(c, id, false)], handles, states[h := Live(states[h].open + multiset{id})])
  {
    OwnerIsExclusive(stack, c, h);
    SameHolders(stack, stack + [Chan(c, id, false)], states, states[h := Live(states[h].open + multiset{id})]);
    PushChannelLive(stack, states, c, h, id);
  }

  lemma PushChannelLive(stack: seq<Object>, states: map<Handle, HandleState>, c: nat, h: Handle, id: nat)
    requires OwnersLive(stack, states) && Exclusive(stack, c, h)
    ensures states[h].Live?
    ensures OwnersLive(stack + [Chan(c, id, false)], states[h := Live(states[h].open + multiset{id})])
  {
    var o := Chan(c, id, false);
    var stack', states' := stack + [o], states[h := Live(states[h].open + multiset{id})];
    forall i: nat, k | Holds(stack', i, k) ensures k in states' && states'[k] == Live(OpenIds(stack', i)) {
      assert Holds(stack, i, k);
      OpenIdsAppend(stack, o, i);
      if i == c {
        assert k == h && OpenId(o, i) == multiset{id};
      } else {
        assert k != h && OpenIds(stack', i) == OpenIds(stack, i);
      }
    }
  }

  /** Objects that own no handle come and go. */
  lemma SameHolders(
      stack: seq<Object>, stack': seq<Object>, states: map<Handle, HandleState>, states': map<Handle, HandleState>)
    requires OneOwner(stack) && OthersGone(stack, states)
    requires forall i: nat, k :: Holds(stack', i, k) <==> Holds(stack, i, k)
    requires forall k :: k in states' && states'[k] != Gone ==> k in states && states[k] != Gone
    ensures OneOwner(stack') && OthersGone(stack', states')
  {
    forall k | k in states' && states'[k] != Gone ensures Owned(stack', k) {
      var i: nat :| Holds(stack, i, k);
      assert Holds(stack', i, k);
    }
  }

  lemma MoveConnectionKeepsInv(w: World, c: nat)
    requires Inv(w) && Enabled(w, DoMoveConnection(c))
    ensures Inv(Step(w, DoMoveConnection(c)))
  {
    var w', h := Step(w, DoMoveConnection(c)), HandleOf(w, c);
    assert Holds(w.stack, c, h);
    MovedConnectionAgrees(w.stack, w.handles, States(w), c, h);
    WatchAppend(Some(NOTHING), w.trace, []);
  }

  lemma MovedConnectionAgrees(stack: seq<Object>, handles: nat, states: map<Handle, HandleState>, c: nat, h: Handle)
    requires Nested(stack) && Agree(stack, handles, states) && Holds(stack, c, h)
    requires forall j :: 0 <= j < |stack| && stack[j].Chan? && !stack[j].moved ==> stack[j].connection != c
    ensures Nested(stack[c := Conn(None)] + [stack[c]])
    ensures Agree(stack[c := Conn(None)] + [stack[c]], handles, states)
  {
    var stack' := stack[c := Conn(None)] + [stack[c]];
    OwnerIsExclusive(stack, c, h);
    MovedHolders(stack, states, c, h);
    MovedConnectionLive(stack, states, c, h);
  }

  /** Who owns what after a move: as before, but the new object in the place of the old. */
  lemma MovedHolds(stack: seq<Object>, c: nat, h: Handle)
    requires Holds(stack, c, h)
    ensures forall i: nat, k :: Holds(stack[c := Conn(None)] + [stack[c]], i, k)
                           <==> (Holds(stack, i, k) && i != c) || (i == |stack| && k == h)
  {
    var stack' := stack[c := Conn(None)] + [stack[c]];
    forall i: nat, k ensures Holds(stack', i, k) <==> (Holds(stack, i, k) && i != c) || (i == |stack| && k == h) {
      assert i < |stack| && i != c ==> stack'[i] == stack[i];
    }
  }

  lemma MovedHolders(stack: seq<Object>, states: map<Handle, HandleState>, c: nat, h: Handle)
    requires OneOwner(stack) && OthersGone(stack, states) && Exclusive(stack, c, h)
    ensures var stack' := stack[c := Conn(None)] + [stack[c]];
            OneOwner(stack') && OthersGone(stack', states)
  {
    var stack', n := stack[c := Conn(None)] + [stack[c]], |stack|;
    MovedHolds(stack, c, h);
    forall i: nat, j: nat, k | Holds(stack', i, k) && Holds(stack', j, k) ensures i == j {
      assert Holds(stack, if i == n then c else i, k) && Holds(stack, if j == n then c else j, k);
    }
    forall k | k in states && states[k] != Gone ensures Owned(stack', k) {
      var i: nat :| Holds(stack, i, k);
      assert Holds(stack', if i == c then n else i, k);
    }
  }

  lemma MovedConnectionLive(stack: seq<Object>, states: map<Handle, HandleState>, c: nat, h: Handle)
    requires Nested(stack) && OwnersLive(stack, states) && Exclusive(stack, c, h)
    requires forall j :: 0 <= j < |stack| && stack[j].Chan? && !stack[j].moved ==> stack[j].connection != c
    ensures OwnersLive(stack[c := Conn(None)] + [stack[c]], states)
  {
    var stack' := stack[c := Conn(None)] + [stack[c]];
    MovedHolds(stack, c, h);
    forall i: nat, k | Holds(stack', i, k) ensures k in states && states[k] == Live(OpenIds(stack', i)) {
      MovedOpenIds(stack, c, if i == |stack| then c else i);
    }
  }

  /** The channels open on other connections are the same, and the moved one has none, before and after. */
  lemma MovedOpenIds(stack: seq<Object>, c: nat, i: nat)
    requires Nested(stack) && c < |stack| && stack[c].Conn?
    requires forall j :: 0 <= j < |stack| && stack[j].Chan? && !stack[j].moved ==> stack[j].connection != c
    ensures var stack' := stack[c := Conn(None)] + [stack[c]];
            if i == c then OpenIds(stack', |stack|) == OpenIds(stack, c) else OpenIds(stack', i) == OpenIds(stack, i)
  {
    var cleared := stack[c := Conn(None)];
    if i == c {
      NobodyRefersTo(stack, c);
      NobodyRefersTo(cleared + [stack[c]], |stack|);
    } else {
      OpenIdsAppend(cleared, stack[c], i);
      OpenIdsSameChannels(stack, cleared, i);
    }
  }

  lemma MoveChannelKeepsInv(w: World, c: nat)
    requires Inv(w) && IsOpen(w, c)
    ensures Inv(Step(w, DoMoveChannel(c)))
  {
    MovedChannelAgrees(w.stack, w.handles, States(w), c);
    WatchAppend(Some(NOTHING), w.trace, []);
  }

  lemma MovedChannelAgrees(stack: seq<Object>, handles: nat, states: map<Handle, HandleState>, c: nat)
    requires Nested(stack) && Agree(stack, handles, states)
    requires c < |stack| && stack[c].Chan? && !stack[c].moved
    ensures Nested(stack[c := stack[c].(moved := true)] + [stack[c]])
    ensures Agree(stack[c := stack[c].(moved := true)] + [stack[c]], handles, states)
  {
    var marked := stack[c := stack[c].(moved := true)];
    var stack' := marked + [stack[c]];
    SameHolders(stack, stack', states, states);
    forall i: nat, k | Holds(stack', i, k) ensures k in states && states[k] == Live(OpenIds(stack', i)) {
      OpenIdsAppend(marked, stack[c], i);
      OpenIdsAfterMove(stack, c, i);
    }
  }

  lemma LeaveKeepsInv(w: World, reply: Reply)
    requires Inv(w) && Enabled(w, DoLeave(reply))
    ensures Inv(Step(w, DoLeave(reply)))
  {
    var states := States(w);
    var n := |w.stack| - 1;
    WatchAppend(Some(NOTHING), w.trace, LeaveEvents(w, reply));
    match w.stack[n]
    case Conn(None) => PopAgrees(w.stack, w.handles, states);
    case Conn(Some(h)) => LeaveConnection(w.stack, w.handles, states, h, reply);
    case Chan(c, id, moved) =>
      if moved {
        PopAgrees(w.stack, w.handles, states);
      } else {
        LeaveChannel(w.stack, w.handles, states, HandleOf(w, c), reply);
      }
  }

  /** An object that owns nothing. */
  lemma PopAgrees(stack: seq<Object>, handles: nat, states: map<Handle, HandleState>)
    requires stack != [] && Nested(stack) && Agree(stack, handles, states)
    requires var o := stack[|stack| - 1]; o == Conn(None) || (o.Chan? && o.moved)
    ensures Nested(stack[..|stack| - 1]) && Agree(stack[..|stack| - 1], handles, states)
  {
    SameHolders(stack, stack[..|stack| - 1], states, states);
  }

  lemma LeaveConnection(stack: seq<Object>, handles: nat, states: map<Handle, HandleState>, h: Handle, reply: Reply)
    requires stack != [] && Nested(stack) && Agree(stack, handles, states)
    requires stack[|stack| - 1] == Conn(Some(h))
    ensures WatchAll(Some(Monitor(states, None)), CloseEvents(h, reply) + [DestroyConnection(h)])
         == Some(Monitor(states[h := Gone], None))
    ensures Nested(stack[..|stack| - 1]) && Agree(stack[..|stack| - 1], handles, states[h := Gone])
  {
    var n := |stack| - 1;
    assert Holds(stack, n, h);
    OwnerIsExclusive(stack, n, h);
    NobodyRefersTo(stack, n);
    CloseWatched(states, h, reply);
    LeftHolders(stack, states, h);
    LeftConnectionLive(stack, states, h);
  }

  lemma LeftHolders(stack: seq<Object>, states: map<Handle, HandleState>, h: Handle)
    requires stack != [] && OneOwner(stack) && OthersGone(stack, states) && Exclusive(stack, |stack| - 1, h)
    ensures OneOwner(stack[..|stack| - 1]) && OthersGone(stack[..|stack| - 1], states[h := Gone])
  {
    var stack', n := stack[..|stack| - 1], |stack| - 1;
    assert forall i: nat, k :: Holds(stack', i, k) <==> Holds(stack, i, k) && i != n;
    forall k | k in states[h := Gone] && states[h := Gone][k] != Gone ensures Owned(stack', k) {
      var i: nat :| Holds(stack, i, k);
      assert Holds(stack', i, k);
    }
  }

  lemma LeftConnectionLive(stack: seq<Object>, states: map<Handle, HandleState>, h: Handle)
    requires stack != [] && OwnersLive(stack, states) && Exclusive(stack, |stack| - 1, h)
    ensures OwnersLive(stack[..|stack| - 1], states[h := Gone])
  {
    var stack' := stack[..|stack| - 1];
    forall i: nat, k | Holds(stack', i, k) ensures k in states && k != h && states[k] == Live(OpenIds(stack', i)) {
      assert Holds(stack, i, k);
      OpenIdsPop(stack, i);
    }
  }

  lemma LeaveChannel(stack: seq<Object>, handles: nat, states: map<Handle, HandleState>, h: Handle, reply: Reply)
    requires stack != [] && Nested(stack) && Agree(stack, handles, states)
    requires var o := stack[|stack| - 1]; o.Chan? && !o.moved && Holds(stack, o.connection, h)
    ensures var id := stack[|stack| - 1].id;
            && h in states && states[h].Live?
            && var states' := states[h := Live(states[h].open - multiset{id})];
               && WatchAll(Some(Monitor(states, None)), RpcEvents(h, true, CloseChannel(id), reply))
                  == Some(Monitor(states', None))
               && Nested(stack[..|stack| - 1]) && Agree(stack[..|stack| - 1], handles, states')
  {
    var n := |stack| - 1;
    var stack', o := stack[..n], stack[n];
    assert OpenIds(stack, o.connection) == OpenIds(stack', o.connection) + multiset{o.id};
    RpcWatched(states, h, true, CloseChannel(o.id), reply);
    PopChannelAgrees(stack, handles, states, h);
  }

  lemma PopChannelAgrees(stack: seq<Object>, handles: nat, states: map<Handle, HandleState>, h: Handle)
    requires stack != [] && Nested(stack) && Agree(stack, handles, states)
    requires var o := stack[|stack| - 1]; o.Chan? && !o.moved && Holds(stack, o.connection, h)
    ensures h in states && states[h].Live?
    ensures Nested(stack[..|stack| - 1])
    ensures Agree(stack[..|stack| - 1], handles, states[h := Live(states[h].open - multiset{stack[|stack| - 1].id})])
  {
    var stack', o := stack[..|stack| - 1], stack[|stack| - 1];
    OwnerIsExclusive(stack, o.connection, h);
    SameHolders(stack, stack', states, states[h := Live(states[h].open - multiset{o.id})]);
    PopChannelLive(stack, states, h);
  }

  lemma PopChannelLive(stack: seq<Object>, states: map<Handle, HandleState>, h: Handle)
    requires stack != [] && OwnersLive(stack, states)
    requires var o := stack[|stack| - 1]; o.Chan? && !o.moved && Exclusive(stack, o.connection, h)
    ensures h in states && states[h].Live?
    ensures OwnersLive(stack[..|stack| - 1], states[h := Live(states[h].open - multiset{stack[|stack| - 1].id})])
  {
    var stack', o := stack[..|stack| - 1], stack[|stack| - 1];
    var states' := states[h := Live(states[h].open - multiset{o.id})];
    forall i: nat, k | Holds(stack', i, k) ensures k in states' && states'[k] == Live(OpenIds(stack', i)) {
      assert Holds(stack, i, k);
      OpenIdsPop(stack, i);
      OpenIdsPopChannel(stack, i);
    }
  }

  /** An object that is no open channel of the connection at `c`. */
  lemma OpenIdsPop(stack: seq<Object>, c: nat)
    requires stack != []
    ensures var o := stack[|stack| - 1];
            !(o.Chan? && !o.moved && o.connection == c) ==> OpenIds(stack[..|stack| - 1], c) == OpenIds(stack, c)
  {
  }

  lemma OpenIdsPopChannel(stack: seq<Object>, c: nat)
    requires stack != []
    ensures var o := stack[|stack| - 1];
            o.Chan? && !o.moved && o.connection == c ==>
              OpenIds(stack[..|stack| - 1], c) == OpenIds(stack, c) - multiset{o.id}
  {
  }

  lemma {:induction false} RunKeepsInv(w: World, ops: seq<Op>, w': World)
    requires Inv(w) && Runs(w, ops, w')
    ensures Inv(w')
    decreases |ops|
  {
    if ops != [] {
      StepKeepsInv(w, ops[0]);
      RunKeepsInv(Step(w, ops[0]), ops[1..], w');
    }
  }

  /**
    Every program, with any answers, makes a trace the monitor accepts; the scope can
    always be left; and once everything has left scope every handle is gone.
  */
  lemma EveryProgramIsAccepted(ops: seq<Op>, w: World)
    requires Runs(START, ops, w)
    ensures var m := WatchAll(Some(NOTHING), w.trace);
            && m.Some? && m.value.pending.None?
            && (w.stack == [] ==> forall h :: h in m.value.states ==> m.value.states[h] == Gone)
    ensures w.stack != [] ==> forall reply :: Enabled(w, DoLeave(reply))
  {
    RunKeepsInv(START, ops, w);
    if w.stack == [] {
      forall h | h in States(w) ensures States(w)[h] == Gone {
        assert forall i: nat :: !Holds(w.stack, i, h);
      }
    }
  }

  // ---------------------------------------------------------------- what acceptance means

  ghost function Count(t: seq<Event>, e: Event): nat {
    if t == [] then 0 else Count(t[..|t| - 1], e) + if t[|t| - 1] == e then 1 else 0
  }

  /** Opens of a channel that got a normal reply. */
  ghost function Opened(t: seq<Event>, h: Handle, id: nat): nat {
    Count(t, Fetch(h, OpenChannel(id), NormalReply))
  }

  function Subject(e: Event): Handle {
    match e
    case NewConnection(h) => h
    case SetUp(h, _) => h
    case Send(h, _) => h
    case Fetch(h, _, _) => h
    case Release(h) => h
    case ReleaseChannel(h, _) => h
    case DestroyConnection(h) => h
  }

  ghost function LastAbout(t: seq<Event>, h: Handle): Option<Event> {
    if t == [] then None
    else if Subject(t[|t| - 1]) == h then Some(t[|t| - 1])
    else LastAbout(t[..|t| - 1], h)
  }

  /** Every open answered normally has its close, but for those in `open`. */
  ghost predicate Paired(t: seq<Event>, h: Handle, open: multiset<nat>) {
    forall id :: Opened(t, h, id) == Count(t, Send(h, CloseChannel(id))) + open[id]
  }

  /** The tally of a handle's events, state by state. */
  ghost predicate Tally(t: seq<Event>, h: Handle, s: Option<HandleState>) {
    var closes := Count(t, Send(h, CloseConnection));
    var destroys := Count(t, DestroyConnection(h));
    match s
    case None => LastAbout(t, h) == None && closes == 0 && destroys == 0 && Paired(t, h, multiset{})
    case Some(Live(open)) => closes == 0 && destroys == 0 && Paired(t, h, open)
    case Some(Closed) => closes == 1 && destroys == 0 && Paired(t, h, multiset{})
    case Some(Gone) =>
      closes <= 1 && destroys == 1 && LastAbout(t, h) == Some(DestroyConnection(h)) && Paired(t, h, multiset{})
  }

  ghost function StateOf(m: Monitor, h: Handle): Option<HandleState> {
    if h in m.states then Some(m.states[h]) else None
  }

  /** A monitor that is waiting for a reply knows the state the call was sent in. */
  lemma {:induction false} AcceptedTally(t: seq<Event>, h: Handle)
    requires WatchAll(Some(NOTHING), t).Some?
    ensures Tally(t, h, StateOf(WatchAll(Some(NOTHING), t).value, h))
    decreases |t|
  {
    if t != [] {
      var n := |t| - 1;
      assert t == t[..n] + [t[n]];
      WatchAppend(Some(NOTHING), t[..n], [t[n]]);
      var before := WatchAll(Some(NOTHING), t[..n]);
      WatchOne(before, t[n]);
      AcceptedTally(t[..n], h);
      TallyStep(t[..n], t[n], h, before.value);
    }
  }

  lemma CountAppend(t: seq<Event>, e: Event, f: Event)
    ensures Count(t + [e], f) == Count(t, f) + if e == f then 1 else 0
  {
    assert (t + [e])[..|t|] == t;
  }

  lemma TallyStep(t: seq<Event>, e: Event, h: Handle, m: Monitor)
    requires Watch(Some(m), e).Some? && Tally(t, h, StateOf(m, h))
    ensures Tally(t + [e], h, StateOf(Watch(Some(m), e).value, h))
  {
    assert (t + [e])[..|t|] == t;
    CountAppend(t, e, Send(h, CloseConnection));
    CountAppend(t, e, DestroyConnection(h));
    if Subject(e) != h {
      PairedElsewhere(t, e, h);
      assert StateOf(Watch(Some(m), e).value, h) == StateOf(m, h);
    } else if e.Send? && e.remote.CloseChannel? {
      PairedClose(t, h, m.states[h].open, e.remote.id);
    } else if e.Fetch? && e.remote.OpenChannel? && e.reply.NormalReply? {
      PairedOpen(t, h, e.remote.id);
    } else {
      PairedElsewhere(t, e, h);
    }
  }

  lemma PairedElsewhere(t: seq<Event>, e: Event, h: Handle)
    requires Subject(e) == h ==> !(e.Send? && e.remote.CloseChannel?)
    requires Subject(e) == h ==> !(e.Fetch? && e.remote.OpenChannel? && e.reply.NormalReply?)
    ensures forall open :: Paired(t, h, open) ==> Paired(t + [e], h, open)
  {
    forall id
      ensures Opened(t + [e], h, id) == Opened(t, h, id)
      ensures Count(t + [e], Send(h, CloseChannel(id))) == Count(t, Send(h, CloseChannel(id)))
    {
      CountAppend(t, e, Fetch(h, OpenChannel(id), NormalReply));
      CountAppend(t, e, Send(h, CloseChannel(id)));
    }
  }

  lemma PairedClose(t: seq<Event>, h: Handle, open: multiset<nat>, closed: nat)
    requires Paired(t, h, open) && closed in open
    ensures Paired(t + [Send(h, CloseChannel(closed))], h, open - multiset{closed})
  {
    var e := Send(h, CloseChannel(closed));
    forall id
      ensures Opened(t + [e], h, id) == Count(t + [e], Send(h, CloseChannel(id))) + (open - multiset{closed})[id]
    {
      CountAppend(t, e, Fetch(h, OpenChannel(id), NormalReply));
      CountAppend(t, e, Send(h, CloseChannel(id)));
    }
  }

  lemma PairedOpen(t: seq<Event>, h: Handle, added: nat)
    ensures forall open :: Paired(t, h, open) ==>
              Paired(t + [Fetch(h, OpenChannel(added), NormalReply)], h, open + multiset{added})
  {
    var e := Fetch(h, OpenChannel(added), NormalReply);
    forall id
      ensures Opened(t + [e], h, id) == Opened(t, h, id) + if id == added then 1 else 0
      ensures Count(t + [e], Send(h, CloseChannel(id))) == Count(t, Send(h, CloseChannel(id)))
    {
      CountAppend(t, e, Fetch(h, OpenChannel(id), NormalReply));
      CountAppend(t, e, Send(h, CloseChannel(id)));
    }
  }

  /**
    When a program has left all its scopes, every handle it was given was destroyed
    exactly once, as its last event; its connection was closed at most once; and
    every channel opened on it was closed, exactly once for each open, before the
    connection was closed and destroyed.
  */
  lemma EveryHandleEndsWell(ops: seq<Op>, w: World, h: Handle)
    requires Runs(START, ops, w) && w.stack == []
    requires Count(w.trace, NewConnection(h)) > 0
    ensures LastAbout(w.trace, h) == Some(DestroyConnection(h)) && Count(w.trace, DestroyConnection(h)) == 1
    ensures Count(w.trace, Send(h, CloseConnection)) <= 1
    ensures forall id :: Opened(w.trace, h, id) == Count(w.trace, Send(h, CloseChannel(id)))
    ensures forall i, j :: 0 <= i < |w.trace| && 0 <= j < |w.trace| && IsChannelClose(w.trace[i], h) ==>
              (w.trace[j] == Send(h, CloseConnection) || w.trace[j] == DestroyConnection(h) ==> i < j)
  {
    EveryProgramIsAccepted(ops, w);
    AcceptedTally(w.trace, h);
    CreatedIsKnown(w.trace, h);
    forall i, j | 0 <= i < |w.trace| && 0 <= j < |w.trace| && IsChannelClose(w.trace[i], h)
      ensures w.trace[j] == Send(h, CloseConnection) || w.trace[j] == DestroyConnection(h) ==> i < j
    {
      if i != j {
        TheEndIsInOrder(ops, w, h, j, i);
      }
    }
  }

  predicate IsChannelClose(e: Event, h: Handle) {
    e.Send? && e.handle == h && e.remote.CloseChannel?
  }

  lemma {:induction false} CreatedIsKnown(t: seq<Event>, h: Handle)
    requires WatchAll(Some(NOTHING), t).Some? && Count(t, NewConnection(h)) > 0
    ensures h in WatchAll(Some(NOTHING), t).value.states
    decreases |t|
  {
    var n := |t| - 1;
    assert t == t[..n] + [t[n]];
    WatchAppend(Some(NOTHING), t[..n], [t[n]]);
    WatchOne(WatchAll(Some(NOTHING), t[..n]), t[n]);
    if t[n] != NewConnection(h) { CreatedIsKnown(t[..n], h); }
  }

  /** Nothing comes between a remote call and its own reply, in any program. */
  lemma CallsAreAnswered(ops: seq<Op>, w: World, i: nat)
    requires Runs(START, ops, w) && i < |w.trace| && w.trace[i].Send?
    ensures i + 1 < |w.trace| && w.trace[i + 1].Fetch?
    ensures w.trace[i + 1].handle == w.trace[i].handle && w.trace[i + 1].remote == w.trace[i].remote
  {
    EveryProgramIsAccepted(ops, w);
    AnsweredIn(w.trace, i);
  }

  lemma AnsweredIn(t: seq<Event>, i: nat)
    requires WatchAll(Some(NOTHING), t).Some? && WatchAll(Some(NOTHING), t).value.pending.None?
    requires i < |t| && t[i].Send?
    ensures i + 1 < |t| && t[i + 1].Fetch? && t[i + 1].handle == t[i].handle && t[i + 1].remote == t[i].remote
  {
    var m := WatchAll(Some(NOTHING), t[..i]);
    assert t == t[..i] + t[i..];
    WatchAppend(Some(NOTHING), t[..i], t[i..]);
    assert t[i..][1..] == t[i + 1..];
    StaysRejected(t[i + 1..]);
    var m1 := Watch(m, t[i]);
    assert m1.Some? && m1.value.pending == Some((t[i].handle, t[i].remote));
    if i + 1 < |t| {
      assert t[i + 1..][1..] == t[i + 2..];
      StaysRejected(t[i + 2..]);
    }
  }

  lemma {:induction false} StaysRejected(events: seq<Event>)
    ensures WatchAll(None, events) == None
    decreases |events|
  {
    if events != [] { StaysRejected(events[1..]); }
  }

  // ---------------------------------------------------------------- the order of the end

  /** `h` was closed, or also destroyed. */
  ghost predicate Ended(m: Option<Monitor>, h: Handle) {
    m.Some? && h in m.value.states && !m.value.states[h].Live?
  }

  ghost predicate Destroyed(m: Option<Monitor>, h: Handle) {
    m.Some? && h in m.value.states && m.value.states[h].Gone?
  }

  /** Nothing more is sent over a handle that was closed, and nothing at all happens to one that was destroyed. */
  lemma {:induction false} NothingAfterTheEnd(m: Option<Monitor>, events: seq<Event>, h: Handle, j: nat)
    requires Ended(m, h) && WatchAll(m, events).Some? && j < |events| && Subject(events[j]) == h
    ensures !events[j].Send? && !Destroyed(m, h)
    decreases |events|
  {
    var next := Watch(m, events[0]);
    if next.None? {
      StaysRejected(events[1..]);
    } else if j > 0 {
      NothingAfterTheEnd(next, events[1..], h, j - 1);
    }
  }

  /**
    In any program: no channel is closed, nor anything else sent, after the
    connection was closed; and the destruction of a handle comes after everything else.
  */
  lemma TheEndIsInOrder(ops: seq<Op>, w: World, h: Handle, i: nat, j: nat)
    requires Runs(START, ops, w) && i < |w.trace| && j < |w.trace| && j != i
    requires Subject(w.trace[j]) == h
    ensures w.trace[i] == Send(h, CloseConnection) && w.trace[j].Send? ==> j < i
    ensures w.trace[i] == DestroyConnection(h) ==> j < i
  {
    EveryProgramIsAccepted(ops, w);
    if j > i && w.trace[i] == Send(h, CloseConnection) {
      NothingSentAfterClose(w.trace, h, i, j);
    }
    if j > i && w.trace[i] == DestroyConnection(h) {
      NothingAfterDestroy(w.trace, h, i, j);
    }
  }

  lemma NothingSentAfterClose(t: seq<Event>, h: Handle, i: nat, j: nat)
    requires WatchAll(Some(NOTHING), t).Some? && i < j < |t| && t[i] == Send(h, CloseConnection) && Subject(t[j]) == h
    ensures !t[j].Send?
  {
    var m := Before(t, i);
    NothingAfterTheEnd(Watch(m, t[i]), t[i + 1..], h, j - i - 1);
  }

  lemma NothingAfterDestroy(t: seq<Event>, h: Handle, i: nat, j: nat)
    requires WatchAll(Some(NOTHING), t).Some? && i < j < |t| && t[i] == DestroyConnection(h)
    ensures Subject(t[j]) != h
  {
    var m := Before(t, i);
    if Subject(t[j]) == h {
      NothingAfterTheEnd(Watch(m, t[i]), t[i + 1..], h, j - i - 1);
    }
  }

  /** The monitor before an event of an accepted trace. */
  lemma Before(t: seq<Event>, i: nat) returns (m: Option<Monitor>)
    requires WatchAll(Some(NOTHING), t).Some? && i < |t|
    ensures Watch(m, t[i]).Some? && WatchAll(Watch(m, t[i]), t[i + 1..]).Some?
  {
    m := WatchAll(Some(NOTHING), t[..i]);
    WatchSplit(t, i);
    if Watch(m, t[i]).None? {
      StaysRejected(t[i + 1..]);
    }
  }

  lemma WatchSplit(t: seq<Event>, i: nat)
    requires i < |t|
    ensures WatchAll(Some(NOTHING), t) == WatchAll(Watch(WatchAll(Some(NOTHING), t[..i]), t[i]), t[i + 1..])
  {
    assert t == t[..i] + t[i..] && t[i..][1..] == t[i + 1..];
    WatchAppend(Some(NOTHING), t[..i], t[i..]);
  }
}
