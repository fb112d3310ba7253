/**
  Connections and channels from construction to destruction
  (include/rmqcxx/Connection.hpp, Channel.hpp, and `defer` of util.hpp).

  A program is any sequence of constructions, moves from owners, remote calls and
  scope exits, with any answers of the library; its trace is what the library sees.
*/
module Lifecycle {
  import opened Replies

  // ---------------------------------------------------------------- the trace

  type Handle = nat

  datatype Remote =
    | CloseConnection
    | OpenChannel(id: nat)
    | CloseChannel(id: nat)
    | OtherRemote(name: nat)

  /** What a constructor asks of the library, in this order. */
  datatype Stage = MAKE_SOCKET | OPEN_SOCKET | SET_HANDSHAKE_TIMEOUT | LOG_IN

  datatype Event =
    | NewConnection(handle: Handle)
    | SetUp(handle: Handle, stage: Stage)
    | Send(handle: Handle, remote: Remote)
    | Fetch(handle: Handle, remote: Remote, reply: Reply)
    | Release(handle: Handle)
    | ReleaseChannel(handle: Handle, id: nat)
    | DestroyConnection(handle: Handle)

  /**
    `Connection::rpc` (lines 568-576) of a callable that sends once: the deferred
    function fetches the reply, and releases buffers when asked to and the reply is normal.
  */
  function RpcEvents(h: Handle, maybeRelease: bool, m: Remote, reply: Reply): seq<Event> {
    [Send(h, m), Fetch(h, m, reply)] + if maybeRelease && ProcessReply(reply).None? then [Release(h)] else []
  }

  /** `Channel::rpc` (Channel.hpp:248-253): the outer deferred function always runs. */
  function ChannelRpcEvents(h: Handle, id: nat, m: Remote, reply: Reply): seq<Event> {
    RpcEvents(h, false, m, reply) + [ReleaseChannel(h, id)]
  }

  /** What the library answers while a connection is constructed. */
  datatype Answers = Answers(
    created: bool, socket: bool, connected: Status, handshake: Option<Status>, login: Reply, close: Reply)

  /** The exception that ends the constructor, if any (lines 89-121). */
  function ConstructorFailure(a: Answers): Option<Exception> {
    if !a.created then Some(AllocationException)
    else if !a.socket || a.connected != OK then Some(SocketException)
    else if a.handshake.Some? && a.handshake.value != OK then Some(OperationException(a.handshake.value))
    else ProcessReply(a.login)
  }

  /** Closing and destroying, when the constructor or the program is done with the handle. */
  function CloseEvents(h: Handle, reply: Reply): seq<Event> {
    RpcEvents(h, false, CloseConnection, reply)
  }

  function ConstructorEvents(h: Handle, a: Answers): seq<Event> {
    if !a.created then []
    else if !a.socket then [NewConnection(h), SetUp(h, MAKE_SOCKET), DestroyConnection(h)]
    else if ConstructorFailure(a).Some? then SetUpEvents(h, a) + (CloseEvents(h, a.close) + [DestroyConnection(h)])
    else SetUpEvents(h, a)
  }

  function SetUpEvents(h: Handle, a: Answers): seq<Event> {
    [NewConnection(h), SetUp(h, MAKE_SOCKET), SetUp(h, OPEN_SOCKET)] + LogInEvents(h, a)
  }

  function LogInEvents(h: Handle, a: Answers): seq<Event> {
    (if a.connected == OK && a.handshake.Some? then [SetUp(h, SET_HANDSHAKE_TIMEOUT)] else [])
    + (if a.connected == OK && (a.handshake.None? || a.handshake.value == OK) then [SetUp(h, LOG_IN)] else [])
  }

  /** Which exception ends the constructor, by the library's answers. */
  lemma ConstructorThrowsIff(a: Answers)
    ensures ConstructorFailure(a) == Some(AllocationException) <==> !a.created
    ensures ConstructorFailure(a) == Some(SocketException) <==> a.created && (!a.socket || a.connected != OK)
    ensures forall status :: ConstructorFailure(a) == Some(OperationException(status))
                        <==> a.created && a.socket && a.connected == OK && a.handshake == Some(status) && status != OK
    ensures ConstructorFailure(a) == Some(LibraryException) <==> LogsIn(a) && a.login.LibraryError?
    ensures ConstructorFailure(a) == Some(ConnectionCloseException)
       <==> LogsIn(a) && a.login == ServerError(CONNECTION_CLOSE)
    ensures ConstructorFailure(a) == Some(ChannelCloseException(0))
       <==> LogsIn(a) && a.login == ServerError(CHANNEL_CLOSE)
    ensures ConstructorFailure(a) == Some(RPCException)
       <==> LogsIn(a) && ( || a.login == MissingReply || a.login.UnknownReply?
                           || (a.login.ServerError? && a.login.id.OTHER_METHOD?))
  {
    ReplyThrowsIff(a.login);
  }

  /** The constructor gets as far as logging in. */
  predicate LogsIn(a: Answers) {
    a.created && a.socket && a.connected == OK && (a.handshake == None || a.handshake == Some(OK))
  }

  /**
    A constructor that has a socket and fails closes once, then destroys; one that has
    none only destroys; a successful one does neither.
  */
  lemma ConstructorCleansUp(h: Handle, a: Answers)
    ensures var t := ConstructorEvents(h, a);
            var n := |t|;
            var failed := !(LogsIn(a) && a.login == NormalReply);
            if !a.created then t == []
            else if !a.socket then t == [NewConnection(h), SetUp(h, MAKE_SOCKET), DestroyConnection(h)]
            else if failed then
              && n >= 6
              && t[n - 3..] == [Send(h, CloseConnection), Fetch(h, CloseConnection, a.close), DestroyConnection(h)]
              && forall i :: 0 <= i < n - 3 ==> t[i].NewConnection? || t[i].SetUp?
            else forall i :: 0 <= i < n ==> t[i].NewConnection? || t[i].SetUp?
  {
    PassesIff(a.login);
  }

  /** The stages it goes through. */
  lemma ConstructorStages(h: Handle, a: Answers)
    ensures var t := ConstructorEvents(h, a);
            && (NewConnection(h) in t <==> a.created) && (SetUp(h, MAKE_SOCKET) in t <==> a.created)
            && (SetUp(h, OPEN_SOCKET) in t <==> a.created && a.socket)
            && (SetUp(h, SET_HANDSHAKE_TIMEOUT) in t
                <==> a.created && a.socket && a.connected == OK && a.handshake.Some?)
            && (SetUp(h, LOG_IN) in t <==> LogsIn(a))
  {
    if a.created && a.socket {
      var t := ConstructorEvents(h, a);
      assert SetUpEvents(h, a) <= t;
      assert t[0] == NewConnection(h) && t[1] == SetUp(h, MAKE_SOCKET) && t[2] == SetUp(h, OPEN_SOCKET);
      assert LogInEvents(h, a) != [] ==> t[3] == LogInEvents(h, a)[0];
      assert |LogInEvents(h, a)| > 1 ==> t[4] == LogInEvents(h, a)[1];
    }
  }

  // ---------------------------------------------------------------- the classes

  class Library {
    var trace: seq<Event>
    var handles: nat

    constructor ()
      ensures trace == [] && handles == 0
    {
      trace, handles := [], 0;
    }

    method Log(e: Event)
      modifies `trace
      ensures trace == old(trace) + [e]
    {
      trace := trace + [e];
    }
  }

  class Connection {
    const lib: Library
    var handle: Option<Handle>

    constructor Own(lib: Library, h: Handle)
      ensures this.lib == lib && handle == Some(h)
    {
      this.lib, handle := lib, Some(h);
    }

    /** Moving takes the handle away. */
    constructor Move(other: Connection)
      modifies other
      ensures lib == other.lib && handle == old(other.handle) && other.handle == None
    {
      lib, handle := other.lib, other.handle;
      new;
      other.handle := None;
    }

    /** Lines 568-576; the result is the exception thrown, if any. */
    method Rpc(maybeRelease: bool, m: Remote, reply: Reply) returns (thrown: Option<Exception>)
      requires handle.Some?
      modifies lib`trace
      ensures lib.trace == old(lib.trace) + RpcEvents(handle.value, maybeRelease, m, reply)
      ensures lib.trace == old(lib.trace) + [Send(handle.value, m), Fetch(handle.value, m, reply)]
                         + (if maybeRelease && reply == NormalReply then [Release(handle.value)] else [])
      ensures thrown == ProcessReply(reply)
    {
      var h := handle.value;
      lib.Log(Send(h, m));
      lib.Log(Fetch(h, m, reply));
      thrown := ProcessReply(reply);
      if thrown.None? && maybeRelease {
        lib.Log(Release(h));
      }
    }

    /** Lines 540-548: exceptions are swallowed. */
    method Close(reply: Reply)
      modifies lib`trace
      ensures lib.trace == old(lib.trace) + (if handle.Some? then CloseEvents(handle.value, reply) else [])
    {
      if handle.Some? {
        var _ := Rpc(false, CloseConnection, reply);
      }
    }

    /** The destructor, and after it that of the owning pointer. */
    method Destroy(reply: Reply)
      modifies lib`trace
      ensures lib.trace == old(lib.trace)
           + (if handle.Some? then CloseEvents(handle.value, reply) + [DestroyConnection(handle.value)] else [])
      ensures handle.Some? ==>
                var h := handle.value;
                lib.trace == old(lib.trace)
                   + [Send(h, CloseConnection), Fetch(h, CloseConnection, reply), DestroyConnection(h)]
    {
      Close(reply);
      if handle.Some? {
        lib.Log(DestroyConnection(handle.value));
      }
    }
  }

  /** The main constructor (lines 84-122). A failing constructor leaves no connection, only its trace. */
  method Connect(lib: Library, a: Answers) returns (r: Option<Connection>, thrown: Option<Exception>)
    modifies lib
    ensures lib.trace == old(lib.trace) + ConstructorEvents(old(lib.handles), a)
    ensures lib.handles == old(lib.handles) + 1
    ensures thrown == ConstructorFailure(a)
    ensures r.Some? <==> thrown.None?
    ensures r.Some?
       <==> a.created && a.socket && a.connected == OK && (a.handshake == None || a.handshake == Some(OK))
            && a.login == NormalReply
    ensures r.Some? ==> fresh(r.value) && r.value.lib == lib && r.value.handle == Some(old(lib.handles))
  {
    var h := lib.handles;
    lib.handles := h + 1;
    PassesIff(a.login);
    if !a.created {
      return None, Some(AllocationException);
    }
    r, thrown := SetUpConnection(lib, h, a);
  }

  /** The rest of it, once the library has a connection (lines 92-121). */
  method SetUpConnection(lib: Library, h: Handle, a: Answers) returns (r: Option<Connection>, thrown: Option<Exception>)
    requires a.created
    modifies lib`trace
    ensures lib.trace == old(lib.trace) + ConstructorEvents(h, a)
    ensures thrown == ConstructorFailure(a) && (r.Some? <==> thrown.None?)
    ensures r.Some? ==> fresh(r.value) && r.value.lib == lib && r.value.handle == Some(h)
  {
    lib.Log(NewConnection(h));
    lib.Log(SetUp(h, MAKE_SOCKET));
    if !a.socket {
      lib.Log(DestroyConnection(h));
      return None, Some(SocketException);
    }
    lib.Log(SetUp(h, OPEN_SOCKET));
    thrown := OpenAndLogIn(lib, h, a);
    assert lib.trace == old(lib.trace) + SetUpEvents(h, a);
    var c := new Connection.Own(lib, h);
    if thrown.Some? {
      c.Destroy(a.close);
      return None, thrown;
    }
    return Some(c), None;
  }

  /** Lines 97-117, up to the exception. */
  method OpenAndLogIn(lib: Library, h: Handle, a: Answers) returns (thrown: Option<Exception>)
    requires a.created && a.socket
    modifies lib`trace
    ensures lib.trace == old(lib.trace) + LogInEvents(h, a)
    ensures thrown == ConstructorFailure(a)
  {
    if a.connected != OK {
      return Some(SocketException);
    }
    if a.handshake.Some? {
      lib.Log(SetUp(h, SET_HANDSHAKE_TIMEOUT));
      if a.handshake.value != OK {
        return Some(OperationException(a.handshake.value));
      }
    }
    lib.Log(SetUp(h, LOG_IN));
    return ProcessReply(a.login);
  }

  class Channel {
    const connection: Connection
    const id: nat
    var moved: bool

    /** The construction proper; `OpenChannelOn` makes the remote call. */
    constructor Own(connection: Connection, id: nat)
      ensures this.connection == connection && this.id == id && !moved
    {
      this.connection, this.id, moved := connection, id, false;
    }

    constructor Move(other: Channel)
      modifies other
      ensures connection == other.connection && id == other.id && !moved && other.moved
    {
      connection, id, moved := other.connection, other.id, false;
      new;
      other.moved := true;
    }

    method Rpc(m: Remote, reply: Reply) returns (thrown: Option<Exception>)
      requires connection.handle.Some?
      modifies connection.lib`trace
      ensures connection.lib.trace
           == old(connection.lib.trace) + ChannelRpcEvents(connection.handle.value, id, m, reply)
      ensures var h := connection.handle.value;
              connection.lib.trace
              == old(connection.lib.trace) + [Send(h, m), Fetch(h, m, reply), ReleaseChannel(h, id)]
      ensures thrown == ProcessReply(reply)
    {
      thrown := connection.Rpc(false, m, reply);
      connection.lib.Log(ReleaseChannel(connection.handle.value, id));
    }

    /** Channel.hpp:62-71: exceptions are swallowed. */
    method Destroy(reply: Reply)
      requires !moved ==> connection.handle.Some?
      modifies connection.lib`trace
      ensures connection.lib.trace == old(connection.lib.trace)
           + (if moved then [] else RpcEvents(connection.handle.value, true, CloseChannel(id), reply))
      ensures !moved ==>
                var h := connection.handle.value;
                connection.lib.trace
                == old(connection.lib.trace) + [Send(h, CloseChannel(id)), Fetch(h, CloseChannel(id), reply)]
                   + (if reply == NormalReply then [Release(h)] else [])
    {
      if !moved {
        var _ := connection.Rpc(true, CloseChannel(id), reply);
      }
    }
  }

  /** Channel.hpp:51-57: a failing open leaves no channel. */
  method OpenChannelOn(c: Connection, id: nat, reply: Reply) returns (r: Option<Channel>, thrown: Option<Exception>)
    requires c.handle.Some?
    modifies c.lib`trace
    ensures c.lib.trace == old(c.lib.trace) + RpcEvents(c.handle.value, true, OpenChannel(id), reply)
    ensures var h := c.handle.value;
            c.lib.trace == old(c.lib.trace) + [Send(h, OpenChannel(id)), Fetch(h, OpenChannel(id), reply)]
                         + (if reply == NormalReply then [Release(h)] else [])
    ensures r.Some? <==> reply == NormalReply
    ensures thrown == ProcessReply(reply) && (r.Some? <==> thrown.None?)
    ensures r.Some? ==> fresh(r.value) && r.value.connection == c && r.value.id == id && !r.value.moved
  {
    thrown := c.Rpc(true, OpenChannel(id), reply);
    if thrown.Some? {
      return None, thrown;
    }
    var ch := new Channel.Own(c, id);
    return Some(ch), None;
  }

  // ---------------------------------------------------------------- programs

  /** Objects in scope, innermost last; a channel refers to its connection by position. */
  datatype Object = Conn(handle: Option<Handle>) | Chan(connection: nat, id: nat, moved: bool)

  datatype World = World(stack: seq<Object>, handles: nat, trace: seq<Event>)

  datatype Op =
    | DoConnect(answers: Answers)
    | DoOpenChannel(connection: nat, id: nat, reply: Reply)
    | DoMoveConnection(connection: nat)
    | DoMoveChannel(channel: nat)
    | DoConnectionRpc(connection: nat, release: bool, name: nat, reply: Reply)
    | DoChannelRpc(channel: nat, name: nat, reply: Reply)
    | DoLeave(reply: Reply)                        // the innermost object goes out of scope

  ghost predicate IsOwner(w: World, i: nat) {
    i < |w.stack| && w.stack[i].Conn? && w.stack[i].handle.Some?
  }

  ghost predicate IsOpen(w: World, i: nat) {
    i < |w.stack| && w.stack[i].Chan? && !w.stack[i].moved && IsOwner(w, w.stack[i].connection)
  }

  ghost predicate Enabled(w: World, op: Op) {
    match op
    case DoConnect(_) => true
    case DoOpenChannel(c, _, _) => IsOwner(w, c)
    case DoMoveConnection(c) =>
      && IsOwner(w, c)
      && forall j :: 0 <= j < |w.stack| && w.stack[j].Chan? && !w.stack[j].moved ==> w.stack[j].connection != c
    case DoMoveChannel(c) => IsOpen(w, c)
    case DoConnectionRpc(c, _, _, _) => IsOwner(w, c)
    case DoChannelRpc(c, _, _) => IsOpen(w, c)
    case DoLeave(_) =>
      var n := |w.stack| - 1;
      n >= 0 && (w.stack[n].Chan? && !w.stack[n].moved ==> IsOpen(w, n))
  }

  function HandleOf(w: World, i: nat): Handle
    requires IsOwner(w, i)
  {
    w.stack[i].handle.value
  }

  /** What going out of scope does. */
  ghost function LeaveEvents(w: World, reply: Reply): seq<Event>
    requires Enabled(w, DoLeave(reply))
  {
    match w.stack[|w.stack| - 1]
    case Conn(None) => []
    case Conn(Some(h)) => CloseEvents(h, reply) + [DestroyConnection(h)]
    case Chan(c, id, moved) => if moved then [] else RpcEvents(HandleOf(w, c), true, CloseChannel(id), reply)
  }

  ghost function Step(w: World, op: Op): World
    requires Enabled(w, op)
  {
    match op
    case DoConnect(a) =>
      World(if ConstructorFailure(a).None? then w.stack + [Conn(Some(w.handles))] else w.stack,
            w.handles + 1, w.trace + ConstructorEvents(w.handles, a))
    case DoOpenChannel(c, id, reply) =>
      World(if ProcessReply(reply).None? then w.stack + [Chan(c, id, false)] else w.stack,
            w.handles, w.trace + RpcEvents(HandleOf(w, c), true, OpenChannel(id), reply))
    case DoMoveConnection(c) =>
      World(w.stack[c := Conn(None)] + [w.stack[c]], w.handles, w.trace)
    case DoMoveChannel(c) =>
      World(w.stack[c := w.stack[c].(moved := true)] + [w.stack[c]], w.handles, w.trace)
    case DoConnectionRpc(c, release, name, reply) =>
      World(w.stack, w.handles, w.trace + RpcEvents(HandleOf(w, c), release, OtherRemote(name), reply))
    case DoChannelRpc(c, name, reply) =>
      var ch := w.stack[c];
      World(w.stack, w.handles, w.trace + ChannelRpcEvents(HandleOf(w, ch.connection), ch.id, OtherRemote(name), reply))
    case DoLeave(reply) =>
      World(w.stack[..|w.stack| - 1], w.handles, w.trace + LeaveEvents(w, reply))
  }

  const START := World([], 0, [])

  ghost predicate Runs(w: World, ops: seq<Op>, w': World)
    decreases |ops|
  {
    if ops == [] then w == w' else Enabled(w, ops[0]) && Runs(Step(w, ops[0]), ops[1..], w')
  }
}
