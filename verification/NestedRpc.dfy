/**
  Remote calls whose callables do what they like
  (include/rmqcxx/Connection.hpp:567-576, Channel.hpp:247-253, util.hpp:130-133):
  send any number of times, make remote calls of their own before, between and
  after, catch the exceptions of those, and throw.

  `rpc` creates its deferred function before it runs the callable. However the
  callable ends, the deferred function fetches one reply; if that reply is
  abnormal it throws, and if another exception is on its way by then, that ends
  the program.
*/
module NestedRpc {
  import opened Replies

  datatype Target = OnConnection(release: bool) | OnChannel(id: nat)

  /** The callable does `body`, in order; `reply` is what the deferred function fetches. */
  datatype Rpc = Rpc(target: Target, body: seq<Action>, reply: Reply)

  /** One thing a callable does. An exception it does not catch keeps it from doing the rest. */
  datatype Action =
    | SendRemote(name: nat)
    | Nested(call: Rpc, caught: bool)
    | Throw

  datatype Result = Done | Raised(exception: Exception) | Terminated

  /** A call is known by its place: which action of which action ... of the outermost it is. */
  type Place = seq<nat>

  datatype Event =
    | Send(call: Place, name: nat)
    | Fetch(call: Place, reply: Reply)
    | Release(call: Place)
    | ReleaseChannel(call: Place, id: nat)

  // ---------------------------------------------------------------- what happens

  /** How a call ends. */
  function End(c: Rpc): Result
    decreases c, 1
  {
    var r := EndOf(c.body);
    match r
    case Terminated => Terminated
    case Done => if ProcessReply(c.reply).Some? then Raised(ProcessReply(c.reply).value) else Done
    case Raised(_) => if ProcessReply(c.reply).Some? then Terminated else r
  }

  /** How a sequence of actions ends: with its last, unless one before was not the end of its exception. */
  function EndOf(actions: seq<Action>): Result
    decreases actions, 0
  {
    if actions == [] then Done
    else
      var r := EndOf(actions[..|actions| - 1]);
      if r != Done then r else EndOfAction(actions[|actions| - 1])
  }

  function EndOfAction(a: Action): Result
    decreases a, 2
  {
    match a
    case SendRemote(_) => Done
    case Nested(call, caught) => if caught && End(call).Raised? then Done else End(call)
    case Throw => Raised(UserException)
  }

  /** The deferred functions: of the connection's `rpc`, then of the channel's. */
  function DeferredEvents(place: Place, target: Target, reply: Reply): seq<Event> {
    [Fetch(place, reply)] + ReleaseEvents(place, target, reply)
  }

  function ReleaseEvents(place: Place, target: Target, reply: Reply): seq<Event> {
    match target
    case OnConnection(release) => if release && ProcessReply(reply).None? then [Release(place)] else []
    case OnChannel(id) => [ReleaseChannel(place, id)]
  }

  /** What the library sees of a call. A program that ends runs no more deferred functions, nor the rest of this one. */
  function Events(place: Place, c: Rpc): seq<Event>
    decreases c, 1
  {
    EventsOf(place, c.body)
    + if EndOf(c.body) == Terminated then []
      else if End(c) == Terminated then [Fetch(place, c.reply)]
      else DeferredEvents(place, c.target, c.reply)
  }

  function EventsOf(place: Place, actions: seq<Action>): seq<Event>
    decreases actions, 0
  {
    if actions == [] then []
    else
      var n := |actions| - 1;
      EventsOf(place, actions[..n])
      + if EndOf(actions[..n]) != Done then [] else EventsOfAction(place, n, actions[n])
  }

  function EventsOfAction(place: Place, n: nat, a: Action): seq<Event>
    decreases a, 2
  {
    match a
    case SendRemote(name) => [Send(place, name)]
    case Nested(call, _) => Events(place + [n], call)
    case Throw => []
  }

  /** The last action happens when those before went well. */
  lemma OneMore(place: Place, actions: seq<Action>, a: Action)
    requires EndOf(actions) == Done
    ensures EndOf(actions + [a]) == EndOfAction(a)
    ensures EventsOf(place, actions + [a]) == EventsOf(place, actions) + EventsOfAction(place, |actions|, a)
  {
    assert (actions + [a])[..|actions|] == actions;
  }

  // ---------------------------------------------------------------- the code

  class Library {
    var trace: seq<Event>

    constructor ()
      ensures trace == []
    {
      trace := [];
    }

    method Log(e: Event)
      modifies this
      ensures trace == old(trace) + [e]
    {
      trace := trace + [e];
    }
  }

  /** `rpc`, of a connection or a channel. */
  method Perform(lib: Library, place: Place, c: Rpc) returns (r: Result)
    modifies lib
    ensures lib.trace == old(lib.trace) + Events(place, c) && r == End(c)
    decreases c, 1
  {
    r := PerformBody(lib, place, c.body);
    if r == Terminated {
      return;
    }
    lib.Log(Fetch(place, c.reply));
    var failure := ProcessReply(c.reply);
    if failure.Some? {
      if r.Raised? {
        return Terminated;
      }
      r := Raised(failure.value);
    } else if c.target.OnConnection? && c.target.release {
      lib.Log(Release(place));
    }
    if c.target.OnChannel? {
      lib.Log(ReleaseChannel(place, c.target.id));
    }
  }

  /** The callable. */
  method PerformBody(lib: Library, place: Place, actions: seq<Action>) returns (r: Result)
    modifies lib
    ensures lib.trace == old(lib.trace) + EventsOf(place, actions) && r == EndOf(actions)
    decreases actions, 0
  {
    r := Done;
    var i := 0;
    while i < |actions| && r == Done
      invariant 0 <= i <= |actions|
      invariant lib.trace == old(lib.trace) + EventsOf(place, actions[..i]) && r == EndOf(actions[..i])
    {
      r := PerformAction(lib, place, i, actions[i]);
      LongerPrefix(place, actions, i, old(lib.trace));
      i := i + 1;
    }
    StopsWhenNotDone(place, actions, i);
  }

  lemma LongerPrefix(place: Place, actions: seq<Action>, i: nat, t: seq<Event>)
    requires i < |actions| && EndOf(actions[..i]) == Done
    ensures EndOf(actions[..i + 1]) == EndOfAction(actions[i])
    ensures t + EventsOf(place, actions[..i + 1])
         == (t + EventsOf(place, actions[..i])) + EventsOfAction(place, i, actions[i])
  {
    OneMore(place, actions[..i], actions[i]);
    assert actions[..i + 1] == actions[..i] + [actions[i]];
  }

  method PerformAction(lib: Library, place: Place, n: nat, a: Action) returns (r: Result)
    modifies lib
    ensures lib.trace == old(lib.trace) + EventsOfAction(place, n, a) && r == EndOfAction(a)
    decreases a, 2
  {
    match a {
      case SendRemote(name) =>
        lib.Log(Send(place, name));
        r := Done;
      case Nested(call, caught) =>
        r := Perform(lib, place + [n], call);
        if caught && r.Raised? {
          r := Done;
        }
      case Throw => r := Raised(UserException);
    }
  }

  lemma {:induction false} StopsWhenNotDone(place: Place, actions: seq<Action>, i: nat)
    requires i <= |actions| && (i == |actions| || EndOf(actions[..i]) != Done)
    ensures EndOf(actions) == EndOf(actions[..i]) && EventsOf(place, actions) == EventsOf(place, actions[..i])
  {
    if i < |actions| {
      assert actions[..|actions| - 1][..i] == actions[..i];
      StopsWhenNotDone(place, actions[..|actions| - 1], i);
    } else {
      assert actions[..i] == actions;
    }
  }

  // ---------------------------------------------------------------- calls and replies

  /** Each sending is followed at once by the fetching of its own call's reply. */
  ghost predicate Answered(t: seq<Event>) {
    forall i :: 0 <= i < |t| && t[i].Send? ==> i + 1 < |t| && t[i + 1].Fetch? && t[i + 1].call == t[i].call
  }

  /** The same, but that the last event may be a sending whose reply is yet to be fetched. */
  ghost predicate AnsweredSoFar(t: seq<Event>) {
    forall i :: 0 <= i < |t| - 1 ==> AnsweredAt(t, i)
  }

  ghost predicate AnsweredAt(t: seq<Event>, i: nat)
    requires i < |t| - 1
  {
    t[i].Send? ==> t[i + 1].Fetch? && t[i + 1].call == t[i].call
  }

  ghost predicate EndsSending(t: seq<Event>) {
    t != [] && t[|t| - 1].Send?
  }

  /**
    Every callable that gets to run, at any depth, sends last: once it has sent it
    neither sends again nor makes a nested call. It may still throw.
  */
  ghost predicate SendsLast(c: Rpc)
    decreases c, 1
  {
    SendsLastIn(c.body)
  }

  ghost predicate SendsLastIn(actions: seq<Action>)
    decreases actions, 0
  {
    actions == [] ||
    var n := |actions| - 1;
    && SendsLastIn(actions[..n])
    && (EndOf(actions[..n]) == Done ==> (actions[n].Throw? || !Sends(actions[..n])) && SendsLastWithin(actions[n]))
  }

  ghost predicate SendsLastWithin(a: Action)
    decreases a, 2
  {
    a.Nested? ==> SendsLast(a.call)
  }

  ghost predicate Sends(actions: seq<Action>) {
    exists i :: 0 <= i < |actions| && actions[i].SendRemote?
  }

  lemma AnsweredAppend(a: seq<Event>, b: seq<Event>)
    requires b != []
    ensures AnsweredSoFar(a + b) <==>
            && AnsweredSoFar(a) && AnsweredSoFar(b)
            && (EndsSending(a) ==> b[0].Fetch? && b[0].call == a[|a| - 1].call)
  {
    var t := a + b;
    if AnsweredSoFar(t) {
      forall i | 0 <= i < |b| - 1 ensures AnsweredAt(b, i) {
        assert AnsweredAt(t, |a| + i);
      }
      forall i | 0 <= i < |a| - 1 ensures AnsweredAt(a, i) {
        assert AnsweredAt(t, i);
      }
      assert a != [] ==> AnsweredAt(t, |a| - 1);
    } else {
      var i :| 0 <= i < |t| - 1 && !AnsweredAt(t, i);
      assert i < |a| - 1 ==> !AnsweredAt(a, i);
      assert i >= |a| ==> !AnsweredAt(b, i - |a|);
    }
  }

  /** A call's events begin within the call, never with the end of another. */
  lemma {:induction false} EventsWithin(place: Place, c: Rpc)
    ensures Events(place, c) != [] && !EndsSending(Events(place, c))
    ensures place <= Events(place, c)[0].call
    decreases c, 1
  {
    EventsOfWithin(place, c.body);
  }

  lemma {:induction false} EventsOfWithin(place: Place, actions: seq<Action>)
    ensures EventsOf(place, actions) != [] ==> place <= EventsOf(place, actions)[0].call
    ensures EndOf(actions) == Terminated ==> EventsOf(place, actions) != [] && !EndsSending(EventsOf(place, actions))
    decreases actions, 0
  {
    if actions != [] {
      var n := |actions| - 1;
      EventsOfWithin(place, actions[..n]);
      var before, last := EventsOf(place, actions[..n]), EventsOfAction(place, n, actions[n]);
      assert before + [] == before;
      if EndOf(actions[..n]) == Done {
        ActionWithin(place, n, actions[n]);
        assert EndOf(actions) == EndOfAction(actions[n]) && EventsOf(place, actions) == before + last;
      }
    }
  }

  lemma {:induction false} ActionWithin(place: Place, n: nat, a: Action)
    ensures EventsOfAction(place, n, a) != [] ==> place <= EventsOfAction(place, n, a)[0].call
    ensures a.Nested? ==> EventsOfAction(place, n, a) != [] && !EndsSending(EventsOfAction(place, n, a))
    ensures a.Nested? ==> place + [n] <= EventsOfAction(place, n, a)[0].call
    ensures EndOfAction(a) == Terminated ==> a.Nested?
    decreases a, 2
  {
    if a.Nested? {
      EventsWithin(place + [n], a.call);
    }
  }

  /** While nothing is thrown, the events end with a sending exactly when the actions do. */
  lemma SendingsSoFar(place: Place, actions: seq<Action>)
    requires EndOf(actions) == Done && SendsLastIn(actions)
    ensures EndsSending(EventsOf(place, actions)) <==> Sends(actions)
  {
    if actions != [] {
      var n := |actions| - 1;
      assert Sends(actions) <==> Sends(actions[..n]) || actions[n].SendRemote?;
      ActionWithin(place, n, actions[n]);
    }
  }

  /** A sending not answered yet is the callable's own. */
  lemma {:induction false} SendingIsOwn(place: Place, actions: seq<Action>)
    ensures EndsSending(EventsOf(place, actions)) ==>
              EventsOf(place, actions)[|EventsOf(place, actions)| - 1].call == place
  {
    if actions != [] {
      var n := |actions| - 1;
      SendingIsOwn(place, actions[..n]);
      ActionWithin(place, n, actions[n]);
    }
  }

  lemma {:induction false} BodyAnsweredIff(place: Place, actions: seq<Action>)
    ensures AnsweredSoFar(EventsOf(place, actions)) <==> SendsLastIn(actions)
    decreases actions, 0
  {
    if actions != [] {
      var n := |actions| - 1;
      BodyAnsweredIff(place, actions[..n]);
      if EndOf(actions[..n]) == Done {
        ActionAnsweredIff(place, n, actions[n]);
        LastAnsweredIff(place, actions[..n], actions[n]);
      } else {
        assert EventsOf(place, actions) == EventsOf(place, actions[..n]);
      }
    }
  }

  /** One more action, after some that went well. */
  lemma LastAnsweredIff(place: Place, actions: seq<Action>, a: Action)
    requires EndOf(actions) == Done
    requires AnsweredSoFar(EventsOf(place, actions)) <==> SendsLastIn(actions)
    requires AnsweredSoFar(EventsOfAction(place, |actions|, a)) <==> SendsLastWithin(a)
    ensures AnsweredSoFar(EventsOf(place, actions) + EventsOfAction(place, |actions|, a))
       <==> SendsLastIn(actions) && (a.Throw? || !Sends(actions)) && SendsLastWithin(a)
  {
    var before, last := EventsOf(place, actions), EventsOfAction(place, |actions|, a);
    if a.Throw? {
      assert before + last == before;
    } else {
      SendingIsOwn(place, actions);
      ActionWithin(place, |actions|, a);
      if SendsLastIn(actions) {
        SendingsSoFar(place, actions);
      }
      assert last != [] && !(last[0].Fetch? && last[0].call == place) by {
        FirstIsNoFetch(place, |actions|, a);
      }
      AnsweredAppend(before, last);
    }
  }

  lemma FirstIsNoFetch(place: Place, n: nat, a: Action)
    requires !a.Throw?
    ensures var t := EventsOfAction(place, n, a);
            t != [] && !(t[0].Fetch? && t[0].call == place)
  {
    ActionWithin(place, n, a);
    assert |place + [n]| > |place|;
  }

  lemma {:induction false} ActionAnsweredIff(place: Place, n: nat, a: Action)
    ensures AnsweredSoFar(EventsOfAction(place, n, a)) <==> SendsLastWithin(a)
    decreases a, 2
  {
    if a.Nested? {
      CallAnsweredIff(place + [n], a.call);
    }
  }

  lemma {:induction false} CallAnsweredIff(place: Place, c: Rpc)
    ensures AnsweredSoFar(Events(place, c)) <==> SendsLast(c)
    decreases c, 1
  {
    var body := EventsOf(place, c.body);
    BodyAnsweredIff(place, c.body);
    SendingIsOwn(place, c.body);
    if EndOf(c.body) == Terminated {
      assert Events(place, c) == body;
    } else {
      var rest := if End(c) == Terminated then [Fetch(place, c.reply)] else DeferredEvents(place, c.target, c.reply);
      assert Events(place, c) == body + rest;
      AnsweredAppend(body, rest);
    }
  }

  /**
    However calls nest: each sending is followed at once by the fetching of its own
    reply if and only if every callable that gets to run sends last.
  */
  lemma NestedCallsAreAnsweredIff(place: Place, c: Rpc)
    ensures Answered(Events(place, c)) <==> SendsLast(c)
  {
    CallAnsweredIff(place, c);
    EventsWithin(place, c);
    var t := Events(place, c);
    if AnsweredSoFar(t) {
      assert forall i :: 0 <= i < |t| && t[i].Send? ==> i < |t| - 1 && AnsweredAt(t, i);
    }
  }

  const INNER := Rpc(OnChannel(5), [SendRemote(1)], NormalReply)
  const OUTER := Rpc(OnConnection(false), [SendRemote(0), Nested(INNER, false)], NormalReply)

  /**
    A callable that sends, then makes a call of its own: the first sending is followed
    by the second, all replies normal.
  */
  lemma NestingAfterSendingIsNotAnswered()
    ensures Events([], OUTER)
         == [Send([], 0), Send([1], 1), Fetch([1], NormalReply), ReleaseChannel([1], 5), Fetch([], NormalReply)]
    ensures End(OUTER) == Done && !Answered(Events([], OUTER))
  {
    var top: Place := [];
    assert top + [1] == [1];
    OneMore([1], [], SendRemote(1));
    OneMore(top, [], SendRemote(0));
    OneMore(top, [SendRemote(0)], Nested(INNER, false));
    assert [] + [SendRemote(1)] == [SendRemote(1)] && [] + [SendRemote(0)] == [SendRemote(0)];
    assert [SendRemote(0)] + [Nested(INNER, false)] == OUTER.body;
    assert Events([1], INNER) == [Send([1], 1), Fetch([1], NormalReply), ReleaseChannel([1], 5)];
    var t := Events(top, OUTER);
    assert t[0].Send? && t[1].Send?;
  }

  // ---------------------------------------------------------------- how a call ends

  /** Replies fetched that `processReply` throws on. */
  ghost function Abnormal(t: seq<Event>): nat {
    if t == [] then 0
    else Abnormal(t[..|t| - 1]) + if t[|t| - 1].Fetch? && ProcessReply(t[|t| - 1].reply).Some? then 1 else 0
  }

  lemma {:induction false} AbnormalAppend(a: seq<Event>, b: seq<Event>)
    ensures Abnormal(a + b) == Abnormal(a) + Abnormal(b)
    decreases |b|
  {
    if b == [] {
      assert a + b == a;
    } else {
      assert (a + b)[..|a + b| - 1] == a + b[..|b| - 1];
      AbnormalAppend(a, b[..|b| - 1]);
    }
  }

  lemma AbnormalOne(e: Event)
    ensures Abnormal([e]) == if e.Fetch? && ProcessReply(e.reply).Some? then 1 else 0
  {
    assert [e][..0] == [];
  }

  lemma AbnormalDeferred(place: Place, target: Target, reply: Reply)
    ensures Abnormal(DeferredEvents(place, target, reply)) == if ProcessReply(reply).Some? then 1 else 0
  {
    AbnormalAppend([Fetch(place, reply)], ReleaseEvents(place, target, reply));
    AbnormalOne(Fetch(place, reply));
    match target
    case OnConnection(_) => AbnormalOne(Release(place));
    case OnChannel(id) => AbnormalOne(ReleaseChannel(place, id));
  }

  /** Exceptions that callables threw themselves, at any depth. */
  ghost function Thrown(c: Rpc): nat
    decreases c, 1
  {
    ThrownIn(c.body)
  }

  ghost function ThrownIn(actions: seq<Action>): nat
    decreases actions, 0
  {
    if actions == [] then 0
    else
      var n := |actions| - 1;
      ThrownIn(actions[..n]) + if EndOf(actions[..n]) == Done then ThrownBy(actions[n]) else 0
  }

  ghost function ThrownBy(a: Action): nat
    decreases a, 2
  {
    match a
    case SendRemote(_) => 0
    case Nested(call, _) => Thrown(call)
    case Throw => 1
  }

  /** Exceptions of nested calls that callables caught, at any depth. */
  ghost function Caught(c: Rpc): nat
    decreases c, 1
  {
    CaughtIn(c.body)
  }

  ghost function CaughtIn(actions: seq<Action>): nat
    decreases actions, 0
  {
    if actions == [] then 0
    else
      var n := |actions| - 1;
      CaughtIn(actions[..n]) + if EndOf(actions[..n]) == Done then CaughtBy(actions[n]) else 0
  }

  ghost function CaughtBy(a: Action): nat
    decreases a, 2
  {
    match a
    case Nested(call, caught) => Caught(call) + if caught && End(call).Raised? then 1 else 0
    case _ => 0
  }

  function Weight(r: Result): nat {
    match r
    case Done => 0
    case Raised(_) => 1
    case Terminated => 2
  }

  /**
    However calls nest, the abnormal replies fetched and the exceptions callables
    throw, less those they catch, decide how the outermost call ends: none is left,
    it returns; one, it throws; two, the program ends. And never more than two.
  */
  lemma {:induction false} UncaughtFailuresDecide(place: Place, c: Rpc)
    ensures Abnormal(Events(place, c)) + Thrown(c) == Caught(c) + Weight(End(c))
    decreases c, 1
  {
    BodyDecides(place, c.body);
    var body := EventsOf(place, c.body);
    if EndOf(c.body) == Terminated {
      assert Events(place, c) == body;
    } else if End(c) == Terminated {
      AbnormalAppend(body, [Fetch(place, c.reply)]);
      AbnormalOne(Fetch(place, c.reply));
    } else {
      AbnormalAppend(body, DeferredEvents(place, c.target, c.reply));
      AbnormalDeferred(place, c.target, c.reply);
    }
  }

  lemma {:induction false} BodyDecides(place: Place, actions: seq<Action>)
    ensures Abnormal(EventsOf(place, actions)) + ThrownIn(actions) == CaughtIn(actions) + Weight(EndOf(actions))
    decreases actions, 0
  {
    if actions != [] {
      var n := |actions| - 1;
      var before := EventsOf(place, actions[..n]);
      BodyDecides(place, actions[..n]);
      assert before + [] == before;
      if EndOf(actions[..n]) == Done {
        ActionDecides(place, n, actions[n]);
        AbnormalAppend(before, EventsOfAction(place, n, actions[n]));
      }
    }
  }

  lemma {:induction false} ActionDecides(place: Place, n: nat, a: Action)
    ensures Abnormal(EventsOfAction(place, n, a)) + ThrownBy(a) == CaughtBy(a) + Weight(EndOfAction(a))
    decreases a, 2
  {
    match a
    case SendRemote(name) => AbnormalOne(Send(place, name));
    case Nested(call, _) => UncaughtFailuresDecide(place + [n], call);
    case Throw =>
  }

  /** A callable that only sends never ends the program, whatever the reply. */
  lemma {:induction false} SendingNeverTerminates(c: Rpc)
    requires forall i :: 0 <= i < |c.body| ==> c.body[i].SendRemote?
    ensures End(c) != Terminated
  {
    SendingIsDone(c.body);
  }

  lemma {:induction false} SendingIsDone(actions: seq<Action>)
    requires forall i :: 0 <= i < |actions| ==> actions[i].SendRemote?
    ensures EndOf(actions) == Done
  {
    if actions != [] {
      SendingIsDone(actions[..|actions| - 1]);
    }
  }

  /** The callable ends in an exception and the call's own reply is abnormal as well. */
  predicate FailsTwice(c: Rpc) {
    EndOf(c.body).Raised? && ProcessReply(c.reply).Some?
  }

  /** Some call that gets to begin, at any depth, does. */
  ghost predicate SomeFailsTwice(c: Rpc)
    decreases c, 1
  {
    FailsTwice(c) || SomeFailsTwiceIn(c.body)
  }

  ghost predicate SomeFailsTwiceIn(actions: seq<Action>)
    decreases actions, 0
  {
    actions != [] &&
    var n := |actions| - 1;
    SomeFailsTwiceIn(actions[..n]) || (EndOf(actions[..n]) == Done && SomeFailsTwiceBy(actions[n]))
  }

  ghost predicate SomeFailsTwiceBy(a: Action)
    decreases a, 2
  {
    a.Nested? && SomeFailsTwice(a.call)
  }

  /** A call ends the program if and only if it, or one it makes, fails twice; catching does not help. */
  lemma {:induction false} TerminatesIff(c: Rpc)
    ensures End(c) == Terminated <==> SomeFailsTwice(c)
    decreases c, 1
  {
    BodyTerminatesIff(c.body);
  }

  lemma {:induction false} BodyTerminatesIff(actions: seq<Action>)
    ensures EndOf(actions) == Terminated <==> SomeFailsTwiceIn(actions)
    decreases actions, 0
  {
    if actions != [] {
      BodyTerminatesIff(actions[..|actions| - 1]);
      ActionTerminatesIff(actions[|actions| - 1]);
    }
  }

  lemma {:induction false} ActionTerminatesIff(a: Action)
    ensures EndOfAction(a) == Terminated <==> SomeFailsTwiceBy(a)
    decreases a, 2
  {
    if a.Nested? {
      TerminatesIff(a.call);
    }
  }

  const THROWING := Rpc(OnConnection(false), [Throw], MissingReply)

  /** A callable that throws, and a missing reply. */
  lemma ThrowingCanTerminate()
    ensures End(THROWING) == Terminated
  {
    var none: seq<Action> := [];
    assert EndOf(none) == Done;
    assert none + [Throw] == THROWING.body;
    OneMore([], none, Throw);
  }

  // ---------------------------------------------------------------- releases

  /** What a count is about: releases of a channel's buffers, or of the connection's, or the fetching of replies. */
  datatype Pool = ChannelPool(id: nat) | ConnectionPool | ReplyPool

  predicate IsRelease(e: Event, p: Pool) {
    match p
    case ChannelPool(id) => e.ReleaseChannel? && e.id == id
    case ConnectionPool => e.Release?
    case ReplyPool => e.Fetch?
  }

  ghost function Releases(t: seq<Event>, p: Pool): nat {
    if t == [] then 0 else Releases(t[..|t| - 1], p) + if IsRelease(t[|t| - 1], p) then 1 else 0
  }

  /**
    Does a call owe the pool one? On a channel always; on the connection if it asked for
    one and its reply is normal; and every call owes the fetching of its reply.
  */
  predicate Owes(c: Rpc, p: Pool) {
    match p
    case ChannelPool(id) => c.target == OnChannel(id)
    case ConnectionPool => c.target.OnConnection? && c.target.release && ProcessReply(c.reply).None?
    case ReplyPool => true
  }

  /** The calls that owe the pool one, among those begun, at any depth. */
  ghost function Owing(c: Rpc, p: Pool): nat
    decreases c, 1
  {
    OwingIn(c.body, p) + if Owes(c, p) then 1 else 0
  }

  ghost function OwingIn(actions: seq<Action>, p: Pool): nat
    decreases actions, 0
  {
    if actions == [] then 0
    else
      var n := |actions| - 1;
      OwingIn(actions[..n], p) + if EndOf(actions[..n]) == Done then OwingBy(actions[n], p) else 0
  }

  ghost function OwingBy(a: Action, p: Pool): nat
    decreases a, 2
  {
    if a.Nested? then Owing(a.call, p) else 0
  }

  lemma {:induction false} ReleasesAppend(a: seq<Event>, b: seq<Event>, p: Pool)
    ensures Releases(a + b, p) == Releases(a, p) + Releases(b, p)
    decreases |b|
  {
    if b == [] {
      assert a + b == a;
    } else {
      assert (a + b)[..|a + b| - 1] == a + b[..|b| - 1];
      ReleasesAppend(a, b[..|b| - 1], p);
    }
  }

  lemma ReleasesOne(e: Event, p: Pool)
    ensures Releases([e], p) == if IsRelease(e, p) then 1 else 0
  {
    assert [e][..0] == [];
  }

  lemma DeferredReleases(place: Place, c: Rpc, p: Pool)
    ensures Releases(DeferredEvents(place, c.target, c.reply), p) == if Owes(c, p) then 1 else 0
  {
    ReleasesAppend([Fetch(place, c.reply)], ReleaseEvents(place, c.target, c.reply), p);
    ReleasesOne(Fetch(place, c.reply), p);
    match c.target
    case OnConnection(_) => ReleasesOne(Release(place), p);
    case OnChannel(id) => ReleasesOne(ReleaseChannel(place, id), p);
  }

  /**
    Unless the program ends, replies and callables thrown or not: every call begun, at
    any depth, fetches one reply; on a channel it releases there exactly once; and on
    the connection exactly when it asked for that and its own reply is normal.
  */
  lemma {:induction false} CallsRelease(place: Place, c: Rpc, p: Pool)
    requires End(c) != Terminated
    ensures Releases(Events(place, c), p) == Owing(c, p)
    decreases c, 1
  {
    BodyReleases(place, c.body, p);
    ReleasesAppend(EventsOf(place, c.body), DeferredEvents(place, c.target, c.reply), p);
    DeferredReleases(place, c, p);
  }

  lemma {:induction false} BodyReleases(place: Place, actions: seq<Action>, p: Pool)
    requires EndOf(actions) != Terminated
    ensures Releases(EventsOf(place, actions), p) == OwingIn(actions, p)
    decreases actions, 0
  {
    if actions != [] {
      var n := |actions| - 1;
      var before := EventsOf(place, actions[..n]);
      BodyReleases(place, actions[..n], p);
      assert before + [] == before;
      if EndOf(actions[..n]) == Done {
        ActionReleases(place, n, actions[n], p);
        ReleasesAppend(before, EventsOfAction(place, n, actions[n]), p);
      }
    }
  }

  lemma {:induction false} ActionReleases(place: Place, n: nat, a: Action, p: Pool)
    requires EndOfAction(a) != Terminated
    ensures Releases(EventsOfAction(place, n, a), p) == OwingBy(a, p)
    decreases a, 2
  {
    match a
    case SendRemote(name) => ReleasesOne(Send(place, name), p);
    case Nested(call, _) => CallsRelease(place + [n], call, p);
    case Throw =>
  }

  // ---------------------------------------------------------------- the place of releases

  predicate IsAnyRelease(e: Event) {
    e.Release? || e.ReleaseChannel?
  }

  /** The events are of calls made within `place`, or of the call there. */
  ghost predicate Within(t: seq<Event>, place: Place) {
    forall i :: 0 <= i < |t| ==> place <= t[i].call
  }

  /** The events are of calls made within `place` as action `n`. */
  ghost predicate WithinAction(t: seq<Event>, place: Place, n: nat) {
    forall i :: 0 <= i < |t| ==> place <= t[i].call && |t[i].call| > |place| && t[i].call[|place|] == n
  }

  /** The releases are of calls made within `place` as actions before `n`. */
  ghost predicate ReleasesBefore(t: seq<Event>, place: Place, n: nat) {
    forall i :: 0 <= i < |t| && IsAnyRelease(t[i]) ==> |t[i].call| > |place| && t[i].call[|place|] < n
  }

  lemma WithinNested(t: seq<Event>, place: Place, n: nat)
    requires Within(t, place + [n])
    ensures WithinAction(t, place, n)
  {
    forall i | 0 <= i < |t| ensures place <= t[i].call && |t[i].call| > |place| && t[i].call[|place|] == n {
      assert t[i].call[..|place| + 1] == place + [n];
      assert (place + [n])[|place|] == n;
      assert place == (place + [n])[..|place|];
    }
  }

  lemma {:induction false} CallWithin(place: Place, c: Rpc)
    ensures Within(Events(place, c), place)
    decreases c, 1
  {
    BodyWithin(place, c.body);
  }

  lemma {:induction false} BodyWithin(place: Place, actions: seq<Action>)
    ensures Within(EventsOf(place, actions), place) && ReleasesBefore(EventsOf(place, actions), place, |actions|)
    decreases actions, 0
  {
    if actions != [] {
      var n := |actions| - 1;
      BodyWithin(place, actions[..n]);
      if EndOf(actions[..n]) == Done {
        ActionStaysWithin(place, n, actions[n]);
        WithinAppend(EventsOf(place, actions[..n]), EventsOfAction(place, n, actions[n]), place, n);
      } else {
        assert EventsOf(place, actions) == EventsOf(place, actions[..n]);
      }
    }
  }

  lemma WithinAppend(a: seq<Event>, b: seq<Event>, place: Place, n: nat)
    requires Within(a, place) && ReleasesBefore(a, place, n)
    requires Within(b, place) && ReleasesBefore(b, place, n + 1)
    ensures Within(a + b, place) && ReleasesBefore(a + b, place, n + 1)
  {
  }

  lemma {:induction false} ActionStaysWithin(place: Place, n: nat, a: Action)
    ensures var t := EventsOfAction(place, n, a);
            && Within(t, place) && ReleasesBefore(t, place, n + 1)
            && (a.Nested? ==> WithinAction(t, place, n))
    decreases a, 2
  {
    if a.Nested? {
      CallWithin(place + [n], a.call);
      WithinNested(EventsOfAction(place, n, a), place, n);
    }
  }

  /** After a call has released its buffers the library sees nothing more of it, nor of the calls it makes. */
  ghost predicate ReleasesLast(t: seq<Event>) {
    forall i, j :: 0 <= i < j < |t| && IsAnyRelease(t[i]) ==> !(t[i].call <= t[j].call)
  }

  lemma ReleasesLastAppend(a: seq<Event>, b: seq<Event>)
    requires ReleasesLast(a) && ReleasesLast(b)
    requires forall i, j :: 0 <= i < |a| && 0 <= j < |b| && IsAnyRelease(a[i]) ==> !(a[i].call <= b[j].call)
    ensures ReleasesLast(a + b)
  {
  }

  /** This holds of every call, at any depth, however it ends. */
  lemma {:induction false} EveryReleaseIsLast(place: Place, c: Rpc)
    ensures ReleasesLast(Events(place, c))
    decreases c, 1
  {
    BodyReleasesLast(place, c.body);
    BodyWithin(place, c.body);
    var rest := if EndOf(c.body) == Terminated then []
                else if End(c) == Terminated then [Fetch(place, c.reply)]
                else DeferredEvents(place, c.target, c.reply);
    assert Events(place, c) == EventsOf(place, c.body) + rest;
    ReleasesLastAppend(EventsOf(place, c.body), rest);
  }

  lemma {:induction false} BodyReleasesLast(place: Place, actions: seq<Action>)
    ensures ReleasesLast(EventsOf(place, actions))
    decreases actions, 0
  {
    if actions != [] {
      var n := |actions| - 1;
      BodyReleasesLast(place, actions[..n]);
      if EndOf(actions[..n]) == Done {
        ActionReleasesLast(place, n, actions[n]);
        BodyWithin(place, actions[..n]);
        ActionStaysWithin(place, n, actions[n]);
        LaterActionAppended(EventsOf(place, actions[..n]), EventsOfAction(place, n, actions[n]), place, n, actions[n]);
      } else {
        assert EventsOf(place, actions) == EventsOf(place, actions[..n]);
      }
    }
  }

  lemma LaterActionAppended(before: seq<Event>, last: seq<Event>, place: Place, n: nat, a: Action)
    requires ReleasesLast(before) && ReleasesLast(last) && ReleasesBefore(before, place, n)
    requires last == EventsOfAction(place, n, a) && (a.Nested? ==> WithinAction(last, place, n))
    ensures ReleasesLast(before + last)
  {
    forall i, j | 0 <= i < |before| && 0 <= j < |last| && IsAnyRelease(before[i])
      ensures !(before[i].call <= last[j].call)
    {
      if a.Nested? {
        assert before[i].call[|place|] != last[j].call[|place|];
      } else {
        assert last[j].call == place;
      }
    }
    ReleasesLastAppend(before, last);
  }

  lemma {:induction false} ActionReleasesLast(place: Place, n: nat, a: Action)
    ensures ReleasesLast(EventsOfAction(place, n, a))
    decreases a, 2
  {
    if a.Nested? {
      EveryReleaseIsLast(place + [n], a.call);
    }
  }

  // ---------------------------------------------------------------- whose events

  /** The call made by the actions with these numbers, one within the other. */
  function Find(c: Rpc, path: Place): Option<Rpc>
    decreases |path|
  {
    if path == [] then Some(c)
    else if path[0] < |c.body| && c.body[path[0]].Nested? then Find(c.body[path[0]].call, path[1..])
    else None
  }

  /** The event is one that the call can cause: its own name, its own reply, its own channel. */
  predicate OfCall(e: Event, c: Rpc) {
    match e
    case Send(_, name) => SendRemote(name) in c.body
    case Fetch(_, reply) => reply == c.reply
    case Release(_) => c.target == OnConnection(true) && c.reply == NormalReply
    case ReleaseChannel(_, id) => c.target == OnChannel(id)
  }

  ghost predicate Belongs(e: Event, place: Place, c: Rpc) {
    && place <= e.call
    && Find(c, e.call[|place|..]).Some?
    && OfCall(e, Find(c, e.call[|place|..]).value)
  }

  ghost predicate BelongsToAction(e: Event, place: Place, n: nat, a: Action) {
    a.Nested? && Belongs(e, place + [n], a.call)
  }

  ghost predicate BelongsToBody(e: Event, place: Place, actions: seq<Action>) {
    || (e.Send? && e.call == place && SendRemote(e.name) in actions)
    || exists n: nat :: n < |actions| && BelongsToAction(e, place, n, actions[n])
  }

  lemma BelongsLater(e: Event, place: Place, actions: seq<Action>, a: Action)
    requires BelongsToBody(e, place, actions)
    ensures BelongsToBody(e, place, actions + [a])
  {
    if !(e.Send? && e.call == place && SendRemote(e.name) in actions) {
      var n: nat :| n < |actions| && BelongsToAction(e, place, n, actions[n]);
      assert BelongsToAction(e, place, n, (actions + [a])[n]);
    }
  }

  lemma {:induction false} BodyEventsBelong(place: Place, actions: seq<Action>, i: nat)
    requires i < |EventsOf(place, actions)|
    ensures BelongsToBody(EventsOf(place, actions)[i], place, actions)
    decreases actions, 0
  {
    var n := |actions| - 1;
    var before := EventsOf(place, actions[..n]);
    assert actions == actions[..n] + [actions[n]];
    if i < |before| {
      BodyEventsBelong(place, actions[..n], i);
      BelongsLater(before[i], place, actions[..n], actions[n]);
    } else {
      ActionEventsBelong(place, n, actions[n], i - |before|);
    }
  }

  lemma {:induction false} ActionEventsBelong(place: Place, n: nat, a: Action, i: nat)
    requires i < |EventsOfAction(place, n, a)|
    ensures var e := EventsOfAction(place, n, a)[i];
            (a.SendRemote? && e == Send(place, a.name)) || BelongsToAction(e, place, n, a)
    decreases a, 2
  {
    if a.Nested? {
      EventsBelong(place + [n], a.call, i);
    }
  }

  /**
    Every event, at any depth, is one of the call whose place it carries: a call sends
    what its callable sends, fetches its own reply and releases its own channel.
  */
  lemma {:induction false} EventsBelong(place: Place, c: Rpc, i: nat)
    requires i < |Events(place, c)|
    ensures Belongs(Events(place, c)[i], place, c)
    decreases c, 1
  {
    var e := Events(place, c)[i];
    assert place[|place|..] == [];
    if i < |EventsOf(place, c.body)| {
      BodyEventsBelong(place, c.body, i);
      if !(e.Send? && e.call == place) {
        var n: nat :| n < |c.body| && BelongsToAction(e, place, n, c.body[n]);
        FindNested(c, place, n, e.call);
      }
    }
  }

  lemma FindNested(c: Rpc, place: Place, n: nat, q: Place)
    requires n < |c.body| && c.body[n].Nested? && place + [n] <= q
    ensures place <= q && Find(c, q[|place|..]) == Find(c.body[n].call, q[|place + [n]|..])
  {
    assert q[..|place| + 1] == place + [n];
    assert place == (place + [n])[..|place|];
    assert q[|place|..][0] == (place + [n])[|place|];
    assert q[|place|..][1..] == q[|place + [n]|..];
  }

  // ---------------------------------------------------------------- what is sent

  /** The names of the calls that a callable sends itself. */
  function Names(actions: seq<Action>): seq<nat> {
    if actions == [] then []
    else
      var n := |actions| - 1;
      Names(actions[..n]) + if actions[n].SendRemote? then [actions[n].name] else []
  }

  /** The names sent by the call at `place`. */
  function NamesSent(t: seq<Event>, place: Place): seq<nat> {
    if t == [] then []
    else
      var n := |t| - 1;
      NamesSent(t[..n], place) + if t[n].Send? && t[n].call == place then [t[n].name] else []
  }

  lemma {:induction false} NamesSentAppend(a: seq<Event>, b: seq<Event>, place: Place)
    ensures NamesSent(a + b, place) == NamesSent(a, place) + NamesSent(b, place)
    decreases |b|
  {
    if b == [] {
      assert a + b == a;
    } else {
      var n := |b| - 1;
      assert (a + b)[..|a + b| - 1] == a + b[..n];
      NamesSentAppend(a, b[..n], place);
      var last := if b[n].Send? && b[n].call == place then [b[n].name] else [];
      assert (NamesSent(a, place) + NamesSent(b[..n], place)) + last
          == NamesSent(a, place) + (NamesSent(b[..n], place) + last);
    }
  }

  lemma {:induction false} OthersSend(t: seq<Event>, place: Place)
    requires forall i :: 0 <= i < |t| ==> !t[i].Send? || t[i].call != place
    ensures NamesSent(t, place) == []
  {
    if t != [] { OthersSend(t[..|t| - 1], place); }
  }

  lemma ActionSends(place: Place, n: nat, a: Action)
    ensures NamesSent(EventsOfAction(place, n, a), place) == if a.SendRemote? then [a.name] else []
  {
    match a
    case SendRemote(name) => assert [Send(place, name)][..0] == [];
    case Nested(call, _) =>
      ActionStaysWithin(place, n, a);
      OthersSend(EventsOfAction(place, n, a), place);
    case Throw =>
  }

  /**
    As long as the actions before the last go well, a callable has sent exactly what
    these actions send, in order; it does no more after one that does not
    (`StopsWhenNotDone`).
  */
  lemma {:induction false} SendsInOrder(place: Place, actions: seq<Action>)
    requires actions == [] || EndOf(actions[..|actions| - 1]) == Done
    ensures NamesSent(EventsOf(place, actions), place) == Names(actions)
    decreases |actions|
  {
    if actions != [] {
      var n := |actions| - 1;
      assert n > 0 ==> actions[..n][..n - 1] == actions[..n - 1];
      SendsInOrder(place, actions[..n]);
      NamesSentAppend(EventsOf(place, actions[..n]), EventsOfAction(place, n, actions[n]), place);
      ActionSends(place, n, actions[n]);
    }
  }

  // ---------------------------------------------------------------- which exception comes out

  datatype Failure = FromReply(call: Place, exception: Exception) | FromThrow(call: Place)

  function ExceptionOf(f: Failure): Exception {
    if f.FromReply? then f.exception else UserException
  }

  /** Every abnormal reply that is fetched, and every exception a callable throws, in the order they happen. */
  function Failures(place: Place, c: Rpc): seq<Failure>
    decreases c, 1
  {
    FailuresIn(place, c.body) + if EndOf(c.body) == Terminated then [] else OwnFailure(place, c.reply)
  }

  function OwnFailure(place: Place, reply: Reply): seq<Failure> {
    if ProcessReply(reply).Some? then [FromReply(place, ProcessReply(reply).value)] else []
  }

  function FailuresIn(place: Place, actions: seq<Action>): seq<Failure>
    decreases actions, 0
  {
    if actions == [] then []
    else
      var n := |actions| - 1;
      FailuresIn(place, actions[..n]) + if EndOf(actions[..n]) == Done then FailuresBy(place, n, actions[n]) else []
  }

  function FailuresBy(place: Place, n: nat, a: Action): seq<Failure>
    decreases a, 2
  {
    match a
    case SendRemote(_) => []
    case Nested(call, _) => Failures(place + [n], call)
    case Throw => [FromThrow(place)]
  }

  ghost predicate LastIs(fs: seq<Failure>, e: Exception) {
    fs != [] && ExceptionOf(fs[|fs| - 1]) == e
  }

  /** The exception that comes out of a call is the last that was thrown in it. */
  lemma {:induction false} LastFailureComesOut(place: Place, c: Rpc)
    ensures End(c).Raised? ==> LastIs(Failures(place, c), End(c).exception)
    decreases c, 1
  {
    LastFailureComesOutOf(place, c.body);
    assert FailuresIn(place, c.body) + [] == FailuresIn(place, c.body);
  }

  lemma {:induction false} LastFailureComesOutOf(place: Place, actions: seq<Action>)
    ensures EndOf(actions).Raised? ==> LastIs(FailuresIn(place, actions), EndOf(actions).exception)
    decreases actions, 0
  {
    if actions != [] {
      var n := |actions| - 1;
      LastFailureComesOutOf(place, actions[..n]);
      assert FailuresIn(place, actions[..n]) + [] == FailuresIn(place, actions[..n]);
      LastFailureComesOutBy(place, n, actions[n]);
    }
  }

  lemma {:induction false} LastFailureComesOutBy(place: Place, n: nat, a: Action)
    ensures EndOfAction(a).Raised? ==> LastIs(FailuresBy(place, n, a), EndOfAction(a).exception)
    decreases a, 2
  {
    if a.Nested? {
      LastFailureComesOut(place + [n], a.call);
    }
  }

  /** The abnormal replies in a trace, by the calls that fetch them. */
  function AbnormalFetches(t: seq<Event>): seq<Failure> {
    if t == [] then []
    else
      var n := |t| - 1;
      AbnormalFetches(t[..n])
      + if t[n].Fetch? && ProcessReply(t[n].reply).Some? then [FromReply(t[n].call, ProcessReply(t[n].reply).value)]
        else []
  }

  function FromReplies(fs: seq<Failure>): seq<Failure> {
    if fs == [] then []
    else FromReplies(fs[..|fs| - 1]) + if fs[|fs| - 1].FromReply? then [fs[|fs| - 1]] else []
  }

  lemma {:induction false} AbnormalFetchesAppend(a: seq<Event>, b: seq<Event>)
    ensures AbnormalFetches(a + b) == AbnormalFetches(a) + AbnormalFetches(b)
    decreases |b|
  {
    if b == [] {
      assert a + b == a;
    } else {
      var n := |b| - 1;
      assert (a + b)[..|a + b| - 1] == a + b[..n];
      AbnormalFetchesAppend(a, b[..n]);
      assert (a + b)[|a + b| - 1] == b[n];
    }
  }

  lemma {:induction false} FromRepliesAppend(a: seq<Failure>, b: seq<Failure>)
    ensures FromReplies(a + b) == FromReplies(a) + FromReplies(b)
    decreases |b|
  {
    if b == [] {
      assert a + b == a;
    } else {
      var n := |b| - 1;
      assert (a + b)[..|a + b| - 1] == a + b[..n];
      FromRepliesAppend(a, b[..n]);
      assert (a + b)[|a + b| - 1] == b[n];
    }
  }

  lemma AbnormalFetchesOne(e: Event)
    ensures AbnormalFetches([e])
         == if e.Fetch? && ProcessReply(e.reply).Some? then [FromReply(e.call, ProcessReply(e.reply).value)] else []
  {
    assert [e][..0] == [];
  }

  lemma DeferredFetches(place: Place, target: Target, reply: Reply)
    ensures AbnormalFetches(DeferredEvents(place, target, reply)) == AbnormalFetches([Fetch(place, reply)])
  {
    AbnormalFetchesAppend([Fetch(place, reply)], ReleaseEvents(place, target, reply));
    match target
    case OnConnection(_) => AbnormalFetchesOne(Release(place));
    case OnChannel(id) => AbnormalFetchesOne(ReleaseChannel(place, id));
  }

  /** The failures that come from replies are those the library's trace shows, call by call and in order. */
  lemma {:induction false} RepliesFailAsFetched(place: Place, c: Rpc)
    ensures FromReplies(Failures(place, c)) == AbnormalFetches(Events(place, c))
    decreases c, 1
  {
    BodyFailsAsFetched(place, c.body);
    if EndOf(c.body) == Terminated {
      assert Events(place, c) == EventsOf(place, c.body) && Failures(place, c) == FailuresIn(place, c.body);
    } else {
      var own := OwnFailure(place, c.reply);
      OwnFailureFetched(place, c);
      FromRepliesAppend(FailuresIn(place, c.body), own);
      if End(c) == Terminated {
        AbnormalFetchesAppend(EventsOf(place, c.body), [Fetch(place, c.reply)]);
      } else {
        AbnormalFetchesAppend(EventsOf(place, c.body), DeferredEvents(place, c.target, c.reply));
      }
    }
  }

  lemma OwnFailureFetched(place: Place, c: Rpc)
    ensures FromReplies(OwnFailure(place, c.reply)) == OwnFailure(place, c.reply)
    ensures AbnormalFetches([Fetch(place, c.reply)]) == OwnFailure(place, c.reply)
    ensures AbnormalFetches(DeferredEvents(place, c.target, c.reply)) == OwnFailure(place, c.reply)
  {
    var own := OwnFailure(place, c.reply);
    assert own != [] ==> own[..0] == [];
    AbnormalFetchesOne(Fetch(place, c.reply));
    DeferredFetches(place, c.target, c.reply);
  }

  lemma {:induction false} BodyFailsAsFetched(place: Place, actions: seq<Action>)
    ensures FromReplies(FailuresIn(place, actions)) == AbnormalFetches(EventsOf(place, actions))
    decreases actions, 0
  {
    if actions != [] {
      var n := |actions| - 1;
      BodyFailsAsFetched(place, actions[..n]);
      if EndOf(actions[..n]) == Done {
        ActionFailsAsFetched(place, n, actions[n]);
        FromRepliesAppend(FailuresIn(place, actions[..n]), FailuresBy(place, n, actions[n]));
        AbnormalFetchesAppend(EventsOf(place, actions[..n]), EventsOfAction(place, n, actions[n]));
      } else {
        assert EventsOf(place, actions) == EventsOf(place, actions[..n]);
        assert FailuresIn(place, actions) == FailuresIn(place, actions[..n]);
      }
    }
  }

  lemma {:induction false} ActionFailsAsFetched(place: Place, n: nat, a: Action)
    ensures FromReplies(FailuresBy(place, n, a)) == AbnormalFetches(EventsOfAction(place, n, a))
    decreases a, 2
  {
    match a
    case SendRemote(name) => AbnormalFetchesOne(Send(place, name));
    case Nested(call, _) => RepliesFailAsFetched(place + [n], call);
    case Throw => assert [FromThrow(place)][..0] == [];
  }
}
