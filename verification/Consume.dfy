/**
  Consumption (include/rmqcxx/Connection.hpp): `consumeImpl`, which makes one
  attempt to get a delivery, a returned message or an acknowledgement, and hands
  it to a callback.

  The C library is a script of answers, one `Round` for each attempt; the answers
  are arbitrary. Everything that happens is logged: library calls, callbacks, and
  who owns the raw envelope and the raw returned message.
*/
module Consume {
  import opened Durations
  import opened Budget
  import opened Replies
  import opened Ownership

  // ---------------------------------------------------------------- the library's answers

  datatype Method =
    | BasicAck(tag: nat)
    | BasicReturn(payload: nat)
    | ChannelClose
    | ConnectionClose
    | OtherMethod(id: nat)

  datatype Frame = Frame(isMethod: bool, channel: nat, id: Method)

  /** What a callback that gets an object by value does with it. */
  datatype Take = Looks | Drops | Keeps

  datatype CallbackResult = CallbackResult(take: Take, throws: bool)

  datatype Round = Round(
    loopNow: int,          // clock, read by the loop around the attempt
    start: int,            // clock, before the first wait
    reply: Reply,          // amqp_consume_message
    channel: nat,          // ... and the envelope it filled in
    payload: nat,
    now: int,              // clock, after the first wait
    status: Status,        // amqp_simple_wait_frame_noblock
    frame: Frame,
    readReply: Reply,      // amqp_read_message
    callback: CallbackResult)

  datatype Kind = DELIVERY | RETURNED | ACK

  /** What an attempt amounts to. */
  datatype Meaning = Got(kind: Kind, payload: nat) | TimedOut | Failed(exception: Exception)

  /** The branching of lines 646-711 and nothing else. */
  function Classify(r: Round): Meaning {
    match r.reply
    case NormalReply => if r.channel == 0 then TimedOut else Got(DELIVERY, r.payload)
    case LibraryError(error) =>
      (match error
       case UNEXPECTED_STATE => ClassifyFrame(r)
       case TIMEOUT => TimedOut
       case SOCKET_ERROR => Failed(SocketException)
       case _ => Failed(RPCException))
    case _ => Failed(RPCException)
  }

  function ClassifyFrame(r: Round): Meaning {
    if r.status == TIMEOUT then TimedOut
    else if r.status != OK then Failed(FrameStatusException(r.status))
    else if !r.frame.isMethod then Failed(FrameException)
    else
      match r.frame.id
      case BasicAck(tag) => Got(ACK, tag)
      case BasicReturn(payload) =>
        (match ProcessReply(r.readReply)
         case None => Got(RETURNED, payload)
         case Some(e) => Failed(e))
      case ChannelClose => Failed(ChannelCloseException(r.frame.channel))
      case ConnectionClose => Failed(ConnectionCloseException)
      case OtherMethod(_) => Failed(FrameException)
  }

  // ---------------------------------------------------------------- the log

  datatype Owner =
    | ENVELOPE_VARIABLE
    | MESSAGE_VARIABLE
    | CONSTRUCTOR_PARAMETER
    | RETURNED_MESSAGE
    | CALLBACK_PARAMETER
    | USER

  datatype Event =
    | ConsumeMessage(timeout: Option<Timeval>)
    | WaitFrame(timeout: Option<Timeval>)
    | ReadMessage(channel: nat)
    | Callback(kind: Kind, payload: nat)
    | Acquire(raw: Raw, owner: Owner)
    | Transfer(raw: Raw, source: Owner, target: Owner)
    | Destroyed(raw: Raw, owner: Owner)
    | ReleaseBuffers

  /**
    A callback that takes its argument by value owns it; one that takes it by reference
    looks at it while the caller owns it. `Ignore` is the empty callback by reference
    that the loops pass for what they do not want.
  */
  datatype Handler = Ignore | Call | Look

  datatype Handlers = Handlers(delivery: Handler, returned: Handler, ack: Handler) {
    function For(k: Kind): Handler {
      match k
      case DELIVERY => delivery
      case RETURNED => returned
      case ACK => ack
    }
  }

  datatype Outcome = Returned(consumed: bool) | Threw(exception: Exception)

  // ---------------------------------------------------------------- what an attempt does

  function SecondTimeout(tv: Option<Timeval>, start: int, now: int): Option<Timeval> {
    match tv
    case None => None
    case Some(t) => Some(SecondWait(t, start, now))
  }

  /** The user's callback has run on the object its parameter owns. */
  function TakeEvents(raw: Raw, take: Take): seq<Event> {
    match take
    case Looks => [Destroyed(raw, CALLBACK_PARAMETER)]
    case Drops => [Transfer(raw, CALLBACK_PARAMETER, USER), Destroyed(raw, USER)]
    case Keeps => [Transfer(raw, CALLBACK_PARAMETER, USER)]
  }

  function HandEvents(raw: Raw, source: Owner, k: Kind, payload: nat, take: Take): seq<Event> {
    [Transfer(raw, source, CALLBACK_PARAMETER), Callback(k, payload)] + TakeEvents(raw, take)
  }

  function DeliveryEvents(r: Round, h: Handlers, raw: Raw): seq<Event> {
    match h.delivery
    case Ignore => []
    case Look => [Callback(DELIVERY, r.payload)]
    case Call => HandEvents(raw, ENVELOPE_VARIABLE, DELIVERY, r.payload, r.callback.take)
  }

  function ReturnedEvents(r: Round, h: Handlers, raw: Raw, payload: nat): seq<Event> {
    [Acquire(raw, MESSAGE_VARIABLE), ReadMessage(r.frame.channel)] + AfterReadEvents(r, h, raw, payload)
  }

  function AfterReadEvents(r: Round, h: Handlers, raw: Raw, payload: nat): seq<Event> {
    if ProcessReply(r.readReply).Some? then [Destroyed(raw, MESSAGE_VARIABLE)]
    else
      [Transfer(raw, MESSAGE_VARIABLE, CONSTRUCTOR_PARAMETER), Transfer(raw, CONSTRUCTOR_PARAMETER, RETURNED_MESSAGE)]
      + MessageEvents(r, h, raw, payload)
  }

  function MessageEvents(r: Round, h: Handlers, raw: Raw, payload: nat): seq<Event> {
    match h.returned
    case Ignore => [Destroyed(raw, RETURNED_MESSAGE)]
    case Look => [Callback(RETURNED, payload), Destroyed(raw, RETURNED_MESSAGE)]
    case Call => HandEvents(raw, RETURNED_MESSAGE, RETURNED, payload, r.callback.take)
  }

  function FrameEvents(r: Round, tv: Option<Timeval>, h: Handlers, raw: Raw): seq<Event> {
    [WaitFrame(SecondTimeout(tv, r.start, r.now))]
    + if r.status == OK && r.frame.isMethod then DispatchEvents(r, h, raw) else []
  }

  function DispatchEvents(r: Round, h: Handlers, raw: Raw): seq<Event> {
    match r.frame.id
    case BasicAck(tag) => if h.ack != Ignore then [Callback(ACK, tag)] else []
    case BasicReturn(payload) => ReturnedEvents(r, h, raw, payload)
    case _ => []
  }

  function MiddleEvents(r: Round, tv: Option<Timeval>, h: Handlers, raw: Raw): seq<Event> {
    if r.reply.NormalReply? && r.channel != 0 then DeliveryEvents(r, h, raw)
    else if r.reply == LibraryError(UNEXPECTED_STATE) then FrameEvents(r, tv, h, raw + 1)
    else []
  }

  /** The end of the envelope variable, unless its envelope was handed on, and the deferred release. */
  function EndEvents(r: Round, h: Handlers, raw: Raw): seq<Event> {
    (if EnvelopeHandedOn(r, h) then [] else [Destroyed(raw, ENVELOPE_VARIABLE)]) + [ReleaseBuffers]
  }

  predicate EnvelopeHandedOn(r: Round, h: Handlers) {
    r.reply.NormalReply? && r.channel != 0 && h.delivery == Call
  }

  /** Everything one attempt logs. The envelope is `raw`, a returned message `raw + 1`. */
  function AttemptEvents(r: Round, tv: Option<Timeval>, h: Handlers, raw: Raw): seq<Event> {
    [Acquire(raw, ENVELOPE_VARIABLE), ConsumeMessage(tv)]
    + MiddleEvents(r, tv, h, raw)
    + (if EnvelopeHandedOn(r, h) then [] else [Destroyed(raw, ENVELOPE_VARIABLE)])
    + [ReleaseBuffers]
  }

  lemma AttemptParts(r: Round, tv: Option<Timeval>, h: Handlers, raw: Raw)
    ensures AttemptEvents(r, tv, h, raw)
         == [Acquire(raw, ENVELOPE_VARIABLE)]
          + ([ConsumeMessage(tv)] + (MiddleEvents(r, tv, h, raw) + EndEvents(r, h, raw)))
  {
  }

  /** Did a callback that was asked for run? */
  predicate Called(r: Round, h: Handlers) {
    Classify(r).Got? && h.For(Classify(r).kind) != Ignore
  }

  function AttemptOutcome(r: Round, h: Handlers): Outcome {
    match Classify(r)
    case Got(_, _) => if Called(r, h) && r.callback.throws then Threw(UserException) else Returned(true)
    case TimedOut => Returned(false)
    case Failed(e) => Threw(e)
  }

  // ---------------------------------------------------------------- what a loop does

  function WantOnly(k: Kind): Handlers {
    Handlers(
      if k == DELIVERY then Call else Ignore,
      if k == RETURNED then Call else Ignore,
      if k == ACK then Call else Ignore)
  }

  /** `Waiting`: the script has no more answers, so the library has not returned yet. */
  datatype LoopOutcome = Waiting | Finished(out: Outcome)

  datatype LoopRun = LoopRun(out: LoopOutcome, events: seq<Event>, rest: seq<Round>)

  /**
    The timed loops (lines 313-330, 381-398, 449-466): attempts while something was
    consumed, but not what was wanted.
  */
  function TimedRun(s: seq<Round>, k: Kind, budget: int, start: int, raw: Raw): LoopRun {
    if s == [] then LoopRun(Waiting, [], [])
    else
      var left := NextBudget(budget, start, s[0].loopNow);
      var events := AttemptEvents(s[0], Some(TimeValue(left, NANOSECONDS)), WantOnly(k), raw);
      var out := AttemptOutcome(s[0], WantOnly(k));
      if out == Returned(true) && !Called(s[0], WantOnly(k)) then
        var more := TimedRun(s[1..], k, left, start, raw + 2);
        LoopRun(more.out, events + more.events, more.rest)
      else LoopRun(Finished(out), events, s[1..])
  }

  /** The blocking loops (lines 348-357, 416-425, 484-493): attempts until what was wanted, whatever they return. */
  function BlockingRun(s: seq<Round>, k: Kind, raw: Raw): LoopRun {
    if s == [] then LoopRun(Waiting, [], [])
    else
      var events := AttemptEvents(s[0], None, WantOnly(k), raw);
      var out := AttemptOutcome(s[0], WantOnly(k));
      if out.Returned? && !Called(s[0], WantOnly(k)) then
        var more := BlockingRun(s[1..], k, raw + 2);
        LoopRun(more.out, events + more.events, more.rest)
      else LoopRun(Finished(out), events, s[1..])
  }

  lemma Regroup(log: seq<Event>, a: Event, b: Event, middle: seq<Event>, end: seq<Event>, z: Event)
    ensures log + [a] + [b] + middle + end + [z] == log + ([a, b] + middle + end + [z])
  {
  }

  // ---------------------------------------------------------------- the code

  class Connection {
    var script: seq<Round>
    var log: seq<Event>
    var nextRaw: Raw

    constructor (script: seq<Round>)
      ensures this.script == script && log == [] && nextRaw == 0
    {
      this.script, log, nextRaw := script, [], 0;
    }

    method Log(e: Event)
      modifies `log
      ensures log == old(log) + [e]
    {
      log := log + [e];
    }

    /** A move construction, logged. */
    method HandOn(o: AMQPStruct, source: Owner, target: Owner) returns (p: AMQPStruct)
      modifies `log, o
      ensures fresh(p) && p.State() == Struct(old(o.memory), false) && o.State() == Struct(old(o.memory), true)
      ensures log == old(log) + [Transfer(old(o.memory), source, target)]
    {
      p := new AMQPStruct.Move(o);
      Log(Transfer(p.memory, source, target));
    }

    /** A destructor, logged. */
    method EndOfScope(o: AMQPStruct, owner: Owner)
      modifies `log
      ensures log == old(log) + (if o.moved then [] else [Destroyed(o.memory, owner)])
    {
      if !o.moved {
        Log(Destroyed(o.memory, owner));
      }
    }

    /** The lambda of a wanted kind: set `done`, call the user's callback with the parameter, destroy the parameter. */
    method CallByValue(o: AMQPStruct, source: Owner, k: Kind, payload: nat, take: Take)
      requires !o.moved
      modifies `log, o
      ensures log == old(log) + HandEvents(old(o.memory), source, k, payload, take)
      ensures o.State() == Struct(old(o.memory), true)
    {
      var v := HandOn(o, source, CALLBACK_PARAMETER);
      Log(Callback(k, payload));
      if take != Looks {
        var u := HandOn(v, CALLBACK_PARAMETER, USER);
        if take == Drops {
          EndOfScope(u, USER);
        }
      }
      EndOfScope(v, CALLBACK_PARAMETER);
    }

    /** Lines 637-713. */
    method ConsumeImpl(tv: Option<Timeval>, h: Handlers) returns (out: Outcome, called: bool)
      requires script != []
      modifies this
      ensures script == old(script)[1..] && nextRaw == old(nextRaw) + 2
      ensures log == old(log) + AttemptEvents(old(script)[0], tv, h, old(nextRaw))
      ensures out == AttemptOutcome(old(script)[0], h) && called == Called(old(script)[0], h)
    {
      var r := script[0];
      var raw := nextRaw;
      script, nextRaw := script[1..], nextRaw + 2;
      var envelope := new AMQPStruct(raw);
      Log(Acquire(raw, ENVELOPE_VARIABLE));
      Log(ConsumeMessage(tv));
      out, called := AfterConsume(r, envelope, tv, h);
      EndOfScope(envelope, ENVELOPE_VARIABLE);
      Log(ReleaseBuffers);
      Regroup(old(log), Acquire(raw, ENVELOPE_VARIABLE), ConsumeMessage(tv), MiddleEvents(r, tv, h, raw),
        if EnvelopeHandedOn(r, h) then [] else [Destroyed(raw, ENVELOPE_VARIABLE)], ReleaseBuffers);
    }

    method AfterConsume(r: Round, envelope: AMQPStruct, tv: Option<Timeval>, h: Handlers)
      returns (out: Outcome, called: bool)
      requires !envelope.moved
      modifies `log, envelope
      ensures log == old(log) + MiddleEvents(r, tv, h, old(envelope.memory))
      ensures envelope.State() == Struct(old(envelope.memory), EnvelopeHandedOn(r, h))
      ensures out == AttemptOutcome(r, h) && called == Called(r, h)
    {
      called := false;
      if r.reply.NormalReply? {
        if r.channel == 0 {
          return Returned(false), false;
        }
        if h.delivery != Ignore {
          called := true;
          if h.delivery == Call {
            CallByValue(envelope, ENVELOPE_VARIABLE, DELIVERY, r.payload, r.callback.take);
          } else {
            Log(Callback(DELIVERY, r.payload));
          }
          if r.callback.throws {
            return Threw(UserException), true;
          }
        }
        return Returned(true), called;
      } else if r.reply.LibraryError? {
        match r.reply.error {
          case UNEXPECTED_STATE =>
            out, called := AfterUnexpectedState(r, tv, h, envelope.memory + 1);
          case TIMEOUT => return Returned(false), false;
          case SOCKET_ERROR => return Threw(SocketException), false;
          case _ => return Threw(RPCException), false;
        }
      } else {
        return Threw(RPCException), false;
      }
    }

    /** Lines 656-666. */
    static method TimeLeft(tv: Option<Timeval>, start: int, now: int) returns (left: Option<Timeval>)
      ensures left == SecondTimeout(tv, start, now)
    {
      left := tv;
      if tv.Some? {
        var initial := DurationValue(tv.value, MICROSECONDS) * 1000;
        if now < start {
          left := Some(Timeval(0, 0));
        } else {
          var spent := start - now;
          left := Some(if spent > initial then Timeval(0, 0) else TimeValue(initial - spent, NANOSECONDS));
        }
      }
    }

    method AfterUnexpectedState(r: Round, tv: Option<Timeval>, h: Handlers, raw: Raw)
      returns (out: Outcome, called: bool)
      requires r.reply == LibraryError(UNEXPECTED_STATE)
      modifies `log
      ensures log == old(log) + FrameEvents(r, tv, h, raw)
      ensures out == AttemptOutcome(r, h) && called == Called(r, h)
    {
      called := false;
      var tv2 := TimeLeft(tv, r.start, r.now);
      Log(WaitFrame(tv2));
      if r.status == TIMEOUT {
        return Returned(false), false;
      } else if r.status != OK {
        return Threw(FrameStatusException(r.status)), false;
      }
      if !r.frame.isMethod {
        return Threw(FrameException), false;
      }
      out, called := Dispatch(r, h, raw);
      Append(old(log), [WaitFrame(tv2)], DispatchEvents(r, h, raw));
    }

    /** Lines 679-696. */
    method Dispatch(r: Round, h: Handlers, raw: Raw) returns (out: Outcome, called: bool)
      requires r.reply == LibraryError(UNEXPECTED_STATE) && r.status == OK && r.frame.isMethod
      modifies `log
      ensures log == old(log) + DispatchEvents(r, h, raw)
      ensures out == AttemptOutcome(r, h) && called == Called(r, h)
    {
      called := false;
      match r.frame.id {
        case BasicAck(tag) =>
          if h.ack != Ignore {
            called := true;
            Log(Callback(ACK, tag));
            if r.callback.throws {
              return Threw(UserException), true;
            }
          }
          return Returned(true), called;
        case BasicReturn(payload) =>
          out, called := AfterReturn(r, h, raw, payload);
        case ChannelClose => return Threw(ChannelCloseException(r.frame.channel)), false;
        case ConnectionClose => return Threw(ConnectionCloseException), false;
        case OtherMethod(_) => return Threw(FrameException), false;
      }
    }

    /** Lines 683-688, with the `ReturnedMessage` constructor. */
    method AfterReturn(r: Round, h: Handlers, raw: Raw, payload: nat) returns (out: Outcome, called: bool)
      requires r.reply == LibraryError(UNEXPECTED_STATE) && r.status == OK && r.frame.isMethod
      requires r.frame.id == BasicReturn(payload)
      modifies `log
      ensures log == old(log) + ReturnedEvents(r, h, raw, payload)
      ensures out == AttemptOutcome(r, h) && called == Called(r, h)
    {
      var message := new AMQPStruct(raw);
      Log(Acquire(raw, MESSAGE_VARIABLE));
      Log(ReadMessage(r.frame.channel));
      out, called := AfterRead(r, h, message, payload);
      Append(old(log), [Acquire(raw, MESSAGE_VARIABLE), ReadMessage(r.frame.channel)],
             AfterReadEvents(r, h, raw, payload));
    }

    method AfterRead(r: Round, h: Handlers, message: AMQPStruct, payload: nat) returns (out: Outcome, called: bool)
      requires r.reply == LibraryError(UNEXPECTED_STATE) && r.status == OK && r.frame.isMethod
      requires r.frame.id == BasicReturn(payload) && !message.moved
      modifies `log, message
      ensures log == old(log) + AfterReadEvents(r, h, old(message.memory), payload)
      ensures out == AttemptOutcome(r, h) && called == Called(r, h)
    {
      called := false;
      var failure := ProcessReply(r.readReply);
      if failure.Some? {
        out := Threw(failure.value);
      } else {
        var parameter := HandOn(message, MESSAGE_VARIABLE, CONSTRUCTOR_PARAMETER);
        var returned := HandOn(parameter, CONSTRUCTOR_PARAMETER, RETURNED_MESSAGE);
        EndOfScope(parameter, CONSTRUCTOR_PARAMETER);
        called := h.returned != Ignore;
        HandReturned(r, h, returned, payload);
        out := if called && r.callback.throws then Threw(UserException) else Returned(true);
      }
      EndOfScope(message, MESSAGE_VARIABLE);
    }

    /** The callback for returned messages, and the end of the argument it was given. */
    method HandReturned(r: Round, h: Handlers, returned: AMQPStruct, payload: nat)
      requires !returned.moved
      modifies `log, returned
      ensures log == old(log) + MessageEvents(r, h, old(returned.memory), payload)
    {
      if h.returned == Call {
        CallByValue(returned, RETURNED_MESSAGE, RETURNED, payload, r.callback.take);
      } else if h.returned == Look {
        Log(Callback(RETURNED, payload));
      }
      EndOfScope(returned, RETURNED_MESSAGE);
    }

    /** The timed loops; `kind` is the one the caller's callback is for. */
    method ConsumeTimed(kind: Kind, timeout: int, period: Period, start: int) returns (result: LoopOutcome)
      modifies this
      ensures var run := TimedRun(old(script), kind, Cast(timeout, period, NANOSECONDS), start, old(nextRaw));
              result == run.out && log == old(log) + run.events && script == run.rest
    {
      var internalTimeout := Cast(timeout, period, NANOSECONDS);
      ghost var whole := TimedRun(script, kind, internalTimeout, start, nextRaw);
      ghost var soFar := [];
      while true
        invariant log == old(log) + soFar
        invariant var run := TimedRun(script, kind, internalTimeout, start, nextRaw);
                  whole == LoopRun(run.out, soFar + run.events, run.rest)
        decreases |script|
      {
        if script == [] {
          return Waiting;
        }
        ghost var raw, s := nextRaw, script;
        var out, done;
        internalTimeout, out, done := TimedTurn(kind, internalTimeout, start);
        ghost var events := AttemptEvents(s[0], Some(TimeValue(internalTimeout, NANOSECONDS)), WantOnly(kind), raw);
        Append(old(log), soFar, events);
        if out.Threw? || !out.consumed || done {
          return Finished(out);
        }
        Append(soFar, events, TimedRun(script, kind, internalTimeout, start, nextRaw).events);
        soFar := soFar + events;
      }
    }

    /** The body of the loop: lines 319-327, and the same in the others. */
    method TimedTurn(kind: Kind, budget: int, start: int) returns (left: int, out: Outcome, done: bool)
      requires script != []
      modifies this
      ensures left == NextBudget(budget, start, old(script)[0].loopNow)
      ensures script == old(script)[1..] && nextRaw == old(nextRaw) + 2
      ensures log == old(log)
                   + AttemptEvents(old(script)[0], Some(TimeValue(left, NANOSECONDS)), WantOnly(kind), old(nextRaw))
      ensures out == AttemptOutcome(old(script)[0], WantOnly(kind)) && done == Called(old(script)[0], WantOnly(kind))
    {
      var now := script[0].loopNow;
      left := if now < start then 0 else Max(budget - (now - start), 0);
      out, done := ConsumeImpl(Some(TimeValue(left, NANOSECONDS)), WantOnly(kind));
    }

    /** The blocking loops. */
    method ConsumeBlocking(kind: Kind) returns (result: LoopOutcome)
      modifies this
      ensures var run := BlockingRun(old(script), kind, old(nextRaw));
              result == run.out && log == old(log) + run.events && script == run.rest
    {
      ghost var whole := BlockingRun(script, kind, nextRaw);
      ghost var soFar := [];
      while true
        invariant log == old(log) + soFar
        invariant var run := BlockingRun(script, kind, nextRaw);
                  whole == LoopRun(run.out, soFar + run.events, run.rest)
        decreases |script|
      {
        if script == [] {
          return Waiting;
        }
        ghost var raw, r := nextRaw, script[0];
        var out, done := ConsumeImpl(None, WantOnly(kind));
        ghost var events := AttemptEvents(r, None, WantOnly(kind), raw);
        Append(old(log), soFar, events);
        if out.Threw? || done {
          return Finished(out);
        }
        Append(soFar, events, BlockingRun(script, kind, nextRaw).events);
        soFar := soFar + events;
      }
    }
  }

  lemma Append(a: seq<Event>, b: seq<Event>, c: seq<Event>)
    ensures (a + b) + c == a + (b + c)
  {
  }
}
