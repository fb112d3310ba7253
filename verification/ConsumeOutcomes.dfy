/**
  What one attempt at consuming comes to, read off the library's answers alone
  (include/rmqcxx/Connection.hpp:644-711): when it reports a time-out, which
  exception it throws on which answer, which callback it runs with what, and how
  long it lets the library wait.
*/
module ConsumeOutcomes {
  import opened Durations
  import opened Budget
  import opened Replies
  import opened Ownership
  import opened Consume

  // ---------------------------------------------------------------- answers

  /** The answers bring something of the kind, for whoever wants it. */
  predicate Brings(r: Round, k: Kind) {
    match k
    case DELIVERY => r.reply == NormalReply && r.channel != 0
    case ACK => MethodFrame(r) && r.frame.id.BasicAck?
    case RETURNED => MethodFrame(r) && r.frame.id.BasicReturn? && r.readReply == NormalReply
  }

  function Load(r: Round, k: Kind): nat
    requires Brings(r, k)
  {
    match k
    case DELIVERY => r.payload
    case ACK => r.frame.id.tag
    case RETURNED => r.frame.id.payload
  }

  predicate MethodFrame(r: Round) {
    r.reply == LibraryError(UNEXPECTED_STATE) && r.status == OK && r.frame.isMethod
  }

  predicate TimesOut(r: Round) {
    || (r.reply == NormalReply && r.channel == 0)
    || r.reply == LibraryError(TIMEOUT)
    || (r.reply == LibraryError(UNEXPECTED_STATE) && r.status == TIMEOUT)
  }

  /** A returned message was announced, but reading it failed. */
  predicate ReadFails(r: Round) {
    MethodFrame(r) && r.frame.id.BasicReturn? && r.readReply != NormalReply
  }

  /** The answers make any attempt throw this. */
  predicate Fails(r: Round, e: Exception) {
    match e
    case SocketException => r.reply == LibraryError(SOCKET_ERROR)
    case FrameStatusException(status) =>
      r.reply == LibraryError(UNEXPECTED_STATE) && r.status == status && status != OK && status != TIMEOUT
    case FrameException =>
      r.reply == LibraryError(UNEXPECTED_STATE) && r.status == OK && (r.frame.isMethod ==> r.frame.id.OtherMethod?)
    case ChannelCloseException(channel) =>
      || (MethodFrame(r) && r.frame.id == ChannelClose && r.frame.channel == channel)
      || (ReadFails(r) && r.readReply == ServerError(CHANNEL_CLOSE) && channel == 0)
    case ConnectionCloseException =>
      || (MethodFrame(r) && r.frame.id == ConnectionClose)
      || (ReadFails(r) && r.readReply == ServerError(CONNECTION_CLOSE))
    case LibraryException => ReadFails(r) && r.readReply.LibraryError?
    case RPCException =>
      || r.reply == MissingReply || r.reply.ServerError? || r.reply.UnknownReply?
      || r.reply == LibraryError(OK) || (r.reply.LibraryError? && r.reply.error.OTHER_STATUS?)
      || (ReadFails(r) && (r.readReply == MissingReply || r.readReply.UnknownReply?))
      || (ReadFails(r) && r.readReply.ServerError? && r.readReply.id.OTHER_METHOD?)
    case OperationException(_) => false
    case AllocationException => false
    case UserException => false
  }

  // ---------------------------------------------------------------- results and exceptions

  /** False means that time ran out: no envelope, or no frame, or no answer at all within the limit. */
  lemma ReturnsFalseIff(r: Round, h: Handlers)
    ensures AttemptOutcome(r, h) == Returned(false)
       <==> || (r.reply == NormalReply && r.channel == 0)
            || r.reply == LibraryError(TIMEOUT)
            || (r.reply == LibraryError(UNEXPECTED_STATE) && r.status == TIMEOUT)
  {
  }

  /** True means that something was brought, and its callback did not throw. */
  lemma ReturnsTrueIff(r: Round, h: Handlers)
    ensures AttemptOutcome(r, h) == Returned(true)
       <==> || (Brings(r, DELIVERY) && !(h.delivery != Ignore && r.callback.throws))
            || (Brings(r, ACK) && !(h.ack != Ignore && r.callback.throws))
            || (Brings(r, RETURNED) && !(h.returned != Ignore && r.callback.throws))
  {
  }

  lemma ThrowsUserExceptionIff(r: Round, h: Handlers)
    ensures AttemptOutcome(r, h) == Threw(UserException)
       <==> r.callback.throws && ( || (Brings(r, DELIVERY) && h.delivery != Ignore)
                                   || (Brings(r, ACK) && h.ack != Ignore)
                                   || (Brings(r, RETURNED) && h.returned != Ignore))
  {
  }

  /** A broken connection to the broker, and nothing else, is a socket exception. */
  lemma ThrowsSocketExceptionIff(r: Round, h: Handlers)
    ensures AttemptOutcome(r, h) == Threw(SocketException) <==> r.reply == LibraryError(SOCKET_ERROR)
  {
  }

  lemma ThrowsFrameStatusIff(r: Round, h: Handlers, status: Status)
    ensures AttemptOutcome(r, h) == Threw(FrameStatusException(status))
       <==> r.reply == LibraryError(UNEXPECTED_STATE) && r.status == status && status != OK && status != TIMEOUT
  {
  }

  lemma ThrowsFrameExceptionIff(r: Round, h: Handlers)
    ensures AttemptOutcome(r, h) == Threw(FrameException)
       <==> r.reply == LibraryError(UNEXPECTED_STATE) && r.status == OK
            && (!r.frame.isMethod || r.frame.id.OtherMethod?)
  {
  }

  /** The broker closes the channel while one waits for a frame, or while one reads a returned message. */
  lemma ThrowsChannelCloseIff(r: Round, h: Handlers, channel: nat)
    ensures AttemptOutcome(r, h) == Threw(ChannelCloseException(channel))
       <==> r.reply == LibraryError(UNEXPECTED_STATE) && r.status == OK && r.frame.isMethod
            && ( || (r.frame.id == ChannelClose && channel == r.frame.channel)
                 || (r.frame.id.BasicReturn? && r.readReply == ServerError(CHANNEL_CLOSE) && channel == 0))
  {
  }

  lemma ThrowsConnectionCloseIff(r: Round, h: Handlers)
    ensures AttemptOutcome(r, h) == Threw(ConnectionCloseException)
       <==> r.reply == LibraryError(UNEXPECTED_STATE) && r.status == OK && r.frame.isMethod
            && ( || r.frame.id == ConnectionClose
                 || (r.frame.id.BasicReturn? && r.readReply == ServerError(CONNECTION_CLOSE)))
  {
  }

  lemma ThrowsLibraryExceptionIff(r: Round, h: Handlers)
    ensures AttemptOutcome(r, h) == Threw(LibraryException)
       <==> r.reply == LibraryError(UNEXPECTED_STATE) && r.status == OK && r.frame.isMethod
            && r.frame.id.BasicReturn? && r.readReply.LibraryError?
  {
  }

  /** All other answers. */
  lemma ThrowsRpcExceptionIff(r: Round, h: Handlers)
    ensures AttemptOutcome(r, h) == Threw(RPCException)
       <==> || r.reply == MissingReply || r.reply.ServerError? || r.reply.UnknownReply?
            || (r.reply.LibraryError? && (r.reply.error == OK || r.reply.error.OTHER_STATUS?))
            || (r.reply == LibraryError(UNEXPECTED_STATE) && r.status == OK && r.frame.isMethod
                && r.frame.id.BasicReturn?
                && ( || r.readReply == MissingReply || r.readReply.UnknownReply?
                     || (r.readReply.ServerError? && r.readReply.id.OTHER_METHOD?)))
  {
  }

  /** The same in one: an attempt fails as its answers say, unless a callback throws first. */
  lemma ThrowsIff(r: Round, h: Handlers, e: Exception)
    requires e != UserException
    ensures AttemptOutcome(r, h) == Threw(e) <==> Fails(r, e)
  {
  }

  const NOBODY := Handlers(Ignore, Ignore, Ignore)

  /** Every round brings one thing, or times out, or fails in one way ... */
  lemma OneOfThree(r: Round)
    ensures (exists k :: Brings(r, k)) || TimesOut(r) || exists e :: Fails(r, e)
  {
    match AttemptOutcome(r, NOBODY)
    case Returned(consumed) =>
      ReturnsTrueIff(r, NOBODY);
      ReturnsFalseIff(r, NOBODY);
    case Threw(e) =>
      ThrowsUserExceptionIff(r, NOBODY);
      ThrowsIff(r, NOBODY, e);
  }

  /** ... and only one of the three. */
  lemma OnlyOneOfThree(r: Round, k: Kind, e: Exception)
    ensures !(Brings(r, k) && TimesOut(r)) && !(Brings(r, k) && Fails(r, e)) && !(TimesOut(r) && Fails(r, e))
    ensures forall l :: Brings(r, k) && Brings(r, l) ==> l == k
    ensures forall f :: Fails(r, e) && Fails(r, f) ==> f == e
  {
    ReturnsTrueIff(r, NOBODY);
    ReturnsFalseIff(r, NOBODY);
    forall f | Fails(r, f) ensures AttemptOutcome(r, NOBODY) == Threw(f) {
      ThrowsIff(r, NOBODY, f);
    }
  }

  // ---------------------------------------------------------------- library calls

  predicate IsLibraryCall(e: Event) {
    e.ConsumeMessage? || e.WaitFrame? || e.ReadMessage? || e.ReleaseBuffers?
  }

  function LibraryCalls(events: seq<Event>): seq<Event> {
    if events == [] then []
    else (if IsLibraryCall(events[0]) then [events[0]] else []) + LibraryCalls(events[1..])
  }

  lemma {:induction false} LibraryCallsAppend(x: seq<Event>, y: seq<Event>)
    ensures LibraryCalls(x + y) == LibraryCalls(x) + LibraryCalls(y)
    decreases |x|
  {
    if x == [] {
      assert x + y == y;
    } else {
      assert (x + y)[1..] == x[1..] + y;
      LibraryCallsAppend(x[1..], y);
      var head := if IsLibraryCall(x[0]) then [x[0]] else [];
      assert head + (LibraryCalls(x[1..]) + LibraryCalls(y)) == (head + LibraryCalls(x[1..])) + LibraryCalls(y);
    }
  }

  lemma {:induction false} NoLibraryCalls(events: seq<Event>)
    requires forall i :: 0 <= i < |events| ==> !IsLibraryCall(events[i])
    ensures LibraryCalls(events) == []
    decreases |events|
  {
    if events != [] { NoLibraryCalls(events[1..]); }
  }

  lemma OneLibraryCall(e: Event)
    ensures LibraryCalls([e]) == if IsLibraryCall(e) then [e] else []
  {
    assert [e][1..] == [];
  }

  lemma MessageLibraryCalls(r: Round, h: Handlers, raw: Raw)
    requires MethodFrame(r) && r.frame.id.BasicReturn?
    ensures LibraryCalls(ReturnedEvents(r, h, raw, r.frame.id.payload)) == [ReadMessage(r.frame.channel)]
  {
    var acquire, read := [Acquire(raw, MESSAGE_VARIABLE)], [ReadMessage(r.frame.channel)];
    var rest := AfterReadEvents(r, h, raw, r.frame.id.payload);
    assert ReturnedEvents(r, h, raw, r.frame.id.payload) == acquire + (read + rest);
    LibraryCallsAppend(acquire, read + rest);
    LibraryCallsAppend(read, rest);
    OneLibraryCall(acquire[0]);
    OneLibraryCall(read[0]);
    NoneAfterRead(r, h, raw, r.frame.id.payload);
    NoLibraryCalls(rest);
  }

  lemma NoneAfterRead(r: Round, h: Handlers, raw: Raw, payload: nat)
    ensures var t := AfterReadEvents(r, h, raw, payload);
            forall i :: 0 <= i < |t| ==> !IsLibraryCall(t[i])
  {
    NoneInMessage(r, h, raw, payload);
  }

  lemma NoneInMessage(r: Round, h: Handlers, raw: Raw, payload: nat)
    ensures var t := MessageEvents(r, h, raw, payload);
            forall i :: 0 <= i < |t| ==> !IsLibraryCall(t[i])
  {
  }

  lemma MiddleLibraryCalls(r: Round, tv: Option<Timeval>, h: Handlers, raw: Raw)
    ensures LibraryCalls(MiddleEvents(r, tv, h, raw))
         == (if r.reply == LibraryError(UNEXPECTED_STATE) then [WaitFrame(SecondTimeout(tv, r.start, r.now))] else [])
          + (if MethodFrame(r) && r.frame.id.BasicReturn? then [ReadMessage(r.frame.channel)] else [])
  {
    if r.reply == LibraryError(UNEXPECTED_STATE) {
      var wait := [WaitFrame(SecondTimeout(tv, r.start, r.now))];
      var rest := if MethodFrame(r) then DispatchEvents(r, h, raw + 1) else [];
      assert MiddleEvents(r, tv, h, raw) == wait + rest;
      LibraryCallsAppend(wait, rest);
      OneLibraryCall(wait[0]);
      if MethodFrame(r) && r.frame.id.BasicReturn? {
        MessageLibraryCalls(r, h, raw + 1);
      } else {
        NoLibraryCalls(rest);
      }
    } else {
      NoLibraryCalls(MiddleEvents(r, tv, h, raw));
    }
  }

  /**
    All the library sees of an attempt, in order: the wait for a message; if something
    else came in, the wait for a frame; if that announces a returned message, the
    reading of it from the channel it came on; and the release.
  */
  lemma AttemptLibraryCalls(r: Round, tv: Option<Timeval>, h: Handlers, raw: Raw)
    ensures var waits := r.reply == LibraryError(UNEXPECTED_STATE);
            var announced := waits && r.status == OK && r.frame.isMethod && r.frame.id.BasicReturn?;
            LibraryCalls(AttemptEvents(r, tv, h, raw))
            == [ConsumeMessage(tv)]
               + (if waits then [WaitFrame(SecondTimeout(tv, r.start, r.now))] else [])
               + (if announced then [ReadMessage(r.frame.channel)] else [])
               + [ReleaseBuffers]
  {
    var acquire, wait := [Acquire(raw, ENVELOPE_VARIABLE)], [ConsumeMessage(tv)];
    var middle, end := MiddleEvents(r, tv, h, raw), EndEvents(r, h, raw);
    AttemptParts(r, tv, h, raw);
    LibraryCallsOfParts(acquire, wait, middle, end);
    OneLibraryCall(acquire[0]);
    OneLibraryCall(wait[0]);
    MiddleLibraryCalls(r, tv, h, raw);
    EndLibraryCalls(r, h, raw);
  }

  lemma LibraryCallsOfParts(a: seq<Event>, b: seq<Event>, c: seq<Event>, d: seq<Event>)
    ensures LibraryCalls(a + (b + (c + d))) == LibraryCalls(a) + (LibraryCalls(b) + (LibraryCalls(c) + LibraryCalls(d)))
  {
    LibraryCallsAppend(a, b + (c + d));
    LibraryCallsAppend(b, c + d);
    LibraryCallsAppend(c, d);
  }

  lemma EndLibraryCalls(r: Round, h: Handlers, raw: Raw)
    ensures LibraryCalls(EndEvents(r, h, raw)) == [ReleaseBuffers]
  {
    OneLibraryCall(ReleaseBuffers);
    if EnvelopeHandedOn(r, h) {
      assert EndEvents(r, h, raw) == [ReleaseBuffers];
    } else {
      LibraryCallsAppend([Destroyed(raw, ENVELOPE_VARIABLE)], [ReleaseBuffers]);
      OneLibraryCall(Destroyed(raw, ENVELOPE_VARIABLE));
    }
  }

  /** The limit of the second wait: none without a limit, else what line 663 makes of the first. */
  lemma SecondWaitIs(tv: Option<Timeval>, start: int, now: int)
    ensures tv == None ==> SecondTimeout(tv, start, now) == None
    ensures tv.Some? ==>
      var left := Micros(tv.value) * 1000 + (now - start);
      && SecondTimeout(tv, start, now).Some? && Normalized(SecondTimeout(tv, start, now).value)
      && Micros(SecondTimeout(tv, start, now).value) == if now < start || left < 0 then 0 else left / 1000
  {
    if tv.Some? {
      SecondWaitGrows(tv.value, start, now);
    }
  }

  lemma {:induction false} LoggedIsCalled(events: seq<Event>, i: nat)
    requires i < |events| && IsLibraryCall(events[i])
    ensures events[i] in LibraryCalls(events)
    decreases |events|
  {
    if i > 0 {
      LoggedIsCalled(events[1..], i - 1);
    }
  }

  /** So any second wait in the log has that limit. */
  lemma LoggedSecondWait(r: Round, tv: Option<Timeval>, h: Handlers, raw: Raw, i: nat)
    requires i < |AttemptEvents(r, tv, h, raw)| && AttemptEvents(r, tv, h, raw)[i].WaitFrame?
    ensures r.reply == LibraryError(UNEXPECTED_STATE)
    ensures var second := AttemptEvents(r, tv, h, raw)[i].timeout;
            if tv == None then second == None
            else
              var left := Micros(tv.value) * 1000 + (r.now - r.start);
              && second.Some? && Normalized(second.value)
              && Micros(second.value) == if r.now < r.start || left < 0 then 0 else left / 1000
  {
    AttemptLibraryCalls(r, tv, h, raw);
    LoggedIsCalled(AttemptEvents(r, tv, h, raw), i);
    SecondWaitIs(tv, r.start, r.now);
  }

  // ---------------------------------------------------------------- up to the callback

  /** An envelope wanted by value belongs to the callback's parameter when the callback runs ... */
  lemma UntilDeliveryByValue(r: Round, tv: Option<Timeval>, h: Handlers, raw: Raw)
    requires r.reply == NormalReply && r.channel != 0 && h.delivery == Call
    ensures [Acquire(raw, ENVELOPE_VARIABLE), ConsumeMessage(tv), Transfer(raw, ENVELOPE_VARIABLE, CALLBACK_PARAMETER),
             Callback(DELIVERY, r.payload)] <= AttemptEvents(r, tv, h, raw)
  {
  }

  /** ... and one that is looked at, to the variable it was received in. */
  lemma UntilDeliveryByReference(r: Round, tv: Option<Timeval>, h: Handlers, raw: Raw)
    requires r.reply == NormalReply && r.channel != 0 && h.delivery == Look
    ensures AttemptEvents(r, tv, h, raw)
         == [Acquire(raw, ENVELOPE_VARIABLE), ConsumeMessage(tv), Callback(DELIVERY, r.payload),
             Destroyed(raw, ENVELOPE_VARIABLE), ReleaseBuffers]
  {
  }

  function ReturnedPrefix(r: Round, tv: Option<Timeval>, raw: Raw): seq<Event> {
    [Acquire(raw, ENVELOPE_VARIABLE), ConsumeMessage(tv), WaitFrame(SecondTimeout(tv, r.start, r.now)),
     Acquire(raw + 1, MESSAGE_VARIABLE), ReadMessage(r.frame.channel),
     Transfer(raw + 1, MESSAGE_VARIABLE, CONSTRUCTOR_PARAMETER),
     Transfer(raw + 1, CONSTRUCTOR_PARAMETER, RETURNED_MESSAGE)]
  }

  lemma ReturnedParts(r: Round, tv: Option<Timeval>, h: Handlers, raw: Raw)
    requires Brings(r, RETURNED)
    ensures AttemptEvents(r, tv, h, raw)
         == ReturnedPrefix(r, tv, raw) + MessageEvents(r, h, raw + 1, r.frame.id.payload)
          + [Destroyed(raw, ENVELOPE_VARIABLE), ReleaseBuffers]
  {
    var message := MessageEvents(r, h, raw + 1, r.frame.id.payload);
    var moves := [Transfer(raw + 1, MESSAGE_VARIABLE, CONSTRUCTOR_PARAMETER),
                  Transfer(raw + 1, CONSTRUCTOR_PARAMETER, RETURNED_MESSAGE)];
    assert AfterReadEvents(r, h, raw + 1, r.frame.id.payload) == moves + message;
    assert MiddleEvents(r, tv, h, raw)
        == [WaitFrame(SecondTimeout(tv, r.start, r.now))]
         + ([Acquire(raw + 1, MESSAGE_VARIABLE), ReadMessage(r.frame.channel)] + (moves + message));
  }

  /** A returned message goes through the constructor's parameter and the temporary, and on to the callback. */
  lemma UntilReturnedByValue(r: Round, tv: Option<Timeval>, h: Handlers, raw: Raw)
    requires Brings(r, RETURNED) && h.returned == Call
    ensures ReturnedPrefix(r, tv, raw)
          + [Transfer(raw + 1, RETURNED_MESSAGE, CALLBACK_PARAMETER), Callback(RETURNED, r.frame.id.payload)]
         <= AttemptEvents(r, tv, h, raw)
  {
    ReturnedParts(r, tv, h, raw);
  }

  lemma UntilReturnedByReference(r: Round, tv: Option<Timeval>, h: Handlers, raw: Raw)
    requires Brings(r, RETURNED) && h.returned == Look
    ensures AttemptEvents(r, tv, h, raw)
         == ReturnedPrefix(r, tv, raw)
          + [Callback(RETURNED, r.frame.id.payload), Destroyed(raw + 1, RETURNED_MESSAGE),
             Destroyed(raw, ENVELOPE_VARIABLE), ReleaseBuffers]
  {
    ReturnedParts(r, tv, h, raw);
  }
}
