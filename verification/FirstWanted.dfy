/**
  The consume loops refine "the first event that matters": over every script of
  library answers a timed loop ends at the first event that is wanted, a time-out
  or an error, and a blocking loop at the first that is wanted or an error; the
  events before are discarded in order and those after are left alone.
*/
module FirstWanted {
  import opened Durations
  import opened Budget
  import opened Replies
  import opened Ownership
  import opened Consume
  import opened ConsumeOutcomes

  // ---------------------------------------------------------------- views of the log

  /** The callbacks that ran. */
  function Callbacks(events: seq<Event>): seq<(Kind, nat)> {
    if events == [] then []
    else (if events[0].Callback? then [(events[0].kind, events[0].payload)] else []) + Callbacks(events[1..])
  }

  /** The time-outs handed to the first wait of each attempt. */
  function Timeouts(events: seq<Event>): seq<Option<Timeval>> {
    if events == [] then []
    else (if events[0].ConsumeMessage? then [events[0].timeout] else []) + Timeouts(events[1..])
  }

  lemma {:induction false} CallbacksAppend(x: seq<Event>, y: seq<Event>)
    ensures Callbacks(x + y) == Callbacks(x) + Callbacks(y)
    decreases |x|
  {
    if x == [] {
      assert x + y == y;
    } else {
      assert (x + y)[1..] == x[1..] + y;
      CallbacksAppend(x[1..], y);
      var head := if x[0].Callback? then [(x[0].kind, x[0].payload)] else [];
      assert head + (Callbacks(x[1..]) + Callbacks(y)) == (head + Callbacks(x[1..])) + Callbacks(y);
    }
  }

  lemma {:induction false} TimeoutsAppend(x: seq<Event>, y: seq<Event>)
    ensures Timeouts(x + y) == Timeouts(x) + Timeouts(y)
    decreases |x|
  {
    if x == [] {
      assert x + y == y;
    } else {
      assert (x + y)[1..] == x[1..] + y;
      TimeoutsAppend(x[1..], y);
      var head := if x[0].ConsumeMessage? then [x[0].timeout] else [];
      assert head + (Timeouts(x[1..]) + Timeouts(y)) == (head + Timeouts(x[1..])) + Timeouts(y);
    }
  }

  lemma {:induction false} Silent(events: seq<Event>)
    requires forall i :: 0 <= i < |events| ==> !events[i].Callback?
    ensures Callbacks(events) == []
    decreases |events|
  {
    if events != [] { Silent(events[1..]); }
  }

  /** No attempt begins. */
  ghost predicate NoAttempt(events: seq<Event>) {
    forall i :: 0 <= i < |events| ==> !events[i].ConsumeMessage?
  }

  lemma {:induction false} NoFirstWait(events: seq<Event>)
    requires NoAttempt(events)
    ensures Timeouts(events) == []
    decreases |events|
  {
    if events != [] { NoFirstWait(events[1..]); }
  }

  // ---------------------------------------------------------------- one attempt

  lemma HandViews(raw: Raw, source: Owner, k: Kind, payload: nat, take: Take)
    ensures Callbacks(HandEvents(raw, source, k, payload, take)) == [(k, payload)]
    ensures NoAttempt(HandEvents(raw, source, k, payload, take))
  {
    var t := [Transfer(raw, source, CALLBACK_PARAMETER)];
    var c := [Callback(k, payload)];
    assert HandEvents(raw, source, k, payload, take) == t + (c + TakeEvents(raw, take));
    CallbacksAppend(t, c + TakeEvents(raw, take));
    CallbacksAppend(c, TakeEvents(raw, take));
    Silent(t);
    Silent(TakeEvents(raw, take));
    assert c[1..] == [];
  }

  function CallbackOf(r: Round, h: Handlers): seq<(Kind, nat)> {
    if Brings(r, DELIVERY) && h.delivery != Ignore then [(DELIVERY, r.payload)]
    else if Brings(r, ACK) && h.ack != Ignore then [(ACK, r.frame.id.tag)]
    else if Brings(r, RETURNED) && h.returned != Ignore then [(RETURNED, r.frame.id.payload)]
    else []
  }

  lemma MessageViews(r: Round, h: Handlers, raw: Raw, payload: nat)
    ensures Callbacks(MessageEvents(r, h, raw, payload)) == if h.returned != Ignore then [(RETURNED, payload)] else []
    ensures NoAttempt(MessageEvents(r, h, raw, payload))
  {
    var look, end := [Callback(RETURNED, payload)], [Destroyed(raw, RETURNED_MESSAGE)];
    Silent(end);
    match h.returned
    case Ignore =>
    case Look =>
      assert MessageEvents(r, h, raw, payload) == look + end;
      CallbacksAppend(look, end);
      assert look[1..] == [];
    case Call => HandViews(raw, RETURNED_MESSAGE, RETURNED, payload, r.callback.take);
  }

  lemma AfterReadViews(r: Round, h: Handlers, raw: Raw, payload: nat)
    ensures Callbacks(AfterReadEvents(r, h, raw, payload))
         == if ProcessReply(r.readReply).None? && h.returned != Ignore then [(RETURNED, payload)] else []
    ensures NoAttempt(AfterReadEvents(r, h, raw, payload))
  {
    if ProcessReply(r.readReply).None? {
      var moves := [Transfer(raw, MESSAGE_VARIABLE, CONSTRUCTOR_PARAMETER),
                    Transfer(raw, CONSTRUCTOR_PARAMETER, RETURNED_MESSAGE)];
      var last := MessageEvents(r, h, raw, payload);
      assert AfterReadEvents(r, h, raw, payload) == moves + last;
      CallbacksAppend(moves, last);
      Silent(moves);
      MessageViews(r, h, raw, payload);
    } else {
      Silent(AfterReadEvents(r, h, raw, payload));
    }
  }

  lemma ReturnedViews(r: Round, h: Handlers, raw: Raw, payload: nat)
    ensures Callbacks(ReturnedEvents(r, h, raw, payload))
         == if ProcessReply(r.readReply).None? && h.returned != Ignore then [(RETURNED, payload)] else []
    ensures NoAttempt(ReturnedEvents(r, h, raw, payload))
  {
    var read := [Acquire(raw, MESSAGE_VARIABLE), ReadMessage(r.frame.channel)];
    assert ReturnedEvents(r, h, raw, payload) == read + AfterReadEvents(r, h, raw, payload);
    CallbacksAppend(read, AfterReadEvents(r, h, raw, payload));
    Silent(read);
    AfterReadViews(r, h, raw, payload);
  }

  lemma FrameViews(r: Round, tv: Option<Timeval>, h: Handlers, raw: Raw)
    requires r.reply == LibraryError(UNEXPECTED_STATE)
    ensures Callbacks(FrameEvents(r, tv, h, raw)) == CallbackOf(r, h)
    ensures NoAttempt(FrameEvents(r, tv, h, raw))
  {
    var wait := [WaitFrame(SecondTimeout(tv, r.start, r.now))];
    var tail := FrameEvents(r, tv, h, raw)[1..];
    assert FrameEvents(r, tv, h, raw) == wait + tail;
    CallbacksAppend(wait, tail);
    Silent(wait);
    if r.status == OK && r.frame.isMethod && r.frame.id.BasicReturn? {
      assert tail == ReturnedEvents(r, h, raw, r.frame.id.payload);
      ReturnedViews(r, h, raw, r.frame.id.payload);
    } else if r.status == OK && r.frame.isMethod && r.frame.id.BasicAck? && h.ack != Ignore {
      assert tail == [Callback(ACK, r.frame.id.tag)];
      assert tail[1..] == [];
    } else {
      assert tail == [];
    }
  }

  lemma MiddleViews(r: Round, tv: Option<Timeval>, h: Handlers, raw: Raw)
    ensures Callbacks(MiddleEvents(r, tv, h, raw)) == CallbackOf(r, h)
    ensures Timeouts(MiddleEvents(r, tv, h, raw)) == []
  {
    if EnvelopeHandedOn(r, h) {
      HandViews(raw, ENVELOPE_VARIABLE, DELIVERY, r.payload, r.callback.take);
    } else if r.reply.NormalReply? && r.channel != 0 && h.delivery == Look {
      assert MiddleEvents(r, tv, h, raw) == [Callback(DELIVERY, r.payload)];
      assert [Callback(DELIVERY, r.payload)][1..] == [];
    } else if r.reply == LibraryError(UNEXPECTED_STATE) {
      FrameViews(r, tv, h, raw + 1);
    }
    NoFirstWait(MiddleEvents(r, tv, h, raw));
  }

  /**
    An attempt runs a callback exactly when it got something wanted, with that; and
    waits first with the time-out it was given.
  */
  lemma AttemptViews(r: Round, tv: Option<Timeval>, h: Handlers, raw: Raw)
    ensures Callbacks(AttemptEvents(r, tv, h, raw)) == CallbackOf(r, h)
    ensures Timeouts(AttemptEvents(r, tv, h, raw)) == [tv]
  {
    AttemptCallbacks(r, tv, h, raw);
    AttemptTimeouts(r, tv, h, raw);
  }

  /** Which callback runs, and with what, in terms of the answers: at most one, for what was brought. */
  lemma CallbackRunsIff(r: Round, tv: Option<Timeval>, h: Handlers, raw: Raw, k: Kind, load: nat)
    ensures |Callbacks(AttemptEvents(r, tv, h, raw))| <= 1
    ensures Callbacks(AttemptEvents(r, tv, h, raw)) == [(k, load)]
       <==> || (k == DELIVERY && h.delivery != Ignore && r.reply == NormalReply && r.channel != 0 && load == r.payload)
            || (k == ACK && h.ack != Ignore && r.reply == LibraryError(UNEXPECTED_STATE) && r.status == OK
                && r.frame.isMethod && r.frame.id == BasicAck(load))
            || (k == RETURNED && h.returned != Ignore && r.reply == LibraryError(UNEXPECTED_STATE) && r.status == OK
                && r.frame.isMethod && r.frame.id == BasicReturn(load) && r.readReply == NormalReply)
  {
    AttemptViews(r, tv, h, raw);
  }

  lemma AttemptCallbacks(r: Round, tv: Option<Timeval>, h: Handlers, raw: Raw)
    ensures Callbacks(AttemptEvents(r, tv, h, raw)) == CallbackOf(r, h)
  {
    var acquire, wait := [Acquire(raw, ENVELOPE_VARIABLE)], [ConsumeMessage(tv)];
    var middle, end := MiddleEvents(r, tv, h, raw), EndEvents(r, h, raw);
    AttemptParts(r, tv, h, raw);
    CallbacksAppend(acquire, wait + (middle + end));
    CallbacksAppend(wait, middle + end);
    CallbacksAppend(middle, end);
    MiddleViews(r, tv, h, raw);
    Silent(acquire);
    Silent(wait);
    Silent(end);
  }

  lemma AttemptTimeouts(r: Round, tv: Option<Timeval>, h: Handlers, raw: Raw)
    ensures Timeouts(AttemptEvents(r, tv, h, raw)) == [tv]
  {
    var acquire, wait := [Acquire(raw, ENVELOPE_VARIABLE)], [ConsumeMessage(tv)];
    var middle, end := MiddleEvents(r, tv, h, raw), EndEvents(r, h, raw);
    AttemptParts(r, tv, h, raw);
    TimeoutsAppend(acquire, wait + (middle + end));
    TimeoutsAppend(wait, middle + end);
    TimeoutsAppend(middle, end);
    MiddleViews(r, tv, h, raw);
    NoFirstWait(acquire);
    NoFirstWait(end);
    assert wait[1..] == [];
  }

  // ---------------------------------------------------------------- where a loop stops

  /**
    The answers bring only what is not wanted; or, for a loop that waits for ever,
    nothing in time: the loop goes on.
  */
  predicate Skipped(r: Round, k: Kind, blocking: bool) {
    || (k != DELIVERY && Brings(r, DELIVERY))
    || (k != ACK && Brings(r, ACK))
    || (k != RETURNED && Brings(r, RETURNED))
    || (blocking && TimesOut(r))
  }

  /** The first answers that matter, or the end of the script. */
  function FirstStop(s: seq<Round>, k: Kind, blocking: bool): nat {
    if s == [] || !Skipped(s[0], k, blocking) then 0 else 1 + FirstStop(s[1..], k, blocking)
  }

  lemma {:induction false} FirstStopIsFirst(s: seq<Round>, k: Kind, blocking: bool)
    ensures var i := FirstStop(s, k, blocking);
            && i <= |s|
            && (i < |s| ==> !Skipped(s[i], k, blocking))
            && forall j :: 0 <= j < i ==> Skipped(s[j], k, blocking)
    decreases |s|
  {
    if s != [] && Skipped(s[0], k, blocking) {
      FirstStopIsFirst(s[1..], k, blocking);
      var i := FirstStop(s[1..], k, blocking);
      assert forall j :: 1 <= j < 1 + i ==> s[j] == s[1..][j - 1];
    }
  }

  /** What the caller of the loop gets when it stops at `r`, and the callbacks that ran. */
  ghost predicate StopsWith(r: Round, k: Kind, out: Outcome, callbacks: seq<(Kind, nat)>) {
    if Brings(r, k) then
      out == (if r.callback.throws then Threw(UserException) else Returned(true)) && callbacks == [(k, Load(r, k))]
    else if TimesOut(r) then out == Returned(false) && callbacks == []
    else out.Threw? && Fails(r, out.exception) && callbacks == []
  }

  /** A run that stops where it should, with the callbacks and the outcome it should have. */
  ghost predicate EndsAtFirstStop(s: seq<Round>, k: Kind, blocking: bool, run: LoopRun) {
    var i := FirstStop(s, k, blocking);
    if i >= |s| then run.out == Waiting && run.rest == [] && Callbacks(run.events) == []
    else
      && run.out.Finished? && StopsWith(s[i], k, run.out.out, Callbacks(run.events))
      && run.rest == s[i + 1..]
  }

  /** The conditions of the loops, in terms of the answers. */
  lemma GoesOnWhenSkipped(r: Round, k: Kind)
    ensures var out, called := AttemptOutcome(r, WantOnly(k)), Called(r, WantOnly(k));
            && (Skipped(r, k, false) <==> out == Returned(true) && !called)
            && (Skipped(r, k, true) <==> out.Returned? && !called)
            && forall blocking :: Skipped(r, k, blocking) ==> CallbackOf(r, WantOnly(k)) == []
    ensures forall blocking :: !Skipped(r, k, blocking) ==>
              StopsWith(r, k, AttemptOutcome(r, WantOnly(k)), CallbackOf(r, WantOnly(k)))
  {
  }

  /** One skipped attempt before a run that ends where it should. */
  lemma EndsAfterSkip(s: seq<Round>, k: Kind, blocking: bool, events: seq<Event>, more: LoopRun)
    requires s != [] && Skipped(s[0], k, blocking) && Callbacks(events) == []
    requires EndsAtFirstStop(s[1..], k, blocking, more)
    ensures EndsAtFirstStop(s, k, blocking, LoopRun(more.out, events + more.events, more.rest))
  {
    CallbacksAppend(events, more.events);
    FirstStopIsFirst(s[1..], k, blocking);
  }

  lemma EndsHere(s: seq<Round>, k: Kind, blocking: bool, events: seq<Event>)
    requires s != [] && !Skipped(s[0], k, blocking) && Callbacks(events) == CallbackOf(s[0], WantOnly(k))
    ensures EndsAtFirstStop(s, k, blocking, LoopRun(Finished(AttemptOutcome(s[0], WantOnly(k))), events, s[1..]))
  {
    GoesOnWhenSkipped(s[0], k);
  }

  /** The timed loops. */
  lemma {:induction false} TimedLoopEndsAtFirstStop(s: seq<Round>, k: Kind, budget: int, start: int, raw: Raw)
    ensures EndsAtFirstStop(s, k, false, TimedRun(s, k, budget, start, raw))
    decreases |s|
  {
    if s != [] {
      var left := NextBudget(budget, start, s[0].loopNow);
      var events := AttemptEvents(s[0], Some(TimeValue(left, NANOSECONDS)), WantOnly(k), raw);
      AttemptViews(s[0], Some(TimeValue(left, NANOSECONDS)), WantOnly(k), raw);
      GoesOnWhenSkipped(s[0], k);
      if Skipped(s[0], k, false) {
        TimedLoopEndsAtFirstStop(s[1..], k, left, start, raw + 2);
        EndsAfterSkip(s, k, false, events, TimedRun(s[1..], k, left, start, raw + 2));
      } else {
        EndsHere(s, k, false, events);
      }
    }
  }

  /** The blocking loops. */
  lemma {:induction false} BlockingLoopEndsAtFirstStop(s: seq<Round>, k: Kind, raw: Raw)
    ensures EndsAtFirstStop(s, k, true, BlockingRun(s, k, raw))
    decreases |s|
  {
    if s != [] {
      var events := AttemptEvents(s[0], None, WantOnly(k), raw);
      AttemptViews(s[0], None, WantOnly(k), raw);
      GoesOnWhenSkipped(s[0], k);
      if Skipped(s[0], k, true) {
        BlockingLoopEndsAtFirstStop(s[1..], k, raw + 2);
        EndsAfterSkip(s, k, true, events, BlockingRun(s[1..], k, raw + 2));
      } else {
        EndsHere(s, k, true, events);
      }
    }
  }

  /**
    As long as callbacks do not throw, a timed loop returns true exactly when its
    callback ran, and it runs at most once.
  */
  lemma TrueExactlyWhenCalledBack(s: seq<Round>, k: Kind, budget: int, start: int, raw: Raw)
    requires forall i :: 0 <= i < |s| ==> !s[i].callback.throws
    ensures var run := TimedRun(s, k, budget, start, raw);
            && |Callbacks(run.events)| <= 1
            && (run.out == Finished(Returned(true)) <==> Callbacks(run.events) != [])
  {
    TimedLoopEndsAtFirstStop(s, k, budget, start, raw);
    FirstStopIsFirst(s, k, false);
  }

  /**
    A blocking loop ends when the script has something wanted before any error: at
    the first such event, after one attempt for each event before it and one for it.
  */
  lemma BlockingLoopEnds(s: seq<Round>, k: Kind, raw: Raw, i: nat)
    requires i < |s| && Brings(s[i], k)
    requires forall j :: 0 <= j < i ==> Skipped(s[j], k, true)
    ensures var run := BlockingRun(s, k, raw);
            && run.out == Finished(if s[i].callback.throws then Threw(UserException) else Returned(true))
            && Callbacks(run.events) == [(k, Load(s[i], k))]
            && |run.rest| == |s| - (i + 1)
  {
    BlockingLoopEndsAtFirstStop(s, k, raw);
    FirstStopIsFirst(s, k, true);
    assert !Skipped(s[i], k, true);
  }

  // ---------------------------------------------------------------- the time-outs of a loop

  /** A blocking loop waits without a limit, every time. */
  lemma {:induction false} BlockingLoopTimeouts(s: seq<Round>, k: Kind, raw: Raw)
    ensures var tvs := Timeouts(BlockingRun(s, k, raw).events);
            && |tvs| == (if FirstStop(s, k, true) < |s| then FirstStop(s, k, true) + 1 else |s|)
            && forall j :: 0 <= j < |tvs| ==> tvs[j] == None
    decreases |s|
  {
    if s != [] {
      var events := AttemptEvents(s[0], None, WantOnly(k), raw);
      AttemptViews(s[0], None, WantOnly(k), raw);
      GoesOnWhenSkipped(s[0], k);
      if Skipped(s[0], k, true) {
        TimeoutsAppend(events, BlockingRun(s[1..], k, raw + 2).events);
        BlockingLoopTimeouts(s[1..], k, raw + 2);
        FirstStopIsFirst(s[1..], k, true);
      }
    }
  }

  function Nows(s: seq<Round>): seq<int> {
    seq(|s|, i requires 0 <= i < |s| => s[i].loopNow)
  }

  lemma {:induction false} BudgetFromFront(timeout: int, start: int, now: int, nows: seq<int>)
    ensures BudgetAfter(timeout, start, [now] + nows) == BudgetAfter(NextBudget(timeout, start, now), start, nows)
    decreases |nows|
  {
    var all := [now] + nows;
    if nows == [] {
      assert all[..0] == [];
    } else {
      assert all[..|all| - 1] == [now] + nows[..|nows| - 1];
      BudgetFromFront(timeout, start, now, nows[..|nows| - 1]);
    }
  }

  /** The time-outs of attempts that begin at `s`, with `budget` left. */
  ghost predicate BudgetedTimeouts(tvs: seq<Option<Timeval>>, s: seq<Round>, budget: int, start: int) {
    |tvs| <= |s| && forall j :: 0 <= j < |tvs| ==>
      tvs[j] == Some(TimeValue(BudgetAfter(budget, start, Nows(s[..j + 1])), NANOSECONDS))
  }

  lemma BudgetedFromFront(tvs: seq<Option<Timeval>>, s: seq<Round>, budget: int, start: int)
    requires s != []
    requires BudgetedTimeouts(tvs, s[1..], NextBudget(budget, start, s[0].loopNow), start)
    ensures var left := NextBudget(budget, start, s[0].loopNow);
            BudgetedTimeouts([Some(TimeValue(left, NANOSECONDS))] + tvs, s, budget, start)
  {
    var all := [Some(TimeValue(NextBudget(budget, start, s[0].loopNow), NANOSECONDS))] + tvs;
    forall j | 0 <= j < |all|
      ensures all[j] == Some(TimeValue(BudgetAfter(budget, start, Nows(s[..j + 1])), NANOSECONDS))
    {
      assert Nows(s[..j + 1]) == [s[0].loopNow] + Nows(s[1..][..j]);
      BudgetFromFront(budget, start, s[0].loopNow, Nows(s[1..][..j]));
      if j == 0 { assert Nows(s[1..][..0]) == []; }
    }
  }

  /** Each attempt of a timed loop waits with the budget left by all clock readings so far, cut to microseconds. */
  lemma {:induction false} TimedLoopTimeouts(s: seq<Round>, k: Kind, budget: int, start: int, raw: Raw)
    ensures var tvs := Timeouts(TimedRun(s, k, budget, start, raw).events);
            && BudgetedTimeouts(tvs, s, budget, start)
            && |tvs| == (if FirstStop(s, k, false) < |s| then FirstStop(s, k, false) + 1 else |s|)
    decreases |s|
  {
    if s != [] {
      var left := NextBudget(budget, start, s[0].loopNow);
      var tv := Some(TimeValue(left, NANOSECONDS));
      var events := AttemptEvents(s[0], tv, WantOnly(k), raw);
      AttemptViews(s[0], tv, WantOnly(k), raw);
      GoesOnWhenSkipped(s[0], k);
      if Skipped(s[0], k, false) {
        var more := TimedRun(s[1..], k, left, start, raw + 2);
        TimeoutsAppend(events, more.events);
        TimedLoopTimeouts(s[1..], k, left, start, raw + 2);
        FirstStopIsFirst(s[1..], k, false);
        BudgetedFromFront(Timeouts(more.events), s, budget, start);
      } else {
        BudgetedFromFront([], s, budget, start);
        assert [tv] + [] == [tv];
      }
    }
  }
}
