/**
  Books of who owns which raw structure, kept along the log of consumption, and
  the proof that every attempt balances them on every path: normal return,
  time-out, each exception, and a throwing callback.
*/
module ConsumeOwnership {
  import opened Replies
  import opened Durations
  import opened Ownership
  import opened Consume
  import Budget

  /** The owner of each raw structure that has one; numbers from `next` on were never seen. */
  datatype Books = Books(owners: map<Raw, Owner>, next: Raw)

  /** `None` once an event is at odds with the books. */
  ghost function Record(b: Option<Books>, e: Event): Option<Books> {
    match b
    case None => None
    case Some(Books(owners, next)) =>
      match e
      case Acquire(raw, o) => if raw < next then None else Some(Books(owners[raw := o], raw + 1))
      case Transfer(raw, s, t) =>
        if raw in owners && owners[raw] == s then Some(Books(owners[raw := t], next)) else None
      case Destroyed(raw, o) => if raw in owners && owners[raw] == o then Some(Books(owners - {raw}, next)) else None
      case ReleaseBuffers => if OnlyKept(owners) then b else None
      case _ => b
  }

  /** The library may release its buffers: everything not kept by a callback is gone. */
  ghost predicate OnlyKept(owners: map<Raw, Owner>) {
    forall raw :: raw in owners ==> owners[raw] == USER
  }

  ghost function RecordAll(b: Option<Books>, events: seq<Event>): Option<Books>
    decreases |events|
  {
    if events == [] then b else RecordAll(Record(b, events[0]), events[1..])
  }

  lemma {:induction false} RecordAppend(b: Option<Books>, x: seq<Event>, y: seq<Event>)
    ensures RecordAll(b, x + y) == RecordAll(RecordAll(b, x), y)
    decreases |x|
  {
    if x == [] {
      assert x + y == y;
    } else {
      assert (x + y)[1..] == x[1..] + y;
      RecordAppend(Record(b, x[0]), x[1..], y);
    }
  }

  lemma RecordOne(b: Option<Books>, e: Event)
    ensures RecordAll(b, [e]) == Record(b, e)
  {
    assert [e][1..] == [];
  }

  lemma RecordTwo(b: Option<Books>, e: Event, f: Event)
    ensures RecordAll(b, [e, f]) == Record(Record(b, e), f)
  {
    assert [e, f][1..] == [f];
    RecordOne(Record(b, e), f);
  }

  // ---------------------------------------------------------------- one attempt

  function Keep(owners: map<Raw, Owner>, raw: Raw, take: Take): map<Raw, Owner> {
    if take == Keeps then owners[raw := USER] else owners
  }

  lemma Overwrite(owners: map<Raw, Owner>, raw: Raw, o: Owner, p: Owner)
    ensures owners[raw := o][raw := p] == owners[raw := p]
    ensures raw !in owners ==> owners[raw := o] - {raw} == owners
  {
  }

  /** Handing an object to a wanted callback ends with the callback having kept it, or it destroyed. */
  lemma HandBalances(owners: map<Raw, Owner>, next: Raw, raw: Raw, source: Owner, k: Kind, payload: nat, take: Take)
    requires raw !in owners
    ensures RecordAll(Some(Books(owners[raw := source], next)), HandEvents(raw, source, k, payload, take))
         == Some(Books(Keep(owners, raw, take), next))
  {
    var b := Some(Books(owners[raw := source], next));
    var handed := Some(Books(owners[raw := CALLBACK_PARAMETER], next));
    var hand := [Transfer(raw, source, CALLBACK_PARAMETER), Callback(k, payload)];
    RecordTwo(b, hand[0], hand[1]);
    Overwrite(owners, raw, source, CALLBACK_PARAMETER);
    Overwrite(owners, raw, CALLBACK_PARAMETER, USER);
    Overwrite(owners, raw, USER, USER);
    RecordAppend(b, hand, TakeEvents(raw, take));
    match take
    case Looks => RecordOne(handed, Destroyed(raw, CALLBACK_PARAMETER));
    case Drops => RecordTwo(handed, Transfer(raw, CALLBACK_PARAMETER, USER), Destroyed(raw, USER));
    case Keeps => RecordOne(handed, Transfer(raw, CALLBACK_PARAMETER, USER));
  }

  function KeepReturned(owners: map<Raw, Owner>, r: Round, h: Handlers, raw: Raw): map<Raw, Owner> {
    if ProcessReply(r.readReply).None? && h.returned == Call then Keep(owners, raw, r.callback.take) else owners
  }

  /** The message read for a returned message, through all its moves. */
  lemma ReturnedBalances(owners: map<Raw, Owner>, next: Raw, r: Round, h: Handlers, raw: Raw, payload: nat)
    requires raw !in owners && next <= raw
    ensures RecordAll(Some(Books(owners, next)), ReturnedEvents(r, h, raw, payload))
         == Some(Books(KeepReturned(owners, r, h, raw), raw + 1))
  {
    var b := Some(Books(owners, next));
    var read := [Acquire(raw, MESSAGE_VARIABLE), ReadMessage(r.frame.channel)];
    var b1 := Some(Books(owners[raw := MESSAGE_VARIABLE], raw + 1));
    RecordTwo(b, read[0], read[1]);
    if ProcessReply(r.readReply).Some? {
      RecordAppend(b, read, [Destroyed(raw, MESSAGE_VARIABLE)]);
      RecordOne(b1, Destroyed(raw, MESSAGE_VARIABLE));
      Overwrite(owners, raw, MESSAGE_VARIABLE, USER);
    } else {
      var moves := [Transfer(raw, MESSAGE_VARIABLE, CONSTRUCTOR_PARAMETER),
                    Transfer(raw, CONSTRUCTOR_PARAMETER, RETURNED_MESSAGE)];
      var last := MessageEvents(r, h, raw, payload);
      var b2 := Some(Books(owners[raw := RETURNED_MESSAGE], raw + 1));
      RecordTwo(b1, moves[0], moves[1]);
      Overwrite(owners, raw, MESSAGE_VARIABLE, CONSTRUCTOR_PARAMETER);
      Overwrite(owners, raw, CONSTRUCTOR_PARAMETER, RETURNED_MESSAGE);
      Overwrite(owners, raw, RETURNED_MESSAGE, USER);
      RecordAppend(b, read, moves + last);
      RecordAppend(b1, moves, last);
      match h.returned
      case Ignore => RecordOne(b2, Destroyed(raw, RETURNED_MESSAGE));
      case Look => RecordTwo(b2, Callback(RETURNED, payload), Destroyed(raw, RETURNED_MESSAGE));
      case Call => HandBalances(owners, raw + 1, raw, RETURNED_MESSAGE, RETURNED, payload, r.callback.take);
    }
  }

  predicate MessageRead(r: Round) {
    r.reply == LibraryError(UNEXPECTED_STATE) && r.status == OK && r.frame.isMethod && r.frame.id.BasicReturn?
  }

  function NextRaw(r: Round, raw: Raw): Raw {
    if MessageRead(r) then raw + 2 else raw + 1
  }

  /** The waits and everything after them, when no envelope was delivered. */
  lemma FrameBalances(owners: map<Raw, Owner>, r: Round, tv: Option<Timeval>, h: Handlers, raw: Raw)
    requires r.reply == LibraryError(UNEXPECTED_STATE)
    requires raw + 1 !in owners
    ensures RecordAll(Some(Books(owners, raw + 1)), FrameEvents(r, tv, h, raw + 1))
         == Some(Books(if MessageRead(r) then KeepReturned(owners, r, h, raw + 1) else owners, NextRaw(r, raw)))
  {
    var b := Some(Books(owners, raw + 1));
    var wait := [WaitFrame(SecondTimeout(tv, r.start, r.now))];
    RecordOne(b, wait[0]);
    if MessageRead(r) {
      RecordAppend(b, wait, ReturnedEvents(r, h, raw + 1, r.frame.id.payload));
      ReturnedBalances(owners, raw + 1, r, h, raw + 1, r.frame.id.payload);
    } else if r.status == OK && r.frame.isMethod && r.frame.id.BasicAck? && h.ack != Ignore {
      RecordAppend(b, wait, [Callback(ACK, r.frame.id.tag)]);
      RecordOne(b, Callback(ACK, r.frame.id.tag));
    } else {
      assert FrameEvents(r, tv, h, raw + 1) == wait;
    }
  }

  /** The owners after an attempt: those before, and what the callback kept. */
  function OwnersAfter(owners: map<Raw, Owner>, r: Round, h: Handlers, raw: Raw): map<Raw, Owner> {
    if !Called(r, h) || h.For(Classify(r).kind) != Call then owners
    else
      match Classify(r).kind
      case DELIVERY => Keep(owners, raw, r.callback.take)
      case RETURNED => Keep(owners, raw + 1, r.callback.take)
      case ACK => owners
  }

  /** Books with only kept structures in them, all of them older than `raw`. */
  ghost predicate Balanced(b: Option<Books>, raw: Raw) {
    b.Some? && OnlyKept(b.value.owners) && b.value.next <= raw && forall x :: x in b.value.owners ==> x < raw
  }

  /**
    On every path of an attempt each raw structure has one owner at a time, those
    the callback did not keep are destroyed once, and only then are the buffers
    released; nothing else is left behind.
  */
  lemma AttemptBalances(b: Books, r: Round, tv: Option<Timeval>, h: Handlers, raw: Raw)
    requires Balanced(Some(b), raw)
    ensures var b' := Some(Books(OwnersAfter(b.owners, r, h, raw), NextRaw(r, raw)));
            RecordAll(Some(b), AttemptEvents(r, tv, h, raw)) == b' && Balanced(b', raw + 2)
  {
    var start := [Acquire(raw, ENVELOPE_VARIABLE), ConsumeMessage(tv)];
    var middle := MiddleEvents(r, tv, h, raw);
    var end := if EnvelopeHandedOn(r, h) then [] else [Destroyed(raw, ENVELOPE_VARIABLE)];
    var b1 := Some(Books(b.owners[raw := ENVELOPE_VARIABLE], raw + 1));
    RecordTwo(Some(b), start[0], start[1]);
    RecordAppend(Some(b), start, middle);
    RecordAppend(Some(b), start + middle, end);
    RecordAppend(Some(b), start + middle + end, [ReleaseBuffers]);
    MiddleBalances(b.owners, r, tv, h, raw);
    EndBalances(b.owners, r, tv, h, raw);
    OnlyKeptAfter(b.owners, r, h, raw);
    RecordOne(Some(Books(OwnersAfter(b.owners, r, h, raw), NextRaw(r, raw))), ReleaseBuffers);
  }

  lemma OnlyKeptAfter(owners: map<Raw, Owner>, r: Round, h: Handlers, raw: Raw)
    requires OnlyKept(owners) && forall x :: x in owners ==> x < raw
    ensures var after := OwnersAfter(owners, r, h, raw);
            OnlyKept(after) && forall x :: x in after ==> x < raw + 2
  {
  }

  /** The owners between handing on and the end of scope. */
  function OwnersBetween(owners: map<Raw, Owner>, r: Round, h: Handlers, raw: Raw): map<Raw, Owner> {
    OwnersAfter(if EnvelopeHandedOn(r, h) then owners else owners[raw := ENVELOPE_VARIABLE], r, h, raw)
  }

  lemma MiddleBalances(owners: map<Raw, Owner>, r: Round, tv: Option<Timeval>, h: Handlers, raw: Raw)
    requires raw !in owners && raw + 1 !in owners
    ensures RecordAll(Some(Books(owners[raw := ENVELOPE_VARIABLE], raw + 1)), MiddleEvents(r, tv, h, raw))
         == Some(Books(OwnersBetween(owners, r, h, raw), NextRaw(r, raw)))
  {
    if EnvelopeHandedOn(r, h) {
      HandBalances(owners, raw + 1, raw, ENVELOPE_VARIABLE, DELIVERY, r.payload, r.callback.take);
    } else if r.reply.NormalReply? && r.channel != 0 && h.delivery == Look {
      RecordOne(Some(Books(owners[raw := ENVELOPE_VARIABLE], raw + 1)), Callback(DELIVERY, r.payload));
    } else if r.reply == LibraryError(UNEXPECTED_STATE) {
      FrameBalances(owners[raw := ENVELOPE_VARIABLE], r, tv, h, raw);
    }
  }

  lemma EndBalances(owners: map<Raw, Owner>, r: Round, tv: Option<Timeval>, h: Handlers, raw: Raw)
    requires raw !in owners
    ensures RecordAll(Some(Books(OwnersBetween(owners, r, h, raw), NextRaw(r, raw))),
              if EnvelopeHandedOn(r, h) then [] else [Destroyed(raw, ENVELOPE_VARIABLE)])
         == Some(Books(OwnersAfter(owners, r, h, raw), NextRaw(r, raw)))
  {
    if !EnvelopeHandedOn(r, h) {
      EnvelopeLast(owners, r, h, raw);
      RecordOne(Some(Books(OwnersBetween(owners, r, h, raw), NextRaw(r, raw))), Destroyed(raw, ENVELOPE_VARIABLE));
    }
  }

  lemma EnvelopeLast(owners: map<Raw, Owner>, r: Round, h: Handlers, raw: Raw)
    requires raw !in owners && !EnvelopeHandedOn(r, h)
    ensures var all := OwnersAfter(owners[raw := ENVELOPE_VARIABLE], r, h, raw);
            raw in all && all[raw] == ENVELOPE_VARIABLE && all - {raw} == OwnersAfter(owners, r, h, raw)
  {
    assert owners[raw := ENVELOPE_VARIABLE][raw + 1 := USER] - {raw} == owners[raw + 1 := USER];
    Overwrite(owners, raw, ENVELOPE_VARIABLE, USER);
  }

  lemma MiddleReleasesNothing(r: Round, tv: Option<Timeval>, h: Handlers, raw: Raw)
    ensures ReleaseBuffers !in MiddleEvents(r, tv, h, raw)
  {
    assert forall x, o, k, p, t :: ReleaseBuffers !in HandEvents(x, o, k, p, t);
    if r.reply == LibraryError(UNEXPECTED_STATE) && r.frame.id.BasicReturn? {
      assert ReleaseBuffers !in ReturnedEvents(r, h, raw + 1, r.frame.id.payload);
    }
  }

  /** The buffers are released once in an attempt: last. */
  lemma ReleasedOnceAndLast(r: Round, tv: Option<Timeval>, h: Handlers, raw: Raw)
    ensures var events := AttemptEvents(r, tv, h, raw);
            && events != [] && events[|events| - 1] == ReleaseBuffers
            && ReleaseBuffers !in events[..|events| - 1]
  {
    MiddleReleasesNothing(r, tv, h, raw);
    var events := AttemptEvents(r, tv, h, raw);
    assert events[..|events| - 1]
        == [Acquire(raw, ENVELOPE_VARIABLE), ConsumeMessage(tv)] + MiddleEvents(r, tv, h, raw)
         + (if EnvelopeHandedOn(r, h) then [] else [Destroyed(raw, ENVELOPE_VARIABLE)]);
  }

  // ---------------------------------------------------------------- whole loops

  /** The books balance over a whole timed loop, however long ... */
  lemma {:induction false} TimedLoopBalances(b: Books, s: seq<Round>, k: Kind, budget: int, start: int, raw: Raw)
    requires Balanced(Some(b), raw)
    ensures Balanced(RecordAll(Some(b), TimedRun(s, k, budget, start, raw).events), raw + 2 * |s|)
    decreases |s|
  {
    if s != [] {
      var left := Budget.NextBudget(budget, start, s[0].loopNow);
      var tv := Some(TimeValue(left, NANOSECONDS));
      var events := AttemptEvents(s[0], tv, WantOnly(k), raw);
      AttemptBalances(b, s[0], tv, WantOnly(k), raw);
      RecordAppend(Some(b), events, TimedRun(s[1..], k, left, start, raw + 2).events);
      TimedLoopBalances(RecordAll(Some(b), events).value, s[1..], k, left, start, raw + 2);
    }
  }

  /** ... and over a blocking one. */
  lemma {:induction false} BlockingLoopBalances(b: Books, s: seq<Round>, k: Kind, raw: Raw)
    requires Balanced(Some(b), raw)
    ensures Balanced(RecordAll(Some(b), BlockingRun(s, k, raw).events), raw + 2 * |s|)
    decreases |s|
  {
    if s != [] {
      var events := AttemptEvents(s[0], None, WantOnly(k), raw);
      AttemptBalances(b, s[0], None, WantOnly(k), raw);
      RecordAppend(Some(b), events, BlockingRun(s[1..], k, raw + 2).events);
      BlockingLoopBalances(RecordAll(Some(b), events).value, s[1..], k, raw + 2);
    }
  }
}
