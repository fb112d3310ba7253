/**
  What every interleaving of the worker, the processing threads and `stop` keeps:
  nothing delivered is lost or duplicated while a connection lasts, no id enters
  the ack queue twice, acknowledgements go out in the order the threads asked for
  them, and ids of a lost connection that are still acknowledged on a later one
  are exactly those that threads held when the ack queue was cleared.
*/
module ConsumerProofs {
  import opened AdvConsumer

  // ---------------------------------------------------------------- counting

  function Times(ids: seq<Id>, id: Id): nat {
    if ids == [] then 0 else Times(ids[1..], id) + if ids[0] == id then 1 else 0
  }

  function TimesOne(x: Option<Message>, id: Id): nat {
    if x.Some? && x.value.id == id then 1 else 0
  }

  function TimesHeld(held: seq<Option<Message>>, id: Id): nat {
    if held == [] then 0 else TimesOne(held[0], id) + TimesHeld(held[1..], id)
  }

  /** How many of the ids were delivered on a connection before `epoch`. */
  function Stale(ids: seq<Id>, epoch: nat): nat {
    if ids == [] then 0 else Stale(ids[1..], epoch) + if ids[0].epoch < epoch then 1 else 0
  }

  function StaleOne(x: Option<Message>, epoch: nat): nat {
    if x.Some? && x.value.id.epoch < epoch then 1 else 0
  }

  function StaleHeld(held: seq<Option<Message>>, epoch: nat): nat {
    if held == [] then 0 else StaleOne(held[0], epoch) + StaleHeld(held[1..], epoch)
  }

  lemma {:induction false} TimesAppend(a: seq<Id>, b: seq<Id>, id: Id)
    ensures Times(a + b, id) == Times(a, id) + Times(b, id)
  {
    if a == [] {
      assert a + b == b;
    } else {
      TimesAppend(a[1..], b, id);
      assert (a + b)[1..] == a[1..] + b;
    }
  }

  lemma {:induction false} TimesIn(ids: seq<Id>, id: Id)
    ensures id in ids <==> Times(ids, id) > 0
  {
    if ids != [] {
      TimesIn(ids[1..], id);
      assert id in ids <==> id == ids[0] || id in ids[1..];
    }
  }

  lemma {:induction false} TimesHeldSet(held: seq<Option<Message>>, t: nat, x: Option<Message>, id: Id)
    requires t < |held|
    ensures TimesHeld(held[t := x], id) + TimesOne(held[t], id) == TimesHeld(held, id) + TimesOne(x, id)
  {
    if t == 0 {
      assert held[t := x][1..] == held[1..];
    } else {
      TimesHeldSet(held[1..], t - 1, x, id);
      assert held[t := x][1..] == held[1..][t - 1 := x];
    }
  }

  lemma {:induction false} StaleHeldSet(held: seq<Option<Message>>, t: nat, x: Option<Message>, epoch: nat)
    requires t < |held|
    ensures StaleHeld(held[t := x], epoch) + StaleOne(held[t], epoch) == StaleHeld(held, epoch) + StaleOne(x, epoch)
  {
    if t == 0 {
      assert held[t := x][1..] == held[1..];
    } else {
      StaleHeldSet(held[1..], t - 1, x, epoch);
      assert held[t := x][1..] == held[1..][t - 1 := x];
    }
  }

  lemma {:induction false} HeldCountSet(held: seq<Option<Message>>, t: nat, x: Option<Message>)
    requires t < |held|
    ensures HeldCount(held[t := x]) + (if held[t].Some? then 1 else 0) == HeldCount(held) + (if x.Some? then 1 else 0)
  {
    if t == 0 {
      assert held[t := x][1..] == held[1..];
    } else {
      HeldCountSet(held[1..], t - 1, x);
      assert held[t := x][1..] == held[1..][t - 1 := x];
    }
  }

  lemma {:induction false} HeldCountBound(held: seq<Option<Message>>)
    ensures HeldCount(held) <= |held|
  {
    if held != [] {
      HeldCountBound(held[1..]);
    }
  }

  lemma {:induction false} StaleAppend(a: seq<Id>, b: seq<Id>, epoch: nat)
    ensures Stale(a + b, epoch) == Stale(a, epoch) + Stale(b, epoch)
  {
    if a == [] {
      assert a + b == b;
    } else {
      StaleAppend(a[1..], b, epoch);
      assert (a + b)[1..] == a[1..] + b;
    }
  }

  /** When all ids are older than `epoch`, all are stale. */
  lemma {:induction false} AllStale(ids: seq<Id>, epoch: nat)
    requires forall id :: id in ids ==> id.epoch < epoch
    ensures Stale(ids, epoch) == |ids|
  {
    if ids != [] {
      AllStale(ids[1..], epoch);
    }
  }

  lemma {:induction false} AllHeldStale(held: seq<Option<Message>>, epoch: nat)
    requires forall x :: x in held && x.Some? ==> x.value.id.epoch < epoch
    ensures StaleHeld(held, epoch) == HeldCount(held)
  {
    if held != [] {
      AllHeldStale(held[1..], epoch);
    }
  }

  lemma {:induction false} StaleIsIn(ids: seq<Id>, epoch: nat)
    ensures Stale(ids, epoch) == 0 <==> forall id :: id in ids ==> id.epoch >= epoch
  {
    if ids != [] {
      StaleIsIn(ids[1..], epoch);
      assert forall id :: id in ids <==> id == ids[0] || id in ids[1..];
    }
  }

  lemma {:induction false} IdleHolds(held: seq<Option<Message>>, id: Id)
    requires forall i :: 0 <= i < |held| ==> held[i].None?
    ensures TimesHeld(held, id) == 0 && HeldCount(held) == 0 && StaleHeld(held, 0) == 0
  {
    if held != [] {
      IdleHolds(held[1..], id);
    }
  }

  lemma {:induction false} HeldIn(held: seq<Option<Message>>, t: nat)
    requires t < |held| && held[t].Some?
    ensures TimesHeld(held, held[t].value.id) > 0
  {
    if t > 0 {
      HeldIn(held[1..], t - 1);
    }
  }

  // ---------------------------------------------------------------- the invariant

  /** How often an id is in the program's hands or in the history of the ack queue. */
  ghost function Total(s: State, id: Id): nat {
    Times(Ids(s.messages), id) + TimesHeld(s.held, id) + Times(s.everQueued, id)
  }

  /** In how many places of the current connection an id is: queued, held, ack-queued, acknowledged. */
  ghost function Places(s: State, id: Id): nat {
    Times(Ids(s.messages), id) + TimesHeld(s.held, id) + Times(s.ackQueue, id) + Times(s.sent, id)
  }

  ghost predicate Phases(s: State) {
    && (s.phase in {OUTER_HEAD, CONNECTING, CLEAR_ACKS} ==> !s.connected)
    && (s.phase in {LOOP_HEAD, CONSUMING, ACKING} ==> s.connected)
    && (!s.connected ==> s.messages == [])
    && (forall m :: m in s.messages ==> m.id.epoch == s.epoch)
  }

  ghost predicate FreshAt(s: State, id: Id) {
    && Times(Ids(s.delivered), id) <= 1
    && (Times(Ids(s.delivered), id) > 0 ==> id.epoch == s.epoch)
    && Total(s, id) <= 1
    && (Total(s, id) > 0 ==> id.epoch <= s.epoch)
    && (Total(s, id) > 0 && id.epoch == s.epoch ==> Times(Ids(s.delivered), id) == 1)
    && Times(s.ackQueue, id) <= Times(s.everQueued, id)
  }

  ghost predicate Fresh(s: State) {
    forall id :: FreshAt(s, id)
  }

  ghost predicate PlacedAt(s: State, id: Id) {
    s.connected && id.epoch == s.epoch ==> Places(s, id) == Times(Ids(s.delivered), id)
  }

  ghost predicate Conserved(s: State) {
    && (s.connected ==> s.received + s.messages == s.delivered)
    && forall id :: PlacedAt(s, id)
  }

  ghost predicate InOrder(s: State) {
    && s.mark <= |s.everQueued|
    && (s.connected ==> s.everQueued[s.mark..] == s.sent + s.ackQueue)
    && (!s.connected && s.phase != CLEAR_ACKS ==> s.everQueued[s.mark..] == s.ackQueue)
  }

  /** The stale ids of the current connection, wherever they are. */
  ghost function StaleTotal(s: State): nat {
    Stale(s.sent, s.epoch) + Stale(s.ackQueue, s.epoch) + StaleHeld(s.held, s.epoch)
  }

  ghost predicate Bounded(s: State) {
    && s.carried <= |s.held|
    && StaleTotal(s) <= |s.held|
    && (s.connected ==> StaleTotal(s) == s.carried)
    && (!s.connected && s.phase != CLEAR_ACKS ==> |s.ackQueue| + HeldCount(s.held) == s.carried)
  }

  ghost predicate Inv(s: State) {
    Phases(s) && Fresh(s) && Conserved(s) && InOrder(s) && Bounded(s)
  }

  lemma StartedInv(threads: nat)
    ensures Inv(Started(threads))
  {
    forall id ensures FreshAt(Started(threads), id) && PlacedAt(Started(threads), id) {
      IdleHolds(Started(threads).held, id);
    }
    IdleHolds(Started(threads).held, Id(0, 0));
  }

  lemma DeliverKeepsId(s: State, step: Step, id: Id)
    requires step.Deliver? && Enabled(s, step) && FreshAt(s, id) && PlacedAt(s, id)
    ensures FreshAt(Next(s, step), id) && PlacedAt(Next(s, step), id)
  {
    var m := Message(Id(s.epoch, step.tag), step.body);
    assert Ids(s.messages + [m]) == Ids(s.messages) + [m.id];
    assert Ids(s.delivered + [m]) == Ids(s.delivered) + [m.id];
    TimesAppend(Ids(s.messages), [m.id], id);
    TimesAppend(Ids(s.delivered), [m.id], id);
    TimesIn(Ids(s.delivered), id);
  }

  lemma ReceiveKeepsId(s: State, step: Step, id: Id)
    requires step.Receive? && Enabled(s, step) && FreshAt(s, id) && PlacedAt(s, id)
    ensures FreshAt(Next(s, step), id) && PlacedAt(Next(s, step), id)
  {
    if s.messages != [] {
      assert Ids(s.messages[1..]) == Ids(s.messages)[1..];
      TimesHeldSet(s.held, step.thread, Some(s.messages[0]), id);
    }
  }

  lemma AcknowledgeKeepsId(s: State, step: Step, id: Id)
    requires step.Acknowledge? && Enabled(s, step) && FreshAt(s, id) && PlacedAt(s, id)
    ensures FreshAt(Next(s, step), id) && PlacedAt(Next(s, step), id)
  {
    var queued := s.held[step.thread].value.id;
    TimesHeldSet(s.held, step.thread, None, id);
    TimesAppend(s.ackQueue, [queued], id);
    TimesAppend(s.everQueued, [queued], id);
  }

  lemma AckKeepsId(s: State, step: Step, id: Id)
    requires step.AckFront? && Enabled(s, step) && FreshAt(s, id) && PlacedAt(s, id)
    ensures FreshAt(Next(s, step), id) && PlacedAt(Next(s, step), id)
  {
    TimesAppend(s.sent, [s.ackQueue[0]], id);
  }

  /** The steps that move no message and no id from where it is. */
  lemma OthersKeepId(s: State, step: Step, id: Id)
    requires Enabled(s, step) && Phases(s) && FreshAt(s, id) && PlacedAt(s, id)
    requires !step.Deliver? && !step.Receive? && !step.Acknowledge? && !step.AckFront?
    ensures FreshAt(Next(s, step), id) && PlacedAt(Next(s, step), id)
  {
  }

  lemma StepKeepsId(s: State, step: Step, id: Id)
    requires Enabled(s, step) && Phases(s) && FreshAt(s, id) && PlacedAt(s, id)
    ensures FreshAt(Next(s, step), id) && PlacedAt(Next(s, step), id)
  {
    if step.Deliver? {
      DeliverKeepsId(s, step, id);
    } else if step.Receive? {
      ReceiveKeepsId(s, step, id);
    } else if step.Acknowledge? {
      AcknowledgeKeepsId(s, step, id);
    } else if step.AckFront? {
      AckKeepsId(s, step, id);
    } else {
      OthersKeepId(s, step, id);
    }
  }

  lemma StepKeepsIds(s: State, step: Step)
    requires Enabled(s, step) && Phases(s) && Fresh(s) && Conserved(s)
    ensures Fresh(Next(s, step)) && Conserved(Next(s, step))
  {
    forall id ensures FreshAt(Next(s, step), id) && PlacedAt(Next(s, step), id) {
      assert FreshAt(s, id) && PlacedAt(s, id);
      StepKeepsId(s, step, id);
    }
    if step.Receive? && s.messages != [] {
      assert s.messages == [s.messages[0]] + s.messages[1..];
    }
  }

  lemma StepKeepsInOrder(s: State, step: Step)
    requires Enabled(s, step) && Phases(s) && InOrder(s)
    ensures InOrder(Next(s, step))
  {
    var s' := Next(s, step);
    if step.AckFront? {
      assert s.ackQueue == [s.ackQueue[0]] + s.ackQueue[1..];
    }
    if step.Acknowledge? {
      assert s'.everQueued[s'.mark..] == s.everQueued[s.mark..] + [s.held[step.thread].value.id];
    }
  }

  /** Stale ids move between queue, threads and acknowledgements, but none is added. */
  lemma StaleMoves(s: State, step: Step)
    requires Enabled(s, step) && Phases(s) && Fresh(s) && !step.Connect? && !step.ClearAcks?
    ensures StaleTotal(Next(s, step)) == StaleTotal(s)
    ensures s.messages == [] ==>
      |Next(s, step).ackQueue| + HeldCount(Next(s, step).held) <= |s.ackQueue| + HeldCount(s.held)
    ensures s.messages == [] && !step.AckFront? ==>
      |Next(s, step).ackQueue| + HeldCount(Next(s, step).held) == |s.ackQueue| + HeldCount(s.held)
  {
    match step
    case AckFront(throws) =>
      StaleAppend(s.sent, [s.ackQueue[0]], s.epoch);
    case Receive(t) =>
      if s.messages != [] {
        var x := Some(s.messages[0]);
        StaleHeldSet(s.held, t, x, s.epoch);
        assert s.messages[0] in s.messages;
      }
    case Acknowledge(t) =>
      StaleAppend(s.ackQueue, [s.held[t].value.id], s.epoch);
      StaleHeldSet(s.held, t, None, s.epoch);
      HeldCountSet(s.held, t, None);
    case _ =>
  }

  lemma StepKeepsBounded(s: State, step: Step)
    requires Enabled(s, step) && Phases(s) && Fresh(s) && Bounded(s)
    ensures Bounded(Next(s, step))
  {
    var s' := Next(s, step);
    if step.Connect? {
      if step.ok {
        forall id | id in s.ackQueue ensures id.epoch < s'.epoch {
          assert FreshAt(s, id);
          TimesIn(s.ackQueue, id);
        }
        forall t: nat | t < |s.held| && s.held[t].Some? ensures s.held[t].value.id.epoch < s'.epoch {
          assert FreshAt(s, s.held[t].value.id);
          HeldIn(s.held, t);
        }
        AllStale(s.ackQueue, s'.epoch);
        AllHeldStale(s.held, s'.epoch);
      }
    } else if step.ClearAcks? {
      HeldCountBound(s.held);
    } else {
      StaleMoves(s, step);
    }
  }

  lemma StepKeepsPhases(s: State, step: Step)
    requires Enabled(s, step) && Phases(s)
    ensures Phases(Next(s, step))
  {
  }

  lemma StepKeepsInv(s: State, step: Step)
    requires Enabled(s, step) && Inv(s)
    ensures Inv(Next(s, step))
  {
    StepKeepsPhases(s, step);
    StepKeepsIds(s, step);
    StepKeepsInOrder(s, step);
    StepKeepsBounded(s, step);
  }

  lemma {:induction false} RunKeepsInv(s: State, steps: seq<Step>, s': State)
    requires Inv(s) && Runs(s, steps, s')
    ensures Inv(s')
    decreases |steps|
  {
    if steps != [] {
      StepKeepsInv(s, steps[0]);
      RunKeepsInv(Next(s, steps[0]), steps[1..], s');
    }
  }

  // ---------------------------------------------------------------- over all runs

  lemma {:induction false} TimesTwice(ids: seq<Id>, i: nat, j: nat)
    requires i < j < |ids| && ids[i] == ids[j]
    ensures Times(ids, ids[i]) >= 2
  {
    if i == 0 {
      assert ids[1..][j - 1] == ids[j];
      TimesIn(ids[1..], ids[0]);
    } else {
      TimesTwice(ids[1..], i - 1, j - 1);
    }
  }

  lemma {:induction false} RunKeepsThreads(s: State, steps: seq<Step>, s': State)
    requires Runs(s, steps, s')
    ensures |s'.held| == |s.held|
    decreases |steps|
  {
    if steps != [] {
      RunKeepsThreads(Next(s, steps[0]), steps[1..], s');
    }
  }

  /**
    While a connection lasts, the messages handed out so far followed by those
    still queued are those delivered, in order; and each id delivered on it is in
    exactly one place, any other id of that connection in none.
  */
  lemma NothingLostWhileConnected(threads: nat, steps: seq<Step>, s: State, id: Id)
    requires Runs(Started(threads), steps, s) && s.connected
    ensures s.received + s.messages == s.delivered
    ensures id.epoch == s.epoch ==> Places(s, id) == if id in Ids(s.delivered) then 1 else 0
  {
    StartedInv(threads);
    RunKeepsInv(Started(threads), steps, s);
    assert PlacedAt(s, id) && FreshAt(s, id);
    TimesIn(Ids(s.delivered), id);
  }

  /** Whatever happens, no delivery's id enters the ack queue twice. */
  lemma NoIdQueuedTwice(threads: nat, steps: seq<Step>, s: State, i: nat, j: nat)
    requires Runs(Started(threads), steps, s) && i < j < |s.everQueued|
    ensures s.everQueued[i] != s.everQueued[j]
  {
    StartedInv(threads);
    RunKeepsInv(Started(threads), steps, s);
    assert FreshAt(s, s.everQueued[i]);
    if s.everQueued[i] == s.everQueued[j] {
      TimesTwice(s.everQueued, i, j);
    }
  }

  /** The ids acknowledged, then those waiting, are those queued since the queue was last cleared, in that order. */
  lemma AcksFollowTheQueue(threads: nat, steps: seq<Step>, s: State)
    requires Runs(Started(threads), steps, s) && s.connected
    ensures s.mark <= |s.everQueued| && s.sent + s.ackQueue == s.everQueued[s.mark..]
  {
    StartedInv(threads);
    RunKeepsInv(Started(threads), steps, s);
  }

  /**
    At any time the stale ids acknowledged on the current connection, queued or
    held are at most one for each processing thread. While the connection lasts
    they are as many as the threads that held a message when the ack queue was last
    cleared; so with none such, every acknowledgement is for an id delivered on
    this connection.
  */
  lemma StaleAcksAreThoseCarried(threads: nat, steps: seq<Step>, s: State)
    requires Runs(Started(threads), steps, s)
    ensures StaleTotal(s) <= threads
    ensures s.connected ==> StaleTotal(s) == s.carried
    ensures s.connected && s.carried == 0 ==> forall id :: id in s.sent ==> id in Ids(s.delivered)
  {
    StartedInv(threads);
    RunKeepsInv(Started(threads), steps, s);
    RunKeepsThreads(Started(threads), steps, s);
    if s.connected && s.carried == 0 {
      StaleIsIn(s.sent, s.epoch);
      forall id | id in s.sent ensures id in Ids(s.delivered) {
        assert id in s.everQueued[s.mark..];
        TimesIn(s.everQueued, id);
        TimesIn(Ids(s.delivered), id);
        assert FreshAt(s, id);
      }
    }
  }

  // ---------------------------------------------------------------- progress

  predicate Exceptional(step: Step) {
    step.Connect? || step.ConsumeThrows? || (step.AckFront? && step.throws) || step.ClearMessages? || step.ClearAcks?
  }

  predicate Calm(steps: seq<Step>) {
    forall i :: 0 <= i < |steps| ==> !Exceptional(steps[i])
  }

  function AckSteps(steps: seq<Step>): nat {
    if steps == [] then 0 else AckSteps(steps[1..]) + if steps[0].AckFront? then 1 else 0
  }

  predicate Worker(step: Step) {
    step.CheckLoop? || step.Deliver? || step.NothingDelivered? || step.AckFront? || step.AckNothing?
  }

  function WorkerSteps(steps: seq<Step>): nat {
    if steps == [] then 0 else WorkerSteps(steps[1..]) + if Worker(steps[0]) then 1 else 0
  }

  /**
    Without an exception the line of acknowledged and waiting ids only grows at its
    end, and each ack step sends one.
  */
  lemma {:induction false} CalmRunAdvances(s: State, steps: seq<Step>, s': State)
    requires Runs(s, steps, s') && Calm(steps)
    ensures s.sent + s.ackQueue <= s'.sent + s'.ackQueue
    ensures |s'.sent| == |s.sent| + AckSteps(steps)
    decreases |steps|
  {
    if steps != [] {
      var t := Next(s, steps[0]);
      assert Calm(steps[1..]);
      CalmRunAdvances(t, steps[1..], s');
      assert s.sent + s.ackQueue <= t.sent + t.ackQueue;
    }
  }

  /** An id with k ids before it in the ack queue is sent by the (k+1)th ack step, and by no earlier one. */
  lemma AckedOnItsTurn(s: State, steps: seq<Step>, s': State, k: nat)
    requires Runs(s, steps, s') && Calm(steps) && k < |s.ackQueue|
    ensures AckSteps(steps) <= k ==>
      k - AckSteps(steps) < |s'.ackQueue| && s'.ackQueue[k - AckSteps(steps)] == s.ackQueue[k]
    ensures AckSteps(steps) > k ==> |s'.sent| > |s.sent| + k && s'.sent[|s.sent| + k] == s.ackQueue[k]
  {
    CalmRunAdvances(s, steps, s');
    assert (s.sent + s.ackQueue)[|s.sent| + k] == s.ackQueue[k];
    assert (s'.sent + s'.ackQueue)[|s.sent| + k] == s.ackQueue[k];
  }

  function Offset(phase: Phase): int {
    match phase
    case CONSUMING => 1
    case ACKING => 2
    case _ => 0
  }

  /** Every third step of the worker acknowledges, as long as ids are waiting. */
  lemma {:induction false} WorkerAcks(s: State, steps: seq<Step>, s': State, k: nat)
    requires Runs(s, steps, s') && Calm(steps) && s.phase in {LOOP_HEAD, CONSUMING, ACKING}
    requires s'.phase != STOPPED && k < |s.ackQueue|
    requires WorkerSteps(steps) >= 3 * (k + 1) - Offset(s.phase)
    ensures AckSteps(steps) > k
    decreases |steps|
  {
    var t := Next(s, steps[0]);
    assert Calm(steps[1..]);
    assert !Exceptional(steps[0]);
    if t.phase == STOPPED {
      StoppedStays(t, steps[1..], s');
    } else if steps[0].AckFront? && k == 0 {
    } else {
      WorkerAcks(t, steps[1..], s', if steps[0].AckFront? then k - 1 else k);
    }
  }

  lemma {:induction false} StoppedStays(s: State, steps: seq<Step>, s': State)
    requires Runs(s, steps, s') && s.phase == STOPPED
    ensures s'.phase == STOPPED
    decreases |steps|
  {
    if steps != [] {
      StoppedStays(Next(s, steps[0]), steps[1..], s');
    }
  }

  /** So k+1 turns of the worker's loop, without exception or stop, acknowledge the id with k ids before it. */
  lemma AckedWithinTurns(s: State, steps: seq<Step>, s': State, k: nat)
    requires Runs(s, steps, s') && Calm(steps) && s.phase in {LOOP_HEAD, CONSUMING, ACKING}
    requires s'.phase != STOPPED && k < |s.ackQueue|
    requires WorkerSteps(steps) >= 3 * (k + 1)
    ensures s.ackQueue[k] in s'.sent
  {
    WorkerAcks(s, steps, s', k);
    AckedOnItsTurn(s, steps, s', k);
  }

  // ---------------------------------------------------------------- when stale ids are sent

  /**
    A connected state of an epoch is followed only by states of that epoch that are
    still connected, or by later ones.
  */
  lemma {:induction false} SameConnection(s: State, steps: seq<Step>, s': State)
    requires Runs(s, steps, s') && Phases(s)
    ensures s.epoch <= s'.epoch
    ensures s'.connected && s'.epoch == s.epoch ==> s.connected && s'.carried == s.carried
    decreases |steps|
  {
    if steps != [] {
      SameConnection(Next(s, steps[0]), steps[1..], s');
    }
  }

  /** The steps by which the worker, left alone, acknowledges the id with k ids before it. */
  lemma {:induction false} Drain(s: State, k: nat) returns (steps: seq<Step>, s': State)
    requires s.run && s.phase in {LOOP_HEAD, CONSUMING, ACKING} && s.connected && k < |s.ackQueue|
    ensures Runs(s, steps, s') && Calm(steps) && s'.connected && s'.epoch == s.epoch
    ensures s.ackQueue[k] in s'.sent
    decreases 3 * k + 2 - Offset(s.phase)
  {
    var step :=
      if s.phase == LOOP_HEAD then CheckLoop
      else if s.phase == CONSUMING then NothingDelivered
      else AckFront(false);
    var t := Next(s, step);
    if s.phase == ACKING && k == 0 {
      steps, s' := [step], t;
      assert Runs(t, [], t);
    } else {
      var rest;
      rest, s' := Drain(t, if s.phase == ACKING then k - 1 else k);
      steps := [step] + rest;
      assert steps[1..] == rest;
    }
  }

  ghost predicate SendsStale(s: State, steps: seq<Step>, s': State) {
    Runs(s, steps, s') && s'.connected && s'.epoch == s.epoch && Stale(s'.sent, s.epoch) > 0
  }

  lemma {:induction false} FindStale(ids: seq<Id>, epoch: nat) returns (k: nat)
    requires Stale(ids, epoch) > 0
    ensures k < |ids| && ids[k].epoch < epoch
  {
    if ids[0].epoch < epoch {
      k := 0;
    } else {
      k := FindStale(ids[1..], epoch);
      k := k + 1;
    }
  }

  lemma {:induction false} FindStaleHeld(held: seq<Option<Message>>, epoch: nat) returns (t: nat)
    requires StaleHeld(held, epoch) > 0
    ensures t < |held| && held[t].Some? && held[t].value.id.epoch < epoch
  {
    if StaleOne(held[0], epoch) > 0 {
      t := 0;
    } else {
      t := FindStaleHeld(held[1..], epoch);
      t := t + 1;
    }
  }

  lemma DrainStale(s: State, k: nat) returns (steps: seq<Step>, s': State)
    requires s.run && s.phase in {LOOP_HEAD, CONSUMING, ACKING} && s.connected
    requires k < |s.ackQueue| && s.ackQueue[k].epoch < s.epoch
    ensures SendsStale(s, steps, s')
  {
    steps, s' := Drain(s, k);
    StaleIsIn(s'.sent, s.epoch);
  }

  /**
    Clearing the ack queue is not enough to keep ids of a lost connection off the
    next one: a running connection acknowledges a stale id in some continuation if
    and only if a thread held a message when the ack queue was cleared.
  */
  lemma StaleAckPossibleIff(threads: nat, steps: seq<Step>, s: State)
    requires Runs(Started(threads), steps, s) && s.run && s.phase in {LOOP_HEAD, CONSUMING, ACKING}
    ensures (exists more, s' :: SendsStale(s, more, s')) <==> s.carried > 0
  {
    StartedInv(threads);
    RunKeepsInv(Started(threads), steps, s);
    forall more, s' | SendsStale(s, more, s') ensures s.carried > 0 {
      SameConnection(s, more, s');
      RunKeepsInv(s, more, s');
    }
    if s.carried > 0 {
      if Stale(s.sent, s.epoch) > 0 {
        assert SendsStale(s, [], s);
      } else if Stale(s.ackQueue, s.epoch) > 0 {
        var k := FindStale(s.ackQueue, s.epoch);
        var more, s' := DrainStale(s, k);
      } else {
        var t := FindStaleHeld(s.held, s.epoch);
        var queued := Next(s, Acknowledge(t));
        var more, s' := DrainStale(queued, |s.ackQueue|);
        assert ([Acknowledge(t)] + more)[1..] == more;
        assert SendsStale(s, [Acknowledge(t)] + more, s');
      }
    }
  }

  const JOIN := [CheckOuter, Connect(true)]
  const TAKE := [CheckLoop, Deliver(0, ""), Receive(0)]
  const BREAK := [AckNothing, CheckLoop, ConsumeThrows]
  const RESET := [ClearMessages, ClearAcks]

  lemma OneMore(s: State, step: Step, steps: seq<Step>, s': State)
    requires Enabled(s, step) && Runs(Next(s, step), steps, s')
    ensures Runs(s, [step] + steps, s')
  {
    assert ([step] + steps)[1..] == steps;
  }

  lemma {:induction false} RunsAppend(s: State, a: seq<Step>, t: State, b: seq<Step>, u: State)
    requires Runs(s, a, t) && Runs(t, b, u)
    ensures Runs(s, a + b, u)
    decreases |a|
  {
    if a == [] {
      assert a + b == b;
    } else {
      assert (a + b)[1..] == a[1..] + b;
      RunsAppend(Next(s, a[0]), a[1..], t, b, u);
    }
  }

  lemma Joined(s: State) returns (s': State)
    requires s.run && s.phase == OUTER_HEAD
    ensures Runs(s, JOIN, s') && s'.run && s'.phase == LOOP_HEAD && s'.delivered == []
    ensures s'.messages == s.messages && s'.ackQueue == s.ackQueue && s'.held == s.held && s'.carried == s.carried
  {
    var s1 := Next(s, CheckOuter);
    s' := Next(s1, Connect(true));
    OneMore(s1, Connect(true), [], s');
    OneMore(s, CheckOuter, [Connect(true)], s');
  }

  /** The only thread takes the only message. */
  lemma Taken(s: State) returns (s': State)
    requires s.run && s.phase == LOOP_HEAD && s.messages == [] && s.delivered == [] && s.held == [None]
    ensures Runs(s, TAKE, s') && s'.run && s'.phase == ACKING && s'.ackQueue == s.ackQueue && HeldCount(s'.held) == 1
  {
    var s1 := Next(s, CheckLoop);
    var s2 := Next(s1, Deliver(0, ""));
    s' := Next(s2, Receive(0));
    OneMore(s2, Receive(0), [], s');
    OneMore(s1, Deliver(0, ""), [Receive(0)], s');
    OneMore(s, CheckLoop, [Deliver(0, ""), Receive(0)], s');
  }

  lemma Broken(s: State) returns (s': State)
    requires s.run && s.phase == ACKING && s.ackQueue == []
    ensures Runs(s, BREAK, s') && s'.run && s'.phase == CLEAR_MESSAGES && s'.held == s.held
  {
    var s1 := Next(s, AckNothing);
    var s2 := Next(s1, CheckLoop);
    s' := Next(s2, ConsumeThrows);
    OneMore(s2, ConsumeThrows, [], s');
    OneMore(s1, CheckLoop, [ConsumeThrows], s');
    OneMore(s, AckNothing, [CheckLoop, ConsumeThrows], s');
  }

  lemma Reset(s: State) returns (s': State)
    requires s.run && s.phase == CLEAR_MESSAGES
    ensures Runs(s, RESET, s') && s'.run && s'.phase == OUTER_HEAD && s'.carried == HeldCount(s.held)
  {
    var s1 := Next(s, ClearMessages);
    s' := Next(s1, ClearAcks);
    OneMore(s1, ClearAcks, [], s');
    OneMore(s, ClearMessages, [ClearAcks], s');
  }

  lemma Then(s: State, a: seq<Step>, t: State, b: seq<Step>, u: State) returns (steps: seq<Step>)
    requires Runs(s, a, t) && Runs(t, b, u)
    ensures Runs(s, steps, u)
  {
    steps := a + b;
    RunsAppend(s, a, t, b, u);
  }

  /** A thread is still at work on a message when the connection breaks and is made again. */
  lemma CarryingAcrossReset() returns (steps: seq<Step>, s: State)
    ensures Runs(Started(1), steps, s) && s.run && s.phase == LOOP_HEAD && s.carried == 1
  {
    var start := Started(1);
    var joined := Joined(start);
    var taken := Taken(joined);
    var broken := Broken(taken);
    var reset := Reset(broken);
    s := Joined(reset);
    steps := Then(start, JOIN, joined, TAKE, taken);
    steps := Then(start, steps, taken, BREAK, broken);
    steps := Then(start, steps, broken, RESET, reset);
    steps := Then(start, steps, reset, JOIN, s);
  }

  /** And then the id of that message can be acknowledged on the new connection. */
  lemma StaleAckHappens()
    ensures exists steps, s, more, s' ::
      Runs(Started(1), steps, s) && s.run && s.phase == LOOP_HEAD && s.carried == 1 && SendsStale(s, more, s')
  {
    var steps, s := CarryingAcrossReset();
    StaleAckPossibleIff(1, steps, s);
    var more, s' :| SendsStale(s, more, s');
  }

  // ---------------------------------------------------------------- against the schedule

  /** The connections a schedule makes. */
  function Connects(steps: seq<Step>): nat {
    if steps == [] then 0 else Connects(steps[1..]) + if steps[0] == Connect(true) then 1 else 0
  }

  /** All messages the broker delivers in a schedule, the first of them on connection `epoch`. */
  function Deliveries(epoch: nat, steps: seq<Step>): seq<Message>
    decreases |steps|
  {
    if steps == [] then []
    else if steps[0] == Connect(true) then Deliveries(epoch + 1, steps[1..])
    else if steps[0].Deliver? then
      [Message(Id(epoch, steps[0].tag), steps[0].body)] + Deliveries(epoch, steps[1..])
    else Deliveries(epoch, steps[1..])
  }

  /** Those of one connection. */
  function OfEpoch(ms: seq<Message>, epoch: nat): seq<Message> {
    if ms == [] then [] else (if ms[0].id.epoch == epoch then [ms[0]] else []) + OfEpoch(ms[1..], epoch)
  }

  lemma {:induction false} DeliveriesOfLastEpoch(epoch: nat, steps: seq<Step>)
    requires Connects(steps) == 0
    ensures OfEpoch(Deliveries(epoch, steps), epoch) == Deliveries(epoch, steps)
    decreases |steps|
  {
    if steps != [] {
      DeliveriesOfLastEpoch(epoch, steps[1..]);
      if steps[0].Deliver? {
        assert Deliveries(epoch, steps)[1..] == Deliveries(epoch, steps[1..]);
      }
    }
  }

  /** What the worker has on record as delivered on its connection, after one step on connection `epoch`. */
  function Recorded(epoch: nat, before: seq<Message>, step: Step): seq<Message> {
    if step == Connect(true) then []
    else if step.Deliver? then before + [Message(Id(epoch, step.tag), step.body)]
    else before
  }

  lemma StepRecords(s: State, step: Step)
    requires Enabled(s, step)
    ensures Next(s, step).epoch == s.epoch + Connects([step])
    ensures Next(s, step).delivered == Recorded(s.epoch, s.delivered, step)
  {
    assert [step][1..] == [];
  }

  /** What is on record after a schedule, and its first step taken apart. */
  lemma RecordedFirst(epoch: nat, before: seq<Message>, steps: seq<Step>, last: nat)
    requires steps != [] && last == epoch + Connects(steps)
    ensures (if Connects(steps) == 0 then before else []) + OfEpoch(Deliveries(epoch, steps), last)
         == (if Connects(steps[1..]) == 0 then Recorded(epoch, before, steps[0]) else [])
            + OfEpoch(Deliveries(epoch + Connects([steps[0]]), steps[1..]), last)
  {
    assert [steps[0]][1..] == [];
    if steps[0].Deliver? {
      assert Deliveries(epoch, steps)[1..] == Deliveries(epoch, steps[1..]);
    }
  }

  lemma {:induction false} RunDelivers(s: State, steps: seq<Step>, s': State)
    requires Runs(s, steps, s')
    ensures s'.epoch == s.epoch + Connects(steps)
    ensures s'.delivered
         == (if Connects(steps) == 0 then s.delivered else []) + OfEpoch(Deliveries(s.epoch, steps), s'.epoch)
    decreases |steps|
  {
    if steps != [] {
      StepRecords(s, steps[0]);
      RunDelivers(Next(s, steps[0]), steps[1..], s');
      assert [steps[0]][1..] == [];
      RecordedFirst(s.epoch, s.delivered, steps, s'.epoch);
    }
  }

  /** Queued, or in the hands of a thread. */
  ghost predicate Has(s: State, m: Message) {
    m in s.messages || exists t :: 0 <= t < |s.held| && s.held[t] == Some(m)
  }

  lemma StepBringsOnlyDeliveries(s: State, step: Step, m: Message)
    requires Enabled(s, step) && Has(Next(s, step), m)
    ensures Has(s, m) || (step == Deliver(m.id.tag, m.body) && m.id.epoch == s.epoch)
  {
    var s' := Next(s, step);
    if m !in s'.messages {
      var t :| 0 <= t < |s'.held| && s'.held[t] == Some(m);
      assert s.held[t] == Some(m) || (s.messages != [] && m == s.messages[0]);
    }
  }

  lemma {:induction false} RunBringsOnlyDeliveries(s: State, steps: seq<Step>, s': State, m: Message)
    requires Runs(s, steps, s') && Has(s', m) && !Has(s, m)
    ensures m in Deliveries(s.epoch, steps)
    decreases |steps|
  {
    if steps != [] {
      var t := Next(s, steps[0]);
      if Has(t, m) {
        StepBringsOnlyDeliveries(s, steps[0], m);
        assert steps[0].Deliver? ==> Deliveries(s.epoch, steps)[0] == Message(Id(s.epoch, steps[0].tag), steps[0].body);
      } else {
        RunBringsOnlyDeliveries(t, steps[1..], s', m);
      }
    }
  }

  /**
    In every run, and as the schedule has it: the connections are counted right, the
    messages delivered on the current one are those and no others, in order, with their
    tags and bodies; and every message queued or in the hands of a thread was delivered as it is.
  */
  lemma MessagesAreAsDelivered(threads: nat, steps: seq<Step>, s: State)
    requires Runs(Started(threads), steps, s)
    ensures s.epoch == Connects(steps)
    ensures s.delivered == OfEpoch(Deliveries(0, steps), Connects(steps))
    ensures forall m :: Has(s, m) ==> m in Deliveries(0, steps)
  {
    RunDelivers(Started(threads), steps, s);
    if Connects(steps) == 0 {
      assert [] + OfEpoch(Deliveries(0, steps), 0) == OfEpoch(Deliveries(0, steps), 0);
    }
    forall m | Has(s, m) ensures m in Deliveries(0, steps) {
      RunBringsOnlyDeliveries(Started(threads), steps, s, m);
    }
  }

  /** Different deliveries have different ids, so an id says which message, body included. */
  lemma {:induction false} DeliveriesDiffer(s: State, steps: seq<Step>, s': State, i: nat, j: nat)
    requires Runs(s, steps, s') && i < j < |Deliveries(s.epoch, steps)|
    ensures Deliveries(s.epoch, steps)[i].id != Deliveries(s.epoch, steps)[j].id
    decreases |steps|
  {
    var t := Next(s, steps[0]);
    if steps[0].Deliver? {
      if i == 0 {
        assert Ids(t.delivered)[|t.delivered| - 1] == Id(s.epoch, steps[0].tag);
        DeliveredOnce(t, steps[1..], s', Id(s.epoch, steps[0].tag), j - 1);
      } else {
        DeliveriesDiffer(t, steps[1..], s', i - 1, j - 1);
      }
    } else {
      DeliveriesDiffer(t, steps[1..], s', i, j);
    }
  }

  /** An id delivered on the current connection is not delivered again. */
  lemma {:induction false} DeliveredOnce(s: State, steps: seq<Step>, s': State, id: Id, j: nat)
    requires Runs(s, steps, s') && j < |Deliveries(s.epoch, steps)|
    requires id.epoch < s.epoch || (id.epoch == s.epoch && id in Ids(s.delivered))
    ensures Deliveries(s.epoch, steps)[j].id != id
    decreases |steps|
  {
    var t := Next(s, steps[0]);
    if steps[0].Deliver? {
      assert Ids(t.delivered) == Ids(s.delivered) + [Id(s.epoch, steps[0].tag)];
      if j > 0 {
        DeliveredOnce(t, steps[1..], s', id, j - 1);
      }
    } else {
      DeliveredOnce(t, steps[1..], s', id, j);
    }
  }

  // ---------------------------------------------------------------- after `stop`

  predicate ByWorker(step: Step) {
    !step.Stop? && !step.Receive? && !step.Acknowledge?
  }

  function StepsByWorker(steps: seq<Step>): nat {
    if steps == [] then 0 else StepsByWorker(steps[1..]) + if ByWorker(steps[0]) then 1 else 0
  }

  /** The most steps the worker takes from here when it is to stop. */
  function StepsLeft(phase: Phase): nat {
    match phase
    case STOPPED => 0
    case OUTER_HEAD => 1
    case LOOP_HEAD => 1
    case CLEAR_ACKS => 2
    case CLEAR_MESSAGES => 3
    case CONNECTING => 4
    case ACKING => 4
    case CONSUMING => 5
  }

  /**
    Once `stop` was called the worker takes at most five more steps, whatever the
    library answers, and none after it has stopped. A connection is made only if the
    worker was about to, and a message delivered only if it was waiting for one.
  */
  lemma {:induction false} StopsSoon(s: State, steps: seq<Step>, s': State)
    requires !s.run && Runs(s, steps, s')
    ensures !s'.run && StepsByWorker(steps) + StepsLeft(s'.phase) <= StepsLeft(s.phase)
    ensures Connects(steps) <= if s.phase == CONNECTING then 1 else 0
    ensures |Deliveries(s.epoch, steps)| <= if s.phase == CONSUMING then 1 else 0
    decreases |steps|
  {
    if steps != [] {
      StopsSoon(Next(s, steps[0]), steps[1..], s');
    }
  }

  /** And until it has stopped there is always a step it can take. */
  lemma WorkerCanStep(s: State) returns (step: Step)
    requires s.phase != STOPPED
    ensures ByWorker(step) && Enabled(s, step)
  {
    step :=
      match s.phase
      case OUTER_HEAD => CheckOuter
      case CONNECTING => Connect(false)
      case LOOP_HEAD => CheckLoop
      case CONSUMING => NothingDelivered
      case ACKING => if s.ackQueue == [] then AckNothing else AckFront(false)
      case CLEAR_MESSAGES => ClearMessages
      case _ => ClearAcks;
  }

  /** The worker makes a connection, and waits for a message, only while it is to run. */
  lemma WorkerLooksAtRun(s: State, step: Step)
    requires Enabled(s, step)
    ensures Next(s, step).phase == CONNECTING && s.phase != CONNECTING ==> s.run
    ensures Next(s, step).phase == CONSUMING && s.phase != CONSUMING ==> s.run
    ensures Next(s, step).phase == STOPPED && s.phase != STOPPED ==> !s.run
  {
  }

  // ---------------------------------------------------------------- the reset

  /** Whatever is thrown while connecting, waiting or acknowledging, the reset begins. */
  lemma ExceptionsReset(s: State, step: Step)
    requires Enabled(s, step) && (step == Connect(false) || step == ConsumeThrows || step == AckFront(true))
    ensures Next(s, step).phase == CLEAR_MESSAGES
  {
  }

  /** In the reset only the worker's next step moves its phase. */
  lemma ResetMoves(s: State, step: Step)
    requires Enabled(s, step) && s.phase in {CLEAR_MESSAGES, CLEAR_ACKS}
    ensures ByWorker(step) ==> step == (if s.phase == CLEAR_MESSAGES then ClearMessages else ClearAcks)
    ensures Next(s, step).phase
         == if !ByWorker(step) then s.phase else if s.phase == CLEAR_MESSAGES then CLEAR_ACKS else OUTER_HEAD
  {
  }

  /** And it clears first the messages, then the ack queue, before the worker does anything else. */
  lemma {:induction false} ResetClearsBoth(s: State, steps: seq<Step>, s': State) returns (i: nat, j: nat)
    requires s.phase == CLEAR_MESSAGES && Runs(s, steps, s') && s'.phase !in {CLEAR_MESSAGES, CLEAR_ACKS}
    ensures i < j < |steps| && steps[i] == ClearMessages && steps[j] == ClearAcks
    ensures forall k :: 0 <= k < j && k != i ==> !ByWorker(steps[k])
    decreases |steps|
  {
    ResetMoves(s, steps[0]);
    var t, rest := Next(s, steps[0]), steps[1..];
    if ByWorker(steps[0]) {
      i := 0;
      j := ResetClearsAcks(t, rest, s');
    } else {
      i, j := ResetClearsBoth(t, rest, s');
      i := i + 1;
    }
    j := j + 1;
    assert forall k :: 1 <= k <= j ==> steps[k] == rest[k - 1];
  }

  lemma {:induction false} ResetClearsAcks(s: State, steps: seq<Step>, s': State) returns (j: nat)
    requires s.phase == CLEAR_ACKS && Runs(s, steps, s') && s'.phase != CLEAR_ACKS
    ensures j < |steps| && steps[j] == ClearAcks && forall k :: 0 <= k < j ==> !ByWorker(steps[k])
    decreases |steps|
  {
    ResetMoves(s, steps[0]);
    if ByWorker(steps[0]) {
      j := 0;
    } else {
      var i := ResetClearsAcks(Next(s, steps[0]), steps[1..], s');
      j := i + 1;
      assert forall k :: 1 <= k < j ==> steps[k] == steps[1..][k - 1];
    }
  }

  /** What the two steps clear. */
  lemma ResetSteps(s: State)
    ensures s.phase == CLEAR_MESSAGES ==> Next(s, ClearMessages).messages == []
    ensures s.phase == CLEAR_ACKS ==> Next(s, ClearAcks).ackQueue == []
  {
  }
}
