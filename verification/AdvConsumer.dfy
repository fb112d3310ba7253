/**
  The reconnecting consumer (examples/advconsumer.cpp): one worker thread that
  delivers messages and sends acknowledgements, N processing threads that take
  messages and queue their ids for acknowledgement, and a reset on any exception.

  Every locked section is one step, and so is the push in the delivery callback,
  which the code makes without the lock. Steps interleave in any order.

  Ids carry the number of the connection they were delivered on, their epoch. The
  code has no such number; no step looks at it.
*/
module AdvConsumer {

  datatype Option<+T> = None | Some(value: T)

  datatype Id = Id(epoch: nat, tag: nat)

  datatype Message = Message(id: Id, body: string)

  /** Where the worker is (lines 89-124). */
  datatype Phase =
    | OUTER_HEAD      // about to test run_ and connect
    | CONNECTING
    | LOOP_HEAD       // about to test run_ in the inner loop
    | CONSUMING
    | ACKING
    | CLEAR_MESSAGES  // an exception was caught
    | CLEAR_ACKS
    | STOPPED

  datatype State = State(
    // the program's state
    messages: seq<Message>,
    ackQueue: seq<Id>,
    run: bool,
    phase: Phase,
    held: seq<Option<Message>>,      // what each processing thread works on
    // a record of what happened
    epoch: nat,
    connected: bool,                 // from a connection's making until its reset begins to drop messages
    delivered: seq<Message>,         // on the current connection
    received: seq<Message>,          // of these, taken by processing threads
    sent: seq<Id>,                   // acknowledged on the current connection by a call that returned
    everQueued: seq<Id>,             // ever put into the ack queue
    mark: nat,                       // |everQueued| when the ack queue was last cleared
    carried: nat)                    // threads that held a message when the ack queue was last cleared

  datatype Step =
    | CheckOuter
    | Connect(ok: bool)
    | CheckLoop
    | Deliver(tag: nat, body: string)
    | NothingDelivered
    | ConsumeThrows
    | AckFront(throws: bool)
    | AckNothing
    | ClearMessages
    | ClearAcks
    | Stop
    | Receive(thread: nat)
    | Acknowledge(thread: nat)

  function Ids(ms: seq<Message>): (r: seq<Id>)
    ensures |r| == |ms|
  {
    seq(|ms|, i requires 0 <= i < |ms| => ms[i].id)
  }

  /** A broker numbers the deliveries of a channel without repetition. */
  ghost predicate Enabled(s: State, step: Step) {
    match step
    case CheckOuter => s.phase == OUTER_HEAD
    case Connect(_) => s.phase == CONNECTING
    case CheckLoop => s.phase == LOOP_HEAD
    case Deliver(tag, _) => s.phase == CONSUMING && Id(s.epoch, tag) !in Ids(s.delivered)
    case NothingDelivered => s.phase == CONSUMING
    case ConsumeThrows => s.phase == CONSUMING
    case AckFront(_) => s.phase == ACKING && s.ackQueue != []
    case AckNothing => s.phase == ACKING && s.ackQueue == []
    case ClearMessages => s.phase == CLEAR_MESSAGES
    case ClearAcks => s.phase == CLEAR_ACKS
    case Stop => true
    case Receive(t) => t < |s.held| && s.held[t].None?
    case Acknowledge(t) => t < |s.held| && s.held[t].Some?
  }

  function HeldCount(held: seq<Option<Message>>): nat {
    if held == [] then 0 else HeldCount(held[1..]) + if held[0].Some? then 1 else 0
  }

  ghost function Next(s: State, step: Step): State
    requires Enabled(s, step)
  {
    match step
    case CheckOuter => s.(phase := if s.run then CONNECTING else STOPPED)
    case Connect(ok) =>
      if ok then
        s.(phase := LOOP_HEAD, epoch := s.epoch + 1, connected := true, delivered := [], received := [], sent := [])
      else s.(phase := CLEAR_MESSAGES)
    case CheckLoop => s.(phase := if s.run then CONSUMING else STOPPED)
    case Deliver(tag, body) =>
      var m := Message(Id(s.epoch, tag), body);
      s.(phase := ACKING, messages := s.messages + [m], delivered := s.delivered + [m])
    case NothingDelivered => s.(phase := ACKING)
    case ConsumeThrows => s.(phase := CLEAR_MESSAGES)
    case AckFront(throws) =>
      if throws then s.(phase := CLEAR_MESSAGES)
      else s.(phase := LOOP_HEAD, ackQueue := s.ackQueue[1..], sent := s.sent + [s.ackQueue[0]])
    case AckNothing => s.(phase := LOOP_HEAD)
    case ClearMessages => s.(phase := CLEAR_ACKS, connected := false, messages := [])
    case ClearAcks => s.(phase := OUTER_HEAD, ackQueue := [], mark := |s.everQueued|, carried := HeldCount(s.held))
    case Stop => s.(run := false)
    case Receive(t) =>
      if s.messages == [] then s
      else
        var m := s.messages[0];
        s.(messages := s.messages[1..], held := s.held[t := Some(m)], received := s.received + [m])
    case Acknowledge(t) =>
      var id := s.held[t].value.id;
      s.(held := s.held[t := None], ackQueue := s.ackQueue + [id], everQueued := s.everQueued + [id])
  }

  /** After `start`, before the worker's first step, with `threads` idle processing threads. */
  function Started(threads: nat): State {
    State([], [], true, OUTER_HEAD, seq(threads, i => None), 0, false, [], [], [], [], 0, 0)
  }

  ghost predicate Runs(s: State, steps: seq<Step>, s': State)
    decreases |steps|
  {
    if steps == [] then s == s' else Enabled(s, steps[0]) && Runs(Next(s, steps[0]), steps[1..], s')
  }

  // ---------------------------------------------------------------- the code

  /** The shared object: its two queues and its flag. */
  class Consumer {
    var messages: seq<Message>
    var ackQueue: seq<Id>
    var run: bool

    constructor ()
      ensures messages == [] && ackQueue == [] && run
    {
      messages, ackQueue, run := [], [], true;
    }

    /** The delivery callback (lines 101-103). */
    method Push(m: Message)
      modifies `messages
      ensures messages == old(messages) + [m]
    {
      messages := messages + [m];
    }

    /** Lines 142-149. */
    method Receive() returns (dst: Option<Message>)
      modifies `messages
      ensures old(messages) == [] ==> dst == None && messages == []
      ensures old(messages) != [] ==> dst == Some(old(messages)[0]) && messages == old(messages)[1..]
    {
      if messages == [] {
        return None;
      }
      dst := Some(messages[0]);
      messages := messages[1..];
    }

    /** Lines 151-154. */
    method Acknowledge(id: Id)
      modifies `ackQueue
      ensures ackQueue == old(ackQueue) + [id]
    {
      ackQueue := ackQueue + [id];
    }

    /** Lines 104-110: the id is popped only after `channel.ack` returned. */
    method AckOne(throws: bool) returns (acked: Option<Id>)
      modifies `ackQueue
      ensures old(ackQueue) == [] ==> acked == None && ackQueue == []
      ensures old(ackQueue) != [] ==> acked == Some(old(ackQueue)[0])
      ensures old(ackQueue) != [] ==> ackQueue == if throws then old(ackQueue) else old(ackQueue)[1..]
    {
      acked := None;
      if ackQueue != [] {
        acked := Some(ackQueue[0]);
        if !throws {
          ackQueue := ackQueue[1..];
        }
      }
    }

    method Stop()
      modifies `run
      ensures !run
    {
      run := false;
    }
  }

  /** The worker, the processing threads and the object they share. */
  class System {
    const consumer: Consumer
    var phase: Phase
    var held: seq<Option<Message>>
    var epoch: nat
    ghost var connected: bool
    ghost var delivered: seq<Message>
    ghost var received: seq<Message>
    ghost var sent: seq<Id>
    ghost var everQueued: seq<Id>
    ghost var mark: nat
    ghost var carried: nat

    ghost function View(): State
      reads this, consumer
    {
      State(consumer.messages, consumer.ackQueue, consumer.run, phase, held,
            epoch, connected, delivered, received, sent, everQueued, mark, carried)
    }

    constructor (threads: nat)
      ensures View() == Started(threads) && fresh(consumer)
      ensures consumer.messages == [] && consumer.ackQueue == [] && consumer.run && phase == OUTER_HEAD
      ensures |held| == threads && forall t :: 0 <= t < threads ==> held[t] == None
    {
      consumer := new Consumer();
      phase, held, epoch := OUTER_HEAD, seq(threads, i => None), 0;
      connected, delivered, received, sent, everQueued, mark, carried := false, [], [], [], [], 0, 0;
      new;
      assert View() == Started(threads);
    }

    method Exec(step: Step)
      requires Enabled(View(), step)
      modifies this, consumer
      ensures View() == Next(old(View()), step)
    {
      match step {
        case CheckOuter => phase := if consumer.run then CONNECTING else STOPPED;
        case Connect(ok) => ExecConnect(ok);
        case CheckLoop => phase := if consumer.run then CONSUMING else STOPPED;
        case Deliver(tag, body) => ExecDeliver(tag, body);
        case NothingDelivered => phase := ACKING;
        case ConsumeThrows => phase := CLEAR_MESSAGES;
        case AckFront(throws) => ExecAckFront(throws);
        case AckNothing => ExecAckNothing();
        case ClearMessages => ExecClearMessages();
        case ClearAcks => ExecClearAcks();
        case Stop => consumer.Stop();
        case Receive(t) => ExecReceive(t);
        case Acknowledge(t) => ExecAcknowledge(t);
      }
    }

    method ExecConnect(ok: bool)
      requires Enabled(View(), Connect(ok))
      modifies this
      ensures View() == Next(old(View()), Connect(ok))
    {
      if ok {
        phase, epoch := LOOP_HEAD, epoch + 1;
        connected, delivered, received, sent := true, [], [], [];
      } else {
        phase := CLEAR_MESSAGES;
      }
    }

    method ExecDeliver(tag: nat, body: string)
      requires Enabled(View(), Deliver(tag, body))
      modifies this, consumer
      ensures View() == Next(old(View()), Deliver(tag, body))
    {
      var m := Message(Id(epoch, tag), body);
      consumer.Push(m);
      delivered := delivered + [m];
      phase := ACKING;
    }

    method ExecAckFront(throws: bool)
      requires Enabled(View(), AckFront(throws))
      modifies this, consumer
      ensures View() == Next(old(View()), AckFront(throws))
    {
      var acked := consumer.AckOne(throws);
      if throws {
        phase := CLEAR_MESSAGES;
      } else {
        sent := sent + [acked.value];
        phase := LOOP_HEAD;
      }
    }

    method ExecAckNothing()
      requires Enabled(View(), AckNothing)
      modifies this, consumer
      ensures View() == Next(old(View()), AckNothing)
    {
      var _ := consumer.AckOne(false);
      phase := LOOP_HEAD;
    }

    method ExecClearMessages()
      requires Enabled(View(), ClearMessages)
      modifies this, consumer
      ensures View() == Next(old(View()), ClearMessages)
    {
      consumer.messages := [];
      phase, connected := CLEAR_ACKS, false;
    }

    method ExecClearAcks()
      requires Enabled(View(), ClearAcks)
      modifies this, consumer
      ensures View() == Next(old(View()), ClearAcks)
    {
      consumer.ackQueue := [];
      mark, carried := |everQueued|, HeldCount(held);
      phase := OUTER_HEAD;
    }

    /** A processing thread with nothing to work on asks for a message. */
    method ExecReceive(t: nat)
      requires Enabled(View(), Receive(t))
      modifies this, consumer
      ensures View() == Next(old(View()), Receive(t))
    {
      var dst := consumer.Receive();
      if dst.Some? {
        held := held[t := dst];
        received := received + [dst.value];
      }
    }

    method ExecAcknowledge(t: nat)
      requires Enabled(View(), Acknowledge(t))
      modifies this, consumer
      ensures View() == Next(old(View()), Acknowledge(t))
    {
      var id := held[t].value.id;
      consumer.Acknowledge(id);
      held := held[t := None];
      everQueued := everQueued + [id];
    }

    /** Any schedule of the threads. */
    method Run(schedule: seq<Step>, ghost end: State)
      requires Runs(View(), schedule, end)
      modifies this, consumer
      ensures View() == end
    {
      var i := 0;
      while i < |schedule|
        invariant 0 <= i <= |schedule|
        invariant Runs(View(), schedule[i..], end)
      {
        assert schedule[i..][1..] == schedule[i + 1..];
        Exec(schedule[i]);
        i := i + 1;
      }
    }
  }
}
