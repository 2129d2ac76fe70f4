// The synchronized messenger: a request/reply messenger whose incoming
// messages are kept in a bounded queue that the application drains with a
// blocking ReceiveMessage.
//
// C# inheritance becomes composition: the request/reply part is the `base`
// object, and the processor of `base` hands each delivered message to
// OnMessageReceived.  A blocking ReceiveMessage is given, for each wait it
// makes, the list of things that happen during that wait; a wait during
// which nothing happens ends unsignalled, that is, it times out.
module Synchronized {
  import opened Wrappers
  import opened Numeric
  import opened Messages
  import RequestReply

  datatype ReceiveError =
    | Stopped(message: string)
    | ReceiveTimeout(message: string)
    | UnexpectedMessage(message: string)

  const StoppedText: string := "SynchronizedMessenger is stopped. Can not receive message."
  const ReceiveTimeoutText: string := "Timeout occured. Can not received any message"

  function UnexpectedText(expected: MessageType, received: Message): string {
    "Unexpected message received. Expected type: " + ClassName(expected)
      + ". Received message type: " + ClassName(TypeOf(received.body))
  }

  /** Something that happens while ReceiveMessage waits. */
  datatype ReceiveEvent = Delivered(message: Message) | StopCalled

  /** The receive queue and the running flag. */
  datatype QueueState = QueueState(queue: seq<Message>, running: bool)

  /** OnMessageReceived: keep the message only while the queue is below capacity. */
  function Offer(s: QueueState, capacity: int, m: Message): (r: QueueState)
    ensures r.running == s.running
    ensures |s.queue| < capacity ==> r.queue == s.queue + [m]
    ensures |s.queue| >= capacity ==> r.queue == s.queue
  {
    if |s.queue| < capacity then QueueState(s.queue + [m], s.running) else s
  }

  /** The queue and flag after the events of one wait, in order. */
  function Happen(s: QueueState, capacity: int, events: seq<ReceiveEvent>): QueueState
    decreases |events|
  {
    if events == [] then s
    else
      var s' := match events[0]
        case Delivered(m) => Offer(s, capacity, m)
        case StopCalled => QueueState(s.queue, false);
      Happen(s', capacity, events[1..])
  }

  datatype ReceiveOutcome = ReceiveOutcome(result: Result<Message, ReceiveError>, state: QueueState)

  /**
   * ReceiveMessage: fail when stopped, even with messages queued; otherwise
   * take the oldest queued message; otherwise wait, time out when nothing
   * happens, and try again.
   */
  function Receive(s: QueueState, capacity: int, waits: seq<seq<ReceiveEvent>>): ReceiveOutcome
    decreases |waits|
  {
    if !s.running then ReceiveOutcome(Failure(Stopped(StoppedText)), s)
    else if |s.queue| > 0 then ReceiveOutcome(Success(s.queue[0]), QueueState(s.queue[1..], s.running))
    else if waits == [] || waits[0] == [] then ReceiveOutcome(Failure(ReceiveTimeout(ReceiveTimeoutText)), s)
    else Receive(Happen(s, capacity, waits[0]), capacity, waits[1..])
  }

  /** The queue holds no more than the capacity (and nothing when the capacity is not positive). */
  ghost predicate WithinCapacity(q: seq<Message>, capacity: int) {
    |q| <= capacity || q == []
  }

  /**
   * Deliveries never take the queue past the capacity, and never lengthen a
   * queue that is already at or above it (as after the capacity setter
   * lowered the capacity below the count): the queue is never trimmed, but
   * it stops growing.
   */
  lemma {:induction false} HappenKeepsCapacity(s: QueueState, capacity: int, events: seq<ReceiveEvent>)
    ensures |s.queue| >= capacity ==> Happen(s, capacity, events).queue == s.queue
    ensures |s.queue| < capacity ==> |Happen(s, capacity, events).queue| <= capacity
    ensures WithinCapacity(s.queue, capacity) ==> WithinCapacity(Happen(s, capacity, events).queue, capacity)
    decreases |events|
  {
    if events != [] {
      var s' := match events[0]
        case Delivered(m) => Offer(s, capacity, m)
        case StopCalled => QueueState(s.queue, false);
      HappenKeepsCapacity(s', capacity, events[1..]);
    }
  }

  /** Messages come out of the queue in the order they went in. */
  lemma {:induction false} HappenAppends(s: QueueState, capacity: int, events: seq<ReceiveEvent>)
    ensures s.queue <= Happen(s, capacity, events).queue
    decreases |events|
  {
    if events != [] {
      var s' := match events[0]
        case Delivered(m) => Offer(s, capacity, m)
        case StopCalled => QueueState(s.queue, false);
      HappenAppends(s', capacity, events[1..]);
    }
  }

  function Deliveries(ms: seq<Message>): (es: seq<ReceiveEvent>)
    ensures |es| == |ms| && forall i :: 0 <= i < |ms| ==> es[i] == Delivered(ms[i])
  {
    seq(|ms|, i requires 0 <= i < |ms| => Delivered(ms[i]))
  }

  /**
   * Messages delivered while the queue has room for all of them join its
   * tail in delivery order, so they are received in that order.
   */
  lemma {:induction false} DeliveriesQueueInOrder(s: QueueState, capacity: int, ms: seq<Message>)
    requires |s.queue| + |ms| <= capacity
    ensures Happen(s, capacity, Deliveries(ms)) == QueueState(s.queue + ms, s.running)
    decreases |ms|
  {
    if ms != [] {
      var es := Deliveries(ms);
      var s' := Offer(s, capacity, ms[0]);
      assert es[1..] == Deliveries(ms[1..]);
      DeliveriesQueueInOrder(s', capacity, ms[1..]);
      assert s.queue + [ms[0]] + ms[1..] == s.queue + ms;
    }
  }

  /** Whatever happens, a receive ends in a message, a timeout or Stopped, and takes at most one message. */
  lemma {:induction false} ReceiveTakesAtMostOne(s: QueueState, capacity: int, waits: seq<seq<ReceiveEvent>>)
    ensures var o := Receive(s, capacity, waits);
      && (o.result.Success? ==> s.queue <= [o.result.value] + o.state.queue)
      && (s.running && s.queue != [] ==> o.result == Success(s.queue[0]))
      && (o.result.Success? ==> o.state.running)
      && (o.result.Failure? ==> s.queue <= o.state.queue && !o.result.error.UnexpectedMessage?)
      && (o.result.Failure? && o.result.error.Stopped? <==> !o.state.running)
    decreases |waits|
  {
    if s.running && |s.queue| == 0 && waits != [] && waits[0] != [] {
      var s' := Happen(s, capacity, waits[0]);
      HappenAppends(s, capacity, waits[0]);
      ReceiveTakesAtMostOne(s', capacity, waits[1..]);
    }
  }

  class SynchronizedMessenger {
    /** IncomingMessageQueueCapacity: the most messages the receive queue keeps. */
    var incomingMessageQueueCapacity: int
    var receivingQueue: seq<Message>
    var running: bool
    /** Whether the receive waiter is set. */
    var waiterSignalled: bool
    const base: RequestReply.RequestReplyMessenger

    /**
     * The queue may hold more than the capacity: the capacity setter does
     * not trim it. HappenKeepsCapacity says what the bound still guarantees.
     */
    ghost predicate Valid()
      reads this, base, base.processor
    {
      base.Valid()
    }

    /** The constructor with a capacity; the other constructor passes Int32Max. */
    constructor(capacity: int)
      ensures Valid() && fresh(base) && fresh(base.processor)
      ensures incomingMessageQueueCapacity == capacity
      ensures receivingQueue == [] && !running && !waiterSignalled
      ensures base.waiting == map[] && base.sent == [] && base.timeout == RequestReply.DefaultTimeout
    {
      incomingMessageQueueCapacity := capacity;
      receivingQueue := [];
      running := false;
      waiterSignalled := false;
      base := new RequestReply.RequestReplyMessenger();
    }

    static method CreateDefault() returns (s: SynchronizedMessenger)
      ensures s.Valid() && fresh(s) && fresh(s.base)
      ensures s.incomingMessageQueueCapacity == Int32Max
      ensures s.receivingQueue == [] && !s.running
    {
      s := new SynchronizedMessenger(Int32Max);
    }

    /** The IncomingMessageQueueCapacity setter: the queued messages stay, even above the new capacity. */
    method SetIncomingMessageQueueCapacity(capacity: int)
      requires Valid()
      modifies this
      ensures Valid()
      ensures incomingMessageQueueCapacity == capacity
      ensures receivingQueue == old(receivingQueue) && running == old(running)
      ensures waiterSignalled == old(waiterSignalled)
    {
      incomingMessageQueueCapacity := capacity;
    }

    method Start()
      requires Valid()
      modifies this, base.processor
      ensures Valid()
      ensures running && base.processor.isRunning
      ensures receivingQueue == old(receivingQueue) && waiterSignalled == old(waiterSignalled)
      ensures incomingMessageQueueCapacity == old(incomingMessageQueueCapacity)
    {
      running := true;
      base.Start();
    }

    /** Stops the request/reply part, then clears the running flag and wakes a waiting receiver. */
    method Stop()
      requires Valid()
      modifies this, base, base.processor, base.waiting.Values
      ensures Valid()
      ensures !running && waiterSignalled
      ensures receivingQueue == old(receivingQueue)
      ensures incomingMessageQueueCapacity == old(incomingMessageQueueCapacity)
      ensures base.waiting == map[] && !base.processor.isRunning
    {
      base.Stop();
      running := false;
      waiterSignalled := true;
    }

    /** OnMessageReceived: queue the message if there is room, and wake a waiting receiver either way. */
    method OnMessageReceived(m: Message)
      requires Valid()
      modifies this
      ensures Valid()
      ensures waiterSignalled && running == old(running)
      ensures incomingMessageQueueCapacity == old(incomingMessageQueueCapacity)
      ensures QueueState(receivingQueue, running)
           == Offer(QueueState(old(receivingQueue), old(running)), incomingMessageQueueCapacity, m)
    {
      if |receivingQueue| < incomingMessageQueueCapacity {
        receivingQueue := receivingQueue + [m];
      }
      waiterSignalled := true;
    }

    /** The events of one wait, applied in order. */
    method Undergo(events: seq<ReceiveEvent>)
      requires Valid()
      modifies this, base, base.processor, base.waiting.Values
      ensures Valid()
      ensures base.waiting.Values <= old(base.waiting.Values)
      ensures incomingMessageQueueCapacity == old(incomingMessageQueueCapacity)
      ensures QueueState(receivingQueue, running)
           == Happen(QueueState(old(receivingQueue), old(running)), incomingMessageQueueCapacity, events)
      ensures waiterSignalled == (old(waiterSignalled) || events != [])
    {
      var j := 0;
      while j < |events|
        invariant 0 <= j <= |events|
        invariant Valid()
        invariant base.waiting.Values <= old(base.waiting.Values)
        invariant incomingMessageQueueCapacity == old(incomingMessageQueueCapacity)
        invariant Happen(QueueState(receivingQueue, running), incomingMessageQueueCapacity, events[j..])
               == Happen(QueueState(old(receivingQueue), old(running)), incomingMessageQueueCapacity, events)
        invariant waiterSignalled == (old(waiterSignalled) || j > 0)
        decreases |events| - j
      {
        assert events[j..][1..] == events[j + 1..];
        match events[j] {
          case Delivered(m) => OnMessageReceived(m);
          case StopCalled => Stop();
        }
        j := j + 1;
      }
    }

    /**
     * ReceiveMessage(timeout): the result, the queue and the running flag are
     * those of Receive for the waits the call makes. A wait that ends with no
     * event is a timeout, so this is the timed overload; the parameterless
     * overload waits with Timeout.Infinite, when that cannot happen.
     */
    method ReceiveMessage(waits: seq<seq<ReceiveEvent>>) returns (r: Result<Message, ReceiveError>)
      requires Valid()
      modifies this, base, base.processor, base.waiting.Values
      ensures Valid()
      ensures incomingMessageQueueCapacity == old(incomingMessageQueueCapacity)
      ensures var o := Receive(QueueState(old(receivingQueue), old(running)), incomingMessageQueueCapacity, waits);
        r == o.result && receivingQueue == o.state.queue && running == o.state.running
    {
      var i := 0;
      while running
        invariant 0 <= i <= |waits|
        invariant Valid()
        invariant base.waiting.Values <= old(base.waiting.Values)
        invariant incomingMessageQueueCapacity == old(incomingMessageQueueCapacity)
        invariant Receive(QueueState(receivingQueue, running), incomingMessageQueueCapacity, waits[i..])
               == Receive(QueueState(old(receivingQueue), old(running)), incomingMessageQueueCapacity, waits)
        decreases |waits| - i
      {
        // the lock's second look at the running flag sees what the loop test saw
        if |receivingQueue| > 0 {
          r := Success(receivingQueue[0]);
          receivingQueue := receivingQueue[1..];
          return;
        }
        waiterSignalled := false;
        if i < |waits| {
          Undergo(waits[i]);
        }
        if !waiterSignalled {
          return Failure(ReceiveTimeout(ReceiveTimeoutText));
        }
        assert waits[i..][1..] == waits[i + 1..];
        i := i + 1;
      }
      r := Failure(Stopped(StoppedText));
    }

    /**
     * The typed ReceiveMessage: a message of another class is an error, and
     * it has already been taken off the queue.
     */
    method ReceiveMessageOfType(expected: MessageType, waits: seq<seq<ReceiveEvent>>)
      returns (r: Result<Message, ReceiveError>)
      requires Valid()
      modifies this, base, base.processor, base.waiting.Values
      ensures Valid()
      ensures var o := Receive(QueueState(old(receivingQueue), old(running)), old(incomingMessageQueueCapacity), waits);
        && receivingQueue == o.state.queue && running == o.state.running
        && (o.result.Failure? ==> r == o.result)
        && (o.result.Success? && IsInstanceOf(o.result.value, expected) ==> r == o.result)
        && (o.result.Success? && !IsInstanceOf(o.result.value, expected) ==>
              r == Failure(UnexpectedMessage(UnexpectedText(expected, o.result.value))))
    {
      r := ReceiveMessage(waits);
      if r.Success? && !IsInstanceOf(r.value, expected) {
        r := Failure(UnexpectedMessage(UnexpectedText(expected, r.value)));
      }
    }
  }
}
