// The request/reply messenger: it sends a message and blocks the caller until
// the message that answers it arrives, the messenger is stopped or the wait
// times out; every other incoming message is queued for sequential delivery.
//
// The blocking wait is modelled by the list of things that happen while the
// caller waits (an incoming message, a call of Stop); how long the timeout is
// decides which events make it into that list, so the timeout value itself
// does not appear.
module RequestReply {
  import opened Wrappers
  import opened Strings
  import opened Messages
  import opened SequentialProcessing

  /** Milliseconds a request waits for its answer unless told otherwise. */
  const DefaultTimeout: int := 60000

  datatype WaitingMessageState = WaitingForResponse | Cancelled | ResponseReceived

  datatype RequestError =
    | TimeoutError(message: string)
    | CommunicationError(message: string)
      /** The underlying messenger refused to send the request. */
    | SendFailed

  const TimeoutText: string := "Timeout occured. Can not received response."
  const DisconnectedText: string := "Disconnected before response received."

  /** The record a waiting request keeps: its state, the answer and its wait event. */
  class WaitingMessage {
    var responseMessage: Option<Message>
    var state: WaitingMessageState
    /** Whether the wait event is set. */
    var signalled: bool

    constructor()
      ensures responseMessage == None && state == WaitingForResponse && !signalled
    {
      responseMessage := None;
      state := WaitingForResponse;
      signalled := false;
    }

    /** What Stop does to a waiting request: it is cancelled and its wait event is set. */
    method Cancel()
      modifies this
      ensures state == Cancelled && signalled && responseMessage == old(responseMessage)
    {
      state := Cancelled;
      signalled := true;
    }
  }

  /** Something that happens while a request waits. */
  datatype Event = Arrival(message: Message) | StopCalled

  /** The waiting record of one request together with whether it is still in the table. */
  datatype Pending = Pending(state: WaitingMessageState, response: Option<Message>, signalled: bool, registered: bool)

  const Registered: Pending := Pending(WaitingForResponse, None, false, true)

  /** An incoming message answers request `id` when its replied id is non-empty and equal to `id`. */
  predicate Answers(m: Message, id: string) {
    IsReply(m) && m.repliedMessageId.value == id
  }

  /** The effect of one event on the record of request `id`. */
  function Step(id: string, p: Pending, e: Event): Pending {
    match e
    case Arrival(m) =>
      if p.registered && Answers(m, id) then Pending(ResponseReceived, Some(m), true, true) else p
    case StopCalled =>
      if p.registered then Pending(Cancelled, p.response, true, false) else p
  }

  /** The record of request `id` after the events, in order. */
  function Settle(id: string, p: Pending, events: seq<Event>): Pending
    decreases |events|
  {
    if events == [] then p else Settle(id, Step(id, p, events[0]), events[1..])
  }

  /** A record whose state says an answer arrived holds that answer. */
  ghost predicate Consistent(p: Pending) {
    p.state == ResponseReceived ==> p.response.Some?
  }

  /** What SendMessageAndWaitForResponse returns for a settled record. */
  function Outcome(p: Pending): (r: Result<Message, RequestError>)
    requires Consistent(p)
    ensures r.Success? <==> p.state == ResponseReceived
  {
    match p.state
    case WaitingForResponse => Failure(TimeoutError(TimeoutText))
    case Cancelled => Failure(CommunicationError(DisconnectedText))
    case ResponseReceived => Success(p.response.value)
  }

  lemma {:induction false} SettleConsistent(id: string, p: Pending, events: seq<Event>)
    requires Consistent(p)
    ensures Consistent(Settle(id, p, events))
    decreases |events|
  {
    if events != [] {
      SettleConsistent(id, Step(id, p, events[0]), events[1..]);
    }
  }

  /**
   * From a registered record: the request leaves the table exactly when Stop
   * is among the events, a record still waiting is untouched, and an answer
   * it holds is one of the messages that arrived answering it.
   */
  lemma {:induction false} SettleFromRegistered(id: string, p: Pending, events: seq<Event>)
    requires p.registered
    ensures var q := Settle(id, p, events);
      && (StopCalled in events ==> !q.registered)
      && (StopCalled !in events ==> q.registered)
      && (q.state == WaitingForResponse ==> q == p)
      && (q.state == ResponseReceived && q != p ==>
            exists i :: 0 <= i < |events| && events[i].Arrival? && Answers(events[i].message, id)
                        && q.response == Some(events[i].message))
    decreases |events|
  {
    if events != [] {
      var p' := Step(id, p, events[0]);
      if p'.registered {
        SettleFromRegistered(id, p', events[1..]);
        var q := Settle(id, p', events[1..]);
        assert StopCalled in events <==> StopCalled in events[1..] by {
          assert events == [events[0]] + events[1..];
        }
        if q.state == ResponseReceived && q != p {
          if q == p' {
            assert events[0].Arrival? && Answers(events[0].message, id);
          } else {
            var i :| 0 <= i < |events[1..]| && events[1..][i].Arrival? && Answers(events[1..][i].message, id)
                     && q.response == Some(events[1..][i].message);
            assert events[i + 1] == events[1..][i];
          }
        }
      } else {
        UnregisteredStays(id, p', events[1..]);
      }
    }
  }

  /** Once a request has left the table, nothing changes its record. */
  lemma {:induction false} UnregisteredStays(id: string, p: Pending, events: seq<Event>)
    requires !p.registered
    ensures Settle(id, p, events) == p
    decreases |events|
  {
    if events != [] {
      UnregisteredStays(id, Step(id, p, events[0]), events[1..]);
    }
  }

  /**
   * A request is answered by the first answering message when no Stop
   * follows it: Stop marks every record still in the table as cancelled,
   * even one whose answer has arrived but has not yet been read.
   */
  lemma AnswerFirst(id: string, m: Message, later: seq<Event>)
    requires Answers(m, id) && StopCalled !in later
    ensures Settle(id, Registered, [Arrival(m)] + later).state == ResponseReceived
  {
    var p := Step(id, Registered, Arrival(m));
    assert ([Arrival(m)] + later)[1..] == later;
    AnsweredStaysAnswered(id, p, later);
  }

  lemma {:induction false} AnsweredStaysAnswered(id: string, p: Pending, events: seq<Event>)
    requires p.state == ResponseReceived && StopCalled !in events
    ensures Settle(id, p, events).state == ResponseReceived
    decreases |events|
  {
    if events != [] {
      var p' := Step(id, p, events[0]);
      assert events[0] != StopCalled;
      assert StopCalled !in events[1..] by {
        assert events == [events[0]] + events[1..];
      }
      AnsweredStaysAnswered(id, p', events[1..]);
    }
  }

  /** A request that is never answered and never stopped times out. */
  lemma {:induction false} UnansweredTimesOut(id: string, events: seq<Event>)
    requires forall i :: 0 <= i < |events| ==> events[i].Arrival? && !Answers(events[i].message, id)
    ensures Consistent(Settle(id, Registered, events))
    ensures Outcome(Settle(id, Registered, events)) == Failure(TimeoutError(TimeoutText))
    decreases |events|
  {
    SettleConsistent(id, Registered, events);
    if events != [] {
      assert Step(id, Registered, events[0]) == Registered;
      UnansweredTimesOut(id, events[1..]);
    }
  }

  /** Messages that answer some other request leave a record as it is. */
  lemma {:induction false} IgnoredArrivals(id: string, p: Pending, events: seq<Event>)
    requires forall i :: 0 <= i < |events| ==> events[i].Arrival? && !Answers(events[i].message, id)
    ensures Settle(id, p, events) == p
    decreases |events|
  {
    if events != [] {
      assert Step(id, p, events[0]) == p;
      IgnoredArrivals(id, p, events[1..]);
    }
  }

  /**
   * A request whose only answer arrives before anything but unrelated
   * messages gets exactly that answer.
   */
  lemma AnsweredOnce(id: string, m: Message, later: seq<Event>)
    requires Answers(m, id)
    requires forall i :: 0 <= i < |later| ==> later[i].Arrival? && !Answers(later[i].message, id)
    ensures Consistent(Settle(id, Registered, [Arrival(m)] + later))
    ensures Outcome(Settle(id, Registered, [Arrival(m)] + later)) == Success(m)
  {
    var p := Step(id, Registered, Arrival(m));
    assert ([Arrival(m)] + later)[1..] == later;
    IgnoredArrivals(id, p, later);
  }

  /** A Stop before any answer makes the request fail as disconnected. */
  lemma StopFirstDisconnects(id: string, later: seq<Event>)
    ensures Consistent(Settle(id, Registered, [StopCalled] + later))
    ensures Outcome(Settle(id, Registered, [StopCalled] + later)) == Failure(CommunicationError(DisconnectedText))
  {
    SettleConsistent(id, Registered, [StopCalled] + later);
    var p := Step(id, Registered, StopCalled);
    assert ([StopCalled] + later)[1..] == later;
    UnregisteredStays(id, p, later);
  }

  /** An incoming message is routed to a waiting request when it answers one in the table. */
  predicate Routed(m: Message, waiting: map<string, WaitingMessage>) {
    IsReply(m) && m.repliedMessageId.value in waiting
  }

  /**
   * The part of the messenger the events of a wait change besides the
   * records: the ids in the table of waiting requests, whether the processor
   * runs, and the processor's queue.
   */
  datatype Routing = Routing(keys: set<string>, running: bool, queue: seq<Message>)

  /** An answer to a waiting request stays out of the queue; Stop empties the table and the queue. */
  function Route(r: Routing, e: Event): Routing {
    match e
    case Arrival(m) =>
      if IsReply(m) && m.repliedMessageId.value in r.keys then r
      else Routing(r.keys, r.running, if r.running then r.queue + [m] else r.queue)
    case StopCalled => Routing({}, false, [])
  }

  function RouteAll(r: Routing, events: seq<Event>): Routing
    decreases |events|
  {
    if events == [] then r else RouteAll(Route(r, events[0]), events[1..])
  }

  /** The arriving messages that answer none of the ids in `keys`, in arrival order. */
  function Unanswered(keys: set<string>, events: seq<Event>): (ms: seq<Message>)
    ensures forall k :: 0 <= k < |ms| ==> !(IsReply(ms[k]) && ms[k].repliedMessageId.value in keys)
    decreases |events|
  {
    if events == [] then []
    else
      var rest := Unanswered(keys, events[1..]);
      match events[0]
      case Arrival(m) => if IsReply(m) && m.repliedMessageId.value in keys then rest else [m] + rest
      case StopCalled => rest
  }

  /** Without a Stop, the running processor queues exactly the arrivals that answer no waiting request, in order. */
  lemma {:induction false} RouteAllWithoutStop(r: Routing, events: seq<Event>)
    requires forall k :: 0 <= k < |events| ==> events[k].Arrival?
    ensures RouteAll(r, events) == Routing(r.keys, r.running, r.queue + (if r.running then Unanswered(r.keys, events) else []))
    decreases |events|
  {
    if events != [] {
      assert forall k :: 0 <= k < |events[1..]| ==> events[1..][k] == events[k + 1];
      RouteAllWithoutStop(Route(r, events[0]), events[1..]);
      if r.running {
        var m := events[0].message;
        var rest := Unanswered(r.keys, events[1..]);
        if !(IsReply(m) && m.repliedMessageId.value in r.keys) {
          assert r.queue + [m] + rest == r.queue + ([m] + rest);
        }
      }
    }
  }

  /** Once Stop has happened, nothing stays queued, the processor is stopped and no request is waiting. */
  lemma {:induction false} RouteAllAfterStop(r: Routing, events: seq<Event>)
    requires exists k :: 0 <= k < |events| && events[k].StopCalled?
    ensures RouteAll(r, events) == Routing({}, false, [])
    decreases |events|
  {
    if events[0].StopCalled? {
      StoppedStaysEmpty(events[1..]);
    } else {
      var k :| 0 <= k < |events| && events[k].StopCalled?;
      assert events[1..][k - 1] == events[k];
      RouteAllAfterStop(Route(r, events[0]), events[1..]);
    }
  }

  lemma {:induction false} StoppedStaysEmpty(events: seq<Event>)
    ensures RouteAll(Routing({}, false, []), events) == Routing({}, false, [])
    decreases |events|
  {
    if events != [] {
      StoppedStaysEmpty(events[1..]);
    }
  }

  class RequestReplyMessenger {
    /** Milliseconds SendMessageAndWaitForResponse waits when no timeout is given. */
    var timeout: int
    /** Requests waiting for an answer, by message id. */
    var waiting: map<string, WaitingMessage>
    /** Delivers the incoming messages that answer no waiting request. */
    const processor: SequentialItemProcessor<Message>
    /** The messages handed to the underlying messenger, in order. */
    var sent: seq<Message>

    ghost predicate Valid()
      reads this, processor
    {
      processor.Valid()
    }

    constructor()
      ensures Valid() && fresh(processor)
      ensures timeout == DefaultTimeout && waiting == map[] && sent == []
      ensures processor.queue == [] && !processor.isRunning && !processor.isProcessing
    {
      timeout := DefaultTimeout;
      waiting := map[];
      sent := [];
      processor := new SequentialItemProcessor<Message>();
    }

    method Start()
      requires Valid()
      modifies processor
      ensures Valid()
      ensures processor.isRunning && processor.queue == old(processor.queue)
      ensures processor.isProcessing == old(processor.isProcessing)
    {
      processor.Start();
    }

    /**
     * Stops delivering incoming messages and releases every waiting request
     * as cancelled, then empties the table of waiting requests.
     */
    method Stop()
      requires Valid()
      modifies this, processor, waiting.Values
      ensures Valid()
      ensures waiting == map[] && sent == old(sent) && timeout == old(timeout)
      ensures !processor.isRunning && processor.queue == []
      ensures processor.isProcessing == old(processor.isProcessing)
      ensures forall w :: w in old(waiting.Values) ==>
                w.state == Cancelled && w.signalled && w.responseMessage == old(w.responseMessage)
    {
      var waitsForCurrent := processor.Stop();
      var pending := waiting.Values;
      while pending != {}
        invariant pending <= old(waiting.Values)
        invariant waiting == old(waiting) && sent == old(sent) && timeout == old(timeout)
        invariant forall w :: w in old(waiting.Values) && w !in pending ==>
                    w.state == Cancelled && w.signalled && w.responseMessage == old(w.responseMessage)
        invariant forall w :: w in pending ==> unchanged(w)
        invariant processor.Valid() && !processor.isRunning && processor.queue == []
        invariant processor.isProcessing == old(processor.isProcessing)
        decreases |pending|
      {
        var w :| w in pending;
        w.Cancel();
        pending := pending - {w};
      }
      waiting := map[];
    }

    method SendMessage(message: Message)
      modifies this
      ensures sent == old(sent) + [message]
      ensures waiting == old(waiting) && timeout == old(timeout)
    {
      sent := sent + [message];
    }

    /**
     * Handles a message from the underlying messenger: an answer to a
     * waiting request is stored in that request's record and releases it;
     * any other message goes to the sequential processor.
     */
    method MessengerMessageReceived(m: Message) returns (startsTask: bool)
      requires Valid()
      modifies processor, waiting.Values
      ensures Valid()
      ensures Routed(m, waiting) ==>
                var w := waiting[m.repliedMessageId.value];
                && w.responseMessage == Some(m) && w.state == ResponseReceived && w.signalled
                && (forall v :: v in waiting.Values && v != w ==> unchanged(v))
                && unchanged(processor) && !startsTask
      ensures !Routed(m, waiting) ==>
                && (forall v :: v in waiting.Values ==> unchanged(v))
                && processor.queue == (if old(processor.isRunning) then old(processor.queue) + [m] else old(processor.queue))
                && processor.isRunning == old(processor.isRunning)
                && processor.isProcessing == old(processor.isProcessing)
                && startsTask == (processor.isRunning && !processor.isProcessing)
    {
      if !IsNullOrEmpty(m.repliedMessageId) {
        if m.repliedMessageId.value in waiting {
          var w := waiting[m.repliedMessageId.value];
          w.responseMessage := Some(m);
          w.state := ResponseReceived;
          w.signalled := true;
          return false;
        }
      }
      startsTask := processor.EnqueueMessage(m);
    }

    /** One thing that happens while request `id`, whose record is `w`, waits. */
    method HandleWhileWaiting(e: Event, id: string, w: WaitingMessage, ghost p: Pending)
      requires Valid()
      requires w.state == p.state && w.responseMessage == p.response && w.signalled == p.signalled
      requires p.registered ==> id in waiting && waiting[id] == w
      requires !p.registered ==> id !in waiting
      requires forall k :: k in waiting && k != id ==> waiting[k] != w
      modifies this, processor, waiting.Values
      ensures Valid() && sent == old(sent) && timeout == old(timeout)
      ensures waiting == old(waiting) || waiting == map[]
      ensures Routing(waiting.Keys, processor.isRunning, processor.queue)
           == Route(Routing(old(waiting).Keys, old(processor.isRunning), old(processor.queue)), e)
      ensures var q := Step(id, p, e);
        && w.state == q.state && w.responseMessage == q.response && w.signalled == q.signalled
        && (q.registered ==> id in waiting && waiting[id] == w)
        && (!q.registered ==> id !in waiting)
    {
      match e {
        case Arrival(m) =>
          var startsTask := MessengerMessageReceived(m);
        case StopCalled =>
          Stop();
      }
    }

    /**
     * The wait of SendMessageAndWaitForResponse for request `id`, whose record
     * `w` is in the table: the record ends as Settle says, and the table and
     * the processor as RouteAll says.
     */
    method AwaitResponse(id: string, w: WaitingMessage, events: seq<Event>)
      requires Valid()
      requires id in waiting && waiting[id] == w
      requires forall k :: k in waiting && k != id ==> waiting[k] != w
      requires w.state == WaitingForResponse && w.responseMessage == None && !w.signalled
      modifies this, processor, waiting.Values
      ensures Valid() && sent == old(sent) && timeout == old(timeout)
      ensures waiting == old(waiting) || waiting == map[]
      ensures var q := Settle(id, Registered, events);
        && Consistent(q) && w.state == q.state && w.responseMessage == q.response
        && (!q.registered ==> id !in waiting)
      ensures Routing(waiting.Keys, processor.isRunning, processor.queue)
           == RouteAll(Routing(old(waiting).Keys, old(processor.isRunning), old(processor.queue)), events)
    {
      ghost var p := Registered;
      ghost var routing := Routing(waiting.Keys, processor.isRunning, processor.queue);
      var i := 0;
      while i < |events|
        invariant 0 <= i <= |events|
        invariant Valid() && sent == old(sent) && timeout == old(timeout)
        invariant Settle(id, p, events[i..]) == Settle(id, Registered, events)
        invariant w.state == p.state && w.responseMessage == p.response && w.signalled == p.signalled
        invariant Consistent(p)
        invariant p.registered ==> id in waiting && waiting[id] == w
        invariant !p.registered ==> id !in waiting
        invariant waiting == old(waiting) || waiting == map[]
        invariant routing == Routing(waiting.Keys, processor.isRunning, processor.queue)
        invariant RouteAll(routing, events[i..])
               == RouteAll(Routing(old(waiting).Keys, old(processor.isRunning), old(processor.queue)), events)
        decreases |events| - i
      {
        assert events[i..][1..] == events[i + 1..];
        var e := events[i];
        HandleWhileWaiting(e, id, w, p);
        p := Step(id, p, e);
        routing := Route(routing, e);
        i := i + 1;
      }
    }

    /**
     * Sends a request and waits for its answer while `events` happen; the
     * request's entry is removed from the table on every path.
     */
    method SendMessageAndWaitForResponse(message: Message, sendFails: bool, events: seq<Event>)
      returns (r: Result<Message, RequestError>)
      requires Valid()
      modifies this, processor, waiting.Values
      ensures Valid()
      ensures message.messageId !in waiting
      ensures waiting.Values <= old(waiting.Values) && timeout == old(timeout)
      ensures sendFails ==> r == Failure(SendFailed) && sent == old(sent)
      ensures !sendFails ==> sent == old(sent) + [message]
      ensures !sendFails ==> Consistent(Settle(message.messageId, Registered, events))
      ensures !sendFails ==> r == Outcome(Settle(message.messageId, Registered, events))
      ensures sendFails ==> processor.queue == old(processor.queue) && processor.isRunning == old(processor.isRunning)
                            && waiting == old(waiting) - {message.messageId}
      ensures !sendFails ==>
                var q := RouteAll(Routing(old(waiting).Keys + {message.messageId}, old(processor.isRunning), old(processor.queue)), events);
                processor.queue == q.queue && processor.isRunning == q.running && waiting.Keys == q.keys - {message.messageId}
    {
      var id := message.messageId;
      var w := new WaitingMessage();
      waiting := waiting[id := w];
      if sendFails {
        waiting := waiting - {id};
        return Failure(SendFailed);
      }
      SendMessage(message);
      ghost var before := Routing(waiting.Keys, processor.isRunning, processor.queue);
      assert before == Routing(old(waiting).Keys + {id}, old(processor.isRunning), old(processor.queue));
      AwaitResponse(id, w, events);
      assert Routing(waiting.Keys, processor.isRunning, processor.queue) == RouteAll(before, events);
      waiting := waiting - {id};
      match w.state {
        case WaitingForResponse => r := Failure(TimeoutError(TimeoutText));
        case Cancelled => r := Failure(CommunicationError(DisconnectedText));
        case ResponseReceived => r := Success(w.responseMessage.value);
      }
    }
  }
}
