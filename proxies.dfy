// The client end of a remote method call: RemoteInvokeProxy turns a call of
// a proxy method into an invoke message, waits for the answer through a
// request/reply messenger and turns the answer into the call's result.
module Proxies {
  import opened Wrappers
  import opened Messages
  import opened RequestReply
  import Services

  /** How a proxied call ends: a value, the remote exception rethrown, or the messenger's own error. */
  datatype CallResult =
    | ReturnedValue(value: Value)
    | RemoteThrew(exception: RemoteException)
    | CallFailed(error: RequestError)

  /** The request for a call: a new message naming the proxy's interface, the method and the arguments as given. */
  function InvokeRequest(freshId: string, proxyName: string, methodName: string, parameters: seq<Value>): (r: Message)
    ensures !IsReply(r) && r.messageId == freshId
  {
    NewMessage(freshId, RemoteInvoke(proxyName, methodName, parameters))
  }

  /** The result of the call for what SendMessageAndWaitForResponse gave back. */
  function ResponseResult(response: Result<Message, RequestError>): CallResult {
    match response
    case Failure(e) => CallFailed(e)
    case Success(m) =>
      if !m.body.RemoteInvokeReturn? then ReturnedValue(Null)
      else if m.body.remoteException.None? then ReturnedValue(m.body.returnValue)
      else RemoteThrew(m.body.remoteException.value)
  }

  /** What Intercept returns when the request with id `id` is sent and `events` happen while it waits. */
  function InterceptResult(invoked: Option<string>, sendFails: bool, id: string, events: seq<Event>): CallResult {
    if invoked.None? then ReturnedValue(Null)
    else if sendFails then CallFailed(SendFailed)
    else
      SettleConsistent(id, Registered, events);
      ResponseResult(Outcome(Settle(id, Registered, events)))
  }

  class RemoteInvokeProxy {
    /** The name of the proxied interface type. */
    const proxyName: string
    const messenger: RequestReplyMessenger

    constructor(name: string, clientMessenger: RequestReplyMessenger)
      ensures proxyName == name && messenger == clientMessenger
    {
      proxyName := name;
      messenger := clientMessenger;
    }

    /**
     * Intercept: a call with no method is null and sends nothing; otherwise
     * the invoke request is sent and waited for, and the answer becomes the
     * result.
     */
    method Intercept(invoked: Option<string>, parameters: seq<Value>, freshId: string, sendFails: bool, events: seq<Event>)
      returns (r: CallResult)
      requires messenger.Valid()
      modifies messenger, messenger.processor, messenger.waiting.Values
      ensures messenger.Valid()
      ensures r == InterceptResult(invoked, sendFails, freshId, events)
      ensures messenger.waiting.Values <= old(messenger.waiting.Values) && messenger.timeout == old(messenger.timeout)
      ensures invoked.None? ==> messenger.sent == old(messenger.sent) && messenger.waiting == old(messenger.waiting)
      ensures invoked.Some? ==>
                messenger.sent == old(messenger.sent)
                                  + (if sendFails then [] else [InvokeRequest(freshId, proxyName, invoked.value, parameters)])
    {
      if invoked.None? {
        return ReturnedValue(Null);
      }
      var request := InvokeRequest(freshId, proxyName, invoked.value, parameters);
      var response := messenger.SendMessageAndWaitForResponse(request, sendFails, events);
      r := ResponseResult(response);
    }
  }

  /** The result the proxy gives for what the server's method did. */
  function ServerResult(outcome: Services.InvokeOutcome, version: string): CallResult {
    match outcome
    case Returned(v) => ReturnedValue(v)
    case Threw(message) => RemoteThrew(RemoteException(Services.FailureText(message, version)))
  }

  /**
   * A call through the proxy, answered by the server's dispatch and with no
   * other answer to it, ends as the server's method did: its return value,
   * or its exception with the service version; an unknown service comes
   * back as the server's error.
   */
  lemma RemoteCallEndToEnd(services: map<string, Services.ServiceObject>, clients: map<int, Services.ServiceClient>,
                           clientId: int, proxyName: string, methodName: string, parameters: seq<Value>,
                           requestId: string, replyId: string, later: seq<Event>)
    requires clientId in clients && requestId != []
    requires forall i :: 0 <= i < |later| ==> later[i].Arrival? && !Answers(later[i].message, requestId)
    ensures var request := InvokeRequest(requestId, proxyName, methodName, parameters);
      var d := Services.Dispatch(services, clients, clientId, request, replyId);
      && d.Replied?
      && var result := InterceptResult(Some(methodName), false, requestId, [Arrival(d.reply)] + later);
      && (proxyName !in services ==>
            result == RemoteThrew(RemoteException(Services.NoServiceText(proxyName))))
      && (proxyName in services ==>
            var so := services[proxyName];
            result == ServerResult(Services.InvokeMethod(so, methodName, parameters, Success(clients[clientId])),
                                   so.attribute.version))
  {
    var request := InvokeRequest(requestId, proxyName, methodName, parameters);
    var d := Services.Dispatch(services, clients, clientId, request, replyId);
    Services.DispatchCases(services, clients, clientId, request, replyId);
    assert Answers(d.reply, requestId);
    AnsweredOnce(requestId, d.reply, later);
  }

  /**
   * A call from a connection the server does not know gets no answer: the
   * server drops the connection, and the waiting call fails as disconnected
   * once the messenger stops.
   */
  lemma UnknownCallerDisconnects(services: map<string, Services.ServiceObject>, clients: map<int, Services.ServiceClient>,
                                 clientId: int, proxyName: string, methodName: string, parameters: seq<Value>,
                                 requestId: string, replyId: string, later: seq<Event>)
    requires clientId !in clients
    ensures var request := InvokeRequest(requestId, proxyName, methodName, parameters);
      && Services.Dispatch(services, clients, clientId, request, replyId) == Services.DisconnectClient
      && InterceptResult(Some(methodName), false, requestId, [StopCalled] + later)
         == CallFailed(CommunicationError(DisconnectedText))
  {
    StopFirstDisconnects(requestId, later);
  }
}
