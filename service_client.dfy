// The client end of a service: ScsServiceClient over an ScsClientBase and a
// request/reply messenger, the callbacks the server invokes on the client
// object, and the proxy that connects on demand around a call.
//
// Like the server's services, the client object is data: each method name
// maps to a function from the arguments to the outcome of the call.
module ServiceClients {
  import opened Wrappers
  import opened Messages
  import opened RequestReply
  import Clients
  import Services
  import Proxies

  /** A method of the client object: its outcome for the arguments. */
  type ClientMethod = seq<Value> -> Services.InvokeOutcome

  /** The object that answers the server's calls, by method name. */
  datatype ClientObject = ClientObject(methods: map<string, ClientMethod>)

  const NoClientObjectText: string := "Client does not wait for method invocations by server."
  /** The message of the NullReferenceException raised by calling a method GetMethod did not find. */
  const NullReferenceText: string := "Object reference not set to an instance of an object."

  /**
   * The reply to a message from the server: none unless it is an invoke
   * message; with no client object, or a method it lacks, or a method that
   * threw, a remote exception; otherwise the return value.
   */
  function CallbackReply(clientObject: Option<ClientObject>, m: Message, freshId: string): Option<Message> {
    match m.body
    case RemoteInvoke(_, methodName, parameters) =>
      if clientObject.None? then
        Some(Services.InvokeReturn(freshId, m, Null, Some(RemoteException(NoClientObjectText))))
      else if methodName !in clientObject.value.methods then
        Some(Services.InvokeReturn(freshId, m, Null, Some(RemoteException(NullReferenceText))))
      else
        (match clientObject.value.methods[methodName](parameters)
         case Returned(v) => Some(Services.InvokeReturn(freshId, m, v, None))
         case Threw(message) => Some(Services.InvokeReturn(freshId, m, Null, Some(RemoteException(message)))))
    case _ => None
  }

  /**
   * There is a reply exactly for an invoke message, it answers that message,
   * and it carries no exception exactly when the client object has the
   * method and the method returned, whose value it then carries; the
   * service name the server gave plays no part.
   */
  lemma CallbackCases(clientObject: Option<ClientObject>, m: Message, freshId: string, otherService: string)
    ensures var reply := CallbackReply(clientObject, m, freshId);
      && (reply.Some? <==> m.body.RemoteInvoke?)
      && (reply.Some? ==>
            && reply.value.messageId == freshId && reply.value.repliedMessageId == Some(m.messageId)
            && reply.value.body.RemoteInvokeReturn?
            && (reply.value.body.remoteException.None? <==>
                  && clientObject.Some? && m.body.methodName in clientObject.value.methods
                  && clientObject.value.methods[m.body.methodName](m.body.parameters).Returned?)
            && (reply.value.body.remoteException.None? ==>
                  reply.value.body.returnValue == clientObject.value.methods[m.body.methodName](m.body.parameters).value)
            && (reply.value.body.remoteException.Some? ==> reply.value.body.returnValue == Null))
      && (m.body.RemoteInvoke? ==>
            reply == CallbackReply(clientObject, m.(body := m.body.(serviceClassName := otherService)), freshId))
  {
  }

  /** The exception texts of the three failures. */
  lemma CallbackErrorTexts(clientObject: Option<ClientObject>, m: Message, freshId: string)
    requires m.body.RemoteInvoke?
    ensures var e := CallbackReply(clientObject, m, freshId).value.body.remoteException;
      && (clientObject.None? ==> e == Some(RemoteException(NoClientObjectText)))
      && (clientObject.Some? && m.body.methodName !in clientObject.value.methods ==>
            e == Some(RemoteException(NullReferenceText)))
      && (clientObject.Some? && m.body.methodName in clientObject.value.methods ==>
            var outcome := clientObject.value.methods[m.body.methodName](m.body.parameters);
            outcome.Threw? ==> e == Some(RemoteException(outcome.message)))
  {
  }

  datatype ServiceClientEvent = ServiceConnected | ServiceDisconnected

  class ScsServiceClient {
    const client: Clients.ScsClientBase
    const messenger: RequestReplyMessenger
    const clientObject: Option<ClientObject>
    /** The Connected and Disconnected events raised so far. */
    var events: seq<ServiceClientEvent>

    ghost predicate Valid()
      reads this, messenger, messenger.processor
    {
      messenger.Valid()
    }

    constructor(scsClient: Clients.ScsClientBase, obj: Option<ClientObject>)
      ensures Valid() && fresh(messenger) && fresh(messenger.processor)
      ensures client == scsClient && clientObject == obj && events == []
      ensures messenger.timeout == DefaultTimeout && messenger.waiting == map[] && messenger.sent == []
      ensures !messenger.processor.isRunning
    {
      client := scsClient;
      clientObject := obj;
      messenger := new RequestReplyMessenger();
      events := [];
    }

    function ConnectTimeout(): int
      reads client
    {
      client.connectTimeout
    }

    method SetConnectTimeout(value: int)
      modifies client
      ensures client.connectTimeout == value
      ensures client.channel == old(client.channel) && client.events == old(client.events)
      ensures client.wireProtocol == old(client.wireProtocol)
    {
      client.connectTimeout := value;
    }

    function CommunicationStateOf(): Clients.CommunicationState
      reads client, client.channel
    {
      client.CommunicationStateOf()
    }

    /** The Timeout property reads the messenger's timeout. */
    function Timeout(): int
      reads messenger
    {
      messenger.timeout
    }

    /** The Timeout setter writes the messenger's timeout, and nothing else changes. */
    method SetTimeout(value: int)
      modifies messenger
      ensures Timeout() == value
      ensures messenger.waiting == old(messenger.waiting) && messenger.sent == old(messenger.sent)
    {
      messenger.timeout := value;
    }

    /** Client_Connected: the messenger starts and Connected is raised. */
    method ClientConnected()
      requires Valid()
      modifies this, messenger.processor
      ensures Valid()
      ensures messenger.processor.isRunning && messenger.processor.queue == old(messenger.processor.queue)
      ensures events == old(events) + [ServiceConnected]
    {
      messenger.Start();
      events := events + [ServiceConnected];
    }

    /** Client_Disconnected: the messenger stops, which releases every waiting call, and Disconnected is raised. */
    method ClientDisconnected()
      requires Valid()
      modifies this, messenger, messenger.processor, messenger.waiting.Values
      ensures Valid()
      ensures !messenger.processor.isRunning && messenger.waiting == map[]
      ensures forall w :: w in old(messenger.waiting.Values) ==> w.state == Cancelled && w.signalled
      ensures messenger.sent == old(messenger.sent) && messenger.timeout == old(messenger.timeout)
      ensures events == old(events) + [ServiceDisconnected]
    {
      messenger.Stop();
      events := events + [ServiceDisconnected];
    }

    /** Connect: the client connects, and when it does its Connected event starts the messenger. */
    method Connect(channelFails: bool) returns (r: Result<Unit, Clients.ClientError>)
      requires Valid()
      modifies this, client, client.wireProtocol, messenger.processor
      ensures Valid()
      ensures channelFails ==> r == Failure(Clients.ConnectFailed) && events == old(events)
                               && client.channel == old(client.channel)
      ensures !channelFails ==>
                && r.Success? && fresh(client.channel) && CommunicationStateOf() == Clients.Connected
                && messenger.processor.isRunning && events == old(events) + [ServiceConnected]
      ensures messenger.processor.isRunning == (old(messenger.processor.isRunning) || !channelFails)
    {
      r := client.Connect(channelFails);
      if r.Success? {
        ClientConnected();
      }
    }

    /** Disconnect: does nothing unless connected; otherwise the client's Disconnected event stops the messenger. */
    method Disconnect()
      requires Valid()
      modifies this, client, client.channel, messenger, messenger.processor, messenger.waiting.Values
      ensures Valid()
      ensures CommunicationStateOf() == Clients.Disconnected && client.channel == old(client.channel)
      ensures old(CommunicationStateOf()) != Clients.Connected ==>
                events == old(events) && unchanged(messenger, messenger.processor)
      ensures old(CommunicationStateOf()) == Clients.Connected ==>
                && events == old(events) + [ServiceDisconnected]
                && !messenger.processor.isRunning && messenger.waiting == map[]
      ensures messenger.sent == old(messenger.sent) && messenger.timeout == old(messenger.timeout)
    {
      var raised := client.Disconnect();
      if raised {
        ClientDisconnected();
      }
    }

    /** Dispose is Disconnect. */
    method Dispose()
      requires Valid()
      modifies this, client, client.channel, messenger, messenger.processor, messenger.waiting.Values
      ensures Valid()
      ensures CommunicationStateOf() == Clients.Disconnected
      ensures old(CommunicationStateOf()) != Clients.Connected ==> events == old(events)
      ensures old(CommunicationStateOf()) == Clients.Connected ==> events == old(events) + [ServiceDisconnected]
    {
      Disconnect();
    }

    /** SendInvokeResponse: the reply goes out through the messenger; a failure to send is swallowed. */
    method SendInvokeResponse(reply: Message, sendFails: bool)
      modifies messenger
      ensures messenger.sent == old(messenger.sent) + (if sendFails then [] else [reply])
      ensures messenger.waiting == old(messenger.waiting) && messenger.timeout == old(messenger.timeout)
    {
      if !sendFails {
        messenger.SendMessage(reply);
      }
    }

    /** The messenger's MessageReceived handler: the reply sent, if any, is CallbackReply's. */
    method MessengerMessageReceived(m: Message, freshId: string, sendFails: bool) returns (reply: Option<Message>)
      modifies messenger
      ensures reply == CallbackReply(clientObject, m, freshId)
      ensures messenger.sent == old(messenger.sent) + (if reply.Some? && !sendFails then [reply.value] else [])
      ensures messenger.waiting == old(messenger.waiting) && messenger.timeout == old(messenger.timeout)
    {
      if !m.body.RemoteInvoke? {
        return None;
      }
      if clientObject.None? {
        reply := Some(Services.InvokeReturn(freshId, m, Null, Some(RemoteException(NoClientObjectText))));
        SendInvokeResponse(reply.value, sendFails);
        return;
      }
      var methods := clientObject.value.methods;
      if m.body.methodName !in methods {
        reply := Some(Services.InvokeReturn(freshId, m, Null, Some(RemoteException(NullReferenceText))));
        SendInvokeResponse(reply.value, sendFails);
        return;
      }
      var outcome := methods[m.body.methodName](m.body.parameters);
      if outcome.Threw? {
        reply := Some(Services.InvokeReturn(freshId, m, Null, Some(RemoteException(outcome.message))));
        SendInvokeResponse(reply.value, sendFails);
        return;
      }
      reply := Some(Services.InvokeReturn(freshId, m, outcome.value, None));
      SendInvokeResponse(reply.value, sendFails);
    }
  }

  /** How an auto-connecting call ends: the proxied call's result, or the failure to connect. */
  datatype AutoConnectResult = Invoked(result: Proxies.CallResult) | ConnectError(error: Clients.ClientError)

  /** AutoConnectRemoteInvokeProxy: a RemoteInvokeProxy that connects the service client around a call when needed. */
  class AutoConnectRemoteInvokeProxy {
    const base: Proxies.RemoteInvokeProxy
    const client: ScsServiceClient

    ghost predicate Valid()
      reads this, base, client, client.messenger, client.messenger.processor
    {
      base.messenger == client.messenger && client.Valid()
    }

    constructor(proxyName: string, serviceClient: ScsServiceClient)
      requires serviceClient.Valid()
      ensures Valid() && client == serviceClient && base.proxyName == proxyName && fresh(base)
    {
      base := new Proxies.RemoteInvokeProxy(proxyName, serviceClient.messenger);
      client := serviceClient;
    }

    /**
     * Invoke: when connected, the call is made as it is; otherwise the
     * client connects first, a failed connect ends the call before anything
     * is sent, and after the call the client is disconnected again.
     */
    method Invoke(invoked: Option<string>, parameters: seq<Value>, freshId: string,
                  channelFails: bool, sendFails: bool, events: seq<Event>) returns (r: AutoConnectResult)
      requires Valid()
      modifies client, client.client, client.client.wireProtocol, client.client.channel,
               client.messenger, client.messenger.processor, client.messenger.waiting.Values
      ensures Valid()
      ensures old(client.CommunicationStateOf()) == Clients.Connected ==>
                && r == Invoked(Proxies.InterceptResult(invoked, sendFails, freshId, events))
                && client.events == old(client.events) && client.client.channel == old(client.client.channel)
      ensures old(client.CommunicationStateOf()) != Clients.Connected && channelFails ==>
                && r == ConnectError(Clients.ConnectFailed)
                && client.events == old(client.events) && client.messenger.sent == old(client.messenger.sent)
      ensures old(client.CommunicationStateOf()) != Clients.Connected && !channelFails ==>
                && r == Invoked(Proxies.InterceptResult(invoked, sendFails, freshId, events))
                && client.CommunicationStateOf() == Clients.Disconnected
                && !client.messenger.processor.isRunning && client.messenger.waiting == map[]
                && client.events == old(client.events) + [ServiceConnected, ServiceDisconnected]
    {
      if client.CommunicationStateOf() == Clients.Connected {
        var result := base.Intercept(invoked, parameters, freshId, sendFails, events);
        return Invoked(result);
      }
      var connected := client.Connect(channelFails);
      if connected.Failure? {
        return ConnectError(connected.error);
      }
      var result := base.Intercept(invoked, parameters, freshId, sendFails, events);
      client.Disconnect();
      r := Invoked(result);
    }
  }
}
