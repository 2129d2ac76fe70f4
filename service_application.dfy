// The server side of remote method invocation: a registry of services keyed
// by interface name, a registry of connected service clients keyed by client
// id, and the decision tree that turns an incoming invoke message into a
// reply.
//
// Reflection is replaced by data: a service interface is its name, its
// ScsService attributes and the names of its methods; a service instance maps
// each method name to an implementation, a function from the arguments and
// what CurrentClient returns while the method runs to the outcome of the
// call.  The server's own start and stop are a flag.
module Services {
  import opened Wrappers
  import opened Strings
  import opened Messages
  import RequestReply

  /** A server-side service client, known by the id of its connection. */
  datatype ServiceClient = ServiceClient(clientId: int)

  const CurrentClientText: string :=
    "Client channel can not be obtained. CurrentClient property must be called by the thread which runs the service method."

  /**
   * ScsService.CurrentClient: one thread-static slot that every service
   * shares, so a value set through one service is what every service on
   * that thread reads.
   */
  class CurrentClientSlot {
    var current: Option<ServiceClient>

    constructor()
      ensures current == None
    {
      current := None;
    }

    /** The getter: the client that was set, or an error when none is set. */
    method Get() returns (r: Result<ServiceClient, string>)
      ensures current.None? ==> r == Failure(CurrentClientText)
      ensures current.Some? ==> r == Success(current.value)
    {
      if current.None? {
        return Failure(CurrentClientText);
      }
      return Success(current.value);
    }

    /** The setter; setting null makes reads fail again. */
    method Set(v: Option<ServiceClient>)
      modifies this
      ensures current == v
    {
      current := v;
    }
  }

  /** A read after a set returns what was set, and a read after clearing fails. */
  method SlotSetThenClear(slot: CurrentClientSlot, c: ServiceClient)
    returns (whileSet: Result<ServiceClient, string>, afterClear: Result<ServiceClient, string>)
    modifies slot
    ensures whileSet == Success(c) && afterClear == Failure(CurrentClientText)
    ensures slot.current == None
  {
    slot.Set(Some(c));
    whileSet := slot.Get();
    slot.Set(None);
    afterClear := slot.Get();
  }

  /** What a service method call comes to: a return value, or the message of the exception it raised. */
  datatype InvokeOutcome = Returned(value: Value) | Threw(message: string)

  /** A service method: its outcome for the arguments and for what CurrentClient returns during the call. */
  type Implementation = (seq<Value>, Result<ServiceClient, string>) -> InvokeOutcome

  datatype ScsServiceAttribute = ScsServiceAttribute(version: string)

  /** The attribute's parameterless constructor sets this version. */
  const NoVersion: string := "NO_VERSION"
  const DefaultServiceAttribute: ScsServiceAttribute := ScsServiceAttribute(NoVersion)

  /** A service interface type: its name, its ScsService attributes and its method names, in declaration order. */
  datatype ServiceInterface = ServiceInterface(name: string, attributes: seq<ScsServiceAttribute>, methodNames: seq<string>)

  /** An object that implements a service interface. */
  datatype ServiceInstance = ServiceInstance(implementation: string -> Implementation)

  /** A registered service: its attribute and its methods by name. */
  datatype ServiceObject = ServiceObject(attribute: ScsServiceAttribute, methods: map<string, Implementation>)

  datatype ServiceError =
    | ArgumentNull(parameterName: string)
    | AlreadyAdded(message: string)
    | MissingAttribute(message: string)
      /** SortedList.Add refused a second method of the same name (an overload). */
    | DuplicateMethod(name: string)

  predicate DistinctNames(names: seq<string>) {
    forall i, j :: 0 <= i < j < |names| ==> names[i] != names[j]
  }

  /** `so` is the service object for `iface` implemented by `service`. */
  ghost predicate IsServiceObjectFor(so: ServiceObject, iface: ServiceInterface, service: ServiceInstance) {
    && |iface.attributes| > 0
    && so.attribute == iface.attributes[0]
    && so.methods.Keys == (set i | 0 <= i < |iface.methodNames| :: iface.methodNames[i])
    && forall n :: n in so.methods ==> so.methods[n] == service.implementation(n)
  }

  /**
   * The ServiceObject constructor: the interface must carry the ScsService
   * attribute, the first of which is kept, and its methods are entered by
   * name one after another, which fails on a second method of the same name.
   */
  method NewServiceObject(iface: ServiceInterface, service: ServiceInstance) returns (r: Result<ServiceObject, ServiceError>)
    ensures |iface.attributes| == 0 ==>
              r == Failure(MissingAttribute("Service interface (" + iface.name + ") must has ScsService attribute."))
    ensures |iface.attributes| > 0 ==> (r.Success? <==> DistinctNames(iface.methodNames))
    ensures r.Success? ==> IsServiceObjectFor(r.value, iface, service)
    ensures r.Failure? && |iface.attributes| > 0 ==>
              && r.error.DuplicateMethod?
              && (exists i, j :: 0 <= i < j < |iface.methodNames| && iface.methodNames[i] == iface.methodNames[j] == r.error.name)
  {
    if |iface.attributes| <= 0 {
      return Failure(MissingAttribute("Service interface (" + iface.name + ") must has ScsService attribute."));
    }
    var names := iface.methodNames;
    var methods: map<string, Implementation> := map[];
    var i := 0;
    while i < |names|
      invariant 0 <= i <= |names|
      invariant DistinctNames(names[..i])
      invariant methods.Keys == (set k | 0 <= k < i :: names[k])
      invariant forall n :: n in methods ==> methods[n] == service.implementation(n)
    {
      var name := names[i];
      if name in methods {
        var k :| 0 <= k < i && names[k] == name;
        assert !DistinctNames(names) by {
          assert names[k] == names[i];
        }
        return Failure(DuplicateMethod(name));
      }
      methods := methods[name := service.implementation(name)];
      assert names[..i + 1] == names[..i] + [name];
      i := i + 1;
    }
    assert names[..i] == names;
    r := Success(ServiceObject(iface.attributes[0], methods));
  }

  /** The reply SendInvokeResponse sends: a fresh id, the request's id as replied id, and the result or the error. */
  function InvokeReturn(freshId: string, request: Message, returnValue: Value, exception: Option<RemoteException>): Message {
    Message(freshId, Some(request.messageId), RemoteInvokeReturn(returnValue, exception))
  }

  function NoServiceText(serviceName: string): string {
    "There is no service with name '" + serviceName + "'"
  }

  function NoMethodText(methodName: string): string {
    "There is not a method with name '" + methodName + "' in service class."
  }

  /** The remote exception text for a failed call: the exception's message and the service version. */
  function FailureText(message: string, version: string): string {
    message + NewLine + "Service Version: " + version
  }

  /** ServiceObject.InvokeMethod: an unknown method name fails before anything runs. */
  function InvokeMethod(so: ServiceObject, methodName: string, parameters: seq<Value>, current: Result<ServiceClient, string>): InvokeOutcome {
    if methodName in so.methods then so.methods[methodName](parameters, current)
    else Threw(NoMethodText(methodName))
  }

  /** What the application does with one incoming message. */
  datatype DispatchResult = Ignored | DisconnectClient | Replied(reply: Message)

  /**
   * The decision tree of Client_MessageReceived: anything but an invoke
   * message is ignored; an invoke from an unregistered client drops the
   * connection; an unknown service gets an error reply; otherwise the
   * method runs with CurrentClient set to the caller, and its return value
   * or its failure, with the service version, is the reply.
   */
  function Dispatch(services: map<string, ServiceObject>, clients: map<int, ServiceClient>, clientId: int,
                    m: Message, freshId: string): DispatchResult
  {
    match m.body
    case RemoteInvoke(serviceName, methodName, parameters) =>
      if clientId !in clients then DisconnectClient
      else if serviceName !in services then
        Replied(InvokeReturn(freshId, m, Null, Some(RemoteException(NoServiceText(serviceName)))))
      else
        var so := services[serviceName];
        (match InvokeMethod(so, methodName, parameters, Success(clients[clientId]))
         case Returned(v) => Replied(InvokeReturn(freshId, m, v, None))
         case Threw(message) =>
           Replied(InvokeReturn(freshId, m, Null, Some(RemoteException(FailureText(message, so.attribute.version))))))
    case _ => Ignored
  }

  /**
   * Every reply answers the request it was made for, and carries either a
   * return value or a remote exception, never both; the three outcomes
   * happen exactly in the cases the decision tree names.
   */
  lemma DispatchCases(services: map<string, ServiceObject>, clients: map<int, ServiceClient>, clientId: int,
                      m: Message, freshId: string)
    ensures var d := Dispatch(services, clients, clientId, m, freshId);
      && (d.Ignored? <==> !m.body.RemoteInvoke?)
      && (d.DisconnectClient? <==> m.body.RemoteInvoke? && clientId !in clients)
      && (d.Replied? ==>
            && d.reply.messageId == freshId
            && d.reply.repliedMessageId == Some(m.messageId)
            && d.reply.body.RemoteInvokeReturn?
            && (d.reply.body.remoteException.Some? ==> d.reply.body.returnValue == Null))
  {
  }

  /** A reply without an exception is exactly a call of a known method of a known service that returned. */
  lemma DispatchSucceeds(services: map<string, ServiceObject>, clients: map<int, ServiceClient>, clientId: int,
                         m: Message, freshId: string)
    requires m.body.RemoteInvoke? && clientId in clients
    ensures var d := Dispatch(services, clients, clientId, m, freshId);
      var b := m.body;
      && d.Replied?
      && (d.reply.body.remoteException.None? <==>
            && b.serviceClassName in services
            && b.methodName in services[b.serviceClassName].methods
            && services[b.serviceClassName].methods[b.methodName](b.parameters, Success(clients[clientId])).Returned?)
  {
  }

  /** The error texts: an unknown service names the service, an unknown method names the method and the version. */
  lemma DispatchErrorTexts(services: map<string, ServiceObject>, clients: map<int, ServiceClient>, clientId: int,
                           m: Message, freshId: string)
    requires m.body.RemoteInvoke? && clientId in clients
    ensures var d := Dispatch(services, clients, clientId, m, freshId);
      var b := m.body;
      && (b.serviceClassName !in services ==>
            d.reply.body.remoteException == Some(RemoteException(NoServiceText(b.serviceClassName))))
      && (b.serviceClassName in services && b.methodName !in services[b.serviceClassName].methods ==>
            d.reply.body.remoteException == Some(RemoteException(FailureText(NoMethodText(b.methodName),
                                                   services[b.serviceClassName].attribute.version))))
  {
  }

  /** What the application tells its listeners. */
  datatype ApplicationEvent = ClientConnectedEvent(client: ServiceClient) | ClientDisconnectedEvent(client: ServiceClient)

  class ScsServiceApplication {
    var serviceObjects: map<string, ServiceObject>
    var serviceClients: map<int, ServiceClient>
    var serverRunning: bool
    /** The ClientConnected and ClientDisconnected events raised so far. */
    var events: seq<ApplicationEvent>
    const slot: CurrentClientSlot

    ghost predicate Valid()
      reads this
    {
      forall id :: id in serviceClients ==> serviceClients[id].clientId == id
    }

    constructor()
      ensures Valid() && fresh(slot) && slot.current == None
      ensures serviceObjects == map[] && serviceClients == map[] && !serverRunning && events == []
    {
      serviceObjects := map[];
      serviceClients := map[];
      serverRunning := false;
      events := [];
      slot := new CurrentClientSlot();
    }

    method Start()
      modifies this
      ensures serverRunning
      ensures serviceObjects == old(serviceObjects) && serviceClients == old(serviceClients) && events == old(events)
    {
      serverRunning := true;
    }

    method Stop()
      modifies this
      ensures !serverRunning
      ensures serviceObjects == old(serviceObjects) && serviceClients == old(serviceClients) && events == old(events)
    {
      serverRunning := false;
    }

    /**
     * Registers a service under its interface name; a null service and a
     * name already registered are refused, and so is an interface the
     * ServiceObject constructor rejects, each leaving the registry as it was.
     */
    method AddService(iface: ServiceInterface, service: Option<ServiceInstance>) returns (r: Result<Unit, ServiceError>)
      modifies this
      ensures serviceClients == old(serviceClients) && events == old(events) && serverRunning == old(serverRunning)
      ensures service.None? ==> r == Failure(ArgumentNull("service"))
      ensures service.Some? && iface.name in old(serviceObjects) ==>
                r == Failure(AlreadyAdded("Service '" + iface.name + "' is already added before."))
      ensures r.Failure? ==> serviceObjects == old(serviceObjects)
      ensures r.Success? ==>
                && service.Some? && iface.name !in old(serviceObjects)
                && serviceObjects.Keys == old(serviceObjects).Keys + {iface.name}
                && IsServiceObjectFor(serviceObjects[iface.name], iface, service.value)
                && forall n :: n in old(serviceObjects) ==> serviceObjects[n] == old(serviceObjects)[n]
      ensures service.Some? && iface.name !in old(serviceObjects) ==>
                (r.Success? <==> |iface.attributes| > 0 && DistinctNames(iface.methodNames))
    {
      if service.None? {
        return Failure(ArgumentNull("service"));
      }
      if iface.name in serviceObjects {
        return Failure(AlreadyAdded("Service '" + iface.name + "' is already added before."));
      }
      var so := NewServiceObject(iface, service.value);
      if so.Failure? {
        return Failure(so.error);
      }
      serviceObjects := serviceObjects[iface.name := so.value];
      r := Success(Unit);
    }

    /** Removes the service registered under an interface name and reports whether there was one. */
    method RemoveService(interfaceName: string) returns (removed: bool)
      modifies this
      ensures removed == (interfaceName in old(serviceObjects))
      ensures serviceObjects == old(serviceObjects) - {interfaceName}
      ensures serviceClients == old(serviceClients) && events == old(events) && serverRunning == old(serverRunning)
    {
      removed := interfaceName in serviceObjects;
      serviceObjects := serviceObjects - {interfaceName};
    }

    /**
     * A client connected: a started request/reply messenger is made for it,
     * the client is registered under its id and ClientConnected is raised.
     */
    method ClientConnected(clientId: int) returns (messenger: RequestReply.RequestReplyMessenger)
      requires Valid()
      modifies this
      ensures Valid() && fresh(messenger) && messenger.Valid()
      ensures messenger.processor.isRunning && messenger.waiting == map[]
      ensures serviceClients == old(serviceClients)[clientId := ServiceClient(clientId)]
      ensures events == old(events) + [ClientConnectedEvent(ServiceClient(clientId))]
      ensures serviceObjects == old(serviceObjects) && serverRunning == old(serverRunning)
    {
      messenger := new RequestReply.RequestReplyMessenger();
      messenger.Start();
      serviceClients := serviceClients[clientId := ServiceClient(clientId)];
      events := events + [ClientConnectedEvent(ServiceClient(clientId))];
    }

    /** A client disconnected: an unknown id is ignored; a known one is unregistered and ClientDisconnected is raised. */
    method ClientDisconnected(clientId: int)
      requires Valid()
      modifies this
      ensures Valid()
      ensures serviceClients == old(serviceClients) - {clientId}
      ensures clientId !in old(serviceClients) ==> events == old(events)
      ensures clientId in old(serviceClients) ==>
                events == old(events) + [ClientDisconnectedEvent(old(serviceClients)[clientId])]
      ensures serviceObjects == old(serviceObjects) && serverRunning == old(serverRunning)
    {
      if clientId !in serviceClients {
        return;
      }
      var client := serviceClients[clientId];
      serviceClients := serviceClients - {clientId};
      events := events + [ClientDisconnectedEvent(client)];
    }

    /** SendInvokeResponse: send the reply; a failure to send is swallowed. */
    static method SendInvokeResponse(messenger: RequestReply.RequestReplyMessenger, reply: Message, sendFails: bool)
      modifies messenger
      ensures messenger.sent == old(messenger.sent) + (if sendFails then [] else [reply])
      ensures messenger.waiting == old(messenger.waiting) && messenger.timeout == old(messenger.timeout)
    {
      if !sendFails {
        messenger.SendMessage(reply);
      }
    }

    /**
     * Client_MessageReceived for a message that came through the messenger
     * of client `clientId`: the reply sent, if any, is the one Dispatch
     * decides, and CurrentClient holds the caller exactly while the method
     * runs and is cleared afterwards, whatever the method did.
     */
    method ClientMessageReceived(messenger: RequestReply.RequestReplyMessenger, clientId: int, m: Message,
                                 freshId: string, sendFails: bool) returns (d: DispatchResult)
      modifies slot, messenger
      ensures d == Dispatch(serviceObjects, serviceClients, clientId, m, freshId)
      ensures messenger.sent == old(messenger.sent) + (if d.Replied? && !sendFails then [d.reply] else [])
      ensures messenger.waiting == old(messenger.waiting) && messenger.timeout == old(messenger.timeout)
      ensures m.body.RemoteInvoke? && clientId in serviceClients && m.body.serviceClassName in serviceObjects ==>
                slot.current == None
      ensures !(m.body.RemoteInvoke? && clientId in serviceClients && m.body.serviceClassName in serviceObjects) ==>
                slot.current == old(slot.current)
    {
      if !m.body.RemoteInvoke? {
        return Ignored;
      }
      if clientId !in serviceClients {
        return DisconnectClient;
      }
      var client := serviceClients[clientId];
      var serviceName := m.body.serviceClassName;
      if serviceName !in serviceObjects {
        d := Replied(InvokeReturn(freshId, m, Null, Some(RemoteException(NoServiceText(serviceName)))));
        SendInvokeResponse(messenger, d.reply, sendFails);
        return;
      }
      var so := serviceObjects[serviceName];
      slot.Set(Some(client));
      var outcome: InvokeOutcome;
      if m.body.methodName in so.methods {
        var current := slot.Get();
        outcome := so.methods[m.body.methodName](m.body.parameters, current);
      } else {
        outcome := Threw(NoMethodText(m.body.methodName));
      }
      slot.Set(None);
      match outcome {
        case Returned(v) =>
          d := Replied(InvokeReturn(freshId, m, v, None));
        case Threw(message) =>
          d := Replied(InvokeReturn(freshId, m, Null, Some(RemoteException(FailureText(message, so.attribute.version)))));
      }
      SendInvokeResponse(messenger, d.reply, sendFails);
    }
  }
}
