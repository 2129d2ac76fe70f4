// The client side of a connection: ScsClientBase over a communication
// channel.  The transport is abstract: creating a channel either fails or
// gives a channel that starts connected, and the clock is a parameter.
// Events the client raises are kept in a log, in order.
module Clients {
  import opened Wrappers
  import opened Messages
  import WireProtocol

  datatype CommunicationState = Connected | Disconnected

  /** Times are milliseconds from DateTime.MinValue. */
  const MinTime: int := 0
  const OneMinute: int := 60000
  /** The ping timer's period and the default connection attempt timeout, in milliseconds. */
  const PingTimerPeriod: int := 30000
  const DefaultConnectionAttemptTimeout: int := 15000

  const NotConnectedText: string := "Client is not connected to the server."
  const ProtocolChangeText: string := "Wire protocol can not be changed while connected to server."

  datatype ClientError =
    | CommunicationStateError(message: string)
    | ApplicationError(message: string)
      /** Creating the channel failed (the server refused or did not answer). */
    | ConnectFailed

  /** The part of a communication channel the client relies on. */
  class CommunicationChannel {
    var state: CommunicationState
    var lastReceivedMessageTime: int
    var lastSentMessageTime: int
    var wireProtocol: WireProtocol.BinarySerializationProtocol<Message>
    /** Messages written to the connection, in order. */
    var sent: seq<Message>

    constructor(protocol: WireProtocol.BinarySerializationProtocol<Message>)
      ensures state == Disconnected && wireProtocol == protocol && sent == []
      ensures lastReceivedMessageTime == MinTime && lastSentMessageTime == MinTime
    {
      state := Disconnected;
      lastReceivedMessageTime := MinTime;
      lastSentMessageTime := MinTime;
      wireProtocol := protocol;
      sent := [];
    }

    method Start()
      modifies this
      ensures state == Connected
      ensures sent == old(sent) && wireProtocol == old(wireProtocol)
      ensures lastReceivedMessageTime == old(lastReceivedMessageTime) && lastSentMessageTime == old(lastSentMessageTime)
    {
      state := Connected;
    }

    method SendMessage(m: Message, now: int)
      modifies this
      ensures sent == old(sent) + [m] && lastSentMessageTime == now
      ensures state == old(state) && wireProtocol == old(wireProtocol)
      ensures lastReceivedMessageTime == old(lastReceivedMessageTime)
    {
      sent := sent + [m];
      lastSentMessageTime := now;
    }

    /** Closes the connection; the result says whether the channel raised Disconnected. */
    method Disconnect() returns (raised: bool)
      modifies this
      ensures state == Disconnected && raised == (old(state) == Connected)
      ensures sent == old(sent) && wireProtocol == old(wireProtocol)
      ensures lastReceivedMessageTime == old(lastReceivedMessageTime) && lastSentMessageTime == old(lastSentMessageTime)
    {
      raised := state == Connected;
      state := Disconnected;
    }
  }

  datatype ClientEvent =
    | ConnectedEvent
    | DisconnectedEvent
    | MessageReceivedEvent(message: Message)
    | MessageSentEvent(message: Message)

  /**
   * The keep-alive rule: ping only while connected, and only when nothing
   * was received and nothing was sent during the last minute.  A clock
   * within a minute of DateTime.MinValue makes AddMinutes(-1) throw, which
   * the timer handler swallows.
   */
  predicate ShouldPing(state: CommunicationState, lastReceived: int, lastSent: int, now: int) {
    && state == Connected
    && now - OneMinute >= MinTime
    && !(lastReceived > now - OneMinute || lastSent > now - OneMinute)
  }

  /** A ping is due exactly when both directions have been idle for at least a minute. */
  lemma ShouldPingIdle(state: CommunicationState, lastReceived: int, lastSent: int, now: int)
    requires state == Connected && now >= MinTime + OneMinute
    ensures ShouldPing(state, lastReceived, lastSent, now)
        <==> now - lastReceived >= OneMinute && now - lastSent >= OneMinute
  {
  }

  /** Once a ping is due it stays due as the clock advances. */
  lemma ShouldPingLater(state: CommunicationState, lastReceived: int, lastSent: int, now: int, later: int)
    requires ShouldPing(state, lastReceived, lastSent, now) && now <= later
    ensures ShouldPing(state, lastReceived, lastSent, later)
  {
  }

  class ScsClientBase {
    var connectTimeout: int
    var wireProtocol: WireProtocol.BinarySerializationProtocol<Message>
    var channel: CommunicationChannel?
    var pingTimerRunning: bool
    var events: seq<ClientEvent>

    /** The channel's state, or Disconnected when there is no channel yet. */
    function CommunicationStateOf(): CommunicationState
      reads this, channel
    {
      if channel != null then channel.state else Disconnected
    }

    function LastReceivedMessageTime(): (t: int)
      reads this, channel
      ensures channel == null ==> t == MinTime
    {
      if channel != null then channel.lastReceivedMessageTime else MinTime
    }

    function LastSentMessageTime(): (t: int)
      reads this, channel
      ensures channel == null ==> t == MinTime
    {
      if channel != null then channel.lastSentMessageTime else MinTime
    }

    /** A new client: no channel, so it is disconnected, with the default timeout and protocol. */
    constructor(protocol: WireProtocol.BinarySerializationProtocol<Message>)
      ensures channel == null && CommunicationStateOf() == Disconnected
      ensures LastReceivedMessageTime() == MinTime && LastSentMessageTime() == MinTime
      ensures connectTimeout == DefaultConnectionAttemptTimeout && wireProtocol == protocol
      ensures !pingTimerRunning && events == []
    {
      connectTimeout := DefaultConnectionAttemptTimeout;
      wireProtocol := protocol;
      channel := null;
      pingTimerRunning := false;
      events := [];
    }

    /** The WireProtocol setter: refused while connected. */
    method SetWireProtocol(protocol: WireProtocol.BinarySerializationProtocol<Message>) returns (r: Result<Unit, ClientError>)
      modifies this
      ensures old(CommunicationStateOf()) == Connected ==> r == Failure(ApplicationError(ProtocolChangeText)) && wireProtocol == old(wireProtocol)
      ensures old(CommunicationStateOf()) != Connected ==> r == Success(Unit) && wireProtocol == protocol
      ensures channel == old(channel) && events == old(events) && pingTimerRunning == old(pingTimerRunning)
    {
      if CommunicationStateOf() == Connected {
        return Failure(ApplicationError(ProtocolChangeText));
      }
      wireProtocol := protocol;
      r := Success(Unit);
    }

    /**
     * Connect: the protocol is reset first; then a channel is created, which
     * may fail, and on success it is started with the client's protocol, the
     * ping timer starts and Connected is raised.
     */
    method Connect(channelFails: bool) returns (r: Result<Unit, ClientError>)
      modifies this, wireProtocol
      ensures wireProtocol == old(wireProtocol) && wireProtocol.received == []
      ensures channelFails ==> r == Failure(ConnectFailed) && channel == old(channel) && events == old(events)
                               && pingTimerRunning == old(pingTimerRunning)
      ensures !channelFails ==>
                && r.Success? && fresh(channel) && channel.state == Connected
                && channel.wireProtocol == wireProtocol && channel.sent == []
                && pingTimerRunning && events == old(events) + [ConnectedEvent]
    {
      wireProtocol.Reset();
      if channelFails {
        return Failure(ConnectFailed);
      }
      var c := new CommunicationChannel(wireProtocol);
      channel := c;
      c.Start();
      pingTimerRunning := true;
      events := events + [ConnectedEvent];
      r := Success(Unit);
    }

    /** The channel's Disconnected handler: the ping timer stops and Disconnected is raised. */
    method ChannelDisconnected()
      modifies this
      ensures !pingTimerRunning && events == old(events) + [DisconnectedEvent]
      ensures channel == old(channel) && wireProtocol == old(wireProtocol)
    {
      pingTimerRunning := false;
      events := events + [DisconnectedEvent];
    }

    /** Disconnect: nothing happens unless connected; the result says whether Disconnected was raised. */
    method Disconnect() returns (raised: bool)
      modifies this, channel
      ensures raised == (old(CommunicationStateOf()) == Connected)
      ensures CommunicationStateOf() == Disconnected
      ensures channel == old(channel) && wireProtocol == old(wireProtocol)
      ensures !raised ==> events == old(events) && pingTimerRunning == old(pingTimerRunning)
      ensures raised ==> events == old(events) + [DisconnectedEvent] && !pingTimerRunning
      ensures channel != null ==> channel.sent == old(channel.sent)
    {
      if CommunicationStateOf() != Connected {
        return false;
      }
      raised := channel.Disconnect();
      ChannelDisconnected();
    }

    /** SendMessage: refused unless connected, in which case nothing is sent. */
    method SendMessage(m: Message, now: int) returns (r: Result<Unit, ClientError>)
      modifies this, channel
      ensures channel == old(channel) && wireProtocol == old(wireProtocol)
      ensures old(CommunicationStateOf()) != Connected ==>
                r == Failure(CommunicationStateError(NotConnectedText)) && events == old(events)
                && (channel != null ==> channel.sent == old(channel.sent))
      ensures old(CommunicationStateOf()) == Connected ==>
                r == Success(Unit) && channel.sent == old(channel.sent) + [m]
                && events == old(events) + [MessageSentEvent(m)] && CommunicationStateOf() == Connected
    {
      if CommunicationStateOf() != Connected {
        return Failure(CommunicationStateError(NotConnectedText));
      }
      channel.SendMessage(m, now);
      events := events + [MessageSentEvent(m)];
      r := Success(Unit);
    }

    /** The channel's MessageReceived handler: pings are kept from the application. */
    method ChannelMessageReceived(m: Message)
      modifies this
      ensures m.body.Ping? ==> events == old(events)
      ensures !m.body.Ping? ==> events == old(events) + [MessageReceivedEvent(m)]
      ensures channel == old(channel) && wireProtocol == old(wireProtocol) && pingTimerRunning == old(pingTimerRunning)
    {
      if m.body.Ping? {
        return;
      }
      events := events + [MessageReceivedEvent(m)];
    }

    /** A tick of the ping timer at time `now`: sends a fresh ping when ShouldPing says so. */
    method PingTimerElapsed(now: int, freshId: string) returns (pinged: bool)
      modifies this, channel
      ensures pinged == ShouldPing(old(CommunicationStateOf()), old(LastReceivedMessageTime()), old(LastSentMessageTime()), now)
      ensures pinged ==> channel != null && channel.sent == old(channel.sent) + [NewMessage(freshId, Ping)]
                         && events == old(events) + [MessageSentEvent(NewMessage(freshId, Ping))]
      ensures channel == old(channel) && wireProtocol == old(wireProtocol) && pingTimerRunning == old(pingTimerRunning)
      ensures channel != null ==> channel.state == old(channel.state)
      ensures !pinged ==> events == old(events) && (channel != null ==> channel.sent == old(channel.sent))
    {
      if CommunicationStateOf() != Connected {
        return false;
      }
      if now - OneMinute < MinTime {
        return false;
      }
      var lastMinute := now - OneMinute;
      if channel.lastReceivedMessageTime > lastMinute || channel.lastSentMessageTime > lastMinute {
        return false;
      }
      channel.SendMessage(NewMessage(freshId, Ping), now);
      events := events + [MessageSentEvent(NewMessage(freshId, Ping))];
      pinged := true;
    }
  }
}
