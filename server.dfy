// The server side of a connection: the process-wide client id counter and
// the server client that wraps one accepted communication channel.
module Servers {
  import opened Wrappers
  import opened Numeric
  import opened Messages
  import Clients
  import WireProtocol

  /** Interlocked.Increment on a 64-bit counter: wraps from Int64Max to Int64Min. */
  function Increment64(n: int): (r: int)
    requires IsInt64(n)
    ensures IsInt64(r)
    ensures n < Int64Max ==> r == n + 1
    ensures n == Int64Max ==> r == Int64Min
  {
    if n == Int64Max then Int64Min else n + 1
  }

  /** ScsServerManager's static counter; `issued` records every id handed out. */
  class ScsServerManager {
    var lastClientId: int
    ghost var issued: seq<int>

    ghost predicate Valid()
      reads this
    {
      && IsInt64(lastClientId)
      // until the counter wraps, the ids are 1, 2, 3, ... and the counter is the last one
      && (|issued| <= Int64Max ==> lastClientId == |issued| && forall i :: 0 <= i < |issued| ==> issued[i] == i + 1)
    }

    constructor()
      ensures Valid() && lastClientId == 0 && issued == []
    {
      lastClientId := 0;
      issued := [];
    }

    method GetClientId() returns (id: int)
      requires Valid()
      modifies this
      ensures Valid()
      ensures id == Increment64(old(lastClientId)) && lastClientId == id
      ensures issued == old(issued) + [id]
    {
      lastClientId := Increment64(lastClientId);
      id := lastClientId;
      issued := issued + [id];
    }
  }

  /** Before the counter wraps, no id is handed out twice and each is larger than the ones before. */
  lemma {:induction false} IssuedIdsIncrease(m: ScsServerManager)
    requires m.Valid() && |m.issued| <= Int64Max
    ensures forall i, j :: 0 <= i < j < |m.issued| ==> m.issued[i] < m.issued[j]
    ensures |m.issued| > 0 ==> m.issued[0] == 1 && m.issued[|m.issued| - 1] == m.lastClientId
  {
    forall i, j | 0 <= i < j < |m.issued|
      ensures m.issued[i] < m.issued[j]
    {
      assert m.issued[i] == i + 1 && m.issued[j] == j + 1;
    }
  }

  datatype ServerClientEvent =
    | ServerClientDisconnected
    | ServerClientMessageReceived(message: Message)
    | ServerClientMessageSent(message: Message)

  /** ScsServerClient: a client id, a channel it delegates to, and the events it raises. */
  class ScsServerClient {
    var clientId: int
    const channel: Clients.CommunicationChannel
    var events: seq<ServerClientEvent>

    constructor(c: Clients.CommunicationChannel)
      ensures channel == c && events == []
    {
      channel := c;
      clientId := 0;
      events := [];
    }

    function CommunicationStateOf(): Clients.CommunicationState
      reads channel
    {
      channel.state
    }

    method SetWireProtocol(protocol: WireProtocol.BinarySerializationProtocol<Message>)
      modifies channel
      ensures channel.wireProtocol == protocol
      ensures channel.state == old(channel.state) && channel.sent == old(channel.sent)
    {
      channel.wireProtocol := protocol;
    }

    /** Disconnect: the channel closes, and if it was connected its Disconnected event is passed on. */
    method Disconnect()
      modifies this, channel
      ensures channel.state == Clients.Disconnected && channel.sent == old(channel.sent)
      ensures old(channel.state) == Clients.Connected ==> events == old(events) + [ServerClientDisconnected]
      ensures old(channel.state) != Clients.Connected ==> events == old(events)
      ensures clientId == old(clientId)
    {
      var raised := channel.Disconnect();
      if raised {
        ChannelDisconnected();
      }
    }

    /**
     * The channel's Disconnected handler, whether the client's Disconnect or
     * the channel itself (the remote side closed) raised it: the event is
     * passed on and the channel is left as it is.
     */
    method ChannelDisconnected()
      modifies this
      ensures events == old(events) + [ServerClientDisconnected] && clientId == old(clientId)
    {
      events := events + [ServerClientDisconnected];
    }

    /** SendMessage: the channel writes the message and its MessageSent event is passed on. */
    method SendMessage(m: Message, now: int)
      modifies this, channel
      ensures channel.sent == old(channel.sent) + [m] && channel.state == old(channel.state)
      ensures events == old(events) + [ServerClientMessageSent(m)]
      ensures clientId == old(clientId)
    {
      channel.SendMessage(m, now);
      events := events + [ServerClientMessageSent(m)];
    }

    /**
     * The channel's MessageReceived handler: a ping is answered with a new
     * ping that replies to it and goes no further; anything else is passed
     * on unchanged.
     */
    method ChannelMessageReceived(m: Message, freshId: string, now: int)
      modifies this, channel
      ensures clientId == old(clientId) && channel.state == old(channel.state)
      ensures m.body.Ping? ==>
                && channel.sent == old(channel.sent) + [PingReply(freshId, m)]
                && events == old(events) + [ServerClientMessageSent(PingReply(freshId, m))]
      ensures !m.body.Ping? ==>
                channel.sent == old(channel.sent) && events == old(events) + [ServerClientMessageReceived(m)]
    {
      if m.body.Ping? {
        SendMessage(PingReply(freshId, m), now);
        return;
      }
      events := events + [ServerClientMessageReceived(m)];
    }
  }

  /** Every ping the server client receives is answered, and the answer replies to it. */
  lemma PingIsEchoed(freshId: string, m: Message)
    requires m.body.Ping? && m.messageId != []
    ensures var r := PingReply(freshId, m);
      r.body.Ping? && IsReply(r) && r.repliedMessageId.value == m.messageId
  {
  }
}
