# SCS communication framework: a verified model of its core

SCS is a .NET framework for client/server messaging and remote method
invocation over TCP, TLS and named pipes. This project models in Dafny the
parts of it that decide what happens to messages, and proves what they
promise:

- the length-prefixed wire protocol (`BinarySerializationProtocol`): how a
  message is framed and how the receiving side collects bytes across calls
  and cuts complete frames off them (`wire_protocol.dfy`); the same receive
  loop with the `MemoryStream` position as written is in
  `wire_protocol_as_written.dfy`;
- the messengers: the request/reply correlation table of
  `RequestReplyMessenger` (`request_reply.dfy`), the in-order item queue of
  `SequentialItemProcessor` (`sequential_processor.dfy`) and the bounded
  receive queue of `SynchronizedMessenger` (`synchronized_messenger.dfy`);
- remote method invocation: the server's service registry and dispatch
  decision tree (`ScsServiceApplication`, `ScsService.CurrentClient`,
  `service_application.dfy`), the client-side proxy (`RemoteInvokeProxy`,
  `proxies.dfy`), and the client's callback dispatch and its auto-connecting
  proxy (`ScsServiceClient`, `AutoConnectRemoteInvokeProxy`,
  `service_client.dfy`);
- the connection life cycle: `ScsClientBase` and its keep-alive ping rule
  (`client_base.dfy`), `ClientReConnecter` (`reconnecter.dfy`), and the
  server's client id counter and ping echo (`ScsServerManager`,
  `ScsServerClient`, `server.dfy`);
- end point addresses: `ScsEndPoint.CreateEndPoint`, `ScsTcpEndPoint` and
  `NamedPipeEndPoint` (`endpoints.dfy`);
- the TLS certificate acceptance rules of the listener and the client
  (`ssl.dfy`);
- the message classes and their `ToString` (`messages.dfy`);
- the phone book sample service, a sorted map with upsert, delete and
  exact-then-substring search (`phone_book.dfy`).

`wrappers.dfy` holds `Option`, `Result` and the 32/64-bit integer bounds,
and `strings.dfy` the .NET string operations the core uses (`Trim`,
`Split`, `Contains`, `ToLower`, `Convert.ToInt32` and `Int32.ToString`).

Modelling conventions:

- Objects whose fields the source updates are classes; the methods state
  their whole new state. Pure decisions are functions, and lemmas prove the
  promised properties about them.
- C# inheritance becomes composition. `SynchronizedMessenger` holds a
  `RequestReplyMessenger` as `base`. `AutoConnectRemoteInvokeProxy` holds a
  `RemoteInvokeProxy`.
- A blocking wait takes, as a parameter, the list of events that happen
  before the waiter resumes: an incoming message or a call of `Stop`. A
  wait that sees no event times out.
- Timer ticks are method calls. The current time, GUIDs and the success of
  a send, a connect or the creation of a channel are parameters.
- Events raised to the application are appended to an `events` log. The
  messages sent on a channel or messenger are appended to a `sent` log.
- Reflection becomes data. A service interface is its name, attributes and
  method names. A service object maps each method name to a function from
  the arguments to an outcome: a return value, or an exception's message.
- The serializer (BinaryFormatter) is a pair of functions, `Codec`.

The class comment of BinarySerializationProtocol
(src/Scs/Communication/Scs/Communication/Protocols/BinarySerialization/BinarySerializationProtocol.cs:15-19)
describes only the frame layout, a 4-byte length and then the message. Two
behaviours of ReadSingleMessage (lines 186-235 of that file) go beyond it,
and the model follows the code in both:

- A zero-length frame header yields no message. It is dropped.
- After a frame is cut off, the receive loop tries again only when more
  than 4 bytes remain.

## Model

| member | source | states |
|---|---|---|
| WireProtocol.ReadWriteInt32 | src/Scs/Communication/Scs/Communication/Protocols/BinarySerialization/BinarySerializationProtocol.cs:247-267 | ReadInt32 reads back every Int32 that WriteInt32 wrote |
| WireProtocol.WriteReadInt32 | src/Scs/Communication/Scs/Communication/Protocols/BinarySerialization/BinarySerializationProtocol.cs:247-267 | conversely, WriteInt32 of what ReadInt32 read gives back the same 4 bytes |
| WireProtocol.ReadInt32 | src/Scs/Communication/Scs/Communication/Protocols/BinarySerialization/BinarySerializationProtocol.cs:259-267 | the value is a signed 32-bit integer, negative exactly when the first byte has its top bit set |
| WireProtocol.FramedLayout | src/Scs/Communication/Scs/Communication/Protocols/BinarySerialization/BinarySerializationProtocol.cs:72-75 | a frame is 4 + N bytes: a header that ReadInt32 reads as N, then the N payload bytes in order |
| WireProtocol.BinarySerializationProtocol.GetBytes | src/Scs/Communication/Scs/Communication/Protocols/BinarySerialization/BinarySerializationProtocol.cs:60-79 | a payload longer than 128 MiB is refused with MessageTooBig; otherwise the bytes are the payload's frame |
| WireProtocol.Classify | src/Scs/Communication/Scs/Communication/Protocols/BinarySerialization/BinarySerializationProtocol.cs:190-227 | fewer than 4 bytes is Short; a complete frame splits the bytes into header, payload and the rest, and the header reads as the payload's length |
| WireProtocol.FrameRoundTrip | src/Scs/Communication/Scs/Communication/Protocols/BinarySerialization/BinarySerializationProtocol.cs:226-238 | one complete frame decodes to exactly its payload and leaves no bytes collected |
| WireProtocol.ZeroLengthHeaderDropped | src/Scs/Communication/Scs/Communication/Protocols/BinarySerialization/BinarySerializationProtocol.cs:203-217 | a zero-length header yields no message; alone it clears the buffer, otherwise decoding goes on after it |
| WireProtocol.OversizedHeaderFails | src/Scs/Communication/Scs/Communication/Protocols/BinarySerialization/BinarySerializationProtocol.cs:196-200 | a header above 128 MiB is an error, and the bytes stay collected |
| WireProtocol.NegativeHeaderFails | src/Scs/Communication/Scs/Communication/Protocols/BinarySerialization/BinarySerializationProtocol.cs:219-227 | a negative header passes the size and completeness checks and is an error when the payload is read, and the bytes stay collected |
| WireProtocol.TrailingEmptyHeaderKept | src/Scs/Communication/Scs/Communication/Protocols/BinarySerialization/BinarySerializationProtocol.cs:238 | after a frame, exactly 4 remaining bytes wait for the next call even when they are a zero header, which alone would be cleared |
| WireProtocol.ReadByteArray | src/Scs/Communication/Scs/Communication/Protocols/BinarySerialization/BinarySerializationProtocol.cs:276-292 | a negative length fails; a length the stream holds gives exactly the next bytes and advances the position; more than it holds is EndOfStream |
| WireProtocol.BinarySerializationProtocol.ReadSingleMessage | src/Scs/Communication/Scs/Communication/Protocols/BinarySerialization/BinarySerializationProtocol.cs:183-239 | per Classify case: waits keeping every byte, fails, drops a zero header, or emits one deserialized message and keeps only the bytes after its frame, going on when more than 4 remain |
| WireProtocol.BinarySerializationProtocol.CreateMessages | src/Scs/Communication/Scs/Communication/Protocols/BinarySerialization/BinarySerializationProtocol.cs:94-104 | the received bytes are appended to those collected; the messages returned and the bytes kept are those of Decode |
| WireProtocol.ChunkingInvariance | src/Scs/Communication/Scs/Communication/Protocols/BinarySerialization/BinarySerializationProtocol.cs:83-104 | however the frames of non-empty payloads are split into chunks, successive calls yield every payload in order and keep nothing, the same as one call with all the bytes |
| WireProtocol.MessagesSurviveAnyChunking | src/Scs/Communication/Scs/Communication/Protocols/BinarySerialization/BinarySerializationProtocol.cs:60-104 | end to end: messages framed by GetBytes and received in any chunking come out as the same messages, in order, given a codec that round-trips |
| WireProtocol.BinarySerializationProtocol.Reset | src/Scs/Communication/Scs/Communication/Protocols/BinarySerialization/BinarySerializationProtocol.cs:110-116 | nothing stays collected |
| WireProtocolAsWritten.ReadAllKeepsDecode | src/Scs/Communication/Scs/Communication/Protocols/BinarySerialization/BinarySerializationProtocol.cs:183-239 | the loop as written cuts the same messages and keeps the same bytes as Decode; only the stream position differs, and only when 1 to 3 bytes are kept |
| WireProtocolAsWritten.WriteAtEndAppends | src/Scs/Communication/Scs/Communication/Protocols/BinarySerialization/BinarySerializationProtocol.cs:97 | with the position at the end, a write appends and the call decodes as the corrected protocol does |
| WireProtocolAsWritten.SplitHeaderLosesMessage | src/Scs/Communication/Scs/Communication/Protocols/BinarySerialization/BinarySerializationProtocol.cs:186-193 | a one-byte message whose header arrives split as [0,0] then [0,1,7] is delivered by the corrected protocol and lost as written |
| RequestReply.WaitingMessage.constructor | src/Scs/Communication/Scs/Communication/Messengers/RequestReplyMessenger.cs:357-361 | a new record waits for its response, holds none and is not signalled |
| RequestReply.Outcome | src/Scs/Communication/Scs/Communication/Messengers/RequestReplyMessenger.cs:228-237 | the request succeeds exactly when the record says a response was received |
| RequestReply.SettleConsistent | src/Scs/Communication/Scs/Communication/Messengers/RequestReplyMessenger.cs:276-281 | a record never says a response was received without holding one |
| RequestReply.SettleFromRegistered | src/Scs/Communication/Scs/Communication/Messengers/RequestReplyMessenger.cs:141-156 | a request leaves the table exactly when Stop happens; a record still waiting was untouched; a response it holds is a message that arrived answering it |
| RequestReply.UnregisteredStays | src/Scs/Communication/Scs/Communication/Messengers/RequestReplyMessenger.cs:264-285 | once a request has left the table, no event changes its record |
| RequestReply.AnswerFirst | src/Scs/Communication/Scs/Communication/Messengers/RequestReplyMessenger.cs:264-282 | an answering message with no Stop after it leaves the request answered |
| RequestReply.AnsweredStaysAnswered | src/Scs/Communication/Scs/Communication/Messengers/RequestReplyMessenger.cs:264-282 | an answered request stays answered while no Stop happens |
| RequestReply.UnansweredTimesOut | src/Scs/Communication/Scs/Communication/Messengers/RequestReplyMessenger.cs:230-231 | a request that is neither answered nor stopped ends in the timeout error |
| RequestReply.IgnoredArrivals | src/Scs/Communication/Scs/Communication/Messengers/RequestReplyMessenger.cs:264-285 | messages that do not answer a request leave its record as it is |
| RequestReply.AnsweredOnce | src/Scs/Communication/Scs/Communication/Messengers/RequestReplyMessenger.cs:228-237 | a request whose answer arrives, followed only by unrelated messages, returns exactly that answer |
| RequestReply.StopFirstDisconnects | src/Scs/Communication/Scs/Communication/Messengers/RequestReplyMessenger.cs:232-233 | a Stop before any answer makes the request fail as disconnected |
| RequestReply.RequestReplyMessenger.constructor | src/Scs/Communication/Scs/Communication/Messengers/RequestReplyMessenger.cs:113-121 | timeout 60000 ms, an empty table, nothing sent, a stopped processor |
| RequestReply.RequestReplyMessenger.Start | src/Scs/Communication/Scs/Communication/Messengers/RequestReplyMessenger.cs:130-133 | the processor runs and its queue is unchanged |
| RequestReply.RequestReplyMessenger.Stop | src/Scs/Communication/Scs/Communication/Messengers/RequestReplyMessenger.cs:141-157 | the processor stops with an empty queue; every waiting record is cancelled and signalled and keeps its response; the table is emptied |
| RequestReply.RequestReplyMessenger.SendMessage | src/Scs/Communication/Scs/Communication/Messengers/RequestReplyMessenger.cs:171-174 | the message is appended to what was sent; nothing else changes |
| RequestReply.RequestReplyMessenger.MessengerMessageReceived | src/Scs/Communication/Scs/Communication/Messengers/RequestReplyMessenger.cs:261-286 | an answer to a waiting request is stored in its record, which is marked received and signalled, and goes no further; any other message is offered to the processor |
| RequestReply.RequestReplyMessenger.SendMessageAndWaitForResponse | src/Scs/Communication/Scs/Communication/Messengers/RequestReplyMessenger.cs:210-250 | a failed send fails and leaves the processor as it was; otherwise the request is sent, the result is Outcome of its record after the events, and the processor's queue and running flag and the ids still waiting are RouteAll's over the events; on every path its entry is gone from the table |
| RequestReply.RequestReplyMessenger.AwaitResponse | src/Scs/Communication/Scs/Communication/Messengers/RequestReplyMessenger.cs:224-225 | while the request waits, each event is handled by the messenger; its record ends as Settle says, and the processor and the ids waiting end as RouteAll says |
| RequestReply.RouteAllWithoutStop | src/Scs/Communication/Scs/Communication/Messengers/RequestReplyMessenger.cs:261-286 | while no Stop happens, exactly the arrivals that answer no waiting request join the processor's queue, in arrival order, and only while it runs |
| RequestReply.RouteAllAfterStop | src/Scs/Communication/Scs/Communication/Messengers/RequestReplyMessenger.cs:141-157 | once Stop has happened, the processor is stopped, its queue is empty and no request is waiting, whatever arrives later |
| SequentialProcessing.SequentialItemProcessor.constructor | src/Scs/Threading/SequentialItemProcessor.cs:54-58 | an empty queue, not running, not processing |
| SequentialProcessing.SequentialItemProcessor.EnqueueMessage | src/Scs/Threading/SequentialItemProcessor.cs:68-85 | while stopped the item is dropped; while running it joins the tail, and a worker starts exactly when none is processing; accepted items are always delivered in order |
| SequentialProcessing.SequentialItemProcessor.Start | src/Scs/Threading/SequentialItemProcessor.cs:90-93 | the processor runs; nothing else changes |
| SequentialProcessing.SequentialItemProcessor.Stop | src/Scs/Threading/SequentialItemProcessor.cs:98-123 | not running and an empty queue; Stop waits exactly when an item is in process |
| SequentialProcessing.SequentialItemProcessor.TakeNext | src/Scs/Threading/SequentialItemProcessor.cs:137-151 | nothing when stopped, busy or empty; otherwise the head of the queue is taken and the processor is busy with it |
| SequentialProcessing.SequentialItemProcessor.FinishItem | src/Scs/Threading/SequentialItemProcessor.cs:157-167 | the busy flag clears, and a new worker starts exactly when running with items queued |
| SequentialProcessing.SequentialItemProcessor.ProcessItemAsWritten | src/Scs/Threading/SequentialItemProcessor.cs:133-168 | a whole worker as written: when the delegate throws, the processor stays busy and no new worker starts |
| SequentialProcessing.SequentialItemProcessor.ProcessItem | src/Scs/Threading/SequentialItemProcessor.cs:133-168 | a whole worker with the second locked section in a finally block: afterwards the processor is idle whatever the delegate did |
| SequentialProcessing.ThrowingDelegateWedges | src/Scs/Threading/SequentialItemProcessor.cs:154-159 | as written, after the delegate throws once, a later item starts no worker and cannot be taken |
| SequentialProcessing.ThrowingDelegateRecovers | src/Scs/Threading/SequentialItemProcessor.cs:154-166 | corrected, after the delegate throws once, the next item starts a worker and is handed out |
| Synchronized.Offer | src/Scs.Core/Communication/Scs/Communication/Messengers/SynchronizedMessenger.cs:203-208 | a message joins the queue's tail only while the queue is below capacity; otherwise it is dropped |
| Synchronized.HappenKeepsCapacity | src/Scs.Core/Communication/Scs/Communication/Messengers/SynchronizedMessenger.cs:205-208 | a queue below the capacity never grows past it, and a queue at or above it (as after the capacity setter lowered the capacity) never grows at all |
| Synchronized.SynchronizedMessenger.SetIncomingMessageQueueCapacity | src/Scs.Core/Communication/Scs/Communication/Messengers/SynchronizedMessenger.cs:26 | the capacity becomes the one given, and the queued messages stay, even above it |
| Synchronized.HappenAppends | src/Scs.Core/Communication/Scs/Communication/Messengers/SynchronizedMessenger.cs:201-212 | events only add at the tail: the queue before is a prefix of the queue after |
| Synchronized.DeliveriesQueueInOrder | src/Scs.Core/Communication/Scs/Communication/Messengers/SynchronizedMessenger.cs:140-143 | messages delivered while there is room join the queue in delivery order, so they are received in that order |
| Synchronized.ReceiveTakesAtMostOne | src/Scs.Core/Communication/Scs/Communication/Messengers/SynchronizedMessenger.cs:127-159 | a receive fails when stopped even with messages queued, returns the oldest queued message when running, takes at most one message, and ends in a message, a timeout or Stopped |
| Synchronized.SynchronizedMessenger.constructor | src/Scs.Core/Communication/Scs/Communication/Messengers/SynchronizedMessenger.cs:67-73 | the given capacity, an empty queue, not running |
| Synchronized.SynchronizedMessenger.CreateDefault | src/Scs.Core/Communication/Scs/Communication/Messengers/SynchronizedMessenger.cs:56-60 | the default capacity is Int32.MaxValue |
| Synchronized.SynchronizedMessenger.Start | src/Scs.Core/Communication/Scs/Communication/Messengers/SynchronizedMessenger.cs:82-90 | running, and the request/reply part runs |
| Synchronized.SynchronizedMessenger.Stop | src/Scs.Core/Communication/Scs/Communication/Messengers/SynchronizedMessenger.cs:95-104 | the request/reply part stops, running clears and a waiting receiver is woken; the queue is kept |
| Synchronized.SynchronizedMessenger.OnMessageReceived | src/Scs.Core/Communication/Scs/Communication/Messengers/SynchronizedMessenger.cs:201-212 | the queue becomes Offer's, and a receiver is woken whether or not the message was kept |
| Synchronized.SynchronizedMessenger.Undergo | src/Scs.Core/Communication/Scs/Communication/Messengers/SynchronizedMessenger.cs:201-212 | the events of one wait, in order, leave the queue and flag that Happen describes |
| Synchronized.SynchronizedMessenger.ReceiveMessage | src/Scs.Core/Communication/Scs/Communication/Messengers/SynchronizedMessenger.cs:127-159 | the result, queue and flag are those of Receive for the waits the call makes |
| Synchronized.SynchronizedMessenger.ReceiveMessageOfType | src/Scs.Core/Communication/Scs/Communication/Messengers/SynchronizedMessenger.cs:180-191 | a received message of another class is an error naming both classes, and it has already been dequeued |
| Services.CurrentClientSlot.Get | src/Scs/Communication/ScsServices/Service/ScsService.cs:27-35 | an unset slot fails with the source's message; otherwise the client set |
| Services.CurrentClientSlot.Set | src/Scs/Communication/ScsServices/Service/ScsService.cs:37-40 | the slot holds the given value, null included |
| Services.SlotSetThenClear | src/Scs/Communication/ScsServices/Service/ScsService.cs:14-40 | a read after a set returns what was set, and a read after clearing fails again |
| Services.NewServiceObject | src/Scs/Communication/ScsServices/Service/ScsServiceApplication.cs:329-344 | an interface without the ScsService attribute is refused; otherwise it succeeds exactly when the method names are distinct, keeping the first attribute and a method per name |
| Services.DispatchCases | src/Scs/Communication/ScsServices/Service/ScsServiceApplication.cs:177-244 | non-invoke messages are ignored; an unknown client is disconnected; every reply answers the request and carries a return value or an exception, never both |
| Services.DispatchSucceeds | src/Scs/Communication/ScsServices/Service/ScsServiceApplication.cs:199-225 | a reply has no exception exactly when the service and method exist and the method returned |
| Services.DispatchErrorTexts | src/Scs/Communication/ScsServices/Service/ScsServiceApplication.cs:200-205 | an unknown service's text names the service; an unknown method's text names the method, a newline and the service version |
| Services.ScsServiceApplication.constructor | src/Scs/Communication/ScsServices/Service/ScsServiceApplication.cs:68-72 | both registries start empty |
| Services.ScsServiceApplication.Start | src/Scs/Communication/ScsServices/Service/ScsServiceApplication.cs:82-85 | the server runs; the registries are unchanged |
| Services.ScsServiceApplication.Stop | src/Scs/Communication/ScsServices/Service/ScsServiceApplication.cs:90-93 | the server stops; the registries are unchanged |
| Services.ScsServiceApplication.AddService | src/Scs/Communication/ScsServices/Service/ScsServiceApplication.cs:104-120 | a null service, a name already registered and an interface NewServiceObject refuses each leave the registry unchanged; otherwise the service is registered under the interface name and nothing else changes |
| Services.ScsServiceApplication.RemoveService | src/Scs/Communication/ScsServices/Service/ScsServiceApplication.cs:128-132 | reports whether the name was registered, and removes it |
| Services.ScsServiceApplication.ClientConnected | src/Scs/Communication/ScsServices/Service/ScsServiceApplication.cs:143-152 | a started messenger is made, the client is registered under its id and ClientConnected is raised |
| Services.ScsServiceApplication.ClientDisconnected | src/Scs/Communication/ScsServices/Service/ScsServiceApplication.cs:159-169 | an unknown id is ignored; a known one is unregistered and ClientDisconnected is raised with it |
| Services.ScsServiceApplication.SendInvokeResponse | src/Scs/Communication/ScsServices/Service/ScsServiceApplication.cs:253-269 | the reply is sent unless sending fails, and a failure is swallowed |
| Services.ScsServiceApplication.ClientMessageReceived | src/Scs/Communication/ScsServices/Service/ScsServiceApplication.cs:177-244 | the reply sent is Dispatch's, and CurrentClient is cleared after every invocation, whatever the method did |
| Clients.CommunicationChannel.constructor | src/Scs.Core/Communication/Scs/Communication/Channels/CommunicationChannelBase.cs:72-77 | a new channel is disconnected, has sent nothing and both times are DateTime.MinValue |
| Clients.CommunicationChannel.Start | src/Scs.Core/Communication/Scs/Communication/Channels/CommunicationChannelBase.cs:95-99 | the channel is connected; its log and times are unchanged |
| Clients.CommunicationChannel.SendMessage | src/Scs.Core/Communication/Scs/Communication/Channels/CommunicationChannelBase.cs:106-114 | the message is appended to the channel's log and the last sent time is the send's time |
| Clients.CommunicationChannel.Disconnect | src/Scs.Core/Communication/Scs/Communication/Channels/CommunicationChannelBase.cs:86 | the channel is disconnected, and it raises Disconnected exactly when it was connected |
| Clients.ShouldPingIdle | src/Scs/Communication/Scs/Client/ScsClientBase.cs:260-266 | while connected, a ping is due exactly when at least a minute has passed since the last message in each direction |
| Clients.ShouldPingLater | src/Scs/Communication/Scs/Client/ScsClientBase.cs:260-266 | a ping that is due stays due as the clock advances |
| Clients.ScsClientBase.LastReceivedMessageTime | src/Scs/Communication/Scs/Client/ScsClientBase.cs:82-90 | with no channel, DateTime.MinValue |
| Clients.ScsClientBase.LastSentMessageTime | src/Scs/Communication/Scs/Client/ScsClientBase.cs:95-103 | with no channel, DateTime.MinValue |
| Clients.ScsClientBase.constructor | src/Scs/Communication/Scs/Client/ScsClientBase.cs:131-137 | no channel, so disconnected with both times at DateTime.MinValue; the 15000 ms connect timeout; the ping timer stopped |
| Clients.ScsClientBase.SetWireProtocol | src/Scs/Communication/Scs/Client/ScsClientBase.cs:51-63 | refused with the source's message while connected; otherwise the protocol is replaced |
| Clients.ScsClientBase.Connect | src/Scs/Communication/Scs/Client/ScsClientBase.cs:146-157 | the protocol is reset first; a failed channel creation leaves the rest unchanged; otherwise a new started channel uses the protocol, the ping timer runs and Connected is raised |
| Clients.ScsClientBase.ChannelDisconnected | src/Scs/Communication/Scs/Client/ScsClientBase.cs:240-244 | the ping timer stops and Disconnected is raised |
| Clients.ScsClientBase.Disconnect | src/Scs/Communication/Scs/Client/ScsClientBase.cs:163-171 | nothing happens unless connected; otherwise the channel closes and Disconnected is raised |
| Clients.ScsClientBase.SendMessage | src/Scs/Communication/Scs/Client/ScsClientBase.cs:186-194 | refused with CommunicationStateError when not connected, sending nothing; otherwise the message is sent and MessageSent is raised |
| Clients.ScsClientBase.ChannelMessageReceived | src/Scs/Communication/Scs/Client/ScsClientBase.cs:215-223 | a ping is never passed on; any other message raises MessageReceived |
| Clients.ScsClientBase.PingTimerElapsed | src/Scs/Communication/Scs/Client/ScsClientBase.cs:251-272 | a fresh ping is sent exactly when ShouldPing holds; otherwise nothing is sent |
| ReConnecting.ClientReConnecter.constructor | src/Scs/Communication/Scs/Client/ClientReConnecter.cs:45-57 | subscribed, not disposed, the timer running with a 20000 ms period |
| ReConnecting.ClientReConnecter.Create | src/Scs/Communication/Scs/Client/ClientReConnecter.cs:47-50 | a null client is refused with the parameter name |
| ReConnecting.ClientReConnecter.SetReConnectCheckPeriod | src/Scs/Communication/Scs/Client/ClientReConnecter.cs:17-21 | the period is the one given |
| ReConnecting.ClientReConnecter.Dispose | src/Scs/Communication/Scs/Client/ClientReConnecter.cs:63-73 | the first call unsubscribes and stops the timer; later calls change nothing |
| ReConnecting.ClientReConnecter.ClientDisconnected | src/Scs/Communication/Scs/Client/ClientReConnecter.cs:80-83 | the timer restarts while subscribed |
| ReConnecting.ClientReConnecter.ReconnectTimerElapsed | src/Scs/Communication/Scs/Client/ClientReConnecter.cs:90-107 | disposed or connected: the timer stops and nothing else happens; otherwise a connect is tried, success stops the timer and connects the client, failure is swallowed |
| ReConnecting.DisposedStaysIdle | src/Scs/Communication/Scs/Client/ClientReConnecter.cs:63-96 | after Dispose, neither a disconnect nor a tick restarts the timer or connects the client |
| Servers.Increment64 | src/Scs/Communication/Scs/Server/ScsServerManager.cs:21 | Interlocked.Increment on a long: one more, wrapping from Int64.MaxValue to Int64.MinValue |
| Servers.ScsServerManager.GetClientId | src/Scs/Communication/Scs/Server/ScsServerManager.cs:19-22 | the id is the counter plus one, the counter becomes it, and it joins the ids handed out |
| Servers.IssuedIdsIncrease | src/Scs/Communication/Scs/Server/ScsServerManager.cs:13-22 | before the counter wraps, the first id is 1, ids strictly increase, and the counter is the last id |
| Servers.ScsServerClient.SetWireProtocol | src/Scs.Core/Communication/Scs/Server/ScsServerClient.cs:56-60 | the channel's protocol is the one given |
| Servers.ScsServerClient.Disconnect | src/Scs.Core/Communication/Scs/Server/ScsServerClient.cs:124-127 | the channel closes, and its Disconnected event is passed on if it was connected |
| Servers.ScsServerClient.ChannelDisconnected | src/Scs.Core/Communication/Scs/Server/ScsServerClient.cs:147-150 | a Disconnected event of the channel, raised by Disconnect or by the channel itself, is passed on once and nothing else changes |
| Servers.ScsServerClient.SendMessage | src/Scs.Core/Communication/Scs/Server/ScsServerClient.cs:133-136 | the channel sends the message and its MessageSent event is passed on with it |
| Servers.ScsServerClient.ChannelMessageReceived | src/Scs.Core/Communication/Scs/Server/ScsServerClient.cs:157-167 | a ping is answered with a new ping replying to it and is not passed on; any other message is passed on unchanged |
| Servers.PingIsEchoed | src/Scs.Core/Communication/Scs/Server/ScsServerClient.cs:160-164 | the answer to a ping is a ping whose replied id is the ping's id |
| Proxies.InvokeRequest | src/Scs.Core/Communication/ScsServices/Communication/RemoteInvokeProxy.cs:43-48 | the request is a new message, not a reply, with the fresh id |
| Proxies.RemoteInvokeProxy.Intercept | src/Scs.Core/Communication/ScsServices/Communication/RemoteInvokeProxy.cs:36-59 | no method gives null and sends nothing; otherwise the request naming the interface, the method and the arguments is sent and the result is InterceptResult's |
| Proxies.RemoteCallEndToEnd | src/Scs.Core/Communication/ScsServices/Communication/RemoteInvokeProxy.cs:50-58 | a call answered by the server's dispatch returns the server method's value, or rethrows its exception with the service version; an unknown service comes back as the server's error |
| Proxies.UnknownCallerDisconnects | src/Scs/Communication/ScsServices/Service/ScsServiceApplication.cs:192-197 | a call from an unregistered client gets the connection dropped, and the waiting call fails as disconnected |
| ServiceClients.CallbackCases | src/Scs/Communication/ScsServices/Client/ScsServiceClient.cs:158-196 | a reply exists exactly for an invoke message and answers it; it carries no exception exactly when the method exists and returned, and then carries its value |
| ServiceClients.CallbackErrorTexts | src/Scs/Communication/ScsServices/Client/ScsServiceClient.cs:168-192 | the texts for a missing client object, a missing method and a method that threw |
| ServiceClients.ScsServiceClient.constructor | src/Scs/Communication/ScsServices/Client/ScsServiceClient.cs:104-117 | a new stopped messenger with the default timeout; no events |
| ServiceClients.ScsServiceClient.SetConnectTimeout | src/Scs/Communication/ScsServices/Client/ScsServiceClient.cs:38-42 | writes the client's connect timeout |
| ServiceClients.ScsServiceClient.SetTimeout | src/Scs/Communication/ScsServices/Client/ScsServiceClient.cs:63-67 | writes the messenger's timeout, which Timeout reads |
| ServiceClients.ScsServiceClient.ClientConnected | src/Scs/Communication/ScsServices/Client/ScsServiceClient.cs:227-231 | the messenger starts and Connected is raised |
| ServiceClients.ScsServiceClient.ClientDisconnected | src/Scs/Communication/ScsServices/Client/ScsServiceClient.cs:238-242 | the messenger stops, every waiting call is cancelled, and Disconnected is raised |
| ServiceClients.ScsServiceClient.Connect | src/Scs/Communication/ScsServices/Client/ScsServiceClient.cs:126-129 | the client connects and its Connected event starts the messenger; a failed connect changes no events |
| ServiceClients.ScsServiceClient.Disconnect | src/Scs/Communication/ScsServices/Client/ScsServiceClient.cs:135-138 | nothing happens unless connected; otherwise the disconnect stops the messenger and raises Disconnected |
| ServiceClients.ScsServiceClient.Dispose | src/Scs/Communication/ScsServices/Client/ScsServiceClient.cs:143-146 | as Disconnect |
| ServiceClients.ScsServiceClient.SendInvokeResponse | src/Scs/Communication/ScsServices/Client/ScsServiceClient.cs:204-220 | the reply is sent unless sending fails, and a failure is swallowed |
| ServiceClients.ScsServiceClient.MessengerMessageReceived | src/Scs/Communication/ScsServices/Client/ScsServiceClient.cs:158-196 | the reply sent, if any, is CallbackReply's |
| ServiceClients.AutoConnectRemoteInvokeProxy.Invoke | src/Scs/Communication/ScsServices/Communication/AutoConnectRemoteInvokeProxy.cs:37-55 | connected: the call alone; not connected: a failed connect ends the call with nothing sent, otherwise connect, call and disconnect, leaving the client disconnected |
| EndPoints.FromPort | src/Scs.Core/Communication/Scs/Communication/EndPoints/Tcp/ScsTcpEndPoint.cs:28-31 | the port-only end point has no address |
| EndPoints.ParseTcpEndPoint | src/Scs.Core/Communication/Scs/Communication/EndPoints/Tcp/ScsTcpEndPoint.cs:50-55 | a parsed end point has a trimmed address without ':' and a 32-bit port |
| EndPoints.ParseWithoutColon | src/Scs.Core/Communication/Scs/Communication/EndPoints/Tcp/ScsTcpEndPoint.cs:52-54 | an address without ':' fails, since there is no port part |
| EndPoints.ParseHostPort | src/Scs/Communication/Scs/Communication/EndPoints/Tcp/ScsTcpEndPoint.cs:55-60 | an address, ':' and a port's text parse to that address and port |
| EndPoints.CreateEndPoint | src/Scs.Core/Communication/Scs/Communication/EndPoints/ScsEndPoint.cs:24-27 | a null or empty address is refused |
| EndPoints.SplitTcpPrefix | src/Scs.Core/Communication/Scs/Communication/EndPoints/ScsEndPoint.cs:37-41 | "tcp://" and a rest without "://" split at "://" into exactly "tcp" and the rest |
| EndPoints.CreateTcpEndPoint | src/Scs.Core/Communication/Scs/Communication/EndPoints/ScsEndPoint.cs:29-53 | an address whose protocol part is "tcp" parses as a TCP end point from the trimmed rest |
| EndPoints.WithSchemeKeepsTcp | src/Scs.Core/Communication/Scs/Communication/EndPoints/ScsEndPoint.cs:31-34 | an address that already names a protocol is left as it is |
| EndPoints.ToStringOfPlainHost | src/Scs/Communication/Scs/Communication/EndPoints/Tcp/ScsTcpEndPoint.cs:95-98 | with an address, the string form is "tcp://", the address, ':' and the port |
| EndPoints.EndPointRoundTrip | src/Scs.Core/Communication/Scs/Communication/EndPoints/Tcp/ScsTcpEndPoint.cs:79-82 | CreateEndPoint of the string form of an end point with a plain address (non-empty, no white space at its ends, no ':') gives the same end point back |
| EndPoints.HostPortParses | src/Scs.Core/Communication/Scs/Communication/EndPoints/ScsEndPoint.cs:29-34 | "address:port" without a protocol is taken as tcp and parses to the same end point |
| EndPoints.PortOnlyDoesNotParse | src/Scs.Core/Communication/Scs/Communication/EndPoints/Tcp/ScsTcpEndPoint.cs:79-82 | the string form of a port-only end point does not parse back: the port is taken for the address and no port is found |
| EndPoints.NewNamedPipeEndPoint | src/Scs/Communication/Scs/Communication/EndPoints/Pipes/NamedPipeEndPoint.cs:39-46 | succeeds exactly for a name that is not null, empty or white space, storing it unchanged with the 15-second timeout; otherwise the ArgumentException of the source |
| Ssl.MutualAuthentication | src/Scs/Communication/SslScs/Channel/Tcp/TcpSslConnectionListener.cs:189-211 | the search of the allow-list accepts exactly what AcceptsClient accepts |
| Ssl.MutualAcceptance | src/Scs/Communication/SslScs/Channel/Tcp/TcpSslConnectionListener.cs:167-211 | server-only mode accepts anything; mutual mode accepts exactly a certificate without errors, or with only chain errors and a listed hash, given an allow-list; combined flags are refused |
| Ssl.ListenerValidation | src/Scs/Communication/SslScs/Channel/Tcp/TcpSslConnectionListener.cs:123 | a caller's callback replaces the default rule |
| Ssl.ClientIgnoresPolicyErrors | src/Scs/Communication/SslScs/Client/Tcp/SslScsTcpClient.cs:128-149 | the client's verdict never depends on the policy errors, and the configured server certificate is accepted |
| Ssl.ClientValidation | src/Scs/Communication/SslScs/Client/Tcp/SslScsTcpClient.cs:95-97 | a caller's callback replaces the default rule |
| Ssl.SelectLocalCertificate | src/Scs/Communication/SslScs/Client/Tcp/SslScsTcpClient.cs:151-154 | always the configured client certificate, possibly null |
| Ssl.HandshakeCertificates | src/Scs/Communication/SslScs/Client/Tcp/SslScsTcpClient.cs:99-111 | mutual mode without a client certificate is refused before the handshake; otherwise no certificates in server-only mode and the client's own in mutual mode |
| Ssl.MutualHandshakeAccepted | src/Scs/Communication/SslScs/Channel/Tcp/TcpSslConnectionListener.cs:196-205 | with default validation on both ends in mutual mode, a listed client and the right server certificate are accepted by both under chain errors |
| Messages.PingReply | src/Scs.Core/Communication/Scs/Communication/Messages/PingMessage.cs:27-31 | a ping with a fresh id replying to the request's id |
| Messages.NewMessage | src/Scs.Core/Communication/Scs/Communication/Messages/ScsMessage.cs:30-33 | a new message is not a reply |
| Messages.NewReply | src/Scs.Core/Communication/Scs/Communication/Messages/ScsMessage.cs:42-46 | a reply constructor's message counts as a reply exactly when the id given is not null or empty |
| Messages.Tag | src/Scs.Core/Communication/Scs/Communication/Messages/ScsTextMessage.cs:51-56 | the tag each ToString starts with is the message's own class name |
| Messages.ToStringRecoversIds | src/Scs.Core/Communication/Scs/Communication/Messages/ScsMessage.cs:52-57 | the message id and, for a reply, the replied id can be read back out of ToString, and what follows is the kind's suffix |
| Messages.ConstructedIdsReadBack | src/Scs.Core/Communication/Scs/Communication/Messages/PingMessage.cs:15-41 | what every constructor produces prints its own id and the id it answers, if any |
| Messages.RawDataSuffixReportsLength | src/Scs/Communication/Scs/Communication/Messages/ScsRawDataMessage.cs:51-57 | the raw data string reports the data's length in decimal, and 0 for null data |
| PhoneBook.Lookup | samples/OnlinePhoneBook/PhoneBookServer/PhoneBookService.cs:68-71 | a record is found exactly for a name in the book, and it is filed under that name |
| PhoneBook.LookupSorted | samples/OnlinePhoneBook/PhoneBookServer/PhoneBookService.cs:18 | in a sorted book, each entry is the one filed under its name |
| PhoneBook.FirstMatch | samples/OnlinePhoneBook/PhoneBookServer/PhoneBookService.cs:74-83 | the first entry in name order whose lower-cased name contains the lower-cased query; none when no entry does |
| PhoneBook.PhoneBookService.AddPerson | samples/OnlinePhoneBook/PhoneBookServer/PhoneBookService.cs:32-41 | null is refused, changing nothing; otherwise the record is filed under its name, replacing any one there, every other name keeps its record, and the book stays sorted |
| PhoneBook.PhoneBookService.DeletePerson | samples/OnlinePhoneBook/PhoneBookServer/PhoneBookService.cs:48-57 | reports whether the name was present; afterwards it is absent and every other name keeps its record; nothing changes when it was absent |
| PhoneBook.PhoneBookService.FindPerson | samples/OnlinePhoneBook/PhoneBookServer/PhoneBookService.cs:65-84 | the exact record when the name is present, otherwise FirstMatch's |

## Left out

- Threads, locks, tasks and wait handles. Blocking waits and timer ticks are sequential events, so interleavings are not modelled. Two examples: a reply that arrives while Stop runs, and two requests sent with the same message id, where the second would overwrite the first's waiting record.
- The ping timer and the reconnect timer are flags. Their periods are constants. Timer threads are not modelled.
- BinaryFormatter. Codec is a pair of total functions, so a deserialization failure is not modelled, nor is the assembly binder.
- Sockets, named pipes and TLS streams. Creating and starting a channel, accepting connections and the handshake itself are not modelled; a channel either fails to be created or starts connected.
- `CommunicationChannelBase` is represented only by the fields the client uses: state, both times, protocol and the sent messages.
- The `DateTime.Now.AddMinutes(-1)` of the client's ping rule. Time is milliseconds from `DateTime.MinValue`, passed in. An overflow within the first minute is an exception the handler swallows, so no ping is sent then.
- Exceptions thrown by a channel's send are not modelled. In the ping handler of `ScsClientBase` they would be swallowed. In `ScsServerClient` they would propagate.
- Culture-sensitive behaviour. `ToLower` lower-cases ASCII letters only. `Char.IsWhiteSpace` is a fixed set of characters. `Convert.ToInt32` accepts an optional sign and decimal digits within the 32-bit range.
- `SortedList<string, …>` with its default culture-aware comparer is modelled with ordinal order. Its binary search is modelled as a linear search with the same result.
- A `PhoneBookRecord` with a null `Name` is not modelled. `SortedList` would throw on such a key.
- The `Console.WriteLine` in `AddPerson` is I/O.
- Reflection. `GetCustomAttributes`, `GetMethods` and `MethodInfo.Invoke` are replaced by data. The difference between `TargetInvocationException` and other exceptions becomes one `Threw(message)` outcome, since both give the same reply text.
- The outer `catch` of `Client_MessageReceived` (ScsServiceApplication.cs:239-243) cannot be reached in the model, because every step of the model is total.
- The `scsServer == null` check of the `ScsServiceApplication` constructor (ScsServiceApplication.cs:63-66). The server is not an object of the model, and only its running flag is kept.
- The application's dynamic proxies (`ProxyGenerator`, `DispatchProxyDelegate`) and the RealProxy `Invoke(IMessage)` signature. `AutoConnectRemoteInvokeProxy.Invoke` is modelled over `Intercept`, in the connect, call and disconnect order of AutoConnectRemoteInvokeProxy.cs:37-55.
- How long `RemoteInvokeProxy` waits (the messenger's default timeout) is not a number in the model. It is the list of events that happen before the wait ends.
- `Interlocked.Increment`'s atomicity. `ScsServerManager` is one object, with no concurrent callers.
- The `default: throw new ArgumentOutOfRangeException()` branch of each switch over an auth mode. The Dafny datatype has only the two modes.
- `SslPolicyErrors` is its three flags as a number from 0 to 7, so combined flags are included. Certificates are only their hash and public-key strings. Certificate loading is not modelled.
- `ClientReConnecter`'s subscription is a flag. The client it watches raises its disconnect through `ClientDisconnected` being called.
- Clients.ScsClientBase.PingTimerElapsed: the fresh ping's id is a parameter, and its send time is the tick's time.
- The two `ScsTcpEndPoint` files have the same string parsing and the same `ToString` (Scs.Core lines 50-55 and 79-82; Scs lines 55-60 and 95-98), so one set of functions models both. The Scs variant's SSL factory methods create sockets and are left out.
- A null address given directly to the `ScsTcpEndPoint(string)` constructor is not modelled. `CreateEndPoint` never passes one.
- The `ToString` of the remote-invoke message classes is not modelled.
- The parameterless `ReceiveMessage()` and `ReceiveMessage<TMessage>()` (SynchronizedMessenger.cs:111-114 and 166-169) wait with `Timeout.Infinite`. The model's `ReceiveMessage` and `ReceiveMessageOfType` are the timed overloads: a wait with no event in it times out, which an infinite wait never does.
- `ScsService.CurrentClient` is a `[ThreadStatic]` static (ScsService.cs:14-15), one slot per thread shared by every service of every application. The model gives each `ScsServiceApplication` its own slot, so sharing it across applications on one thread is not modelled.

## Findings

| source | as written | input that shows it | evidently intended | confidence | as-written member | corrected member |
|---|---|---|---|---|---|---|
| src/Scs/Communication/Scs/Communication/Protocols/BinarySerialization/BinarySerializationProtocol.cs:186-193 | ReadSingleMessage sets the stream's Position to 0 and, when fewer than 4 bytes are collected, returns without moving it back to the end; the next CreateMessages writes the new bytes over the kept ones (line 97) | a message with the one-byte payload [7], received as [0, 0] and then [0, 1, 7]: as written nothing comes out and [0, 1, 7] stays collected | the received bytes are appended to those kept, so the message is delivered whatever the chunking | high, not executed | WireProtocolAsWritten.SplitHeaderLosesMessage | WireProtocol.ChunkingInvariance |
| src/Scs/Threading/SequentialItemProcessor.cs:149-167 | the processing delegate runs outside any try/finally, so when it throws, the busy flag set at line 149 is never cleared | start the processor, enqueue 1, let the delegate throw on it, enqueue 2: no worker starts for 2 and none can take it, so every later item is stuck | the flag is cleared and the next worker scheduled whatever the delegate does | medium, not executed | SequentialProcessing.ThrowingDelegateWedges | SequentialProcessing.ThrowingDelegateRecovers |
