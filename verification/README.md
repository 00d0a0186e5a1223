# ErinnNetwork typed message layer, in Dafny

This project models the typed message layer of the ErinnNetwork ENet plugin for Unity: everything
between a C# message struct and the bytes ENet carries, and back again. It covers:

- **Type-name hashing.** A message type's 32-bit and 64-bit ids are the seed-0 XXH32 and XXH64
  hashes of its serialized full name (`NetworkHashUint`, `NetworkHashUlong`). The type's command
  is one of those ids, serialized at the configured width, `RpcHashSize` (`NetworkHash`).
- **Envelopes.** `NetworkPacket` (command and payload) is the envelope of every message.
  `RelayPacket` (room id and payload) and `RelayServerPacket` (payload) are the relay's. Each has
  a hand-written MemoryPack formatter that branches on the member count in the object header.
- **The serializer facade.** `NetworkSerializer` builds a message's envelope and reads envelopes
  back from an array, a span or a segment. Its try-style wrappers turn a thrown failure into
  `false` and a default value.
- **Dispatch.** The server's and the client's message channels keep two registries side by side,
  32-bit id → handler and 64-bit id → handler, and dispatch a received envelope by the
  configured width (`MessageChannel`). The handler wrappers deserialize the body before calling
  the user's callback (`HandlerWrapper`). The server's `InvokeHandler` overloads compose reading
  and dispatch (`NetworkServerMessage`).
- **The server's connection table.** It covers start and dispose, disconnect, round-trip time,
  `Send`, the recipient selection of `Broadcast`, and the transitions the poll loop makes on
  ENet's events (`NetworkServer`).
- **The transport's pure helpers.** These are the delivery-to-flags mapping and the peer-id ↔
  client-id arithmetic of the Netcode ENet transport (`ENetTransport`).

Everything is a pure function over immutable datatypes. Bytes are `seq<bv8>`. `uint` and `ulong`
are `bv32` and `bv64`, so the wrap-around of the unchecked C# arithmetic is exact. A `null`
array is `None`. A thrown exception is a `Failure` of the `Exception` datatype, and a `bool
Try…(…, out value)` result is a `Try(ok, value)`.

MemoryPack is a library outside this repository. The model stands a small concrete wire format
in for it (`MemoryPackWire`):
- an object header is one byte, the member count, with 255 meaning a null object;
- a `byte[]` is a little-endian `int` length followed by the bytes, with length −1 meaning null;
- a `uint` or `ulong` is its 4 or 8 little-endian bytes.

With that format, the round trips the envelopes rely on are proved rather than assumed.

Handlers and user callbacks are opaque tokens. What the code would do to them, or ask ENet to do,
is returned as a sequence of calls or effects rather than performed:
- at most one element means "called at most once";
- an empty sequence means "nothing happens".

The map keys of the registries and of the connection table are wrapped in a one-field datatype,
`MessageChannel.Key`.

Where the code and its design notes disagree, the model follows the code:
- `InvokeHandler` silently ignores an unnamed width, although `GetCommand` throws on one.
- A missing envelope member reads as `null` (`None`), not as an empty array.

## Model

| member | source | states |
|---|---|---|
| NetworkHashUint.ComputeHash32 | Assets/Plugins/ErinnNetwork/ENet/Shared/Protocol/Hash/NetworkHashUint.cs:85-151 | The pointer-walking loops compute XXH32 as the reference `Hash32` defines it. The iterations the three loops actually run, \|input\|/16 stripes, (\|input\| mod 16)/4 words and \|input\| mod 4 single bytes, cover the input exactly: 16·stripes + 4·words + singles = \|input\|. |
| NetworkHashUint.StripeLoop | Assets/Plugins/ErinnNetwork/ENet/Shared/Protocol/Hash/NetworkHashUint.cs:95-121 | The stripe loop runs exactly length/16 iterations, folding four little-endian words per stripe into the seeded accumulators. It stops reading at 16 times the iterations run, where the remainder starts. |
| NetworkHashUint.TailPhase | Assets/Plugins/ErinnNetwork/ENet/Shared/Protocol/Hash/NetworkHashUint.cs:126-142 | The remainder of r bytes is folded in as ⌊r/4⌋ words, then r mod 4 single bytes. Those counted reads end exactly at the end of the input. |
| NetworkHashUint.EmptyInputVector | Assets/Plugins/ErinnNetwork/ENet/Shared/Protocol/Hash/NetworkHashUint.cs:85-151 | With seed 0, the empty input hashes to 0x02CC5D05, the reference XXH32 value. |
| NetworkHashUint.AbcVector | Assets/Plugins/ErinnNetwork/ENet/Shared/Protocol/Hash/NetworkHashUint.cs:85-151 | With seed 0, "abc" hashes to 0x32D153FF, the reference XXH32 value. |
| NetworkHashUint.SpammishVector | Assets/Plugins/ErinnNetwork/ENet/Shared/Protocol/Hash/NetworkHashUint.cs:85-151 | With seed 0, the 39 bytes of "Nobody inspects the spammish repetition" hash to 0xE2293B2F, the reference XXH32 value. That input runs two stripes, one word and three single bytes. |
| NetworkHashUlong.ComputeHash64 | Assets/Plugins/ErinnNetwork/ENet/Shared/Protocol/Hash/NetworkHashUlong.cs:85-179 | The loops compute XXH64 as the reference `Hash64` defines it. The stripes, 8-byte lanes, optional 4-byte word and single bytes they actually read cover the input exactly: 32·stripes + 8·lanes + 4·words + singles = \|input\|. |
| NetworkHashUlong.StripeLoop | Assets/Plugins/ErinnNetwork/ENet/Shared/Protocol/Hash/NetworkHashUlong.cs:95-121 | The stripe loop runs exactly length/32 iterations of four little-endian 64-bit lanes. It stops reading at 32 times the iterations run. |
| NetworkHashUlong.TailPhase | Assets/Plugins/ErinnNetwork/ENet/Shared/Protocol/Hash/NetworkHashUlong.cs:146-172 | The remainder is folded in as 8-byte lanes, one zero-extended 4-byte word if four bytes remain, then single bytes. Those counted reads end exactly at the end of the input. |
| NetworkHashUlong.EmptyInputVector | Assets/Plugins/ErinnNetwork/ENet/Shared/Protocol/Hash/NetworkHashUlong.cs:85-179 | With seed 0, the empty input hashes to 0xEF46DB3751D8E999, the reference XXH64 value. |
| NetworkHashUlong.AbcVector | Assets/Plugins/ErinnNetwork/ENet/Shared/Protocol/Hash/NetworkHashUlong.cs:85-179 | With seed 0, "abc" hashes to 0x44BC2CF5AD770999, the reference XXH64 value. |
| NetworkHashUlong.SpammishVector | Assets/Plugins/ErinnNetwork/ENet/Shared/Protocol/Hash/NetworkHashUlong.cs:85-179 | With seed 0, the 39 bytes of "Nobody inspects the spammish repetition" hash to 0xFBCEA83C8A378BF1, the reference XXH64 value. That input runs one stripe and the merge, one word and three single bytes. |
| NetworkHash.GetId | Assets/Plugins/ErinnNetwork/ENet/Shared/Protocol/Hash/NetworkHash.cs:22 | The pair holds the seed-0 XXH32 and the seed-0 XXH64 of the same type's name bytes. |
| NetworkHash.GetCommand32 | Assets/Plugins/ErinnNetwork/ENet/Shared/Protocol/Hash/NetworkHashUint.cs:33 | The 32-bit command is four bytes that the `uint` reader turns back into the type's 32-bit id. |
| NetworkHash.GetCommand64 | Assets/Plugins/ErinnNetwork/ENet/Shared/Protocol/Hash/NetworkHashUlong.cs:33 | The 64-bit command is eight bytes that the `ulong` reader turns back into the type's 64-bit id. |
| NetworkHash.GetCommand | Assets/Plugins/ErinnNetwork/ENet/Shared/Protocol/Hash/NetworkHash.cs:32-37 | It succeeds exactly at the two named widths, giving the 32-bit or the 64-bit command. Any other byte value fails with ArgumentOutOfRange. |
| NetworkHash.CommandRoundTrip | Assets/Plugins/ErinnNetwork/ENet/Shared/Protocol/Hash/NetworkHash.cs:32-37 | A command made at a named width reads back, at that width, as the type's id of that width. |
| MemoryPackWire.ReadArrayRoundTrip | Assets/Plugins/ErinnNetwork/ENet/Shared/Protocol/Rpc/Packet/NetworkPacket.cs:67-90 | An array written by the writer the envelope uses reads back, null included, and leaves the bytes after it. |
| MemoryPackWire.ReadArrayTruncated | Assets/Plugins/ErinnNetwork/ENet/Shared/Protocol/Rpc/Packet/NetworkPacket.cs:89-90 | Reading any proper prefix of a written array fails. |
| NetworkPacket.Serialize | Assets/Plugins/ErinnNetwork/ENet/Shared/Protocol/Rpc/Packet/NetworkPacket.cs:64-69 | The output starts with member count 2 and is as long as the header plus both written arrays. |
| NetworkPacket.Deserialize | Assets/Plugins/ErinnNetwork/ENet/Shared/Protocol/Rpc/Packet/NetworkPacket.cs:75-111 | An empty buffer throws. A null-object header or count 0 gives the default (null, null) envelope. A count from 3 to 254 throws InvalidPropertyCount(2, count). A success consumes a proper prefix of the input. |
| NetworkPacket.ReadMembers | Assets/Plugins/ErinnNetwork/ENet/Shared/Protocol/Rpc/Packet/NetworkPacket.cs:83-109 | Count 0 reads nothing and gives (null, null). A count above 2 throws. A success leaves a suffix of its input. |
| NetworkPacket.RoundTrip | Assets/Plugins/ErinnNetwork/ENet/Shared/Protocol/Rpc/Packet/NetworkPacket.cs:64-92 | Reading a written envelope gives it back, null fields included, whatever bytes follow it. |
| NetworkPacket.CommandOnly | Assets/Plugins/ErinnNetwork/ENet/Shared/Protocol/Rpc/Packet/NetworkPacket.cs:99-109 | Under count 1, the command is read and the payload stays null. |
| NetworkPacket.Truncated | Assets/Plugins/ErinnNetwork/ENet/Shared/Protocol/Rpc/Packet/NetworkPacket.cs:75-111 | Reading any proper prefix of a written envelope fails. |
| RelayPacket.Serialize | Assets/Plugins/ErinnNetwork/Mirror/Relay/Data/Packet/RelayPacket.cs:63-67 | The output starts with member count 2, followed by the 4-byte room id and the payload array. |
| RelayPacket.Deserialize | Assets/Plugins/ErinnNetwork/Mirror/Relay/Data/Packet/RelayPacket.cs:73-108 | An empty buffer throws. A null-object header or count 0 gives room 0 with a null payload. A count from 3 to 254 throws InvalidPropertyCount(2, count). A success consumes a proper prefix. |
| RelayPacket.RoundTrip | Assets/Plugins/ErinnNetwork/Mirror/Relay/Data/Packet/RelayPacket.cs:63-87 | The room id and the payload, null included, are read back, whatever bytes follow. |
| RelayPacket.RoomOnly | Assets/Plugins/ErinnNetwork/Mirror/Relay/Data/Packet/RelayPacket.cs:96-106 | Under count 1, the room id is read and the payload stays null. |
| RelayPacket.Truncated | Assets/Plugins/ErinnNetwork/Mirror/Relay/Data/Packet/RelayPacket.cs:73-108 | Reading any proper prefix of a written relay packet fails. |
| RelayServerPacket.Serialize | Assets/Plugins/ErinnNetwork/Mirror/Relay/Data/Packet/RelayServerPacket.cs:53-57 | The output starts with member count 1, followed by the payload array. |
| RelayServerPacket.Deserialize | Assets/Plugins/ErinnNetwork/Mirror/Relay/Data/Packet/RelayServerPacket.cs:63-91 | An empty buffer throws. A null-object header or count 0 gives a null payload. A count from 2 to 254 throws InvalidPropertyCount(1, count). A success consumes a proper prefix. |
| RelayServerPacket.RoundTrip | Assets/Plugins/ErinnNetwork/Mirror/Relay/Data/Packet/RelayServerPacket.cs:53-75 | The payload, null included, is read back, whatever bytes follow. |
| RelayServerPacket.Truncated | Assets/Plugins/ErinnNetwork/Mirror/Relay/Data/Packet/RelayServerPacket.cs:63-91 | Reading any proper prefix of a written relay-server packet fails. |
| NetworkSerializer.DeserializeNetworkPacket | Assets/Plugins/ErinnNetwork/ENet/Shared/Protocol/Serializer/NetworkSerializer.cs:144-156 | The result is `true` exactly when the envelope reads, and then holds the envelope read. Otherwise it is `false` with the default envelope, and nothing is thrown. |
| NetworkSerializer.OverloadsAgree | Assets/Plugins/ErinnNetwork/ENet/Shared/Protocol/Serializer/NetworkSerializer.cs:124-176 | The array, span and segment overloads agree on equal bytes. A null array reads like an empty span and gives `false`. |
| NetworkSerializer.DecodesSerialized | Assets/Plugins/ErinnNetwork/ENet/Shared/Protocol/Serializer/NetworkSerializer.cs:124-129 | A written envelope, with anything after it, reads back as `true` and the same envelope. |
| NetworkSerializer.RejectsTruncated | Assets/Plugins/ErinnNetwork/ENet/Shared/Protocol/Serializer/NetworkSerializer.cs:130-135 | Every proper prefix of a written envelope gives `false` and the default envelope. |
| NetworkSerializer.Serialize | Assets/Plugins/ErinnNetwork/ENet/Shared/Protocol/Serializer/NetworkSerializer.cs:193-205 | The result is `true` with the bytes exactly when the serializer succeeds. Otherwise it is `false` with null bytes. |
| NetworkSerializer.Deserialize | Assets/Plugins/ErinnNetwork/ENet/Shared/Protocol/Serializer/NetworkSerializer.cs:249-261 | The result is `true` with the value exactly when the deserializer succeeds. Otherwise it is `false` with `default(T)`. |
| NetworkSerializer.TryRoundTrip | Assets/Plugins/ErinnNetwork/ENet/Shared/Protocol/Serializer/NetworkSerializer.cs:193-261 | For a body serializer that reads back what it writes, `Deserialize` returns what `Serialize` wrote. |
| NetworkSerializer.SerializeNetworkPacket | Assets/Plugins/ErinnNetwork/ENet/Shared/Protocol/Serializer/NetworkSerializer.cs:109-116 | It succeeds exactly when the width is named and the body serializes. An unnamed width throws ArgumentOutOfRange before the body is touched. |
| NetworkSerializer.MessageRoundTrip | Assets/Plugins/ErinnNetwork/ENet/Shared/Protocol/Serializer/NetworkSerializer.cs:109-116 | A serialized message reads back as an envelope holding the type's command and the body's bytes. The command reads back as the type's id at that width. |
| NetworkSerializer.DefaultFlags | Assets/Plugins/ErinnNetwork/ENet/Shared/Protocol/Serializer/NetworkSerializer.cs:26-43 | The array overload without flags gives a reliable packet carrying exactly the given bytes. The segment overload carries the segment's bytes. |
| NetworkSerializer.CreateMessagePacket | Assets/Plugins/ErinnNetwork/ENet/Shared/Protocol/Serializer/NetworkSerializer.cs:94-100 | It succeeds exactly when `SerializeNetworkPacket` does. The packet then carries exactly the serialized envelope, with the requested flags. |
| NetworkSerializer.MessagePacketDecodes | Assets/Plugins/ErinnNetwork/ENet/Shared/Protocol/Serializer/NetworkSerializer.cs:78-100 | A message packet's bytes are exactly `SerializeNetworkPacket`'s output, so they read back as the type's command and the body. |
| MessageChannel.New | Assets/Plugins/ErinnNetwork/ENet/Server/Module/Message/Channel/NetworkServerMessageChannel.cs:43 | A new channel has no handlers and the four-byte width. |
| MessageChannel.ChangeRpcHashSize | Assets/Plugins/ErinnNetwork/ENet/Server/Module/Message/Channel/NetworkServerMessageChannel.cs:49 | Any byte value becomes the width, and both registries are untouched. |
| MessageChannel.RegisterHandler | Assets/Plugins/ErinnNetwork/ENet/Server/Module/Message/Channel/NetworkServerMessageChannel.cs:133-140 | The same handler is stored under the 32-bit id and under the 64-bit id, replacing any earlier entry. Every other key keeps its handler, and the width is unchanged. |
| MessageChannel.LastRegistrationWins | Assets/Plugins/ErinnNetwork/ENet/Server/Module/Message/Channel/NetworkServerMessageChannel.cs:137-138 | Registering a type twice is the same as registering only the second handler. |
| MessageChannel.WidthChangeKeepsRegistry | Assets/Plugins/ErinnNetwork/ENet/Server/Module/Message/Channel/NetworkServerMessageChannel.cs:49 | Changing the width commutes with registration. |
| MessageChannel.UnregisterHandler | Assets/Plugins/ErinnNetwork/ENet/Server/Module/Message/Channel/NetworkServerMessageChannel.cs:197-202 | As written: the 32-bit entry is always removed. The 64-bit entry is removed only when there was no 32-bit entry. |
| MessageChannel.UnregisterLeavesEightByteHandler | Assets/Plugins/ErinnNetwork/ENet/Server/Module/Message/Channel/NetworkServerMessageChannel.cs:200 | After a type is registered and then unregistered, its 64-bit entry survives. At the eight-byte width, its command still selects the handler. |
| MessageChannel.UnregisterBoth | Assets/Plugins/ErinnNetwork/ENet/Server/Module/Message/Channel/NetworkServerMessageChannel.cs:197-202 | As evidently intended: both of the type's entries are removed. |
| MessageChannel.UnregisterBothSilences | Assets/Plugins/ErinnNetwork/ENet/Server/Module/Message/Channel/NetworkServerMessageChannel.cs:197-202 | Once both entries are removed, the type's command selects nothing at either width. |
| MessageChannel.ClearHandlers | Assets/Plugins/ErinnNetwork/ENet/Server/Module/Message/Channel/NetworkServerMessageChannel.cs:207-212 | Both registries are empty and the width is kept. |
| MessageChannel.ClearedSelectsNothing | Assets/Plugins/ErinnNetwork/ENet/Server/Module/Message/Channel/NetworkServerMessageChannel.cs:207-212 | After clearing, no command selects a handler. |
| MessageChannel.Select | Assets/Plugins/ErinnNetwork/ENet/Server/Module/Message/Channel/NetworkServerMessageChannel.cs:219-244 | At four bytes, a handler is selected exactly when the command reads as a `uint` that is a key of the 32-bit registry, and it is the handler stored under that id. At eight bytes, the same holds for a `ulong` and the 64-bit registry. An unnamed width selects nothing and throws nothing. |
| MessageChannel.ServerInvokeHandler | Assets/Plugins/ErinnNetwork/ENet/Server/Module/Message/Channel/NetworkServerMessageChannel.cs:219-244 | The selected handler, if any, is called exactly once with the sender's id and the payload. Otherwise nothing is called. |
| MessageChannel.ClientInvokeHandler | Assets/Plugins/ErinnNetwork/ENet/Client/Module/Message/Channel/NetworkClientMessageChannel.cs:218-243 | The selected handler, if any, is called exactly once with the payload. Otherwise nothing is called. |
| MessageChannel.CommandCarriesId | Assets/Plugins/ErinnNetwork/ENet/Shared/Protocol/Hash/NetworkHash.cs:32-37 | A type's command at a named width reads back as the type's id of that width. |
| MessageChannel.RegisterThenSelect | Assets/Plugins/ErinnNetwork/ENet/Server/Module/Message/Channel/NetworkServerMessageChannel.cs:133-244 | A command carrying a registered id selects the handler registered under it. |
| HandlerWrapper.InvokeServer | Assets/Plugins/ErinnNetwork/ENet/Server/Module/Message/Handler/ServerCallbackHandlerWrapper.cs:21-30 | The callback runs exactly once, with the sender's id unchanged and the decoded value, when the body decodes. It does not run at all otherwise. |
| HandlerWrapper.InvokeClient | Assets/Plugins/ErinnNetwork/ENet/Client/Module/Message/Handler/ClientCallbackHandlerWrapper.cs:21-30 | The callback runs exactly once with the decoded value when the body decodes. It does not run at all otherwise, and no decoding failure escapes. |
| HandlerWrapper.DeliversEncoded | Assets/Plugins/ErinnNetwork/ENet/Server/Module/Message/Handler/ServerCallbackHandlerWrapper.cs:25-28 | For a body serializer that reads back what it writes, a serialized value reaches the callback as that very value, on both sides. |
| HandlerWrapper.ServerMatchesClient | Assets/Plugins/ErinnNetwork/ENet/Client/Module/Message/Handler/ClientCallbackHandlerWrapper.cs:21-30 | The server and client wrappers make the same decision on the same bytes. |
| NetworkServerMessage.InvokeSpan | Assets/Plugins/ErinnNetwork/ENet/Server/Module/Message/NetworkServer.Message.cs:126-130 | A handler is called exactly when the bytes read as an envelope whose command selects one. It is then called once, with the sender's id and the envelope's payload. |
| NetworkServerMessage.InvokeRange | Assets/Plugins/ErinnNetwork/ENet/Server/Module/Message/NetworkServer.Message.cs:115-119 | A negative length, or one beyond the array, throws ArgumentOutOfRange. A null array allows only length 0. Otherwise only the first `length` bytes are read. |
| NetworkServerMessage.OverloadsAgree | Assets/Plugins/ErinnNetwork/ENet/Server/Module/Message/NetworkServer.Message.cs:103-141 | The whole-array overload is the length overload at the array's length. The segment overload is the span overload on the segment's bytes. |
| NetworkServerMessage.TruncatedDispatchesNothing | Assets/Plugins/ErinnNetwork/ENet/Server/Module/Message/NetworkServer.Message.cs:103-107 | Bytes that fail to read as an envelope, such as any cut-short envelope, reach no handler. |
| NetworkServerMessage.DeliversRegistered | Assets/Plugins/ErinnNetwork/ENet/Server/Module/Message/NetworkServer.Message.cs:148 | A read envelope goes to the channel with the same sender id, so a registered command reaches its handler once with the payload. |
| NetworkServerMessage.SendThenReceive | Assets/Plugins/ErinnNetwork/ENet/Server/Module/Message/NetworkServer.Message.cs:103-148 | A message serialized at the server's width, whose type has a registered wrapped callback, is delivered once to that callback with the sender's id and the value that was sent. |
| NetworkServer.New | Assets/Plugins/ErinnNetwork/ENet/Server/Module/Network/NetworkServer.cs:24-34 | A new server is not listening and has no host, no connections and a fresh channel. |
| NetworkServer.Start | Assets/Plugins/ErinnNetwork/ENet/Server/Module/Network/NetworkServer.cs:51-61 | On a listening server, `Start` changes nothing. Otherwise it creates the host and starts listening. Either way the table, the channel and the receive buffer are kept, so every entry stays stored under its own peer's id. |
| NetworkServer.Dispose | Assets/Plugins/ErinnNetwork/ENet/Server/Module/Network/NetworkServer.cs:66-80 | Listening stops. If the host exists, every connected peer is disconnected at once, the table is emptied and the host is released, and no disconnect callback runs. The channel and the receive buffer are kept, and the table stays keyed by peer id. |
| NetworkServer.Disconnect | Assets/Plugins/ErinnNetwork/ENet/Server/Module/Network/NetworkServer.cs:86-94 | An unknown id changes nothing and has no effect. A known id is disconnected at once and removed, with only that entry going, and the disconnect callback runs once. Nothing else in the server changes, and the table stays keyed by peer id. |
| NetworkServer.GetCurrentRtt | Assets/Plugins/ErinnNetwork/ENet/Server/Module/Network/NetworkServer.cs:101-106 | The result is the peer's round-trip time widened to 64 bits, or 0 for an id that is not connected. |
| NetworkServer.Send | Assets/Plugins/ErinnNetwork/ENet/Server/Module/Network/NetworkServer.cs:114-120 | Sending to an id that is not connected does nothing, and the message is not serialized. For a connected id, a message that serializes is always sent: one reliable packet holding it at the channel's width goes to that peer. A message that does not serialize returns the serializer's own failure. |
| NetworkServer.SelectRecipients | Assets/Plugins/ErinnNetwork/ENet/Server/Module/Network/NetworkServer.cs:130-136 | The hash-set loop selects exactly the reference recipients: the connected ids in first-occurrence order, each once. |
| NetworkServer.ScanIsRecipients | Assets/Plugins/ErinnNetwork/ENet/Server/Module/Network/NetworkServer.cs:130-136 | Taking one id at a time, the loop adds a peer exactly when its id is connected and not yet in the hash set. The peers it collects are the reference recipients, and the hash set ends holding exactly the ids that occur. |
| NetworkServer.BroadcastRecipients | Assets/Plugins/ErinnNetwork/ENet/Server/Module/Network/NetworkServer.cs:130-136 | The recipients are free of repeats. They are exactly the ids of the list that are connected, and each one's peer is its connected peer. |
| NetworkServer.RecipientsInFirstOccurrenceOrder | Assets/Plugins/ErinnNetwork/ENet/Server/Module/Network/NetworkServer.cs:130-136 | Recipients come in the order of their ids' first occurrence in the list. |
| NetworkServer.Broadcast | Assets/Plugins/ErinnNetwork/ENet/Server/Module/Network/NetworkServer.cs:128-142 | When no listed id is connected, nothing is sent and nothing is serialized. When some listed id is connected, a message that serializes is always sent: one reliable packet holding it at the channel's width goes to all the recipients. A message that does not serialize returns the serializer's own failure. |
| NetworkServer.BroadcastDecodes | Assets/Plugins/ErinnNetwork/ENet/Server/Module/Network/NetworkServer.cs:138-141 | A broadcast that reaches anyone carries bytes that read back as the type's command and the body. |
| NetworkServer.HandleEvent | Assets/Plugins/ErinnNetwork/ENet/Server/Module/Network/NetworkServer.cs:161-187 | No event changes the channel, the listening flag or whether the host exists. Connect stores the peer under its id, overwriting any entry, and reports it. Disconnect of a known id removes the entry and reports it through the disconnect callback only. Disconnect of an unknown id leaves the loop with no effect. Receive copies the packet to the front of the buffer, keeps the rest of the buffer, and dispatches the packet's bytes. A packet longer than the buffer throws ArgumentOutOfRange with no effect and no change. No other event touches the buffer. Timeout disconnects the peer and keeps the table. |
| NetworkServer.HandleEventSkipping | Assets/Plugins/ErinnNetwork/ENet/Server/Module/Network/NetworkServer.cs:171-176 | As evidently intended: a disconnect of an unknown id is skipped. It changes nothing, has no effect and never leaves the loop. Every other event is handled as written. |
| NetworkServer.HandleEventKeepsKeys | Assets/Plugins/ErinnNetwork/ENet/Server/Module/Network/NetworkServer.cs:166-176 | Every table entry stays stored under its own peer's id. |
| NetworkServer.PollKeepsKeys | Assets/Plugins/ErinnNetwork/ENet/Server/Module/Network/NetworkServer.cs:147-193 | Through any batch of events, as written or corrected, every table entry stays stored under its own peer's id. |
| NetworkServer.PollSkippingNeverReturns | Assets/Plugins/ErinnNetwork/ENet/Server/Module/Network/NetworkServer.cs:171-176 | The corrected loop never leaves by `return`. |
| NetworkServer.PollsAgreeWithoutStrangers | Assets/Plugins/ErinnNetwork/ENet/Server/Module/Network/NetworkServer.cs:171-176 | The loop as written and the corrected loop agree on every batch in which no unknown id disconnects. |
| NetworkServer.StrangerStopsPolling | Assets/Plugins/ErinnNetwork/ENet/Server/Module/Network/NetworkServer.cs:172-173 | As written, a disconnect from an unknown peer ends polling, so a client that connects next is never entered in the table. The corrected loop connects it. |
| NetworkServer.ReceiveIgnoresStaleBytes | Assets/Plugins/ErinnNetwork/ENet/Server/Module/Network/NetworkServer.cs:177-182 | A received packet dispatches exactly what its own bytes dispatch, whatever the shared buffer held before. |
| NetworkServer.TimeoutKeepsEntry | Assets/Plugins/ErinnNetwork/ENet/Server/Module/Network/NetworkServer.cs:183-186 | A timed-out peer is disconnected, but its entry stays in the table as it was stored. |
| NetworkServer.ChangeRpcHashSize | Assets/Plugins/ErinnNetwork/ENet/Server/Module/Message/NetworkServer.Message.cs:28 | It changes the width of the server's one channel and nothing else. |
| NetworkServer.RegisterHandler | Assets/Plugins/ErinnNetwork/ENet/Server/Module/Message/NetworkServer.Message.cs:60 | It registers on the server's one channel and changes nothing else. |
| NetworkServer.UnregisterHandler | Assets/Plugins/ErinnNetwork/ENet/Server/Module/Message/NetworkServer.Message.cs:91 | It unregisters, as written, on the server's one channel and changes nothing else. |
| NetworkServer.ClearHandlers | Assets/Plugins/ErinnNetwork/ENet/Server/Module/Message/NetworkServer.Message.cs:96 | It clears the server's one channel and changes nothing else. |
| ENetTransport.NetworkDeliveryToPacketFlag | Assets/Plugins/ErinnNetwork/Netcode/Lobby/ENet/ENetTransport.cs:298-306 | Unreliable maps to Unsequenced and UnreliableSequenced to no flag. The three reliable modes map to Reliable, and any other value throws ArgumentOutOfRange. |
| ENetTransport.GetLocalClientId | Assets/Plugins/ErinnNetwork/Netcode/Lobby/ENet/ENetTransport.cs:314 | The server's side gets 0. A remote peer gets its id plus one, except that the largest id wraps to 0 in `uint` arithmetic. |
| ENetTransport.GetEnetClientId | Assets/Plugins/ErinnNetwork/Netcode/Lobby/ENet/ENetTransport.cs:321 | Client id 0 is the stored server peer id. Any other client id gives the 32-bit predecessor of its low 32 bits. |
| ENetTransport.ClientIdRoundTrip | Assets/Plugins/ErinnNetwork/Netcode/Lobby/ENet/ENetTransport.cs:314-321 | Every peer id below 2^32 − 1 maps to a nonzero client id that maps back to it. |
| ENetTransport.LargestPeerIdWraps | Assets/Plugins/ErinnNetwork/Netcode/Lobby/ENet/ENetTransport.cs:314-321 | Peer id 2^32 − 1 wraps to client id 0 and so maps back to the server's peer. |
| ENetTransport.HighBitsIgnored | Assets/Plugins/ErinnNetwork/Netcode/Lobby/ENet/ENetTransport.cs:321 | A client id whose low 32 bits are nonzero names the same peer as those low 32 bits. |

## Left out

- MemoryPack is not part of this model. Its object-header, array, `uint` and `ulong` encodings are
  replaced by the small concrete format described above. The format has the properties the
  formatters rely on: a count byte with a null marker, and length-prefixed arrays with a null
  length. Real MemoryPack byte layouts, and string serialization, are not modelled.
- The string serialization of a type's full name is not modelled. A message type is identified
  by the bytes its name serializes to, so no concrete type's golden id is stated.
- The per-type `HashCache` static fields are left out. Ids are pure functions of the name bytes,
  which is what a cache computed once gives.
- Message bodies are left out. Their own formatters are parameters: a `Codec` whose `encode` may
  fail and whose `decode` reads a value or fails.
- `Hash32(string)`, `Hash32(Type)`, `Hash32<T>()` and their 64-bit twins are left out. They only
  serialize a name and then call the byte-array hash, which is modelled.
- ENet is left out: the host, peers, `Service`/`CheckEvents`, `Packet.Create`, `Flush`,
  `Library.Initialize` and the thread-pool polling loop with its `Tick` delay. Each is a foreign
  call or concurrency. Events arrive as a sequence, and what the server asks of ENet is returned
  as effects.
- NetworkServer.HandleEvent: a receive longer than the 16384-byte buffer is modelled as throwing
  ArgumentOutOfRange. That is what ENet's packet copy does, and ENet is not part of this model.
- `PollPeers`' event source is left out. `CheckEvents` before `Service` and `Timeout` are ENet's
  scheduling, so only the per-event transitions are modelled.
- Reflection-based registration is left out: `RegisterHandlers`/`UnregisterHandlers` over
  listeners, types and assemblies, and `BindMethod`/`FreeMethod`. This is runtime type scanning.
- `Log.Info` calls, the Unity wrappers and the rest of the transports are left out, as is the
  `NetworkClient` lifecycle.
- The client's `InvokeHandler` overloads are not part of this model. Only the client channel's
  dispatch is.
- Handlers are stored as opaque tokens of one type per channel. The source stores delegates for
  message types of any kind, so the end-to-end lemma relates a channel whose handlers all decode
  the same message type.
- Packet flags beyond `None`, `Reliable` and `Unsequenced` are left out.
- `CreatePacket` over a null array is left out. The model's packet creators take the bytes
  themselves.
- `Broadcast` over a null `ids` array is left out. Its `foreach` would throw
  NullReferenceException, and the model's ids are a sequence, which is never null.
- NetworkServer.GetCurrentRtt: a peer's round-trip time is the value held in its table entry.
  ENet updates a live peer's round-trip time as traffic flows, and those updates are not modelled.

## Findings

| source | as written | input that shows it | evidently intended | confidence | as-written member | corrected member |
|---|---|---|---|---|---|---|
| Assets/Plugins/ErinnNetwork/ENet/Server/Module/Message/Channel/NetworkServerMessageChannel.cs:200 | `_handlers32.Remove(hash32) \|\| _handlers64.Remove(hash64)`: the second removal runs only when the first removed nothing. The client channel has the same line. | Register a type, then unregister it: the 64-bit entry survives. After `ChangeRpcHashSize(VarIntEightBytes)`, the type's command still reaches the "unregistered" handler. | Both entries removed. | not executed | MessageChannel.UnregisterLeavesEightByteHandler | MessageChannel.UnregisterBothSilences |
| Assets/Plugins/ErinnNetwork/ENet/Server/Module/Network/NetworkServer.cs:172-173 | `if (!_connections.Remove(id)) return;` inside `PollPeers` leaves the whole poll loop. | A Disconnect event for a peer the table does not know, followed by a Connect event: polling has ended, so the connecting client is never entered in the table and is never reported. | Skip the event and keep polling. | not executed | NetworkServer.StrangerStopsPolling | NetworkServer.PollSkippingNeverReturns |
