/** The message channel: the registry from command ids to handlers that the
    server and the client each own. It keeps two maps side by side, one
    keyed by 32-bit ids and one by 64-bit ids, and the configured width
    decides which of them a received command is looked up in. The server's
    and the client's channels keep their registries identically and differ
    only in whether a handler is called with the sender's id.

    Handlers are opaque here (`H`): the channel only stores them and says
    which one a command selects. What a wrapped handler does when called is
    modelled by `HandlerWrapper`. */
module MessageChannel {
  import opened Wrappers
  import opened LittleEndian
  import opened RpcHashSize
  import opened MemoryPackWire
  import NetworkHash
  import NetworkPacket
  import NetworkSerializer

  /** A dictionary key: a command id of either width. */
  datatype Key<B> = Key(id: B)

  datatype Channel<H> = Channel(handlers32: map<Key<bv32>, H>, handlers64: map<Key<bv64>, H>, hashSize: HashSize)

  /** A server-side handler call: the handler, the sender, the payload. */
  datatype ServerInvocation<H> = ServerInvocation(handler: H, id: bv32, payload: Option<ByteArray>)

  /** A client-side handler call: the handler and the payload. */
  datatype ClientInvocation<H> = ClientInvocation(handler: H, payload: Option<ByteArray>)

  /** A new channel: no handlers, four-byte ids. */
  function New<H>(): (ch: Channel<H>)
    ensures ch.hashSize == VarIntFourBytes
    ensures |ch.handlers32| == 0 && |ch.handlers64| == 0
  {
    Channel(map[], map[], VarIntFourBytes)
  }

  /** `ChangeRpcHashSize`: any byte value is accepted, named or not. */
  function ChangeRpcHashSize<H>(ch: Channel<H>, w: HashSize): (r: Channel<H>)
    ensures r.hashSize == w
    ensures r.handlers32 == ch.handlers32 && r.handlers64 == ch.handlers64
  {
    ch.(hashSize := w)
  }

  /** A message type's two ids, `NetworkHash.GetId<T>()`. */
  type Ids = (bv32, bv64)

  /** `RegisterHandler<T>` for the type with ids `ids`: the same handler
      under the 32-bit id and under the 64-bit id, replacing whatever was
      there; the width is not consulted. */
  function RegisterHandler<H>(ch: Channel<H>, ids: Ids, h: H): (r: Channel<H>)
    ensures r.hashSize == ch.hashSize
    ensures r.handlers32.Keys == ch.handlers32.Keys + {Key(ids.0)}
    ensures r.handlers64.Keys == ch.handlers64.Keys + {Key(ids.1)}
    ensures Key(ids.0) in r.handlers32 && r.handlers32[Key(ids.0)] == h
    ensures Key(ids.1) in r.handlers64 && r.handlers64[Key(ids.1)] == h
    ensures forall k :: k in ch.handlers32 && k != Key(ids.0) ==> k in r.handlers32 && r.handlers32[k] == ch.handlers32[k]
    ensures forall k :: k in ch.handlers64 && k != Key(ids.1) ==> k in r.handlers64 && r.handlers64[k] == ch.handlers64[k]
  {
    ch.(handlers32 := ch.handlers32[Key(ids.0) := h], handlers64 := ch.handlers64[Key(ids.1) := h])
  }

  /** `UnregisterHandler<T>` as written: `_handlers32.Remove(hash32) ||
      _handlers64.Remove(hash64)`. The second removal runs only when the
      first found nothing, so a type registered under both ids keeps its
      64-bit entry. */
  function UnregisterHandler<H>(ch: Channel<H>, ids: Ids): (r: Channel<H>)
    ensures r.hashSize == ch.hashSize
    ensures r.handlers32 == ch.handlers32 - {Key(ids.0)}
    ensures Key(ids.0) in ch.handlers32 ==> r.handlers64 == ch.handlers64
    ensures Key(ids.0) !in ch.handlers32 ==> r.handlers64 == ch.handlers64 - {Key(ids.1)}
  {
    if Key(ids.0) in ch.handlers32 then ch.(handlers32 := ch.handlers32 - {Key(ids.0)})
    else ch.(handlers64 := ch.handlers64 - {Key(ids.1)})
  }

  /** `UnregisterHandler<T>` as evidently intended: both entries go. */
  function UnregisterBoth<H>(ch: Channel<H>, ids: Ids): (r: Channel<H>)
    ensures r.hashSize == ch.hashSize
    ensures r.handlers32 == ch.handlers32 - {Key(ids.0)}
    ensures r.handlers64 == ch.handlers64 - {Key(ids.1)}
  {
    ch.(handlers32 := ch.handlers32 - {Key(ids.0)}, handlers64 := ch.handlers64 - {Key(ids.1)})
  }

  /** `ClearHandlers`: both maps emptied, the width kept. */
  function ClearHandlers<H>(ch: Channel<H>): (r: Channel<H>)
    ensures |r.handlers32| == 0 && |r.handlers64| == 0
    ensures r.hashSize == ch.hashSize
  {
    ch.(handlers32 := map[], handlers64 := map[])
  }

  /** The handler a command selects at the channel's width. At four bytes
      the command must read as a `uint` (`Deserialize<uint>`, which needs at
      least four bytes and fails quietly otherwise) that is a key of the
      32-bit map; at eight bytes likewise with a `ulong` and the 64-bit map.
      An unnamed width selects nothing, without throwing. */
  function Select<H>(ch: Channel<H>, command: Option<ByteArray>): (r: Option<H>)
    ensures !IsNamed(ch.hashSize) ==> r.None?
    ensures ch.hashSize == VarIntFourBytes ==>
      (r.Some? <==> |NetworkSerializer.AsSpan(command)| >= 4 && Key(DeserializeU32(NetworkSerializer.AsSpan(command)).value) in ch.handlers32)
    ensures ch.hashSize == VarIntEightBytes ==>
      (r.Some? <==> |NetworkSerializer.AsSpan(command)| >= 8 && Key(DeserializeU64(NetworkSerializer.AsSpan(command)).value) in ch.handlers64)
    ensures ch.hashSize == VarIntFourBytes && r.Some? ==>
      r.value == ch.handlers32[Key(DeserializeU32(NetworkSerializer.AsSpan(command)).value)]
    ensures ch.hashSize == VarIntEightBytes && r.Some? ==>
      r.value == ch.handlers64[Key(DeserializeU64(NetworkSerializer.AsSpan(command)).value)]
  {
    var bytes := NetworkSerializer.AsSpan(command);
    if ch.hashSize == VarIntFourBytes then
      match DeserializeU32(bytes)
      case Success(id) => if Key(id) in ch.handlers32 then Some(ch.handlers32[Key(id)]) else None
      case Failure(_) => None
    else if ch.hashSize == VarIntEightBytes then
      match DeserializeU64(bytes)
      case Success(id) => if Key(id) in ch.handlers64 then Some(ch.handlers64[Key(id)]) else None
      case Failure(_) => None
    else None
  }

  /** `NetworkServerMessageChannel.InvokeHandler(id, ref packet)`: the
      selected handler, if any, is called once with the sender and the
      payload. The registry is a value here, so it is untouched by
      construction. */
  function ServerInvokeHandler<H>(ch: Channel<H>, id: bv32, packet: NetworkPacket.Packet): (calls: seq<ServerInvocation<H>>)
    ensures |calls| <= 1
    ensures |calls| == 1 <==> Select(ch, packet.command).Some?
    ensures |calls| == 1 ==> calls[0] == ServerInvocation(Select(ch, packet.command).value, id, packet.payload)
  {
    match Select(ch, packet.command)
    case Some(h) => [ServerInvocation(h, id, packet.payload)]
    case None => []
  }

  /** `NetworkClientMessageChannel.InvokeHandler(ref packet)`: as on the
      server, without a sender. */
  function ClientInvokeHandler<H>(ch: Channel<H>, packet: NetworkPacket.Packet): (calls: seq<ClientInvocation<H>>)
    ensures |calls| <= 1
    ensures |calls| == 1 <==> Select(ch, packet.command).Some?
    ensures |calls| == 1 ==> calls[0] == ClientInvocation(Select(ch, packet.command).value, packet.payload)
  {
    match Select(ch, packet.command)
    case Some(h) => [ClientInvocation(h, packet.payload)]
    case None => []
  }

  /** The command a type is sent with at width `w`, as an envelope field. */
  function CommandField(t: NetworkHash.MessageType, w: HashSize): Option<ByteArray>
    requires IsNamed(w)
  {
    var c: ByteArray := NetworkHash.GetCommand(t, w).value;
    Some(c)
  }

  /** Whether `command` reads back, at width `w`, as the id in `ids` of that
      width. */
  predicate Carries(command: Option<ByteArray>, w: HashSize, ids: Ids) {
    var bytes := NetworkSerializer.AsSpan(command);
    (w == VarIntFourBytes && DeserializeU32(bytes) == Success(ids.0))
    || (w == VarIntEightBytes && DeserializeU64(bytes) == Success(ids.1))
  }

  /** A type's command at a named width carries the type's id of that
      width. */
  lemma CommandCarriesId(t: NetworkHash.MessageType, w: HashSize)
    requires IsNamed(w)
    ensures Carries(CommandField(t, w), w, NetworkHash.GetId(t))
  {
  }

  /** A command carrying a registered id selects the handler registered
      under it, at the width it was made for. */
  lemma RegisterThenSelect<H>(ch: Channel<H>, ids: Ids, h: H, command: Option<ByteArray>)
    requires Carries(command, ch.hashSize, ids)
    ensures Select(RegisterHandler(ch, ids, h), command) == Some(h)
  {
  }

  /** Registering the same type twice keeps only the second handler. */
  lemma LastRegistrationWins<H>(ch: Channel<H>, ids: Ids, h1: H, h2: H)
    ensures RegisterHandler(RegisterHandler(ch, ids, h1), ids, h2) == RegisterHandler(ch, ids, h2)
  {
  }

  /** Changing the width touches neither map, so it commutes with
      registration. */
  lemma WidthChangeKeepsRegistry<H>(ch: Channel<H>, w: HashSize, ids: Ids, h: H)
    ensures ChangeRpcHashSize(RegisterHandler(ch, ids, h), w) == RegisterHandler(ChangeRpcHashSize(ch, w), ids, h)
  {
  }

  /** The consequence of the `||` in `UnregisterHandler`: after registering
      a type and unregistering it, the type's 64-bit entry survives, so once
      the channel is at eight-byte width the type's command still reaches
      the "unregistered" handler. */
  lemma UnregisterLeavesEightByteHandler<H>(ch: Channel<H>, ids: Ids, h: H, command: Option<ByteArray>)
    requires Carries(command, VarIntEightBytes, ids)
    ensures var r := UnregisterHandler(RegisterHandler(ch, ids, h), ids);
      Key(ids.1) in r.handlers64 && Select(ChangeRpcHashSize(r, VarIntEightBytes), command) == Some(h)
  {
  }

  /** With both entries removed, the type's command selects nothing at
      either width. */
  lemma UnregisterBothSilences<H>(ch: Channel<H>, ids: Ids, w: HashSize, command: Option<ByteArray>)
    requires Carries(command, w, ids)
    ensures Select(ChangeRpcHashSize(UnregisterBoth(ch, ids), w), command).None?
  {
  }

  /** After `ClearHandlers` no command selects a handler. */
  lemma ClearedSelectsNothing<H>(ch: Channel<H>, command: Option<ByteArray>)
    ensures Select(ClearHandlers(ch), command).None?
  {
  }
}
