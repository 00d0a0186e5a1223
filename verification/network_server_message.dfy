/** The server's message entry points: each `InvokeHandler` overload reads an
    envelope from the received bytes and, when that succeeds, lets the
    message channel dispatch it to the registered handler with the sender's
    id. A failed read dispatches nothing and throws nothing; only the
    overload taking an explicit length can throw, when the length does not
    fit the buffer. */
module NetworkServerMessage {
  import opened Wrappers
  import opened LittleEndian
  import opened MemoryPackWire
  import opened RpcHashSize
  import NetworkHash
  import NetworkPacket
  import NetworkSerializer
  import MessageChannel
  import HandlerWrapper

  type Calls<H> = seq<MessageChannel.ServerInvocation<H>>

  /** `InvokeHandler(id, ref Span<byte> payload)`. */
  function InvokeSpan<H>(ch: MessageChannel.Channel<H>, id: bv32, payload: Bytes): (calls: Calls<H>)
    ensures |calls| <= 1
    ensures |calls| == 1 <==>
      (NetworkPacket.Deserialize(payload).Success?
       && MessageChannel.Select(ch, NetworkPacket.Deserialize(payload).value.value.command).Some?)
    ensures |calls| == 1 ==>
      var p := NetworkPacket.Deserialize(payload).value.value;
      calls[0] == MessageChannel.ServerInvocation(MessageChannel.Select(ch, p.command).value, id, p.payload)
  {
    var r := NetworkSerializer.DeserializeNetworkPacket(payload);
    if r.ok then MessageChannel.ServerInvokeHandler(ch, id, r.value) else []
  }

  /** `InvokeHandler(id, byte[] payload)`: a null array reads as no bytes. */
  function InvokeArray<H>(ch: MessageChannel.Channel<H>, id: bv32, payload: Option<ByteArray>): Calls<H> {
    InvokeSpan(ch, id, NetworkSerializer.AsSpan(payload))
  }

  /** `InvokeHandler(id, ArraySegment<byte> payload)`. */
  function InvokeSegment<H>(ch: MessageChannel.Channel<H>, id: bv32, payload: NetworkSerializer.Segment): Calls<H> {
    InvokeSpan(ch, id, NetworkSerializer.Content(payload))
  }

  /** `InvokeHandler(id, byte[] payload, int length)`: the first `length`
      bytes, through `payload.AsSpan(0, length)`, which throws when the
      length is negative or longer than the array; a null array gives an
      empty span for length 0 and throws for any other length. */
  function InvokeRange<H>(ch: MessageChannel.Channel<H>, id: bv32, payload: Option<ByteArray>, length: int)
    : (r: Result<Calls<H>, Exception>)
    ensures r.Failure? <==> length < 0 || length > |NetworkSerializer.AsSpan(payload)|
    ensures r.Failure? ==> r.error == ArgumentOutOfRange
    ensures r.Success? ==> r.value == InvokeSpan(ch, id, NetworkSerializer.AsSpan(payload)[..length])
  {
    match payload
    case None => if length == 0 then Success(InvokeSpan(ch, id, [])) else Failure(ArgumentOutOfRange)
    case Some(bytes) =>
      if length < 0 || length > |bytes| then Failure(ArgumentOutOfRange)
      else Success(InvokeSpan(ch, id, bytes[..length]))
  }

  /** The overloads agree on the bytes they are given: the whole-array
      overload is the length overload at the array's length, and the segment
      overload is the span overload on the segment's bytes. */
  lemma OverloadsAgree<H>(ch: MessageChannel.Channel<H>, id: bv32, payload: Option<ByteArray>, segment: NetworkSerializer.Segment)
    ensures InvokeRange(ch, id, payload, |NetworkSerializer.AsSpan(payload)|) == Success(InvokeArray(ch, id, payload))
    ensures InvokeSegment(ch, id, segment) == InvokeSpan(ch, id, NetworkSerializer.Content(segment))
  {
    var s := NetworkSerializer.AsSpan(payload);
    assert s[..|s|] == s;
  }

  /** Bytes that are not an envelope, such as any proper prefix of one,
      reach no handler. */
  lemma TruncatedDispatchesNothing<H>(ch: MessageChannel.Channel<H>, id: bv32, p: NetworkPacket.Packet, k: nat)
    requires k < |NetworkPacket.Serialize(p)|
    ensures InvokeSpan(ch, id, NetworkPacket.Serialize(p)[..k]) == []
  {
    NetworkPacket.Truncated(p, k);
  }

  /** Generic form of the end-to-end step: an envelope whose command carries
      the ids the handler was registered under reaches that handler once,
      with the envelope's payload. */
  lemma DeliversRegistered<H>(ch: MessageChannel.Channel<H>, ids: MessageChannel.Ids, h: H, id: bv32,
                              p: NetworkPacket.Packet, rest: Bytes)
    requires MessageChannel.Carries(p.command, ch.hashSize, ids)
    ensures InvokeSpan(MessageChannel.RegisterHandler(ch, ids, h), id, NetworkPacket.Serialize(p) + rest)
            == [MessageChannel.ServerInvocation(h, id, p.payload)]
  {
    NetworkPacket.RoundTrip(p, rest);
    MessageChannel.RegisterThenSelect(ch, ids, h, p.command);
  }

  /** End to end: a message serialized at the server's width, received by a
      server on which a wrapped callback is registered for its type, is
      delivered once to that callback with the sender's id and the very
      value that was sent, provided the body's codec reads back what it
      writes. */
  lemma SendThenReceive<T(!new), C>(ch: MessageChannel.Channel<HandlerWrapper.Wrapped<T, C>>,
                                    t: NetworkHash.MessageType, w: HandlerWrapper.Wrapped<T, C>, id: bv32, obj: T)
    requires NetworkSerializer.RoundTrips(w.codec)
    requires NetworkSerializer.SerializeNetworkPacket(t, ch.hashSize, w.codec, obj).Success?
    ensures var server := MessageChannel.RegisterHandler(ch, NetworkHash.GetId(t), w);
      var calls := InvokeSpan(server, id, NetworkSerializer.SerializeNetworkPacket(t, ch.hashSize, w.codec, obj).value);
      |calls| == 1 && calls[0].handler == w
      && HandlerWrapper.InvokeServer(calls[0].handler, calls[0].id, calls[0].payload)
         == [HandlerWrapper.ServerDelivery(w.callback, id, obj)]
  {
    var command := MessageChannel.CommandField(t, ch.hashSize);
    var body := w.codec.encode(obj).value;
    var p := NetworkPacket.Packet(command, Some(body));
    MessageChannel.CommandCarriesId(t, ch.hashSize);
    DeliversRegistered(ch, NetworkHash.GetId(t), w, id, p, []);
    assert NetworkPacket.Serialize(p) + [] == NetworkPacket.Serialize(p);
    HandlerWrapper.DeliversEncoded(w, id, obj);
  }
}
