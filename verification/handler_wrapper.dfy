/** The handler wrappers: a typed callback (`Action<uint, T>` on the server,
    `Action<T>` on the client) wrapped into the untyped handler the channel
    stores, which takes the raw payload, deserializes a `T` from it and
    calls the callback only when that succeeds.

    The callback itself is user code, so it is an opaque token `C`; calling
    it is recorded as a `Delivery` rather than performed. */
module HandlerWrapper {
  import opened Wrappers
  import opened LittleEndian
  import opened MemoryPackWire
  import NetworkSerializer

  /** `WrapHandler<T>(handler)`: the callback and the body's codec. */
  datatype Wrapped<!T, C> = Wrapped(callback: C, codec: NetworkSerializer.Codec<T>)

  /** A server callback call: the callback, the sender and the value. */
  datatype ServerDelivery<T, C> = ServerDelivery(callback: C, id: bv32, value: T)

  /** A client callback call: the callback and the value. */
  datatype ClientDelivery<T, C> = ClientDelivery(callback: C, value: T)

  /** The server wrapper called with a sender and a payload: the callback
      runs once with the decoded value, or not at all when decoding fails. */
  function InvokeServer<T, C>(w: Wrapped<T, C>, id: bv32, bytes: Option<ByteArray>): (calls: seq<ServerDelivery<T, C>>)
    ensures |calls| <= 1
    ensures |calls| == 1 <==> w.codec.decode(NetworkSerializer.AsSpan(bytes)).Success?
    ensures |calls| == 1 ==> calls[0] == ServerDelivery(w.callback, id, w.codec.decode(NetworkSerializer.AsSpan(bytes)).value)
  {
    var r := NetworkSerializer.Deserialize(w.codec, bytes);
    if r.ok then [ServerDelivery(w.callback, id, r.value)] else []
  }

  /** The client wrapper called with a payload: as on the server, without a
      sender. */
  function InvokeClient<T, C>(w: Wrapped<T, C>, bytes: Option<ByteArray>): (calls: seq<ClientDelivery<T, C>>)
    ensures |calls| <= 1
    ensures |calls| == 1 <==> w.codec.decode(NetworkSerializer.AsSpan(bytes)).Success?
    ensures |calls| == 1 ==> calls[0] == ClientDelivery(w.callback, w.codec.decode(NetworkSerializer.AsSpan(bytes)).value)
  {
    var r := NetworkSerializer.Deserialize(w.codec, bytes);
    if r.ok then [ClientDelivery(w.callback, r.value)] else []
  }

  /** A payload the codec wrote reaches the callback as the very value that
      was written, on both sides, provided the codec reads back what it
      writes. */
  lemma DeliversEncoded<T(!new), C>(w: Wrapped<T, C>, id: bv32, obj: T)
    requires NetworkSerializer.RoundTrips(w.codec)
    requires w.codec.encode(obj).Success?
    ensures InvokeServer(w, id, Some(w.codec.encode(obj).value)) == [ServerDelivery(w.callback, id, obj)]
    ensures InvokeClient(w, Some(w.codec.encode(obj).value)) == [ClientDelivery(w.callback, obj)]
  {
    NetworkSerializer.TryRoundTrip(w.codec, obj);
  }

  /** The server and client wrappers decide alike: the server delivers to
      exactly the callback and value the client would, plus the sender. */
  lemma ServerMatchesClient<T, C>(w: Wrapped<T, C>, id: bv32, bytes: Option<ByteArray>)
    ensures |InvokeServer(w, id, bytes)| == |InvokeClient(w, bytes)|
    ensures forall i :: 0 <= i < |InvokeServer(w, id, bytes)| ==>
      InvokeServer(w, id, bytes)[i] == ServerDelivery(InvokeClient(w, bytes)[i].callback, id, InvokeClient(w, bytes)[i].value)
  {
  }
}
