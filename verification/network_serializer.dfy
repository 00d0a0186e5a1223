/** The serializer facade: building the envelope of a typed message, reading
    an envelope back from any of the three buffer shapes, and the try-style
    wrappers that turn a thrown serializer failure into a `false` return.

    A message body's own MemoryPack formatter is a collaborator: it is passed
    in as a `Codec`, whose `encode` may fail (a throw) and whose `decode`
    reads a value or fails. */
module NetworkSerializer {
  import opened Wrappers
  import opened LittleEndian
  import opened MemoryPackWire
  import opened RpcHashSize
  import NetworkHash
  import NetworkPacket
  import ENetPacket

  /** What a `bool Try…(…, out value)` call hands back. */
  datatype Try<T> = Try(ok: bool, value: T)

  /** A message type's MemoryPack serializer and its `default(T)`. */
  datatype Codec<!T> = Codec(encode: T -> Result<ByteArray, Exception>, decode: Bytes -> Result<T, Exception>, default: T)

  /** The codec reads back every value it manages to write. */
  ghost predicate RoundTrips<T(!new)>(c: Codec<T>) {
    forall x: T :: c.encode(x).Success? ==> c.decode(c.encode(x).value) == Success(x)
  }

  /** An `ArraySegment<byte>`: a window of `count` bytes at `offset` into a
      non-null array `bytes`, which the segment's constructor checks to fit. */
  datatype ArraySegment = ArraySegment(bytes: Bytes, offset: nat, count: nat)

  type Segment = g: ArraySegment | (g.offset + g.count <= |g.bytes|) witness ArraySegment([], 0, 0)

  /** The bytes a segment views. */
  function Content(g: Segment): (s: Bytes)
    ensures |s| == g.count
  {
    g.bytes[g.offset..g.offset + g.count]
  }

  /** A `byte[]` read as a span: a null array reads as no bytes at all. */
  function AsSpan(a: Option<Bytes>): Bytes {
    match a
    case None => []
    case Some(b) => b
  }

  /** `DeserializeNetworkPacket(Span<byte>, out packet)`: the decoded
      envelope and `true`, or the default envelope and `false` when the
      decoder throws. */
  function DeserializeNetworkPacket(s: Bytes): (r: Try<NetworkPacket.Packet>)
    ensures r.ok <==> NetworkPacket.Deserialize(s).Success?
    ensures r.ok ==> r.value == NetworkPacket.Deserialize(s).value.value
    ensures !r.ok ==> r.value == NetworkPacket.Default
  {
    match NetworkPacket.Deserialize(s)
    case Success(read) => Try(true, read.value)
    case Failure(_) => Try(false, NetworkPacket.Default)
  }

  /** `DeserializeNetworkPacket(byte[], out packet)`. */
  function DeserializeNetworkPacketArray(payload: Option<Bytes>): Try<NetworkPacket.Packet> {
    DeserializeNetworkPacket(AsSpan(payload))
  }

  /** `DeserializeNetworkPacket(ArraySegment<byte>, out packet)`. */
  function DeserializeNetworkPacketSegment(payload: Segment): Try<NetworkPacket.Packet> {
    DeserializeNetworkPacket(Content(payload))
  }

  /** The array, span and segment overloads agree whenever they see the same
      bytes, and a null array reads like an empty one. */
  lemma OverloadsAgree(bytes: Bytes, segment: Segment)
    requires Content(segment) == bytes
    ensures DeserializeNetworkPacketArray(Some(bytes)) == DeserializeNetworkPacket(bytes)
    ensures DeserializeNetworkPacketSegment(segment) == DeserializeNetworkPacket(bytes)
    ensures DeserializeNetworkPacketArray(None) == DeserializeNetworkPacket([]) == Try(false, NetworkPacket.Default)
  {
  }

  /** A serialized envelope, with anything after it, reads back as `true`
      and the same envelope. */
  lemma DecodesSerialized(p: NetworkPacket.Packet, rest: Bytes)
    ensures DeserializeNetworkPacket(NetworkPacket.Serialize(p) + rest) == Try(true, p)
  {
    NetworkPacket.RoundTrip(p, rest);
  }

  /** A serialized envelope cut short reads back as `false` and the default
      envelope: no exception escapes and no partial envelope comes out. */
  lemma RejectsTruncated(p: NetworkPacket.Packet, k: nat)
    requires k < |NetworkPacket.Serialize(p)|
    ensures DeserializeNetworkPacket(NetworkPacket.Serialize(p)[..k]) == Try(false, NetworkPacket.Default)
  {
    NetworkPacket.Truncated(p, k);
  }

  /** `Serialize<T>(obj, out bytes)`: the bytes and `true`, or a null array
      and `false` when the serializer throws. */
  function Serialize<T>(c: Codec<T>, obj: T): (r: Try<Option<ByteArray>>)
    ensures r.ok <==> c.encode(obj).Success?
    ensures r.ok ==> r.value == Some(c.encode(obj).value)
    ensures !r.ok ==> r.value == None
  {
    match c.encode(obj)
    case Success(bytes) => Try(true, Some(bytes))
    case Failure(_) => Try(false, None)
  }

  /** `Deserialize<T>(bytes, out result)`: the value and `true`, or
      `default(T)` and `false` when the deserializer throws. */
  function Deserialize<T>(c: Codec<T>, bytes: Option<Bytes>): (r: Try<T>)
    ensures r.ok <==> c.decode(AsSpan(bytes)).Success?
    ensures r.ok ==> r.value == c.decode(AsSpan(bytes)).value
    ensures !r.ok ==> r.value == c.default
  {
    match c.decode(AsSpan(bytes))
    case Success(v) => Try(true, v)
    case Failure(_) => Try(false, c.default)
  }

  /** The two try-style wrappers undo each other for any codec that reads
      back what it writes. */
  lemma TryRoundTrip<T(!new)>(c: Codec<T>, obj: T)
    requires RoundTrips(c)
    ensures Serialize(c, obj).ok ==> Deserialize(c, Serialize(c, obj).value) == Try(true, obj)
  {
  }

  /** `SerializeNetworkPacket<T>(hashSize, obj)`: the envelope holding the
      type's command at the width and the serialized body. The command is
      computed first, so an unnamed width throws before the body is
      serialized. */
  function SerializeNetworkPacket<T>(t: NetworkHash.MessageType, w: HashSize, c: Codec<T>, obj: T): (r: Result<Bytes, Exception>)
    ensures r.Success? <==> IsNamed(w) && c.encode(obj).Success?
    ensures !IsNamed(w) ==> r == Failure(ArgumentOutOfRange)
  {
    var command :- NetworkHash.GetCommand(t, w);
    var value :- c.encode(obj);
    var commandArray: ByteArray := command;
    Success(NetworkPacket.Serialize(NetworkPacket.Packet(Some(commandArray), Some(value))))
  }

  /** What a successfully serialized message reads back as: an envelope
      whose command is the type's command at the width, which in turn reads
      back as the type's id at that width, and whose payload is the
      serialized body. */
  lemma MessageRoundTrip<T>(t: NetworkHash.MessageType, w: HashSize, c: Codec<T>, obj: T)
    requires SerializeNetworkPacket(t, w, c, obj).Success?
    ensures var r := DeserializeNetworkPacket(SerializeNetworkPacket(t, w, c, obj).value);
      r.ok && r.value.command == Some(NetworkHash.GetCommand(t, w).value) && r.value.payload == Some(c.encode(obj).value)
    ensures NetworkHash.CommandId(NetworkHash.GetCommand(t, w).value, w)
            == Some(if w == VarIntFourBytes then NetworkHash.Id32(t) as bv64 else NetworkHash.Id64(t))
  {
    var command: ByteArray := NetworkHash.GetCommand(t, w).value;
    var p := NetworkPacket.Packet(Some(command), Some(c.encode(obj).value));
    DecodesSerialized(p, []);
    assert NetworkPacket.Serialize(p) + [] == NetworkPacket.Serialize(p);
    NetworkHash.CommandRoundTrip(t, w);
  }

  /** `CreatePacket(byte[] payload, flags)` and its segment form: an ENet
      packet carrying exactly the given bytes. */
  function CreatePacketWithFlags(payload: Bytes, flags: ENetPacket.PacketFlags): ENetPacket.Packet {
    ENetPacket.Packet(payload, flags)
  }

  /** `CreatePacket(byte[] payload)`: reliable unless told otherwise. */
  function CreatePacket(payload: Bytes): ENetPacket.Packet {
    CreatePacketWithFlags(payload, ENetPacket.Reliable)
  }

  /** `CreatePacket(ArraySegment<byte>, flags)`: the bytes the segment views. */
  function CreateSegmentPacket(payload: Segment, flags: ENetPacket.PacketFlags): ENetPacket.Packet {
    CreatePacketWithFlags(Content(payload), flags)
  }

  /** `CreatePacket<T>(hashSize, obj, flags)`: an ENet packet carrying the
      serialized message, or the serializer's failure. */
  function CreateMessagePacket<T>(t: NetworkHash.MessageType, w: HashSize, c: Codec<T>, obj: T, flags: ENetPacket.PacketFlags)
    : (r: Result<ENetPacket.Packet, Exception>)
    ensures r.Success? <==> SerializeNetworkPacket(t, w, c, obj).Success?
    ensures r.Success? ==> r.value.flags == flags
    ensures r.Success? ==> r.value.data == SerializeNetworkPacket(t, w, c, obj).value
  {
    var payload :- SerializeNetworkPacket(t, w, c, obj);
    Success(CreatePacketWithFlags(payload, flags))
  }

  /** The packet overloads without flags are reliable, and a segment packet
      carries what an array packet of the segment's bytes carries. */
  lemma DefaultFlags(payload: Bytes, segment: Segment)
    requires Content(segment) == payload
    ensures CreatePacket(payload).flags == ENetPacket.Reliable && CreatePacket(payload).data == payload
    ensures CreateSegmentPacket(segment, ENetPacket.Reliable) == CreatePacket(payload)
  {
  }

  /** A message packet carries exactly the bytes `SerializeNetworkPacket`
      produces, so its receiver reads back the command and the body. */
  lemma MessagePacketDecodes<T>(t: NetworkHash.MessageType, w: HashSize, c: Codec<T>, obj: T, flags: ENetPacket.PacketFlags)
    requires CreateMessagePacket(t, w, c, obj, flags).Success?
    ensures CreateMessagePacket(t, w, c, obj, flags).value.data == SerializeNetworkPacket(t, w, c, obj).value
    ensures var r := DeserializeNetworkPacket(CreateMessagePacket(t, w, c, obj, flags).value.data);
      r.ok && r.value.command == Some(NetworkHash.GetCommand(t, w).value) && r.value.payload == Some(c.encode(obj).value)
  {
    MessageRoundTrip(t, w, c, obj);
  }
}
