/** The relay's room-addressed packet: a room id and a payload that may be
    null. It is written as a two-member object: header 2 with the room id
    right after it, then the payload array. */
module RelayPacket {
  import opened Wrappers
  import opened LittleEndian
  import opened MemoryPackWire

  datatype Packet = Packet(roomId: bv32, payload: Option<ByteArray>)

  /** `new RelayPacket()`: room 0 and a null payload. */
  const Default: Packet := Packet(0, None)

  const MemberCount: bv8 := 2

  /** `RelayPacket.Serialize`: header 2 and the room id, then the payload. */
  function Serialize(p: Packet): (s: Bytes)
    ensures |s| == 5 + |WriteArray(p.payload)|
    ensures s[0] == MemberCount
  {
    WriteObjectHeader(MemberCount) + U32Bytes(p.roomId) + WriteArray(p.payload)
  }

  /** `RelayPacket.Deserialize`: a null header gives the default packet;
      count 2 reads both fields; a count above 2 throws; count 0 gives room 0
      and a null payload; count 1 reads the room id and leaves the payload
      null. */
  function Deserialize(s: Bytes): (r: Result<Read<Packet>, Exception>)
    ensures |s| == 0 ==> r == Failure(InsufficientBuffer)
    ensures |s| > 0 && (s[0] == NullObject || s[0] == 0) ==> r == Success(Read(Default, s[1..]))
    ensures |s| > 0 && MemberCount < s[0] < NullObject ==> r == Failure(InvalidPropertyCount(2, s[0] as nat))
    ensures r.Success? ==> |r.value.rest| < |s| && r.value.rest == s[|s| - |r.value.rest|..]
  {
    var header :- ReadObjectHeader(s);
    match header.value
    case None => Success(Read(Default, header.rest))
    case Some(count) =>
      if count == 2 then
        var roomId :- ReadU32(header.rest);
        var payload :- ReadArray(roomId.rest);
        Success(Read(Packet(roomId.value, payload.value), payload.rest))
      else if count > 2 then Failure(InvalidPropertyCount(2, count))
      else if count == 0 then Success(Read(Default, header.rest))
      else
        var roomId :- ReadU32(header.rest);
        Success(Read(Packet(roomId.value, None), roomId.rest))
  }

  /** Deserializing a serialized packet gives the room id and the payload
      back, and leaves whatever followed it. */
  lemma RoundTrip(p: Packet, rest: Bytes)
    ensures Deserialize(Serialize(p) + rest) == Success(Read(p, rest))
  {
    ReadArrayRoundTrip(p.payload, rest);
    ReadFields(p.roomId, WriteArray(p.payload), rest, p.payload);
  }

  /** With header 2, the packet holds the room id written after the header
      and whatever the payload read gives. */
  lemma ReadFields(roomId: bv32, w: Bytes, rest: Bytes, a: Option<ByteArray>)
    requires ReadArray(w + rest) == Success(Read(a, rest))
    ensures Deserialize([MemberCount] + U32Bytes(roomId) + w + rest) == Success(Read(Packet(roomId, a), rest))
  {
    var s := [MemberCount] + U32Bytes(roomId) + w + rest;
    AfterHeader3(MemberCount, U32Bytes(roomId), w, rest);
    assert ReadObjectHeader(s) == Success(Read(Some(2), U32Bytes(roomId) + (w + rest)));
    ReadU32RoundTrip(roomId, w + rest);
  }

  /** A packet with only its first member (count 1) reads the room id and
      leaves the payload null. */
  lemma RoomOnly(roomId: bv32, rest: Bytes)
    ensures Deserialize([1] + U32Bytes(roomId) + rest) == Success(Read(Packet(roomId, None), rest))
  {
    var s := [1] + U32Bytes(roomId) + rest;
    AfterHeader(1, U32Bytes(roomId), rest);
    assert ReadObjectHeader(s) == Success(Read(Some(1), U32Bytes(roomId) + rest));
    ReadU32RoundTrip(roomId, rest);
  }

  /** A serialized packet cut short anywhere fails to deserialize. */
  lemma Truncated(p: Packet, k: nat)
    requires k < |Serialize(p)|
    ensures Deserialize(Serialize(p)[..k]).Failure?
  {
    if 0 < k < 5 {
      CutInRoom(p.roomId, WriteArray(p.payload), k);
    } else if k >= 5 {
      ReadArrayTruncated(p.payload, k - 5);
      CutInPayload(p.roomId, WriteArray(p.payload), k);
    }
  }

  /** A cut inside the room id leaves too few bytes for it. */
  lemma CutInRoom(roomId: bv32, w: Bytes, k: nat)
    requires 0 < k < 5
    ensures Deserialize(([MemberCount] + U32Bytes(roomId) + w)[..k]).Failure?
  {
    var s := ([MemberCount] + U32Bytes(roomId) + w)[..k];
    assert ReadObjectHeader(s) == Success(Read(Some(2), s[1..]));
    assert |s[1..]| < 4;
  }

  /** A cut that fails the payload read fails the packet. */
  lemma CutInPayload(roomId: bv32, w: Bytes, k: nat)
    requires 5 <= k <= 5 + |w|
    requires ReadArray(w[..k - 5]).Failure?
    ensures Deserialize(([MemberCount] + U32Bytes(roomId) + w)[..k]).Failure?
  {
    var s := ([MemberCount] + U32Bytes(roomId) + w)[..k];
    assert s[1..] == U32Bytes(roomId) + w[..k - 5];
    assert ReadObjectHeader(s) == Success(Read(Some(2), U32Bytes(roomId) + w[..k - 5]));
    ReadU32RoundTrip(roomId, w[..k - 5]);
  }
}
