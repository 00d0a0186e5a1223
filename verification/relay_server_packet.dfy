/** The relay server's packet: a payload that may be null, written as a
    one-member object: header 1, then the payload array. */
module RelayServerPacket {
  import opened Wrappers
  import opened LittleEndian
  import opened MemoryPackWire

  datatype Packet = Packet(payload: Option<ByteArray>)

  /** `new RelayServerPacket()`: a null payload. */
  const Default: Packet := Packet(None)

  const MemberCount: bv8 := 1

  /** `RelayServerPacket.Serialize`: header 1, then the payload. */
  function Serialize(p: Packet): (s: Bytes)
    ensures |s| == 1 + |WriteArray(p.payload)|
    ensures s[0] == MemberCount
  {
    WriteObjectHeader(MemberCount) + WriteArray(p.payload)
  }

  /** `RelayServerPacket.Deserialize`: a null header gives the default
      packet; count 1 reads the payload; a count above 1 throws; count 0
      leaves the payload null. */
  function Deserialize(s: Bytes): (r: Result<Read<Packet>, Exception>)
    ensures |s| == 0 ==> r == Failure(InsufficientBuffer)
    ensures |s| > 0 && (s[0] == NullObject || s[0] == 0) ==> r == Success(Read(Default, s[1..]))
    ensures |s| > 0 && MemberCount < s[0] < NullObject ==> r == Failure(InvalidPropertyCount(1, s[0] as nat))
    ensures r.Success? ==> |r.value.rest| < |s| && r.value.rest == s[|s| - |r.value.rest|..]
  {
    var header :- ReadObjectHeader(s);
    match header.value
    case None => Success(Read(Default, header.rest))
    case Some(count) =>
      if count == 1 then
        var payload :- ReadArray(header.rest);
        Success(Read(Packet(payload.value), payload.rest))
      else if count > 1 then Failure(InvalidPropertyCount(1, count))
      else Success(Read(Default, header.rest))
  }

  /** Deserializing a serialized packet gives the payload back, and leaves
      whatever followed it. */
  lemma RoundTrip(p: Packet, rest: Bytes)
    ensures Deserialize(Serialize(p) + rest) == Success(Read(p, rest))
  {
    ReadArrayRoundTrip(p.payload, rest);
    ReadAfterHeader(WriteArray(p.payload), rest, p.payload);
  }

  /** With header 1, the packet holds whatever the payload read gives. */
  lemma ReadAfterHeader(w: Bytes, rest: Bytes, a: Option<ByteArray>)
    requires ReadArray(w + rest) == Success(Read(a, rest))
    ensures Deserialize([MemberCount] + w + rest) == Success(Read(Packet(a), rest))
  {
    var s := [MemberCount] + w + rest;
    AfterHeader(MemberCount, w, rest);
    assert ReadObjectHeader(s) == Success(Read(Some(1), w + rest));
  }

  /** A serialized packet cut short anywhere fails to deserialize. */
  lemma Truncated(p: Packet, k: nat)
    requires k < |Serialize(p)|
    ensures Deserialize(Serialize(p)[..k]).Failure?
  {
    if k > 0 {
      ReadArrayTruncated(p.payload, k - 1);
      CutAfterHeader(WriteArray(p.payload), k);
    }
  }

  /** With header 1, a cut that fails the payload read fails the packet. */
  lemma CutAfterHeader(w: Bytes, k: nat)
    requires 0 < k <= 1 + |w|
    requires ReadArray(w[..k - 1]).Failure?
    ensures Deserialize(([MemberCount] + w)[..k]).Failure?
  {
    var s := ([MemberCount] + w)[..k];
    PrefixAfterHeader(MemberCount, w, k);
    assert ReadObjectHeader(s) == Success(Read(Some(1), w[..k - 1]));
  }
}
