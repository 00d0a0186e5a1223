/** The envelope of every typed message: a command (the serialized id of the
    message type) and a payload (the serialized message body). Either field
    may be null. It is written as a two-member object: header 2, then the
    command array, then the payload array. */
module NetworkPacket {
  import opened Wrappers
  import opened LittleEndian
  import opened MemoryPackWire

  datatype Packet = Packet(command: Option<ByteArray>, payload: Option<ByteArray>)

  /** `new NetworkPacket()`: both fields null. */
  const Default: Packet := Packet(None, None)

  /** The number of members the writer announces. */
  const MemberCount: bv8 := 2

  /** `NetworkPacket.Serialize`: header 2, the command, then the payload. */
  function Serialize(p: Packet): (s: Bytes)
    ensures |s| == 1 + |WriteArray(p.command)| + |WriteArray(p.payload)|
    ensures s[0] == MemberCount
  {
    WriteObjectHeader(MemberCount) + WriteArray(p.command) + WriteArray(p.payload)
  }

  /** `NetworkPacket.Deserialize`: a null header gives the default packet,
      any other header is followed by its members. */
  function Deserialize(s: Bytes): (r: Result<Read<Packet>, Exception>)
    ensures |s| == 0 ==> r == Failure(InsufficientBuffer)
    ensures |s| > 0 && (s[0] == NullObject || s[0] == 0) ==> r == Success(Read(Default, s[1..]))
    ensures |s| > 0 && MemberCount < s[0] < NullObject ==> r == Failure(InvalidPropertyCount(2, s[0] as nat))
    ensures r.Success? ==> |r.value.rest| < |s| && r.value.rest == s[|s| - |r.value.rest|..]
  {
    var header :- ReadObjectHeader(s);
    match header.value
    case None => Success(Read(Default, header.rest))
    case Some(count) => ReadMembers(count, header.rest)
  }

  /** The members after a header announcing `count` of them: count 2 reads
      both fields; a count above 2 throws; count 0 leaves both fields null;
      count 1 reads the command and leaves the payload null. */
  function ReadMembers(count: nat, s: Bytes): (r: Result<Read<Packet>, Exception>)
    ensures count == 0 ==> r == Success(Read(Default, s))
    ensures count > 2 ==> r == Failure(InvalidPropertyCount(2, count))
    ensures r.Success? ==> |r.value.rest| <= |s| && r.value.rest == s[|s| - |r.value.rest|..]
  {
    if count == 2 then
      var command :- ReadArray(s);
      var payload :- ReadArray(command.rest);
      Success(Read(Packet(command.value, payload.value), payload.rest))
    else if count > 2 then Failure(InvalidPropertyCount(2, count))
    else if count == 0 then Success(Read(Default, s))
    else
      var command :- ReadArray(s);
      Success(Read(Packet(command.value, None), command.rest))
  }

  /** Deserializing a serialized packet gives the packet back, null fields
      included, and leaves whatever followed it. */
  lemma RoundTrip(p: Packet, rest: Bytes)
    ensures Deserialize(Serialize(p) + rest) == Success(Read(p, rest))
  {
    var w1 := WriteArray(p.command);
    var w2 := WriteArray(p.payload);
    AfterHeader3(MemberCount, w1, w2, rest);
    ReadArrayRoundTrip(p.command, w2 + rest);
    ReadArrayRoundTrip(p.payload, rest);
  }

  /** An envelope with only its first member (count 1) reads its command and
      leaves the payload null. */
  lemma CommandOnly(command: Option<ByteArray>, rest: Bytes)
    ensures Deserialize([1] + WriteArray(command) + rest) == Success(Read(Packet(command, None), rest))
  {
    var s := [1] + WriteArray(command) + rest;
    AfterHeader(1, WriteArray(command), rest);
    assert ReadObjectHeader(s) == Success(Read(Some(1), WriteArray(command) + rest));
    ReadArrayRoundTrip(command, rest);
  }

  /** A serialized packet cut short anywhere fails to deserialize: no
      partial or garbled packet comes out. */
  lemma Truncated(p: Packet, k: nat)
    requires k < |Serialize(p)|
    ensures Deserialize(Serialize(p)[..k]).Failure?
  {
    if k > 0 {
      PairTruncated(p.command, p.payload, k - 1);
      CutAfterHeader(WriteArray(p.command), WriteArray(p.payload), k);
    }
  }

  /** With header 2, a cut that fails one of the two field reads fails the
      packet, whatever the fields are. */
  lemma CutAfterHeader(w1: Bytes, w2: Bytes, k: nat)
    requires 0 < k <= 1 + |w1| + |w2|
    requires PairFails((w1 + w2)[..k - 1])
    ensures Deserialize(([MemberCount] + w1 + w2)[..k]).Failure?
  {
    var s := ([MemberCount] + w1 + w2)[..k];
    assert s[1..] == (w1 + w2)[..k - 1];
    assert ReadObjectHeader(s) == Success(Read(Some(2), s[1..]));
  }
}
