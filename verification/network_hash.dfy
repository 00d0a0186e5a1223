/** Message-type identities and commands. A message type is known to the
    hashes by the bytes its full name serializes to; its 32- and 64-bit ids
    are the seed-0 XXH32 and XXH64 of those bytes, and its command is the id
    serialized at the configured width. */
module NetworkHash {
  import opened Wrappers
  import opened LittleEndian
  import opened RpcHashSize
  import opened MemoryPackWire
  import NetworkHashUint
  import NetworkHashUlong

  /** A message type, identified by the serialized bytes of its full name. */
  datatype MessageType = MessageType(nameBytes: Bytes)

  /** `GetId32<T>`: the cached 32-bit id of the type. */
  function Id32(t: MessageType): bv32 {
    NetworkHashUint.HashBytes(t.nameBytes)
  }

  /** `GetId64<T>`: the cached 64-bit id of the type. */
  function Id64(t: MessageType): bv64 {
    NetworkHashUlong.HashBytes(t.nameBytes)
  }

  /** `GetId<T>`: both ids of the same type. */
  function GetId(t: MessageType): (ids: (bv32, bv64))
    ensures ids.0 == NetworkHashUint.Hash32(t.nameBytes, 0)
    ensures ids.1 == NetworkHashUlong.Hash64(t.nameBytes, 0)
  {
    (Id32(t), Id64(t))
  }

  /** `GetCommand32<T>`: the serialized 32-bit id, which the 32-bit command
      reader turns back into the id. */
  function GetCommand32(t: MessageType): (c: Bytes)
    ensures |c| == 4 && DeserializeU32(c) == Success(Id32(t))
  {
    Command32(Id32(t))
  }

  /** `GetCommand64<T>`: the serialized 64-bit id, which the 64-bit command
      reader turns back into the id. */
  function GetCommand64(t: MessageType): (c: Bytes)
    ensures |c| == 8 && DeserializeU64(c) == Success(Id64(t))
  {
    Command64(Id64(t))
  }

  /** `MemoryPackSerializer.Serialize(uint)`: four bytes that read back as
      the id. */
  function Command32(id: bv32): (c: Bytes)
    ensures |c| == 4 && DeserializeU32(c) == Success(id)
  {
    U32RoundTrip([], id, []);
    assert [] + U32Bytes(id) + [] == U32Bytes(id);
    U32Bytes(id)
  }

  /** `MemoryPackSerializer.Serialize(ulong)`: eight bytes that read back as
      the id. */
  function Command64(id: bv64): (c: Bytes)
    ensures |c| == 8 && DeserializeU64(c) == Success(id)
  {
    U64RoundTrip([], id, []);
    assert [] + U64Bytes(id) + [] == U64Bytes(id);
    U64Bytes(id)
  }

  /** `GetCommand<T>(hashSize)`: the command at the named width; any other
      width throws `ArgumentOutOfRangeException`. */
  function GetCommand(t: MessageType, w: HashSize): (r: Result<Bytes, Exception>)
    ensures r.Success? <==> IsNamed(w)
    ensures !IsNamed(w) ==> r == Failure(ArgumentOutOfRange)
    ensures w == VarIntFourBytes ==> r == Success(GetCommand32(t))
    ensures w == VarIntEightBytes ==> r == Success(GetCommand64(t))
  {
    if w == VarIntFourBytes then Success(GetCommand32(t))
    else if w == VarIntEightBytes then Success(GetCommand64(t))
    else Failure(ArgumentOutOfRange)
  }

  /** The id a command carries when it is read back at width `w`: the 32-bit
      reader at four bytes, the 64-bit reader at eight, nothing otherwise. */
  function CommandId(command: Bytes, w: HashSize): Option<bv64> {
    if w == VarIntFourBytes then
      match DeserializeU32(command)
      case Success(id) => Some(id as bv64)
      case Failure(_) => None
    else if w == VarIntEightBytes then
      match DeserializeU64(command)
      case Success(id) => Some(id)
      case Failure(_) => None
    else None
  }

  /** A command produced at a width reads back, at that width, as the id of
      the same width. */
  lemma CommandRoundTrip(t: MessageType, w: HashSize)
    requires IsNamed(w)
    ensures CommandId(GetCommand(t, w).value, w)
            == Some(if w == VarIntFourBytes then Id32(t) as bv64 else Id64(t))
  {
  }
}
