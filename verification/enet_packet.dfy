/** The ENet packet the serializer hands to the transport, reduced to what
    this layer decides: the bytes it carries and the flags it is created
    with. Creating it, sending it and freeing it belong to the ENet library,
    which this model treats as a collaborator. */
module ENetPacket {
  import opened LittleEndian

  /** The packet flags this layer chooses between. */
  datatype PacketFlags = NoFlags | Reliable | Unsequenced

  datatype Packet = Packet(data: Bytes, flags: PacketFlags)
}
