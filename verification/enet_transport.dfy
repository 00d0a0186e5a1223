/** The pure helpers of the Netcode ENet transport: choosing ENet packet
    flags for a Netcode delivery mode, and translating between ENet peer
    ids and Netcode client ids. Netcode reserves client id 0 for the server,
    so a remote peer's client id is its peer id plus one, computed in `uint`
    arithmetic and then widened to `ulong`. */
module ENetTransport {
  import opened Wrappers
  import opened MemoryPackWire
  import ENetPacket

  /** Netcode's `NetworkDelivery`, an `int`-backed enum: the five named
      values are 0 to 4, and any other value is representable. */
  type Delivery = int

  const Unreliable: Delivery := 0
  const UnreliableSequenced: Delivery := 1
  const Reliable: Delivery := 2
  const ReliableSequenced: Delivery := 3
  const ReliableFragmentedSequenced: Delivery := 4

  /** `NetworkDeliveryToPacketFlag`: unreliable traffic is unsequenced,
      sequenced unreliable traffic gets no flag, the three reliable modes
      are reliable, and anything else throws. */
  function NetworkDeliveryToPacketFlag(delivery: Delivery): (r: Result<ENetPacket.PacketFlags, Exception>)
    ensures r.Success? <==> Unreliable <= delivery <= ReliableFragmentedSequenced
    ensures r.Failure? ==> r.error == ArgumentOutOfRange
    ensures r == Success(ENetPacket.Reliable) <==> Reliable <= delivery <= ReliableFragmentedSequenced
    ensures r == Success(ENetPacket.Unsequenced) <==> delivery == Unreliable
    ensures r == Success(ENetPacket.NoFlags) <==> delivery == UnreliableSequenced
  {
    if delivery == Unreliable then Success(ENetPacket.Unsequenced)
    else if delivery == UnreliableSequenced then Success(ENetPacket.NoFlags)
    else if delivery == Reliable || delivery == ReliableSequenced || delivery == ReliableFragmentedSequenced then Success(ENetPacket.Reliable)
    else Failure(ArgumentOutOfRange)
  }

  /** `GetLocalClientId(peerId, isServer)`: 0 on the server's side; for a
      remote peer `peerId + 1U`, which wraps in 32 bits before it is
      widened. */
  function GetLocalClientId(peerId: bv32, isServer: bool): (clientId: bv64)
    ensures isServer ==> clientId == 0
    ensures !isServer && peerId != 0xFFFF_FFFF ==> clientId == peerId as bv64 + 1
    ensures !isServer && peerId == 0xFFFF_FFFF ==> clientId == 0
  {
    if !isServer then (peerId + 1) as bv64 else 0
  }

  /** `GetEnetClientId(clientId, out peerId)`: client id 0 is the server's
      peer, whose id the transport stored when it connected; any other
      client id is truncated to `uint` and has one subtracted, wrapping. */
  function GetEnetClientId(serverPeerId: bv32, clientId: bv64): (peerId: bv32)
    ensures clientId == 0 ==> peerId == serverPeerId
    ensures clientId != 0 ==> (peerId as bv64 + 1) & 0xFFFF_FFFF == clientId & 0xFFFF_FFFF
  {
    if clientId == 0 then serverPeerId else ((clientId & 0xFFFF_FFFF) as bv32) - 1
  }

  /** Every remote peer id but the largest maps to a nonzero client id that
      maps back to it. */
  lemma ClientIdRoundTrip(serverPeerId: bv32, peerId: bv32)
    requires peerId != 0xFFFF_FFFF
    ensures GetLocalClientId(peerId, false) != 0
    ensures GetEnetClientId(serverPeerId, GetLocalClientId(peerId, false)) == peerId
  {
  }

  /** The largest peer id wraps to client id 0, the server's own id, so it
      maps back to the server's peer instead of to itself. */
  lemma LargestPeerIdWraps(serverPeerId: bv32)
    ensures GetLocalClientId(0xFFFF_FFFF, false) == 0
    ensures GetEnetClientId(serverPeerId, GetLocalClientId(0xFFFF_FFFF, false)) == serverPeerId
  {
  }

  /** Client ids above 32 bits lose their high half: one whose low 32 bits
      are nonzero names the same peer as those low 32 bits. */
  lemma HighBitsIgnored(serverPeerId: bv32, clientId: bv64)
    requires clientId & 0xFFFF_FFFF != 0
    ensures GetEnetClientId(serverPeerId, clientId) == GetEnetClientId(serverPeerId, clientId & 0xFFFF_FFFF)
  {
  }
}
