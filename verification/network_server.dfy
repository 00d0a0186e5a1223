/** The server's connection table and what it does with it: starting and
    disposing, disconnecting a client, reading a client's round-trip time,
    sending to one client, choosing the recipients of a broadcast, and the
    transitions the poll loop makes on ENet's connection events.

    ENet itself (the host, its peers, packet creation and transmission) is
    a collaborator: a peer is its id and its round-trip time, and what the
    server asks of ENet or of user code is returned as a trace of
    `Effect`s rather than performed. */
module NetworkServer {
  import opened Wrappers
  import opened LittleEndian
  import opened MemoryPackWire
  import opened RpcHashSize
  import NetworkHash
  import NetworkSerializer
  import ENetPacket
  import MessageChannel
  import NetworkServerMessage

  type Key = MessageChannel.Key<bv32>

  /** An ENet peer: its `ID` and its `RoundTripTime`. */
  datatype Peer = Peer(id: bv32, rtt: bv32)

  /** The receive buffer's size, `NetworkServer.BufferSize`. */
  const BufferSize: nat := 16384

  /** The server's receive buffer, allocated once at its full size. */
  type Buffer = b: Bytes | |b| == BufferSize witness seq(BufferSize, _ => 0 as bv8)

  datatype Server<H> = Server(
    listening: bool,                 // `IsListening`
    hostSet: bool,                   // `_serverPeer.IsSet`
    connections: map<Key, Peer>,     // `_connections`
    channel: MessageChannel.Channel<H>,
    buffer: Buffer)

  /** What the server asks of ENet and of user code, in order. */
  datatype Effect<H> =
    | OnConnected(id: bv32)                              // `OnConnectedCallback`
    | OnDisconnected(id: bv32)                           // `OnDisconnectedCallback`
    | Invoked(call: MessageChannel.ServerInvocation<H>)  // a message handler call
    | DisconnectNow(peer: Peer)                          // `peer.DisconnectNow(0)`

  /** Every entry of the table is stored under its own peer's id. */
  ghost predicate WellKeyed<H>(s: Server<H>) {
    forall k :: k in s.connections ==> s.connections[k].id == k.id
  }

  /** A server before `Start`. */
  function New<H>(buffer: Buffer): (s: Server<H>)
    ensures !s.listening && !s.hostSet && |s.connections| == 0
    ensures s.channel == MessageChannel.New()
    ensures WellKeyed(s)
  {
    Server(false, false, map[], MessageChannel.New(), buffer)
  }

  /** `Start(port, maxClients)`: a listening server is left as it is;
      otherwise the host is created and the server listens. The table and
      the channel are untouched either way. */
  function Start<H>(s: Server<H>): (r: Server<H>)
    ensures r.listening
    ensures s.listening ==> r == s
    ensures !s.listening ==> r.hostSet
    ensures r.connections == s.connections && r.channel == s.channel && r.buffer == s.buffer
    ensures WellKeyed(s) ==> WellKeyed(r)
  {
    if s.listening then s else s.(listening := true, hostSet := true)
  }

  /** `Dispose()`: the server stops listening; if the host exists, every
      connected peer is disconnected at once (without the disconnect
      callback), the table is emptied and the host is released. */
  function Dispose<H>(s: Server<H>): (r: (Server<H>, set<Peer>))
    ensures !r.0.listening && !r.0.hostSet && r.0.channel == s.channel && r.0.buffer == s.buffer
    ensures s.hostSet ==> |r.0.connections| == 0 && r.1 == s.connections.Values
    ensures !s.hostSet ==> r.0.connections == s.connections && r.1 == {}
    ensures WellKeyed(s) ==> WellKeyed(r.0)
  {
    if s.hostSet then (s.(listening := false, hostSet := false, connections := map[]), s.connections.Values)
    else (s.(listening := false), {})
  }

  /** `Disconnect(id)`: an unknown id does nothing at all; a known one is
      disconnected at once, removed from the table, and reported to the
      disconnect callback. */
  function Disconnect<H>(s: Server<H>, id: bv32): (r: (Server<H>, seq<Effect<H>>))
    ensures MessageChannel.Key(id) !in s.connections ==> r == (s, [])
    ensures MessageChannel.Key(id) in s.connections ==>
      r.0.connections == s.connections - {MessageChannel.Key(id)}
      && r.1 == [DisconnectNow(s.connections[MessageChannel.Key(id)]), OnDisconnected(id)]
    ensures r.0 == s.(connections := r.0.connections)
    ensures WellKeyed(s) ==> WellKeyed(r.0)
  {
    var k := MessageChannel.Key(id);
    if k !in s.connections then (s, [])
    else (s.(connections := s.connections - {k}), [DisconnectNow(s.connections[k]), OnDisconnected(id)])
  }

  /** `GetCurrentRtt(clientId)`: the peer's round-trip time widened to
      `ulong`, or 0 for an id that is not connected. */
  function GetCurrentRtt<H>(s: Server<H>, id: bv32): (rtt: bv64)
    ensures MessageChannel.Key(id) !in s.connections ==> rtt == 0
    ensures MessageChannel.Key(id) in s.connections ==> rtt < 0x1_0000_0000 && rtt as bv32 == s.connections[MessageChannel.Key(id)].rtt
  {
    var k := MessageChannel.Key(id);
    if k in s.connections then s.connections[k].rtt as bv64 else 0
  }

  /** `Send<T>(id, obj)`: nothing, and no serialization, for an id that is
      not connected; otherwise the connected peer and the reliable packet
      holding the message serialized at the channel's width, or the
      serializer's failure. */
  function Send<H, T>(s: Server<H>, id: bv32, t: NetworkHash.MessageType, c: NetworkSerializer.Codec<T>, obj: T)
    : (r: Result<Option<(Peer, ENetPacket.Packet)>, Exception>)
    ensures MessageChannel.Key(id) !in s.connections ==> r == Success(None)
    ensures MessageChannel.Key(id) in s.connections ==>
      (r.Success? <==> NetworkSerializer.SerializeNetworkPacket(t, s.channel.hashSize, c, obj).Success?)
      && (r.Success? ==> r.value.Some?)
    ensures r.Failure? ==> r.error == NetworkSerializer.SerializeNetworkPacket(t, s.channel.hashSize, c, obj).error
    ensures r.Success? && r.value.Some? ==>
      var (peer, packet) := r.value.value;
      MessageChannel.Key(id) in s.connections && peer == s.connections[MessageChannel.Key(id)]
      && packet.flags == ENetPacket.Reliable
      && packet.data == NetworkSerializer.SerializeNetworkPacket(t, s.channel.hashSize, c, obj).value
  {
    var k := MessageChannel.Key(id);
    if k !in s.connections then Success(None)
    else
      var packet :- NetworkSerializer.CreateMessagePacket(t, s.channel.hashSize, c, obj, ENetPacket.Reliable);
      Success(Some((s.connections[k], packet)))
  }

  /** The ids of `ids` in the order they first occur, each once. */
  function FirstOccurrences(ids: seq<bv32>): (r: seq<bv32>)
    ensures forall x :: x in r <==> x in ids
  {
    if |ids| == 0 then []
    else
      var r := FirstOccurrences(ids[..|ids| - 1]);
      if ids[|ids| - 1] in r then r else r + [ids[|ids| - 1]]
  }

  /** The connected ones among `ids`, in order. */
  function ConnectedOnly(connections: map<Key, Peer>, ids: seq<bv32>): (r: seq<bv32>)
    ensures forall x :: x in r <==> x in ids && MessageChannel.Key(x) in connections
  {
    if |ids| == 0 then []
    else
      var r := ConnectedOnly(connections, ids[..|ids| - 1]);
      if MessageChannel.Key(ids[|ids| - 1]) in connections then r + [ids[|ids| - 1]] else r
  }

  /** The peers of the given connected ids. */
  function PeersOf(connections: map<Key, Peer>, ids: seq<bv32>): (r: seq<Peer>)
    requires forall i :: 0 <= i < |ids| ==> MessageChannel.Key(ids[i]) in connections
    ensures |r| == |ids|
    ensures forall i :: 0 <= i < |ids| ==> r[i] == connections[MessageChannel.Key(ids[i])]
  {
    if |ids| == 0 then [] else PeersOf(connections, ids[..|ids| - 1]) + [connections[MessageChannel.Key(ids[|ids| - 1])]]
  }

  /** The ids a broadcast reaches: the connected ids of the list, each
      once, in the order of their first occurrence. */
  function RecipientIds(connections: map<Key, Peer>, ids: seq<bv32>): seq<bv32> {
    ConnectedOnly(connections, FirstOccurrences(ids))
  }

  /** The peers a broadcast reaches. */
  function Recipients(connections: map<Key, Peer>, ids: seq<bv32>): seq<Peer> {
    PeersOf(connections, RecipientIds(connections, ids))
  }

  /** Whether a sequence holds no value twice. */
  predicate Distinct<X(==)>(s: seq<X>) {
    forall i, j :: 0 <= i < j < |s| ==> s[i] != s[j]
  }

  /** Where `x` first occurs in `s`. */
  function FirstIndex(s: seq<bv32>, x: bv32): (i: nat)
    requires x in s
    ensures i < |s| && s[i] == x && x !in s[..i]
  {
    if s[0] == x then 0 else 1 + FirstIndex(s[1..], x)
  }

  /** The selection loop of `Broadcast(ids, obj)`: a hash set of the ids
      already seen, and a list of the peers to send to. */
  method SelectRecipients(connections: map<Key, Peer>, ids: seq<bv32>) returns (peers: seq<Peer>)
    ensures peers == Recipients(connections, ids)
  {
    var seen: set<bv32> := {};
    peers := [];
    var i := 0;
    while i < |ids|
      invariant i <= |ids|
      invariant Selection(seen, peers) == Scan(connections, ids[..i])
    {
      var id := ids[i];
      assert ids[..i + 1][..i] == ids[..i];
      if id !in seen && MessageChannel.Key(id) in connections {
        peers := peers + [connections[MessageChannel.Key(id)]];
      }
      seen := seen + {id};
      i := i + 1;
    }
    assert ids[..|ids|] == ids;
    ScanIsRecipients(connections, ids);
  }

  /** The loop's state: the hash set of ids already seen and the peers
      chosen so far. */
  datatype Selection = Selection(seen: set<bv32>, peers: seq<Peer>)

  /** The loop's state after the given ids, one id at a time: an id's peer
      is added when the id is connected and not yet seen, and the id is
      seen either way. */
  function Scan(connections: map<Key, Peer>, ids: seq<bv32>): Selection {
    if |ids| == 0 then Selection({}, [])
    else
      var r := Scan(connections, ids[..|ids| - 1]);
      var id := ids[|ids| - 1];
      if id !in r.seen && MessageChannel.Key(id) in connections
      then Selection(r.seen + {id}, r.peers + [connections[MessageChannel.Key(id)]])
      else Selection(r.seen + {id}, r.peers)
  }

  /** The loop adds exactly the reference recipients, and its hash set
      holds exactly the ids that occur. */
  lemma {:induction false} ScanIsRecipients(connections: map<Key, Peer>, ids: seq<bv32>)
    ensures Scan(connections, ids).peers == Recipients(connections, ids)
    ensures forall x :: x in Scan(connections, ids).seen <==> x in FirstOccurrences(ids)
    decreases |ids|
  {
    if |ids| > 0 {
      var pre := ids[..|ids| - 1];
      ScanIsRecipients(connections, pre);
      var f := FirstOccurrences(pre);
      var id := ids[|ids| - 1];
      if id !in f {
        assert (f + [id])[..|f|] == f;
        if MessageChannel.Key(id) in connections {
          PeersOfStep(connections, RecipientIds(connections, pre), id);
        }
      }
    }
  }

  /** The peers of one more connected id end with its entry. */
  lemma PeersOfStep(connections: map<Key, Peer>, ids: seq<bv32>, x: bv32)
    requires forall i :: 0 <= i < |ids| ==> MessageChannel.Key(ids[i]) in connections
    requires MessageChannel.Key(x) in connections
    ensures PeersOf(connections, ids + [x]) == PeersOf(connections, ids) + [connections[MessageChannel.Key(x)]]
  {
    assert (ids + [x])[..|ids|] == ids;
  }

  /** `Broadcast<T>(ids, obj)`: nothing, and no serialization, when none of
      the ids is connected; otherwise the recipients and the one reliable
      packet they all receive, or the serializer's failure. */
  function Broadcast<H, T>(s: Server<H>, ids: seq<bv32>, t: NetworkHash.MessageType, c: NetworkSerializer.Codec<T>, obj: T)
    : (r: Result<Option<(seq<Peer>, ENetPacket.Packet)>, Exception>)
    ensures |Recipients(s.connections, ids)| == 0 ==> r == Success(None)
    ensures |Recipients(s.connections, ids)| > 0 ==>
      (r.Success? <==> NetworkSerializer.SerializeNetworkPacket(t, s.channel.hashSize, c, obj).Success?)
      && (r.Success? ==> r.value.Some?)
    ensures r.Failure? ==> r.error == NetworkSerializer.SerializeNetworkPacket(t, s.channel.hashSize, c, obj).error
    ensures r.Success? && r.value.Some? ==>
      r.value.value.0 == Recipients(s.connections, ids) && |r.value.value.0| > 0
      && NetworkSerializer.SerializeNetworkPacket(t, s.channel.hashSize, c, obj).Success?
      && r.value.value.1.flags == ENetPacket.Reliable
      && r.value.value.1.data == NetworkSerializer.SerializeNetworkPacket(t, s.channel.hashSize, c, obj).value
  {
    var peers := Recipients(s.connections, ids);
    if |peers| == 0 then Success(None)
    else
      var packet :- NetworkSerializer.CreateMessagePacket(t, s.channel.hashSize, c, obj, ENetPacket.Reliable);
      Success(Some((peers, packet)))
  }

  /** Nothing goes to an id twice. */
  lemma {:induction false} FirstOccurrencesDistinct(ids: seq<bv32>)
    ensures Distinct(FirstOccurrences(ids))
  {
    if |ids| > 0 {
      FirstOccurrencesDistinct(ids[..|ids| - 1]);
    }
  }

  /** Filtering keeps a sequence without repeats without repeats. */
  lemma {:induction false} ConnectedOnlyDistinct(connections: map<Key, Peer>, ids: seq<bv32>)
    requires Distinct(ids)
    ensures Distinct(ConnectedOnly(connections, ids))
  {
    if |ids| > 0 {
      ConnectedOnlyDistinct(connections, ids[..|ids| - 1]);
    }
  }

  /** The recipients of a broadcast are exactly the connected ids of the
      list, each once, and their peers are the connected peers of those ids. */
  lemma BroadcastRecipients(connections: map<Key, Peer>, ids: seq<bv32>)
    ensures Distinct(RecipientIds(connections, ids))
    ensures forall x :: x in RecipientIds(connections, ids) <==> x in ids && MessageChannel.Key(x) in connections
    ensures |Recipients(connections, ids)| == |RecipientIds(connections, ids)|
    ensures forall i :: 0 <= i < |RecipientIds(connections, ids)| ==>
      Recipients(connections, ids)[i] == connections[MessageChannel.Key(RecipientIds(connections, ids)[i])]
  {
    FirstOccurrencesDistinct(ids);
    ConnectedOnlyDistinct(connections, FirstOccurrences(ids));
  }

  /** Of two ids in the first-occurrence list, the earlier one occurs
      earlier in the input. */
  lemma {:induction false} FirstOccurrencesOrdered(ids: seq<bv32>, i: nat, j: nat)
    requires i < j < |FirstOccurrences(ids)|
    ensures FirstIndex(ids, FirstOccurrences(ids)[i]) < FirstIndex(ids, FirstOccurrences(ids)[j])
  {
    var n := |ids| - 1;
    var front := ids[..n];
    var r := FirstOccurrences(front);
    var a := FirstOccurrences(ids)[i];
    var b := FirstOccurrences(ids)[j];
    assert a == r[i] && a in front;
    FirstIndexOfPrefix(ids, n, a);
    if j < |r| {
      assert b == r[j] && b in front;
      FirstOccurrencesOrdered(front, i, j);
      FirstIndexOfPrefix(ids, n, b);
    } else {
      assert b == ids[n] && b !in front;
      FirstIndexAt(ids, b, n);
    }
  }

  /** Filtering a sequence without repeats keeps its order. */
  lemma {:induction false} ConnectedOnlyOrdered(connections: map<Key, Peer>, ids: seq<bv32>, i: nat, j: nat)
    requires Distinct(ids)
    requires i < j < |ConnectedOnly(connections, ids)|
    ensures FirstIndex(ids, ConnectedOnly(connections, ids)[i]) < FirstIndex(ids, ConnectedOnly(connections, ids)[j])
  {
    var n := |ids| - 1;
    var front := ids[..n];
    var r := ConnectedOnly(connections, front);
    var a := ConnectedOnly(connections, ids)[i];
    var b := ConnectedOnly(connections, ids)[j];
    assert a == r[i] && a in front;
    FirstIndexOfPrefix(ids, n, a);
    if j < |r| {
      assert b == r[j] && b in front;
      ConnectedOnlyOrdered(connections, front, i, j);
      FirstIndexOfPrefix(ids, n, b);
    } else {
      assert b == ids[n] && b !in front;
      FirstIndexAt(ids, b, n);
    }
  }

  /** Broadcast recipients come in the order in which their ids first occur
      in the list. */
  lemma RecipientsInFirstOccurrenceOrder(connections: map<Key, Peer>, ids: seq<bv32>, i: nat, j: nat)
    requires i < j < |RecipientIds(connections, ids)|
    ensures FirstIndex(ids, RecipientIds(connections, ids)[i]) < FirstIndex(ids, RecipientIds(connections, ids)[j])
  {
    var f := FirstOccurrences(ids);
    var r := RecipientIds(connections, ids);
    FirstOccurrencesDistinct(ids);
    ConnectedOnlyOrdered(connections, f, i, j);
    var p := FirstIndex(f, r[i]);
    var q := FirstIndex(f, r[j]);
    FirstOccurrencesOrdered(ids, p, q);
  }

  /** An id that occurs before position `n` first occurs where it first
      occurs in the prefix. */
  lemma FirstIndexOfPrefix(ids: seq<bv32>, n: nat, x: bv32)
    requires n <= |ids| && x in ids[..n]
    ensures FirstIndex(ids, x) == FirstIndex(ids[..n], x) < n
  {
    var k := FirstIndex(ids[..n], x);
    assert ids[..n][..k] == ids[..k];
    FirstIndexAt(ids, x, k);
  }

  /** A position holding `x` with no `x` before it is where `x` first
      occurs. */
  lemma {:induction false} FirstIndexAt(s: seq<bv32>, x: bv32, i: nat)
    requires i < |s| && s[i] == x && x !in s[..i]
    ensures FirstIndex(s, x) == i
    decreases i
  {
    if i > 0 {
      assert s[0] == s[..i][0];
      assert s[1..][..i - 1] == s[..i][1..];
      FirstIndexAt(s[1..], x, i - 1);
    }
  }

  /** A broadcast that reaches anyone sends one packet carrying the message
      at the server's width, which every recipient reads back as the
      type's command and the serialized body. */
  lemma BroadcastDecodes<H, T>(s: Server<H>, ids: seq<bv32>, t: NetworkHash.MessageType, c: NetworkSerializer.Codec<T>, obj: T)
    requires |Recipients(s.connections, ids)| > 0
    requires NetworkSerializer.SerializeNetworkPacket(t, s.channel.hashSize, c, obj).Success?
    ensures Broadcast(s, ids, t, c, obj).Success? && Broadcast(s, ids, t, c, obj).value.Some?
    ensures var r := NetworkSerializer.DeserializeNetworkPacket(Broadcast(s, ids, t, c, obj).value.value.1.data);
      r.ok && r.value.command == Some(NetworkHash.GetCommand(t, s.channel.hashSize).value)
      && r.value.payload == Some(c.encode(obj).value)
  {
    NetworkSerializer.MessageRoundTrip(t, s.channel.hashSize, c, obj);
  }

  /** The ENet events the poll loop handles. */
  datatype Event =
    | EventNone
    | EventConnect(peer: Peer)
    | EventDisconnect(peer: Peer)
    | EventReceive(peer: Peer, data: ByteArray)
    | EventTimeout(peer: Peer)

  /** How handling an event ended: on to the next, out of the whole loop
      by `return`, or out of it by an exception. */
  datatype Exit = Continue | Return | Throw(error: Exception)

  datatype Step<H> = Step(server: Server<H>, effects: seq<Effect<H>>, exit: Exit)

  /** One event of `PollPeers`, as written. A connect stores the peer under
      its id, replacing any entry, and reports it. A disconnect of a known
      id removes and reports it; of an unknown id it returns from the whole
      poll loop. A receive copies the packet into the buffer, which throws
      when the packet is longer than the buffer, and dispatches the first
      `length` bytes of the buffer. A timeout disconnects the peer at once
      and leaves the table as it is. */
  function HandleEvent<H>(s: Server<H>, e: Event): (r: Step<H>)
    ensures r.server.channel == s.channel && r.server.listening == s.listening && r.server.hostSet == s.hostSet
    ensures e.EventConnect? ==>
      (r.exit == Continue && r.effects == [OnConnected(e.peer.id)]
       && r.server.connections == s.connections[MessageChannel.Key(e.peer.id) := e.peer])
    ensures e.EventDisconnect? ==>
      (r.exit == Return <==> MessageChannel.Key(e.peer.id) !in s.connections)
      && r.server.connections == s.connections - {MessageChannel.Key(e.peer.id)}
      && r.effects == (if MessageChannel.Key(e.peer.id) in s.connections then [OnDisconnected(e.peer.id)] else [])
    ensures e.EventReceive? ==>
      (r.server.connections == s.connections
       && (r.exit.Throw? <==> |e.data| > BufferSize)
       && (!r.exit.Throw? ==>
             (r.exit == Continue && r.server.buffer[..|e.data|] == e.data
              && r.server.buffer[|e.data|..] == s.buffer[|e.data|..]
              && r.effects == Dispatch(NetworkServerMessage.InvokeSpan(s.channel, e.peer.id, e.data)))))
    ensures e.EventReceive? && |e.data| > BufferSize ==> r == Step(s, [], Throw(ArgumentOutOfRange))
    ensures !e.EventReceive? ==> r.server.buffer == s.buffer
    ensures e.EventTimeout? ==> r == Step(s, [DisconnectNow(e.peer)], Continue)
    ensures e.EventNone? ==> r == Step(s, [], Continue)
    ensures r.exit.Throw? ==> r.effects == []
  {
    match e
    case EventNone => Step(s, [], Continue)
    case EventConnect(peer) =>
      Step(s.(connections := s.connections[MessageChannel.Key(peer.id) := peer]), [OnConnected(peer.id)], Continue)
    case EventDisconnect(peer) =>
      var k := MessageChannel.Key(peer.id);
      if k !in s.connections then Step(s, [], Return)
      else Step(s.(connections := s.connections - {k}), [OnDisconnected(peer.id)], Continue)
    case EventReceive(peer, data) =>
      if |data| > BufferSize then Step(s, [], Throw(ArgumentOutOfRange))
      else
        var buffer: Buffer := data + s.buffer[|data|..];
        var calls := NetworkServerMessage.InvokeRange(s.channel, peer.id, Some(buffer), |data|);
        if calls.Success? then Step(s.(buffer := buffer), Dispatch(calls.value), Continue)
        else Step(s.(buffer := buffer), [], Throw(calls.error))
    case EventTimeout(peer) => Step(s, [DisconnectNow(peer)], Continue)
  }

  /** The handler calls as effects. */
  function Dispatch<H>(calls: seq<MessageChannel.ServerInvocation<H>>): (r: seq<Effect<H>>)
    ensures |r| == |calls|
    ensures forall i :: 0 <= i < |calls| ==> r[i] == Invoked(calls[i])
  {
    if |calls| == 0 then [] else Dispatch(calls[..|calls| - 1]) + [Invoked(calls[|calls| - 1])]
  }

  /** A batch of events through `PollPeers` as written: each is handled in
      turn until one leaves the loop. */
  function Poll<H>(s: Server<H>, events: seq<Event>): (r: Step<H>)
    decreases |events|
  {
    if |events| == 0 then Step(s, [], Continue)
    else
      var first := HandleEvent(s, events[0]);
      if first.exit != Continue then first
      else
        var rest := Poll(first.server, events[1..]);
        Step(rest.server, first.effects + rest.effects, rest.exit)
  }

  /** One event as `PollPeers` evidently intends it: a disconnect of an
      unknown id is skipped rather than ending the loop. */
  function HandleEventSkipping<H>(s: Server<H>, e: Event): (r: Step<H>)
    ensures r.exit != Return
    ensures e.EventDisconnect? ==> r.exit == Continue && r.server.connections == s.connections - {MessageChannel.Key(e.peer.id)}
    ensures e.EventDisconnect? && MessageChannel.Key(e.peer.id) !in s.connections ==> r == Step(s, [], Continue)
    ensures !(e.EventDisconnect? && MessageChannel.Key(e.peer.id) !in s.connections) ==> r == HandleEvent(s, e)
  {
    if e.EventDisconnect? && MessageChannel.Key(e.peer.id) !in s.connections then Step(s, [], Continue)
    else HandleEvent(s, e)
  }

  /** A batch of events through the corrected loop. */
  function PollSkipping<H>(s: Server<H>, events: seq<Event>): (r: Step<H>)
    decreases |events|
  {
    if |events| == 0 then Step(s, [], Continue)
    else
      var first := HandleEventSkipping(s, events[0]);
      if first.exit != Continue then first
      else
        var rest := PollSkipping(first.server, events[1..]);
        Step(rest.server, first.effects + rest.effects, rest.exit)
  }

  /** The table stays keyed by peer id through every event, on either loop. */
  lemma HandleEventKeepsKeys<H>(s: Server<H>, e: Event)
    requires WellKeyed(s)
    ensures WellKeyed(HandleEvent(s, e).server)
    ensures WellKeyed(HandleEventSkipping(s, e).server)
  {
  }

  lemma {:induction false} PollKeepsKeys<H>(s: Server<H>, events: seq<Event>)
    requires WellKeyed(s)
    ensures WellKeyed(Poll(s, events).server)
    ensures WellKeyed(PollSkipping(s, events).server)
    decreases |events|
  {
    if |events| > 0 {
      HandleEventKeepsKeys(s, events[0]);
      PollKeepsKeys(HandleEvent(s, events[0]).server, events[1..]);
      PollKeepsKeys(HandleEventSkipping(s, events[0]).server, events[1..]);
    }
  }

  /** The corrected loop never leaves by `return`; it stops early only on
      an exception. */
  lemma {:induction false} PollSkippingNeverReturns<H>(s: Server<H>, events: seq<Event>)
    ensures PollSkipping(s, events).exit != Return
    decreases |events|
  {
    if |events| > 0 {
      var first := HandleEventSkipping(s, events[0]);
      if first.exit == Continue {
        PollSkippingNeverReturns(first.server, events[1..]);
      }
    }
  }

  /** The two loops agree on any batch in which every disconnect is of a
      connected id. */
  lemma {:induction false} PollsAgreeWithoutStrangers<H>(s: Server<H>, events: seq<Event>)
    requires NoStrangerLeaves(s, events)
    ensures Poll(s, events) == PollSkipping(s, events)
    decreases |events|
  {
    if |events| > 0 {
      var first := HandleEvent(s, events[0]);
      if first.exit == Continue {
        PollsAgreeWithoutStrangers(first.server, events[1..]);
      }
    }
  }

  /** Every disconnect in the batch is of an id connected at that point. */
  predicate NoStrangerLeaves<H>(s: Server<H>, events: seq<Event>)
    decreases |events|
  {
    |events| == 0
    || (!(events[0].EventDisconnect? && MessageChannel.Key(events[0].peer.id) !in s.connections)
        && (HandleEvent(s, events[0]).exit == Continue ==> NoStrangerLeaves(HandleEvent(s, events[0]).server, events[1..])))
  }

  /** The consequence of the `return`: a disconnect from a peer the table
      does not know ends polling, so a client connecting right after it is
      never entered in the table nor reported, where the corrected loop
      connects it. */
  lemma StrangerStopsPolling<H>(s: Server<H>, stranger: Peer, newcomer: Peer)
    requires MessageChannel.Key(stranger.id) !in s.connections
    ensures var r := Poll(s, [EventDisconnect(stranger), EventConnect(newcomer)]);
      r.exit == Return && r.server.connections == s.connections && r.effects == []
    ensures var r := PollSkipping(s, [EventDisconnect(stranger), EventConnect(newcomer)]);
      r.exit == Continue && MessageChannel.Key(newcomer.id) in r.server.connections
      && r.effects == [OnConnected(newcomer.id)]
  {
    var events := [EventDisconnect(stranger), EventConnect(newcomer)];
    assert events[1..] == [EventConnect(newcomer)] && events[1..][1..] == [];
    assert HandleEventSkipping(s, events[0]) == Step(s, [], Continue);
    var joined := HandleEvent(s, EventConnect(newcomer));
    assert PollSkipping(s, events[1..]) == Step(joined.server, [OnConnected(newcomer.id)], Continue);
  }

  /** Whatever the buffer held before, a received packet dispatches exactly
      what the span overload dispatches for the packet's own bytes. */
  lemma ReceiveIgnoresStaleBytes<H>(s: Server<H>, peer: Peer, data: ByteArray)
    requires |data| <= BufferSize
    ensures HandleEvent(s, EventReceive(peer, data)).effects == Dispatch(NetworkServerMessage.InvokeSpan(s.channel, peer.id, data))
  {
  }

  /** A timed-out peer is disconnected but its entry stays in the table
      unchanged, so it keeps counting as connected for `Send` and
      `Broadcast`. */
  lemma TimeoutKeepsEntry<H>(s: Server<H>, peer: Peer)
    requires MessageChannel.Key(peer.id) in s.connections
    ensures var r := HandleEvent(s, EventTimeout(peer)).server;
      MessageChannel.Key(peer.id) in r.connections
      && r.connections[MessageChannel.Key(peer.id)] == s.connections[MessageChannel.Key(peer.id)]
  {
  }

  /** `ChangeRpcHashSize`, `RegisterHandler<T>`, `UnregisterHandler<T>` and
      `ClearHandlers` on the server act on its one channel and on nothing
      else. */
  function ChangeRpcHashSize<H>(s: Server<H>, w: HashSize): (r: Server<H>)
    ensures r.channel == MessageChannel.ChangeRpcHashSize(s.channel, w)
    ensures r.(channel := s.channel) == s
  {
    s.(channel := MessageChannel.ChangeRpcHashSize(s.channel, w))
  }

  function RegisterHandler<H>(s: Server<H>, ids: MessageChannel.Ids, h: H): (r: Server<H>)
    ensures r.channel == MessageChannel.RegisterHandler(s.channel, ids, h)
    ensures r.(channel := s.channel) == s
  {
    s.(channel := MessageChannel.RegisterHandler(s.channel, ids, h))
  }

  function UnregisterHandler<H>(s: Server<H>, ids: MessageChannel.Ids): (r: Server<H>)
    ensures r.channel == MessageChannel.UnregisterHandler(s.channel, ids)
    ensures r.(channel := s.channel) == s
  {
    s.(channel := MessageChannel.UnregisterHandler(s.channel, ids))
  }

  function ClearHandlers<H>(s: Server<H>): (r: Server<H>)
    ensures r.channel == MessageChannel.ClearHandlers(s.channel)
    ensures r.(channel := s.channel) == s
  {
    s.(channel := MessageChannel.ClearHandlers(s.channel))
  }
}
