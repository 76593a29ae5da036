/** Packets the library sends and receives, the outbound packet log, and the
    passenger manifest cache (PassengerManager) that listens to every outbound
    packet. */
module Protocol {
  import opened Common

  /** Metadata entry types the library distinguishes; every other serializer
      type is `OtherType`. */
  datatype DataType = AdvComponent | OtherType

  /** One entry of an ENTITY_METADATA packet: an index, its serializer type
      and its value (components and other values are kept as strings). */
  datatype EntityData = EntityData(index: int, kind: DataType, value: string)

  /** The packet types the model distinguishes. */
  datatype Packet =
    | SetPassengers(host: int, riders: seq<int>)
    | InteractEntity(entityId: int)
    | EntityMetadata(entityId: int, metadata: seq<EntityData>)
    | OtherPacket

  /** A packet sent to one player, identified by uuid. */
  datatype Outbound = Outbound(to: Uuid, packet: Packet)

  /** PassengerManager.getPassengers on a manifest map: the recorded list, or
      an empty one for a host never observed. */
  function Lookup(m: map<int, seq<int>>, host: int): (r: seq<int>)
    ensures host !in m ==> r == []
    ensures host in m ==> r == m[host]
  {
    if host in m then m[host] else []
  }

  /** What PassengerManager.onPacketSend does to the manifest map for one
      outbound packet. */
  function Observe(m: map<int, seq<int>>, p: Packet): (r: map<int, seq<int>>)
    ensures p.SetPassengers? ==> Lookup(r, p.host) == p.riders
    ensures p.SetPassengers? ==> forall h :: h != p.host ==> Lookup(r, h) == Lookup(m, h)
    ensures !p.SetPassengers? ==> r == m
    ensures m.Keys <= r.Keys
  {
    if p.SetPassengers? then m[p.host := p.riders] else m
  }

  /** The manifest map after the listener has seen a whole run of packets. */
  function ObserveAll(m: map<int, seq<int>>, ps: seq<Packet>): map<int, seq<int>>
    decreases |ps|
  {
    if ps == [] then m else ObserveAll(Observe(m, ps[0]), ps[1..])
  }

  /** Entries are never removed: over any run of outbound packets the set of
      hosts with a recorded manifest only grows. */
  lemma {:induction false} ObserveAllKeepsHosts(m: map<int, seq<int>>, ps: seq<Packet>)
    ensures m.Keys <= ObserveAll(m, ps).Keys
    decreases |ps|
  {
    if ps != [] {
      ObserveAllKeepsHosts(Observe(m, ps[0]), ps[1..]);
    }
  }

  /** Whether the packet sets the passengers of the given host. */
  predicate SetsHost(p: Packet, host: int) {
    p.SetPassengers? && p.host == host
  }

  /** A run with no SET_PASSENGERS packet for the host leaves its manifest
      as it was. */
  lemma {:induction false} ObserveAllUntouched(m: map<int, seq<int>>, ps: seq<Packet>, host: int)
    requires forall i :: 0 <= i < |ps| ==> !SetsHost(ps[i], host)
    ensures Lookup(ObserveAll(m, ps), host) == Lookup(m, host)
    decreases |ps|
  {
    if ps != [] {
      var tail := ps[1..];
      assert forall k :: 0 <= k < |tail| ==> tail[k] == ps[k + 1];
      ObserveAllUntouched(Observe(m, ps[0]), tail, host);
    }
  }

  /** When the i-th packet is the last SET_PASSENGERS packet for the host,
      the host's manifest ends as that packet's rider list. */
  lemma {:induction false} ObserveAllLastAt(m: map<int, seq<int>>, ps: seq<Packet>, host: int, i: int)
    requires 0 <= i < |ps| && SetsHost(ps[i], host)
    requires forall j :: i < j < |ps| ==> !SetsHost(ps[j], host)
    ensures Lookup(ObserveAll(m, ps), host) == ps[i].riders
    decreases |ps|
  {
    var tail := ps[1..];
    assert forall k :: 0 <= k < |tail| ==> tail[k] == ps[k + 1];
    if i == 0 {
      ObserveAllUntouched(Observe(m, ps[0]), tail, host);
    } else {
      ObserveAllLastAt(Observe(m, ps[0]), tail, host, i - 1);
    }
  }

  /** The recorded manifest of a host is the rider list of the last
      SET_PASSENGERS packet for it, wherever in the run that packet is; with
      none, it is what it was before. */
  lemma ObserveAllLastWins(m: map<int, seq<int>>, ps: seq<Packet>, host: int)
    ensures (forall i :: 0 <= i < |ps| ==> !SetsHost(ps[i], host))
      ==> Lookup(ObserveAll(m, ps), host) == Lookup(m, host)
    ensures forall i :: (0 <= i < |ps| && SetsHost(ps[i], host)
                         && (forall j :: i < j < |ps| ==> !SetsHost(ps[j], host)))
                        ==> Lookup(ObserveAll(m, ps), host) == ps[i].riders
  {
    if forall i :: 0 <= i < |ps| ==> !SetsHost(ps[i], host) {
      ObserveAllUntouched(m, ps, host);
    }
    forall i | 0 <= i < |ps| && SetsHost(ps[i], host) && (forall j :: i < j < |ps| ==> !SetsHost(ps[j], host))
      ensures Lookup(ObserveAll(m, ps), host) == ps[i].riders
    {
      ObserveAllLastAt(m, ps, host, i);
    }
  }

  /** Seeing the same packet twice is seeing it once. */
  lemma ObserveIdempotent(m: map<int, seq<int>>, p: Packet)
    ensures Observe(Observe(m, p), p) == Observe(m, p)
  {
  }

  /** The same packet sent to each of the listed players, in order. */
  function PacketsTo(us: seq<Uuid>, p: Packet): (r: seq<Outbound>)
    ensures |r| == |us|
  {
    if us == [] then [] else PacketsTo(us[..|us| - 1], p) + [Outbound(us[|us| - 1], p)]
  }

  /** The i-th packet goes to the i-th player. */
  lemma {:induction false} PacketsToAt(us: seq<Uuid>, p: Packet, i: int)
    requires 0 <= i < |us|
    ensures PacketsTo(us, p)[i] == Outbound(us[i], p)
    decreases |us|
  {
    if i < |us| - 1 {
      PacketsToAt(us[..|us| - 1], p, i);
    }
  }

  /** Sending to one more player appends one packet. */
  lemma PacketsToSnoc(us: seq<Uuid>, u: Uuid, p: Packet)
    ensures PacketsTo(us + [u], p) == PacketsTo(us, p) + [Outbound(u, p)]
  {
    assert (us + [u])[..|us|] == us;
  }

  /** `added` is one copy of packet `p` for every player of `to`, and
      nothing else, in some order (the iteration order of a hash set). */
  ghost predicate Broadcast(added: seq<Outbound>, to: set<Uuid>, p: Packet) {
    |added| == |to|
    && (forall i :: 0 <= i < |added| ==> added[i].packet == p && added[i].to in to)
    && (forall u :: u in to ==> exists i :: 0 <= i < |added| && added[i].to == u)
  }

  /** Broadcasting to one more player appends one packet. */
  lemma BroadcastStep(added: seq<Outbound>, to: set<Uuid>, p: Packet, u: Uuid)
    requires Broadcast(added, to, p) && u !in to
    ensures Broadcast(added + [Outbound(u, p)], to + {u}, p)
  {
    var added' := added + [Outbound(u, p)];
    forall v | v in to + {u}
      ensures exists i :: 0 <= i < |added'| && added'[i].to == v
    {
      if v == u {
        assert added'[|added|].to == v;
      } else {
        var i :| 0 <= i < |added| && added[i].to == v;
        assert added'[i].to == v;
      }
    }
  }

  /** PassengerManager: the host-id to passenger-list cache, written only by
      the outbound-packet listener. */
  class PassengerManager {
    var passengers: map<int, seq<int>>

    constructor()
      ensures passengers == map[]
    {
      passengers := map[];
    }

    /** getPassengers: an empty list for a host never observed. */
    function GetPassengers(host: int): (r: seq<int>)
      reads this
      ensures host !in passengers ==> r == []
      ensures host in passengers ==> r == passengers[host]
    {
      Lookup(passengers, host)
    }

    /** onPacketSend: a SET_PASSENGERS packet overwrites its host's entry;
        any other packet leaves the map alone. */
    method OnPacketSend(p: Packet)
      modifies this
      ensures passengers == Observe(old(passengers), p)
      ensures p.SetPassengers? ==> GetPassengers(p.host) == p.riders
      ensures !p.SetPassengers? ==> passengers == old(passengers)
    {
      if !p.SetPassengers? {
        return;
      }
      passengers := passengers[p.host := p.riders];
    }
  }

  /** The server connection: every packet sent is appended to `sent` and
      passed to the registered outbound listener. */
  class Transport {
    var sent: seq<Outbound>
    const listener: PassengerManager

    constructor(listener: PassengerManager)
      ensures this.listener == listener && sent == []
    {
      this.listener := listener;
      sent := [];
    }

    method Send(to: Uuid, p: Packet)
      modifies this, listener
      ensures sent == old(sent) + [Outbound(to, p)]
      ensures listener.passengers == Observe(old(listener.passengers), p)
    {
      sent := sent + [Outbound(to, p)];
      listener.OnPacketSend(p);
    }
  }
}
