/** A display entity shown to players by packets (the abstract Hologram base
    class): its render mode, blacklist, viewer set, attachment to a host
    entity and the periodic pass that recomputes who sees it. */
module Holograms {
  import opened Common
  import opened Protocol
  import opened Passengers
  import opened Visibility

  /** updateTaskPeriod's initial value, in ticks. The periodic task is
      scheduled in the constructor, so it always runs with this period. */
  const DefaultTaskPeriod: int := 20
  const DefaultMaxDistSq: real := 62500.0

  /** validateId: an id with a space is an IllegalArgumentException. */
  function ValidateId(id: string): (r: Outcome)
    ensures r.Pass? <==> !HasSpace(id)
    ensures r.Fail? ==> r.error.IllegalArgument?
  {
    if HasSpace(id) then Fail(IllegalArgument("The hologram ID cannot contain spaces! (" + id + ")"))
    else Pass
  }

  /** The uuids among `vs` that belong to an online player. */
  function OnlineAmong(vs: set<Uuid>, server: Snapshot): (r: set<Uuid>)
    ensures r <= vs
    ensures forall u :: u in r <==> u in vs && PlayerByUuid(server, u).Some?
  {
    set u | u in vs && PlayerByUuid(server, u).Some?
  }

  /** The passenger packet that puts entity `e` on host `h`'s manifest `m`. */
  function RidePacket(h: int, m: seq<int>, e: int): (r: Packet)
    ensures r.SetPassengers? && r.host == h && e in r.riders
    ensures forall x :: x in m ==> x in r.riders
  {
    SetPassengers(h, AddElement(m, e))
  }

  /** Sending the same ride packet again leaves the manifest where the first
      one put it: every greeting of one pass carries the same rider list. */
  lemma {:induction false} RidePacketStable(pm: map<int, seq<int>>, h: int, e: int)
    ensures RidePacket(h, Lookup(Observe(pm, RidePacket(h, Lookup(pm, h), e)), h), e)
         == RidePacket(h, Lookup(pm, h), e)
  {
    AddElementIdempotent(Lookup(pm, h), e);
  }

  /** What the players can observe of an entity: its viewer set, the packet
      log and the passenger manifest cache the log has fed. */
  datatype Wire = Wire(viewers: set<Uuid>, sent: seq<Outbound>, passengers: map<int, seq<int>>)

  /** Sending one packet to one player through a sender that drops
      everything in NONE mode. */
  function SendVia(w: Wire, mode: RenderMode, p: Packet, to: Uuid): (r: Wire)
    ensures r.viewers == w.viewers
    ensures mode == Nobody ==> r == w
    ensures mode != Nobody ==> r.sent == w.sent + [Outbound(to, p)] && r.passengers == Observe(w.passengers, p)
  {
    if mode == Nobody then w
    else Wire(w.viewers, w.sent + [Outbound(to, p)], Observe(w.passengers, p))
  }

  /** Hologram.addViewer on the observable state. */
  function Greet(w: Wire, mode: RenderMode, attached: Option<int>, e: int, p: Player): Wire
  {
    if p.uuid in w.viewers then w
    else
      var w' := w.(viewers := w.viewers + {p.uuid});
      if attached.Some? then SendVia(w', mode, RidePacket(attached.value, Lookup(w.passengers, attached.value), e), p.uuid)
      else w'
  }

  /** Hologram.addAllViewers on the observable state: Greet each player in order. */
  function GreetAll(w: Wire, mode: RenderMode, attached: Option<int>, e: int, ps: seq<Player>): Wire
  {
    if ps == [] then w
    else Greet(GreetAll(w, mode, attached, e, ps[..|ps| - 1]), mode, attached, e, ps[|ps| - 1])
  }

  /** addAllViewers makes every listed player a viewer and removes no one. */
  lemma {:induction false} GreetAllViewers(w: Wire, mode: RenderMode, attached: Option<int>, e: int, ps: seq<Player>)
    ensures GreetAll(w, mode, attached, e, ps).viewers == w.viewers + UuidsOf(ps)
  {
    if ps != [] {
      var init, last := ps[..|ps| - 1], ps[|ps| - 1];
      assert ps == init + [last];
      assert UuidsOf(ps) == UuidsOf(init) + {last.uuid};
      GreetAllViewers(w, mode, attached, e, init);
    }
  }

  /** Unattached, or in NONE mode, addAllViewers sends nothing. */
  lemma {:induction false} GreetAllQuiet(w: Wire, mode: RenderMode, attached: Option<int>, e: int, ps: seq<Player>)
    requires attached.None? || mode == Nobody
    ensures GreetAll(w, mode, attached, e, ps).sent == w.sent
    ensures GreetAll(w, mode, attached, e, ps).passengers == w.passengers
  {
    if ps != [] {
      GreetAllQuiet(w, mode, attached, e, ps[..|ps| - 1]);
    }
  }

  /** Attached, the manifest cache moves only if someone was greeted, and then
      to the rider list of the first greeting. */
  lemma {:induction false} GreetAllManifest(w: Wire, mode: RenderMode, attached: Option<int>, e: int, ps: seq<Player>)
    requires attached.Some? && mode != Nobody
    ensures var pkt := RidePacket(attached.value, Lookup(w.passengers, attached.value), e);
      GreetAll(w, mode, attached, e, ps).passengers
      == if Newcomers(ps, w.viewers) == [] then w.passengers else Observe(w.passengers, pkt)
  {
    if ps != [] {
      var init, last := ps[..|ps| - 1], ps[|ps| - 1];
      var a := attached.value;
      var pkt := RidePacket(a, Lookup(w.passengers, a), e);
      var wi := GreetAll(w, mode, attached, e, init);
      GreetAllViewers(w, mode, attached, e, init);
      GreetAllManifest(w, mode, attached, e, init);
      if last.uuid !in wi.viewers {
        RidePacketStable(w.passengers, a, e);
        ObserveIdempotent(w.passengers, pkt);
        assert RidePacket(a, Lookup(wi.passengers, a), e) == pkt;
      }
    }
  }

  /** One greeting on top of a run of greetings that all carried `pkt`. */
  lemma GreetStepPacket(wi: Wire, mode: RenderMode, a: int, e: int, pm: map<int, seq<int>>,
                        n: seq<Uuid>, sent0: seq<Outbound>, last: Player)
    requires mode != Nobody
    requires wi.sent == sent0 + PacketsTo(n, RidePacket(a, Lookup(pm, a), e))
    requires wi.passengers == pm || wi.passengers == Observe(pm, RidePacket(a, Lookup(pm, a), e))
    ensures var pkt := RidePacket(a, Lookup(pm, a), e);
      Greet(wi, mode, Some(a), e, last).sent
      == sent0 + PacketsTo(n + (if last.uuid in wi.viewers then [] else [last.uuid]), pkt)
  {
    var pkt := RidePacket(a, Lookup(pm, a), e);
    if last.uuid !in wi.viewers {
      RidePacketStable(pm, a, e);
      assert RidePacket(a, Lookup(wi.passengers, a), e) == pkt;
      PacketsToSnoc(n, last.uuid, pkt);
      assert sent0 + PacketsTo(n, pkt) + [Outbound(last.uuid, pkt)] == sent0 + PacketsTo(n + [last.uuid], pkt);
    } else {
      assert n + [] == n;
    }
  }

  /** Attached, addAllViewers sends each player that was not yet a viewer
      exactly one passenger packet, in list order, all with the rider list
      of the first. */
  lemma {:induction false} GreetAllPackets(w: Wire, mode: RenderMode, attached: Option<int>, e: int, ps: seq<Player>)
    requires attached.Some? && mode != Nobody
    ensures var pkt := RidePacket(attached.value, Lookup(w.passengers, attached.value), e);
      GreetAll(w, mode, attached, e, ps).sent == w.sent + PacketsTo(Newcomers(ps, w.viewers), pkt)
  {
    if ps != [] {
      var init, last := ps[..|ps| - 1], ps[|ps| - 1];
      var wi := GreetAll(w, mode, attached, e, init);
      GreetAllViewers(w, mode, attached, e, init);
      GreetAllPackets(w, mode, attached, e, init);
      GreetAllManifest(w, mode, attached, e, init);
      GreetStepPacket(wi, mode, attached.value, e, w.passengers, Newcomers(init, w.viewers), w.sent, last);
    }
  }

  /** The first half of a world-tracking pass: every viewer that is not on
      the keep list stops viewing; no packet is logged for it. */
  function Prune(w: Wire, keep: seq<Player>): (r: Wire)
    ensures r.viewers <= w.viewers && r.sent == w.sent && r.passengers == w.passengers
  {
    w.(viewers := w.viewers * UuidsOf(keep))
  }

  /** A whole world-tracking pass: prune, then addAllViewers(keep). */
  function WorldPass(w: Wire, mode: RenderMode, attached: Option<int>, e: int, keep: seq<Player>): Wire
  {
    GreetAll(Prune(w, keep), mode, attached, e, keep)
  }

  /** After a world-tracking pass the viewers are exactly the target set:
      the eligible players, less the host player in NOT_ATTACHED_PLAYER mode. */
  lemma WorldPassViewers(w: Wire, mode: RenderMode, server: Snapshot, blacklist: seq<Uuid>, at: Location,
                         maxDistSq: real, attached: Option<int>, e: int)
    ensures WorldPass(w, mode, attached, e, KeepList(mode, server, blacklist, at, maxDistSq, attached)).viewers
         == Target(mode, server, blacklist, at, maxDistSq, attached)
  {
    var keep := KeepList(mode, server, blacklist, at, maxDistSq, attached);
    GreetAllViewers(Prune(w, keep), mode, attached, e, keep);
  }

  /** Attached, a world-tracking pass sends one passenger packet to each kept
      player that was not a viewer before the pass, and to no one else; a
      kept viewer is not greeted again. */
  lemma WorldPassPackets(w: Wire, mode: RenderMode, attached: Option<int>, e: int, keep: seq<Player>)
    requires attached.Some? && mode != Nobody
    ensures var pkt := RidePacket(attached.value, Lookup(w.passengers, attached.value), e);
      WorldPass(w, mode, attached, e, keep).sent == w.sent + PacketsTo(Newcomers(keep, w.viewers), pkt)
  {
    var pruned := Prune(w, keep);
    GreetAllPackets(pruned, mode, attached, e, keep);
    assert w.viewers == pruned.viewers + (w.viewers - UuidsOf(keep));
    NewcomersRestrict(keep, pruned.viewers, w.viewers - UuidsOf(keep));
  }

  /** Unattached, or in NONE mode, a world-tracking pass sends nothing. */
  lemma WorldPassQuiet(w: Wire, mode: RenderMode, attached: Option<int>, e: int, keep: seq<Player>)
    requires attached.None? || mode == Nobody
    ensures WorldPass(w, mode, attached, e, keep).sent == w.sent
    ensures WorldPass(w, mode, attached, e, keep).passengers == w.passengers
  {
    GreetAllQuiet(Prune(w, keep), mode, attached, e, keep);
  }

  /** `w1` is `w0` with packet `pkt` sent once to each player of `to`, in
      some order, and the viewers untouched. */
  ghost predicate Fanout(w0: Wire, w1: Wire, to: set<Uuid>, pkt: Packet) {
    w1.viewers == w0.viewers
    && |w0.sent| <= |w1.sent| && w1.sent[..|w0.sent|] == w0.sent
    && Broadcast(w1.sent[|w0.sent|..], to, pkt)
    && w1.passengers == if to == {} then w0.passengers else Observe(w0.passengers, pkt)
  }

  /** Appending to a log that extends a prefix. */
  lemma SnocAssoc<T>(a: seq<T>, b: seq<T>, x: T)
    ensures a + b + [x] == a + (b + [x])
  {
  }

  /** One viewer more walked by the VIEWER_LIST resend: an online one gets
      the packet, an offline one nothing. */
  lemma ResendStep(added: seq<Outbound>, done: set<Uuid>, u: Uuid, server: Snapshot, pkt: Packet)
    requires Broadcast(added, OnlineAmong(done, server), pkt) && u !in done
    ensures PlayerByUuid(server, u).Some? ==>
      OnlineAmong(done + {u}, server) == OnlineAmong(done, server) + {u} != {}
      && Broadcast(added + [Outbound(u, pkt)], OnlineAmong(done + {u}, server), pkt)
    ensures PlayerByUuid(server, u).None? ==> OnlineAmong(done + {u}, server) == OnlineAmong(done, server)
  {
    if PlayerByUuid(server, u).Some? {
      assert OnlineAmong(done + {u}, server) == OnlineAmong(done, server) + {u};
      BroadcastStep(added, OnlineAmong(done, server), pkt, u);
    } else {
      assert OnlineAmong(done + {u}, server) == OnlineAmong(done, server);
    }
  }

  /** Fanout from its parts: the log grew by exactly the broadcast. */
  lemma FanoutIntro(w0: Wire, w1: Wire, to: set<Uuid>, pkt: Packet, added: seq<Outbound>)
    requires w1.viewers == w0.viewers && w1.sent == w0.sent + added && Broadcast(added, to, pkt)
    requires w1.passengers == if to == {} then w0.passengers else Observe(w0.passengers, pkt)
    ensures Fanout(w0, w1, to, pkt)
  {
    assert w1.sent[|w0.sent|..] == added;
  }

  /** The pass recomputes viewers from the world: a world-tracking mode and
      a location in a loaded world. */
  predicate WorldTracked(mode: RenderMode, location: Option<Location>) {
    TracksWorld(mode) && location.Some? && location.value.world.Some?
  }

  /** Where a VIEWER_LIST pass moves the entity: to the attached player when
      that player is online and in a loaded world, else nowhere. */
  function HostSpot(location: Option<Location>, server: Snapshot, attached: Option<int>): (r: Option<Location>)
    ensures attached.None? ==> r == location
    ensures r != location ==> attached.Some? && PlayerByEntityId(server, attached.value).Some?
  {
    if attached.Some? && PlayerByEntityId(server, attached.value).Some?
       && PlayerByEntityId(server, attached.value).value.location.world.Some?
    then Some(PlayerByEntityId(server, attached.value).value.location)
    else location
  }

  /** detach's first step in NOT_ATTACHED_PLAYER mode: the host player, if
      online, is greeted as a viewer again. */
  function Rejoin(w: Wire, mode: RenderMode, server: Snapshot, a: int, e: int): (r: Wire)
    ensures r.viewers == w.viewers + (if HiddenHost(mode, server, Some(a)).Some?
                                      then {HiddenHost(mode, server, Some(a)).value.uuid} else {})
  {
    var host := HiddenHost(mode, server, Some(a));
    if host.Some? then Greet(w, mode, Some(a), e, host.value) else w
  }

  /** The greeting detach may send first does not change the rider list the
      detach packet carries: removal wipes every copy of the entity. */
  lemma RejoinManifest(w: Wire, mode: RenderMode, server: Snapshot, a: int, e: int)
    ensures RemoveElement(Lookup(Rejoin(w, mode, server, a, e).passengers, a), e)
         == RemoveElement(Lookup(w.passengers, a), e)
  {
    var r := Rejoin(w, mode, server, a, e);
    if r.passengers != w.passengers {
      assert r.passengers == Observe(w.passengers, RidePacket(a, Lookup(w.passengers, a), e));
      RemoveAbsorbsAdd(Lookup(w.passengers, a), e);
    }
  }

  /** An attach packet followed by a detach packet for the same host: the
      host's recorded riders lose the entity and keep everything else in
      order; if the entity was not riding before, the manifest is back to
      where it was. */
  lemma AttachDetachManifest(pm: map<int, seq<int>>, h: int, e: int)
    ensures var attached := Observe(pm, RidePacket(h, Lookup(pm, h), e));
      var detached := Observe(attached, SetPassengers(h, RemoveElement(Lookup(attached, h), e)));
      e in Lookup(attached, h)
      && Lookup(detached, h) == RemoveElement(Lookup(pm, h), e)
      && (e !in Lookup(pm, h) ==> Lookup(detached, h) == Lookup(pm, h))
  {
    RemoveAbsorbsAdd(Lookup(pm, h), e);
    if e !in Lookup(pm, h) {
      RemoveAfterAdd(Lookup(pm, h), e);
    }
  }

  /** setBrightness(block, sky): `block << 4 | sky << 20`; the two fields do
      not overlap for levels 0..15. */
  function PackBrightness(block: int, sky: int): (r: int)
    requires 0 <= block <= 15 && 0 <= sky <= 15
    ensures 0 <= r < 0x100_0000
  {
    block * 0x10 + sky * 0x10_0000
  }

  /** The packed value gives both levels back, and its low nibble is clear. */
  lemma UnpackBrightness(block: int, sky: int)
    requires 0 <= block <= 15 && 0 <= sky <= 15
    ensures PackBrightness(block, sky) / 0x10 % 0x10 == block
    ensures PackBrightness(block, sky) / 0x10_0000 == sky
    ensures PackBrightness(block, sky) % 0x10 == 0
  {
    var b := PackBrightness(block, sky);
    var q := block + sky * 0x1_0000;
    assert b == q * 0x10;
    assert b / 0x10 == q;
    assert q == (sky * 0x1000) * 0x10 + block;
    assert q % 0x10 == block;
    assert 0 <= block * 0x10 < 0x10_0000;
  }

  /** setGlowColor: the red and blue bytes of an ARGB colour swap places,
      green stays, alpha is dropped. */
  function GlowColor(rgb: bv32): (r: bv32)
    ensures r & 0xFF == (rgb >> 16) & 0xFF
    ensures (r >> 8) & 0xFF == (rgb >> 8) & 0xFF
    ensures (r >> 16) & 0xFF == rgb & 0xFF
    ensures r >> 24 == 0
  {
    ((rgb & 0xFF_0000) >> 16) | (rgb & 0x00_FF00) | ((rgb & 0x00_00FF) << 16)
  }

  /** Swapping twice gives the colour back without its alpha byte. */
  lemma GlowColorInvolution(rgb: bv32)
    ensures GlowColor(GlowColor(rgb)) == rgb & 0xFF_FFFF
  {
  }

  /** hide appends one copy and show drops one: a show undoes exactly one
      hide, so a player hidden twice is still blacklisted after one show. */
  lemma {:induction false} ShowUndoesOneHide(blacklist: seq<Uuid>, u: Uuid)
    ensures multiset(RemoveFirst(blacklist + [u], u)) == multiset(blacklist)
    ensures u in RemoveFirst(blacklist + [u], u) <==> u in blacklist
  {
    assert u in blacklist + [u];
    assert multiset(blacklist + [u]) == multiset(blacklist) + multiset{u};
    var r := RemoveFirst(blacklist + [u], u);
    assert u in r <==> multiset(r)[u] > 0;
    assert u in blacklist <==> multiset(blacklist)[u] > 0;
  }

  /** The Hologram constructor: an id with a space throws before anything
      is built; otherwise a dead, unplaced entity with every default. */
  method NewHologram(id: string, renderMode: RenderMode, entityId: int, net: Transport) returns (r: Result<Hologram>)
    ensures r.Ok? <==> !HasSpace(id)
    ensures r.Err? ==> r.error == ValidateId(id).error
    ensures r.Ok? ==> fresh(r.value) && r.value.id == id && r.value.renderMode == renderMode
                      && r.value.dead && r.value.viewers == {} && r.value.blacklist == []
                      && r.value.taskPeriod == DefaultTaskPeriod
  {
    var v := ValidateId(id);
    if v.Fail? {
      return Err(v.error);
    }
    var h := new Hologram(id, renderMode, entityId, net);
    return Ok(h);
  }

  class Hologram {
    const id: string
    const entityId: int
    /** The period the periodic task was scheduled with. */
    const taskPeriod: int
    const net: Transport

    var updateTaskPeriod: int
    var maxDistSq: real
    var location: Option<Location>
    /** blacklistedViewers: a list, so a player can be on it several times. */
    var blacklist: seq<Uuid>
    var dead: bool
    var renderMode: RenderMode
    var attachedEntityId: Option<int>
    /** The wrapped entity's viewer set. */
    var viewers: set<Uuid>
    var brightness: int
    var glowColor: bv32
    var taskCancelled: bool

    constructor(id: string, renderMode: RenderMode, entityId: int, net: Transport)
      requires ValidateId(id).Pass?
      ensures this.id == id && this.renderMode == renderMode && this.entityId == entityId && this.net == net
      ensures taskPeriod == DefaultTaskPeriod && updateTaskPeriod == DefaultTaskPeriod && !taskCancelled
      ensures maxDistSq == DefaultMaxDistSq && brightness == -1 && glowColor == 0
      ensures dead && location.None? && blacklist == [] && attachedEntityId.None? && viewers == {}
    {
      this.id := id;
      this.entityId := entityId;
      this.net := net;
      this.renderMode := renderMode;
      updateTaskPeriod := DefaultTaskPeriod;
      taskPeriod := DefaultTaskPeriod;
      maxDistSq := DefaultMaxDistSq;
      location := None;
      blacklist := [];
      dead := true;
      attachedEntityId := None;
      viewers := {};
      brightness := -1;
      glowColor := 0;
      taskCancelled := false;
    }

    /** The observable state of this entity. */
    function WireOf(): Wire
      reads this, net, net.listener
    {
      Wire(viewers, net.sent, net.listener.passengers)
    }

    /** sendPacket: every packet is dropped in NONE mode. */
    method SendPacket(p: Packet, to: Player)
      modifies net, net.listener
      ensures renderMode == Nobody ==>
        net.sent == old(net.sent) && net.listener.passengers == old(net.listener.passengers)
      ensures renderMode != Nobody ==>
        net.sent == old(net.sent) + [Outbound(to.uuid, p)]
        && net.listener.passengers == Observe(old(net.listener.passengers), p)
    {
      if renderMode == Nobody {
        return;
      }
      net.Send(to.uuid, p);
    }

    /** addViewer: nothing at all for a current viewer; a new viewer is added
        and, when attached, gets exactly one passenger packet. */
    method AddViewer(p: Player)
      modifies this`viewers, net, net.listener
      ensures WireOf() == Greet(old(WireOf()), renderMode, attachedEntityId, entityId, p)
    {
      if p.uuid in viewers {
        return;
      }
      viewers := viewers + {p.uuid};
      if attachedEntityId.Some? {
        var a := attachedEntityId.value;
        SendPacket(RidePacket(a, net.listener.GetPassengers(a), entityId), p);
      }
    }

    method RemoveViewer(p: Player)
      modifies this`viewers
      ensures viewers == old(viewers) - {p.uuid}
    {
      viewers := viewers - {p.uuid};
    }

    /** addAllViewers: addViewer for each player of the list, in order. */
    method AddAllViewers(ps: seq<Player>)
      modifies this`viewers, net, net.listener
      ensures WireOf() == GreetAll(old(WireOf()), renderMode, attachedEntityId, entityId, ps)
    {
      ghost var w0 := WireOf();
      for i := 0 to |ps|
        invariant WireOf() == GreetAll(w0, renderMode, attachedEntityId, entityId, ps[..i])
      {
        assert ps[..i + 1][..i] == ps[..i];
        AddViewer(ps[i]);
      }
      assert ps[..|ps|] == ps;
    }

    /** Removes, one by one in hash-set order, every viewer that is not on the
        keep list (the first half of a world-tracking pass). */
    method PruneViewers(keep: seq<Player>)
      modifies this`viewers
      ensures viewers == old(viewers) * UuidsOf(keep)
    {
      var toRemove := viewers - UuidsOf(keep);
      ghost var gone: set<Uuid> := {};
      while toRemove != {}
        invariant toRemove !! gone && toRemove <= old(viewers) - UuidsOf(keep)
        invariant gone + toRemove == old(viewers) - UuidsOf(keep)
        invariant viewers == old(viewers) - gone
        decreases |toRemove|
      {
        ghost var some := Pick(toRemove);
        var u :| u in toRemove;
        viewers := viewers - {u};
        toRemove := toRemove - {u};
        gone := gone + {u};
      }
    }

    /** sendPacketsToViewers: the packet goes to every current viewer, in
        hash-set order, whatever the render mode. */
    method SendToViewers(pkt: Packet)
      modifies net, net.listener
      ensures Fanout(old(WireOf()), WireOf(), viewers, pkt)
    {
      var pending := viewers;
      ghost var done: set<Uuid> := {};
      ghost var sent0 := net.sent;
      ghost var pm0 := net.listener.passengers;
      ghost var added: seq<Outbound> := [];
      while pending != {}
        invariant pending !! done && pending + done == viewers
        invariant net.sent == sent0 + added && Broadcast(added, done, pkt)
        invariant net.listener.passengers == if done == {} then pm0 else Observe(pm0, pkt)
        decreases |pending|
      {
        ghost var some := Pick(pending);
        var u :| u in pending;
        net.Send(u, pkt);
        SnocAssoc(sent0, added, Outbound(u, pkt));
        BroadcastStep(added, done, pkt, u);
        ObserveIdempotent(pm0, pkt);
        added := added + [Outbound(u, pkt)];
        pending := pending - {u};
        done := done + {u};
      }
      FanoutIntro(old(WireOf()), WireOf(), done, pkt, added);
    }

    /** The body of the VIEWER_LIST resend for one viewer uuid: an online
        player is sent the ride packet, an unknown or offline one nothing. */
    method ResendTo(u: Uuid, server: Snapshot, ghost pm0: map<int, seq<int>>)
      requires attachedEntityId.Some? && renderMode != Nobody
      requires var pkt := RidePacket(attachedEntityId.value, Lookup(pm0, attachedEntityId.value), entityId);
        net.listener.passengers == pm0 || net.listener.passengers == Observe(pm0, pkt)
      modifies net, net.listener
      ensures var pkt := RidePacket(attachedEntityId.value, Lookup(pm0, attachedEntityId.value), entityId);
        if PlayerByUuid(server, u).Some? then
          net.sent == old(net.sent) + [Outbound(u, pkt)] && net.listener.passengers == Observe(pm0, pkt)
        else
          net.sent == old(net.sent) && net.listener.passengers == old(net.listener.passengers)
    {
      var a := attachedEntityId.value;
      var p := PlayerByUuid(server, u);
      if p.Some? {
        RidePacketStable(pm0, a, entityId);
        ObserveIdempotent(pm0, RidePacket(a, Lookup(pm0, a), entityId));
        SendPacket(RidePacket(a, net.listener.GetPassengers(a), entityId), p.value);
      }
    }

    /** The VIEWER_LIST half of the periodic pass, once attached: every online
        viewer is sent the ride packet again, in hash-set order. */
    method ResendRide(server: Snapshot)
      requires attachedEntityId.Some? && renderMode != Nobody
      modifies net, net.listener
      ensures Fanout(old(WireOf()), WireOf(), OnlineAmong(viewers, server),
                     RidePacket(attachedEntityId.value, Lookup(old(net.listener.passengers), attachedEntityId.value), entityId))
    {
      var a := attachedEntityId.value;
      var pending := viewers;
      ghost var done: set<Uuid> := {};
      ghost var sent0 := net.sent;
      ghost var pm0 := net.listener.passengers;
      ghost var pkt := RidePacket(a, Lookup(pm0, a), entityId);
      ghost var added: seq<Outbound> := [];
      ghost var to: set<Uuid> := {};
      while pending != {}
        invariant pending !! done && pending + done == viewers && to == OnlineAmong(done, server)
        invariant net.sent == sent0 + added && Broadcast(added, to, pkt)
        invariant net.listener.passengers == if to == {} then pm0 else Observe(pm0, pkt)
        decreases |pending|
      {
        ghost var some := Pick(pending);
        var u :| u in pending;
        ResendStep(added, done, u, server, pkt);
        ResendTo(u, server, pm0);
        if PlayerByUuid(server, u).Some? {
          SnocAssoc(sent0, added, Outbound(u, pkt));
          added := added + [Outbound(u, pkt)];
          to := to + {u};
        }
        pending := pending - {u};
        done := done + {u};
      }
      FanoutIntro(old(WireOf()), WireOf(), to, pkt, added);
    }

    /** teleport: the entity's location becomes the new one. */
    method Teleport(newLocation: Location)
      modifies this`location
      ensures location == Some(newLocation)
    {
      location := Some(newLocation);
    }

    /** The VIEWER_LIST branch of updateAffectedPlayers: the entity follows
        the player it rides, and the ride is sent again to the viewers. */
    method FollowHost(server: Snapshot)
      requires renderMode == ViewerList
      modifies this`location, net, net.listener
      ensures location == HostSpot(old(location), server, attachedEntityId)
      ensures attachedEntityId.None? ==> WireOf() == old(WireOf())
      ensures attachedEntityId.Some? ==>
        Fanout(old(WireOf()), WireOf(), OnlineAmong(viewers, server),
               RidePacket(attachedEntityId.value, Lookup(old(net.listener.passengers), attachedEntityId.value), entityId))
    {
      if attachedEntityId.Some? {
        var host := PlayerByEntityId(server, attachedEntityId.value);
        if host.Some? && host.value.location.world.Some? {
          Teleport(host.value.location);
        }
        ResendRide(server);
      }
    }

    /** The world-tracking branch of updateAffectedPlayers: viewers off the
        candidate list are dropped, then every candidate is added. */
    method RefreshWorld(server: Snapshot)
      requires WorldTracked(renderMode, location)
      modifies this`viewers, net, net.listener
      ensures WireOf() == WorldPass(old(WireOf()), renderMode, attachedEntityId, entityId,
                              KeepList(renderMode, server, blacklist, location.value, maxDistSq, attachedEntityId))
      ensures viewers == Target(renderMode, server, blacklist, location.value, maxDistSq, attachedEntityId)
    {
      var keep := KeepList(renderMode, server, blacklist, location.value, maxDistSq, attachedEntityId);
      PruneViewers(keep);
      AddAllViewers(keep);
      WorldPassViewers(old(WireOf()), renderMode, server, blacklist, location.value, maxDistSq, attachedEntityId, entityId);
    }

    /** updateAffectedPlayers, the periodic pass against a snapshot of the
        server's players. */
    method UpdateAffectedPlayers(server: Snapshot)
      modifies this`viewers, this`location, net, net.listener
      ensures dead ==> WireOf() == old(WireOf()) && location == old(location)
      ensures !dead && renderMode == ViewerList ==>
        location == HostSpot(old(location), server, attachedEntityId)
        && (attachedEntityId.None? ==> WireOf() == old(WireOf()))
        && (attachedEntityId.Some? ==>
              Fanout(old(WireOf()), WireOf(), OnlineAmong(viewers, server),
                     RidePacket(attachedEntityId.value, Lookup(old(net.listener.passengers), attachedEntityId.value), entityId)))
      ensures !dead && renderMode != ViewerList ==> location == old(location)
      ensures !dead && renderMode != ViewerList && !WorldTracked(renderMode, location) ==> WireOf() == old(WireOf())
      ensures !dead && WorldTracked(renderMode, location) ==>
        WireOf() == WorldPass(old(WireOf()), renderMode, attachedEntityId, entityId,
                              KeepList(renderMode, server, blacklist, location.value, maxDistSq, attachedEntityId))
        && viewers == Target(renderMode, server, blacklist, location.value, maxDistSq, attachedEntityId)
    {
      if dead {
        return;
      }
      if renderMode == ViewerList {
        FollowHost(server);
        return;
      }
      if location.None? {
        // The source logs a warning here.
        return;
      }
      if location.value.world.Some? && TracksWorld(renderMode) {
        RefreshWorld(server);
      }
    }

    /** attach: the entity rides host `eid`. In NOT_ATTACHED_PLAYER mode the
        host player, if online, stops viewing; then every viewer is sent the
        host's recorded riders plus this entity. */
    method Attach(eid: int, server: Snapshot)
      modifies this`attachedEntityId, this`viewers, net, net.listener
      ensures attachedEntityId == Some(eid)
      ensures viewers == if HiddenHost(renderMode, server, Some(eid)).Some?
                         then old(viewers) - {HiddenHost(renderMode, server, Some(eid)).value.uuid}
                         else old(viewers)
      ensures Fanout(old(WireOf()).(viewers := viewers), WireOf(), viewers,
                     RidePacket(eid, Lookup(old(net.listener.passengers), eid), entityId))
    {
      attachedEntityId := Some(eid);
      if renderMode == NotAttachedPlayer {
        var host := PlayerByEntityId(server, eid);
        if host.Some? {
          RemoveViewer(host.value);
        }
      }
      var attachPacket := RidePacket(eid, net.listener.GetPassengers(eid), entityId);
      SendToViewers(attachPacket);
    }

    /** detach: nothing when not attached. Otherwise, in NOT_ATTACHED_PLAYER
        mode the host player is greeted again; every viewer is sent the
        host's riders without this entity, and the attachment is cleared. */
    method Detach(server: Snapshot)
      modifies this`attachedEntityId, this`viewers, net, net.listener
      ensures attachedEntityId.None?
      ensures old(attachedEntityId).None? ==> WireOf() == old(WireOf())
      ensures old(attachedEntityId).Some? ==>
        var a := old(attachedEntityId).value;
        var mid := Rejoin(old(WireOf()), renderMode, server, a, entityId);
        viewers == mid.viewers
        && Fanout(mid, WireOf(), viewers, SetPassengers(a, RemoveElement(Lookup(old(net.listener.passengers), a), entityId)))
    {
      if attachedEntityId.None? {
        return;
      }
      var a := attachedEntityId.value;
      if renderMode == NotAttachedPlayer {
        var host := PlayerByEntityId(server, a);
        if host.Some? {
          AddViewer(host.value);
        }
      }
      ghost var mid := WireOf();
      RejoinManifest(old(WireOf()), renderMode, server, a, entityId);
      var detachPacket := SetPassengers(a, RemoveElement(net.listener.GetPassengers(a), entityId));
      SendToViewers(detachPacket);
      attachedEntityId := None;
    }

    /** setRenderMode: null is an IllegalArgumentException and the current
        mode is a no-op. Otherwise, leaving NOT_ATTACHED_PLAYER first greets
        the host player again; then the mode changes and a pass runs. */
    method SetRenderMode(newMode: Option<RenderMode>, server: Snapshot) returns (r: Outcome)
      modifies this`renderMode, this`viewers, this`location, net, net.listener
      ensures r.Pass? <==> newMode.Some?
      ensures r.Fail? ==> r.error.IllegalArgument?
      ensures renderMode == if newMode.Some? then newMode.value else old(renderMode)
      ensures newMode.None? || newMode.value == old(renderMode) ==>
        WireOf() == old(WireOf()) && location == old(location)
      ensures newMode.Some? && newMode.value != old(renderMode) && !dead && WorldTracked(newMode.value, location) ==>
        viewers == Target(newMode.value, server, blacklist, location.value, maxDistSq, attachedEntityId)
      ensures newMode.Some? && newMode.value != old(renderMode) && (dead || !WorldTracked(newMode.value, location)) ==>
        viewers == old(viewers) + if HiddenHost(old(renderMode), server, attachedEntityId).Some?
                                  then {HiddenHost(old(renderMode), server, attachedEntityId).value.uuid} else {}
    {
      if newMode.None? {
        return Fail(IllegalArgument("RenderMode cannot be null"));
      }
      if renderMode == newMode.value {
        return Pass;
      }
      if renderMode == NotAttachedPlayer && attachedEntityId.Some? {
        var host := PlayerByEntityId(server, attachedEntityId.value);
        if host.Some? {
          AddViewer(host.value);
        }
      }
      renderMode := newMode.value;
      UpdateAffectedPlayers(server);
      return Pass;
    }

    /** show: one blacklist entry of the player goes, then the player is
        added as a viewer whatever the render mode. */
    method Show(p: Player)
      modifies this`blacklist, this`viewers, net, net.listener
      ensures blacklist == RemoveFirst(old(blacklist), p.uuid)
      ensures WireOf() == Greet(old(WireOf()), renderMode, attachedEntityId, entityId, p)
    {
      blacklist := RemoveFirst(blacklist, p.uuid);
      AddViewer(p);
    }

    /** hide: the player is blacklisted once more and stops viewing. */
    method Hide(p: Player)
      modifies this`blacklist, this`viewers
      ensures blacklist == old(blacklist) + [p.uuid]
      ensures viewers == old(viewers) - {p.uuid}
    {
      blacklist := blacklist + [p.uuid];
      RemoveViewer(p);
    }

    /** spawn: the entity is placed (pitch and yaw zeroed on request) and is
        no longer dead. */
    method Spawn(loc: Location, ignorePitchYaw: bool)
      modifies this`location, this`dead
      ensures location == Some(if ignorePitchYaw then loc.(pitch := 0.0, yaw := 0.0) else loc)
      ensures !dead
    {
      location := Some(if ignorePitchYaw then loc.(pitch := 0.0, yaw := 0.0) else loc);
      dead := false;
    }

    /** kill: the periodic task is cancelled and the entity is dead, so every
        later pass is a no-op. */
    method Kill()
      modifies this`dead, this`taskCancelled
      ensures dead && taskCancelled
    {
      taskCancelled := true;
      dead := true;
    }

    /** setUpdateTaskPeriod: only the field; the running task keeps the
        period it was scheduled with. */
    method SetUpdateTaskPeriod(period: int)
      modifies this`updateTaskPeriod
      ensures updateTaskPeriod == period
    {
      updateTaskPeriod := period;
    }

    method SetMaxPlayerRenderDistanceSquared(d: real)
      modifies this`maxDistSq
      ensures maxDistSq == d
    {
      maxDistSq := d;
    }

    /** setBrightness(int): the raw packed value, unchecked. */
    method SetBrightnessRaw(b: int)
      modifies this`brightness
      ensures brightness == b
    {
      brightness := b;
    }

    /** setBrightness(block, sky): each level outside 0..15 is an
        IllegalArgumentException (block checked first); else both are packed. */
    method SetBrightness(block: int, sky: int) returns (r: Outcome)
      modifies this`brightness
      ensures r.Pass? <==> 0 <= block <= 15 && 0 <= sky <= 15
      ensures r.Fail? ==> r.error.IllegalArgument? && brightness == old(brightness)
      ensures r.Fail? && !(0 <= block <= 15) ==> r.error.message == "blockLight must be between 0 and 15"
      ensures r.Pass? ==> brightness == PackBrightness(block, sky)
    {
      if block < 0 || block > 15 {
        return Fail(IllegalArgument("blockLight must be between 0 and 15"));
      }
      if sky < 0 || sky > 15 {
        return Fail(IllegalArgument("skyLight must be between 0 and 15"));
      }
      brightness := PackBrightness(block, sky);
      return Pass;
    }

    method SetGlowColor(argb: bv32)
      modifies this`glowColor
      ensures glowColor == GlowColor(argb)
    {
      glowColor := GlowColor(argb);
    }
  }
}
