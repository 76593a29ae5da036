/** InteractionBox: a clickable hit-box entity running the same viewer engine
    as a hologram, with a fixed render mode, an unguarded addViewer, a
    callback fired by the interaction router, and show/hide that touch the
    blacklist the other way round. */
module Interactions {
  import opened Common
  import opened Protocol
  import opened Passengers
  import opened Visibility
  import opened Holograms

  /** validateId of a box: the same rule, its own message. */
  function ValidateBoxId(id: string): (r: Outcome)
    ensures r.Pass? <==> !HasSpace(id)
    ensures r.Fail? ==> r.error.IllegalArgument?
  {
    if HasSpace(id) then Fail(IllegalArgument("The interaction ID cannot contain spaces! (" + id + ")"))
    else Pass
  }

  /** The source's Vector3F. */
  datatype Vector3 = Vector3(x: real, y: real, z: real)

  /** InteractionBox.addViewer on the observable state: no already-a-viewer
      guard, so an attached box resends its ride packet every time. */
  function Touch(w: Wire, mode: RenderMode, attached: Option<int>, e: int, p: Player): Wire
  {
    var w' := w.(viewers := w.viewers + {p.uuid});
    if attached.Some? then SendVia(w', mode, RidePacket(attached.value, Lookup(w.passengers, attached.value), e), p.uuid)
    else w'
  }

  /** InteractionBox.addAllViewers: Touch each player in order. */
  function TouchAll(w: Wire, mode: RenderMode, attached: Option<int>, e: int, ps: seq<Player>): Wire
  {
    if ps == [] then w
    else Touch(TouchAll(w, mode, attached, e, ps[..|ps| - 1]), mode, attached, e, ps[|ps| - 1])
  }

  /** The uuids of a list of players, in list order, repeats kept. */
  function UuidList(ps: seq<Player>): (r: seq<Uuid>)
    ensures |r| == |ps|
  {
    if ps == [] then [] else UuidList(ps[..|ps| - 1]) + [ps[|ps| - 1].uuid]
  }

  /** The contrast with a hologram: touching a current viewer of an attached
      box sends the ride packet again, where a hologram's greeting sends
      nothing. */
  lemma TouchRepeats(w: Wire, mode: RenderMode, a: int, e: int, p: Player)
    requires p.uuid in w.viewers && mode != Nobody
    ensures Touch(w, mode, Some(a), e, p).sent
         == w.sent + [Outbound(p.uuid, RidePacket(a, Lookup(w.passengers, a), e))]
    ensures Greet(w, mode, Some(a), e, p) == w
  {
    assert w.viewers + {p.uuid} == w.viewers;
  }

  /** addAllViewers makes every listed player a viewer and removes no one. */
  lemma {:induction false} TouchAllViewers(w: Wire, mode: RenderMode, attached: Option<int>, e: int, ps: seq<Player>)
    ensures TouchAll(w, mode, attached, e, ps).viewers == w.viewers + UuidsOf(ps)
  {
    if ps != [] {
      var init, last := ps[..|ps| - 1], ps[|ps| - 1];
      assert ps == init + [last];
      assert UuidsOf(ps) == UuidsOf(init) + {last.uuid};
      TouchAllViewers(w, mode, attached, e, init);
    }
  }

  /** Unattached, or in NONE mode, addAllViewers sends nothing. */
  lemma {:induction false} TouchAllQuiet(w: Wire, mode: RenderMode, attached: Option<int>, e: int, ps: seq<Player>)
    requires attached.None? || mode == Nobody
    ensures TouchAll(w, mode, attached, e, ps).sent == w.sent
    ensures TouchAll(w, mode, attached, e, ps).passengers == w.passengers
  {
    if ps != [] {
      TouchAllQuiet(w, mode, attached, e, ps[..|ps| - 1]);
    }
  }

  /** Attached, addAllViewers sends one ride packet per list entry, viewer or
      not and repeats included, in list order, all with the first rider list. */
  lemma {:induction false} TouchAllPackets(w: Wire, mode: RenderMode, attached: Option<int>, e: int, ps: seq<Player>)
    requires attached.Some? && mode != Nobody
    ensures var pkt := RidePacket(attached.value, Lookup(w.passengers, attached.value), e);
      TouchAll(w, mode, attached, e, ps).sent == w.sent + PacketsTo(UuidList(ps), pkt)
      && TouchAll(w, mode, attached, e, ps).passengers == if ps == [] then w.passengers else Observe(w.passengers, pkt)
  {
    if ps != [] {
      var init, last := ps[..|ps| - 1], ps[|ps| - 1];
      var a := attached.value;
      var pkt := RidePacket(a, Lookup(w.passengers, a), e);
      var wi := TouchAll(w, mode, attached, e, init);
      TouchAllPackets(w, mode, attached, e, init);
      RidePacketStable(w.passengers, a, e);
      ObserveIdempotent(w.passengers, pkt);
      assert RidePacket(a, Lookup(wi.passengers, a), e) == pkt;
      PacketsToSnoc(UuidList(init), last.uuid, pkt);
      SnocAssoc(w.sent, PacketsTo(UuidList(init), pkt), Outbound(last.uuid, pkt));
    }
  }

  /** A world-tracking pass of a box: prune, then the unguarded addAllViewers. */
  function BoxPass(w: Wire, mode: RenderMode, attached: Option<int>, e: int, keep: seq<Player>): Wire
  {
    TouchAll(Prune(w, keep), mode, attached, e, keep)
  }

  /** The same candidate rule as a hologram: after a pass the viewers are
      exactly the target set. */
  lemma BoxPassViewers(w: Wire, mode: RenderMode, server: Snapshot, blacklist: seq<Uuid>, at: Location,
                       maxDistSq: real, attached: Option<int>, e: int)
    ensures BoxPass(w, mode, attached, e, KeepList(mode, server, blacklist, at, maxDistSq, attached)).viewers
         == Target(mode, server, blacklist, at, maxDistSq, attached)
  {
    var keep := KeepList(mode, server, blacklist, at, maxDistSq, attached);
    TouchAllViewers(Prune(w, keep), mode, attached, e, keep);
  }

  /** Attached, a box pass resends the ride packet to every kept player, old
      viewers included. */
  lemma BoxPassPackets(w: Wire, mode: RenderMode, attached: Option<int>, e: int, keep: seq<Player>)
    requires attached.Some? && mode != Nobody
    ensures BoxPass(w, mode, attached, e, keep).sent
         == w.sent + PacketsTo(UuidList(keep), RidePacket(attached.value, Lookup(w.passengers, attached.value), e))
  {
    TouchAllPackets(Prune(w, keep), mode, attached, e, keep);
  }

  /** detach's first step on a box in NOT_ATTACHED_PLAYER mode. */
  function BoxRejoin(w: Wire, mode: RenderMode, server: Snapshot, a: int, e: int): (r: Wire)
    ensures r.viewers == w.viewers + (if HiddenHost(mode, server, Some(a)).Some?
                                      then {HiddenHost(mode, server, Some(a)).value.uuid} else {})
  {
    var host := HiddenHost(mode, server, Some(a));
    if host.Some? then Touch(w, mode, Some(a), e, host.value) else w
  }

  /** The touch detach may send first does not change the detach packet. */
  lemma BoxRejoinManifest(w: Wire, mode: RenderMode, server: Snapshot, a: int, e: int)
    ensures RemoveElement(Lookup(BoxRejoin(w, mode, server, a, e).passengers, a), e)
         == RemoveElement(Lookup(w.passengers, a), e)
  {
    var r := BoxRejoin(w, mode, server, a, e);
    if r.passengers != w.passengers {
      assert r.passengers == Observe(w.passengers, RidePacket(a, Lookup(w.passengers, a), e));
      RemoveAbsorbsAdd(Lookup(w.passengers, a), e);
    }
  }

  /** InteractionBox.show's blacklist step as written: the player is added. */
  function ShowBlacklist(blacklist: seq<Uuid>, u: Uuid): (r: seq<Uuid>)
    ensures multiset(r) == multiset(blacklist) + multiset{u}
  {
    blacklist + [u]
  }

  /** The blacklist step show evidently intends, as Hologram.show does it:
      one entry of the player is removed. */
  function ShowBlacklistFixed(blacklist: seq<Uuid>, u: Uuid): (r: seq<Uuid>)
    ensures u in blacklist ==> multiset(r) == multiset(blacklist) - multiset{u}
    ensures u !in blacklist ==> r == blacklist
  {
    RemoveFirst(blacklist, u)
  }

  /** As written, show undoes itself: whoever a box is shown to is dropped by
      the next world-tracking pass, in every mode that has one. */
  lemma ShowAsWrittenDroppedByPass(mode: RenderMode, server: Snapshot, blacklist: seq<Uuid>, at: Location,
                                   maxDistSq: real, attached: Option<int>, w: Wire, e: int, p: Player)
    ensures p.uuid !in BoxPass(Touch(w, mode, attached, e, p), mode, attached, e,
                               KeepList(mode, server, ShowBlacklist(blacklist, p.uuid), at, maxDistSq, attached)).viewers
  {
    BoxPassViewers(Touch(w, mode, attached, e, p), mode, server, ShowBlacklist(blacklist, p.uuid), at, maxDistSq, attached, e);
    BlacklistedNeverTargeted(mode, server, ShowBlacklist(blacklist, p.uuid), at, maxDistSq, attached, p.uuid);
  }

  /** Fixed, show lasts: an online player in range that was blacklisted at
      most once stays a viewer of an ALL box through the next pass. */
  lemma ShowFixedKeptByPass(server: Snapshot, blacklist: seq<Uuid>, at: Location, maxDistSq: real,
                            attached: Option<int>, w: Wire, e: int, p: Player)
    requires p in server && p.online && p.location.world == at.world && DistSq(p.location, at) <= maxDistSq
    requires multiset(blacklist)[p.uuid] <= 1
    ensures p.uuid in BoxPass(Touch(w, All, attached, e, p), All, attached, e,
                              KeepList(All, server, ShowBlacklistFixed(blacklist, p.uuid), at, maxDistSq, attached)).viewers
  {
    var bl := ShowBlacklistFixed(blacklist, p.uuid);
    assert p.uuid !in bl by {
      assert multiset(bl)[p.uuid] == 0;
    }
    assert Eligible(p, bl, at, maxDistSq);
    BoxPassViewers(Touch(w, All, attached, e, p), All, server, bl, at, maxDistSq, attached, e);
  }

  /** The onInteract callback, recording whom it was called for. */
  class Callback {
    var calls: seq<Uuid>

    constructor()
      ensures calls == []
    {
      calls := [];
    }

    method OnInteract(p: Player)
      modifies this
      ensures calls == old(calls) + [p.uuid]
    {
      calls := calls + [p.uuid];
    }
  }

  /** The InteractionBox constructor: an id with a space throws. */
  method NewInteractionBox(id: string, renderMode: RenderMode, onInteract: Callback, entityId: int, net: Transport)
    returns (r: Result<InteractionBox>)
    ensures r.Ok? <==> !HasSpace(id)
    ensures r.Err? ==> r.error == ValidateBoxId(id).error
    ensures r.Ok? ==> fresh(r.value) && r.value.id == id && r.value.renderMode == renderMode
                      && r.value.onInteract == onInteract && r.value.dead && r.value.viewers == {}
  {
    var v := ValidateBoxId(id);
    if v.Fail? {
      return Err(v.error);
    }
    var b := new InteractionBox(id, renderMode, onInteract, entityId, net);
    return Ok(b);
  }

  class InteractionBox {
    const id: string
    const entityId: int
    /** Final in the source: no method changes it after construction. */
    const renderMode: RenderMode
    const onInteract: Callback
    /** The period the periodic task was scheduled with. */
    const taskPeriod: int
    const net: Transport

    var updateTaskPeriod: int
    var maxDistSq: real
    var width: real
    var height: real
    var responsive: bool
    var location: Option<Location>
    var blacklist: seq<Uuid>
    var dead: bool
    var attachedEntityId: Option<int>
    var viewers: set<Uuid>
    var taskCancelled: bool

    constructor(id: string, renderMode: RenderMode, onInteract: Callback, entityId: int, net: Transport)
      requires ValidateBoxId(id).Pass?
      ensures this.id == id && this.renderMode == renderMode && this.onInteract == onInteract
      ensures this.entityId == entityId && this.net == net
      ensures taskPeriod == DefaultTaskPeriod && updateTaskPeriod == DefaultTaskPeriod && !taskCancelled
      ensures maxDistSq == DefaultMaxDistSq && width == 1.0 && height == 1.0 && responsive
      ensures dead && location.None? && blacklist == [] && attachedEntityId.None? && viewers == {}
    {
      this.id := id;
      this.entityId := entityId;
      this.net := net;
      this.renderMode := renderMode;
      this.onInteract := onInteract;
      updateTaskPeriod := DefaultTaskPeriod;
      taskPeriod := DefaultTaskPeriod;
      maxDistSq := DefaultMaxDistSq;
      width := 1.0;
      height := 1.0;
      responsive := true;
      location := None;
      blacklist := [];
      dead := true;
      attachedEntityId := None;
      viewers := {};
      taskCancelled := false;
    }

    /** The observable state of this box. */
    function WireOf(): Wire
      reads this, net, net.listener
    {
      Wire(viewers, net.sent, net.listener.passengers)
    }

    /** sendPacket: every packet is dropped in NONE mode. */
    method SendPacket(p: Packet, to: Player)
      modifies net, net.listener
      ensures renderMode == Nobody ==>
        net.sent == old(net.sent) && net.listener.passengers == old(net.listener.passengers)
      ensures renderMode != Nobody ==>
        net.sent == old(net.sent) + [Outbound(to.uuid, p)]
        && net.listener.passengers == Observe(old(net.listener.passengers), p)
    {
      if renderMode == Nobody {
        return;
      }
      net.Send(to.uuid, p);
    }

    /** addViewer: unguarded; when attached, every call sends one packet. */
    method AddViewer(p: Player)
      modifies this`viewers, net, net.listener
      ensures WireOf() == Touch(old(WireOf()), renderMode, attachedEntityId, entityId, p)
    {
      viewers := viewers + {p.uuid};
      if attachedEntityId.Some? {
        var a := attachedEntityId.value;
        SendPacket(RidePacket(a, net.listener.GetPassengers(a), entityId), p);
      }
    }

    method RemoveViewer(p: Player)
      modifies this`viewers
      ensures viewers == old(viewers) - {p.uuid}
    {
      viewers := viewers - {p.uuid};
    }

    /** addAllViewers: addViewer for each player of the list, in order. */
    method AddAllViewers(ps: seq<Player>)
      modifies this`viewers, net, net.listener
      ensures WireOf() == TouchAll(old(WireOf()), renderMode, attachedEntityId, entityId, ps)
    {
      ghost var w0 := WireOf();
      for i := 0 to |ps|
        invariant WireOf() == TouchAll(w0, renderMode, attachedEntityId, entityId, ps[..i])
      {
        assert ps[..i + 1][..i] == ps[..i];
        AddViewer(ps[i]);
      }
      assert ps[..|ps|] == ps;
    }

    /** Removes, in hash-set order, every viewer not on the keep list. */
    method PruneViewers(keep: seq<Player>)
      modifies this`viewers
      ensures viewers == old(viewers) * UuidsOf(keep)
    {
      var toRemove := viewers - UuidsOf(keep);
      ghost var gone: set<Uuid> := {};
      while toRemove != {}
        invariant toRemove !! gone && toRemove <= old(viewers) - UuidsOf(keep)
        invariant gone + toRemove == old(viewers) - UuidsOf(keep)
        invariant viewers == old(viewers) - gone
        decreases |toRemove|
      {
        ghost var some := Pick(toRemove);
        var u :| u in toRemove;
        viewers := viewers - {u};
        toRemove := toRemove - {u};
        gone := gone + {u};
      }
    }

    /** sendPacketsToViewers: the packet goes to every current viewer. */
    method SendToViewers(pkt: Packet)
      modifies net, net.listener
      ensures Fanout(old(WireOf()), WireOf(), viewers, pkt)
    {
      var pending := viewers;
      ghost var done: set<Uuid> := {};
      ghost var sent0 := net.sent;
      ghost var pm0 := net.listener.passengers;
      ghost var added: seq<Outbound> := [];
      while pending != {}
        invariant pending !! done && pending + done == viewers
        invariant net.sent == sent0 + added && Broadcast(added, done, pkt)
        invariant net.listener.passengers == if done == {} then pm0 else Observe(pm0, pkt)
        decreases |pending|
      {
        ghost var some := Pick(pending);
        var u :| u in pending;
        net.Send(u, pkt);
        SnocAssoc(sent0, added, Outbound(u, pkt));
        BroadcastStep(added, done, pkt, u);
        ObserveIdempotent(pm0, pkt);
        added := added + [Outbound(u, pkt)];
        pending := pending - {u};
        done := done + {u};
      }
      FanoutIntro(old(WireOf()), WireOf(), done, pkt, added);
    }

    /** The VIEWER_LIST resend for one viewer uuid. */
    method ResendTo(u: Uuid, server: Snapshot, ghost pm0: map<int, seq<int>>)
      requires attachedEntityId.Some? && renderMode != Nobody
      requires var pkt := RidePacket(attachedEntityId.value, Lookup(pm0, attachedEntityId.value), entityId);
        net.listener.passengers == pm0 || net.listener.passengers == Observe(pm0, pkt)
      modifies net, net.listener
      ensures var pkt := RidePacket(attachedEntityId.value, Lookup(pm0, attachedEntityId.value), entityId);
        if PlayerByUuid(server, u).Some? then
          net.sent == old(net.sent) + [Outbound(u, pkt)] && net.listener.passengers == Observe(pm0, pkt)
        else
          net.sent == old(net.sent) && net.listener.passengers == old(net.listener.passengers)
    {
      var a := attachedEntityId.value;
      var p := PlayerByUuid(server, u);
      if p.Some? {
        RidePacketStable(pm0, a, entityId);
        ObserveIdempotent(pm0, RidePacket(a, Lookup(pm0, a), entityId));
        SendPacket(RidePacket(a, net.listener.GetPassengers(a), entityId), p.value);
      }
    }

    /** The VIEWER_LIST half of the periodic pass, once attached. */
    method ResendRide(server: Snapshot)
      requires attachedEntityId.Some? && renderMode != Nobody
      modifies net, net.listener
      ensures Fanout(old(WireOf()), WireOf(), OnlineAmong(viewers, server),
                     RidePacket(attachedEntityId.value, Lookup(old(net.listener.passengers), attachedEntityId.value), entityId))
    {
      var a := attachedEntityId.value;
      var pending := viewers;
      ghost var done: set<Uuid> := {};
      ghost var sent0 := net.sent;
      ghost var pm0 := net.listener.passengers;
      ghost var pkt := RidePacket(a, Lookup(pm0, a), entityId);
      ghost var added: seq<Outbound> := [];
      ghost var to: set<Uuid> := {};
      while pending != {}
        invariant pending !! done && pending + done == viewers && to == OnlineAmong(done, server)
        invariant net.sent == sent0 + added && Broadcast(added, to, pkt)
        invariant net.listener.passengers == if to == {} then pm0 else Observe(pm0, pkt)
        decreases |pending|
      {
        ghost var some := Pick(pending);
        var u :| u in pending;
        ResendStep(added, done, u, server, pkt);
        ResendTo(u, server, pm0);
        if PlayerByUuid(server, u).Some? {
          SnocAssoc(sent0, added, Outbound(u, pkt));
          added := added + [Outbound(u, pkt)];
          to := to + {u};
        }
        pending := pending - {u};
        done := done + {u};
      }
      FanoutIntro(old(WireOf()), WireOf(), to, pkt, added);
    }

    method Teleport(newLocation: Location)
      modifies this`location
      ensures location == Some(newLocation)
    {
      location := Some(newLocation);
    }

    /** The VIEWER_LIST branch of updateAffectedPlayers: the entity follows
        the player it rides, and the ride is sent again to the viewers. */
    method FollowHost(server: Snapshot)
      requires renderMode == ViewerList
      modifies this`location, net, net.listener
      ensures location == HostSpot(old(location), server, attachedEntityId)
      ensures attachedEntityId.None? ==> WireOf() == old(WireOf())
      ensures attachedEntityId.Some? ==>
        Fanout(old(WireOf()), WireOf(), OnlineAmong(viewers, server),
               RidePacket(attachedEntityId.value, Lookup(old(net.listener.passengers), attachedEntityId.value), entityId))
    {
      if attachedEntityId.Some? {
        var host := PlayerByEntityId(server, attachedEntityId.value);
        if host.Some? && host.value.location.world.Some? {
          Teleport(host.value.location);
        }
        ResendRide(server);
      }
    }

    /** The world-tracking branch of updateAffectedPlayers: viewers off the
        candidate list are dropped, then every candidate is added. */
    method RefreshWorld(server: Snapshot)
      requires WorldTracked(renderMode, location)
      modifies this`viewers, net, net.listener
      ensures WireOf() == BoxPass(old(WireOf()), renderMode, attachedEntityId, entityId,
                     KeepList(renderMode, server, blacklist, location.value, maxDistSq, attachedEntityId))
      ensures viewers == Target(renderMode, server, blacklist, location.value, maxDistSq, attachedEntityId)
    {
      var keep := KeepList(renderMode, server, blacklist, location.value, maxDistSq, attachedEntityId);
      PruneViewers(keep);
      AddAllViewers(keep);
      BoxPassViewers(old(WireOf()), renderMode, server, blacklist, location.value, maxDistSq, attachedEntityId, entityId);
    }

    /** updateAffectedPlayers: the same dead/no-location skips and candidate
        rule as a hologram, with the unguarded addViewer. */
    method UpdateAffectedPlayers(server: Snapshot)
      modifies this`viewers, this`location, net, net.listener
      ensures dead ==> WireOf() == old(WireOf()) && location == old(location)
      ensures !dead && renderMode == ViewerList ==>
        location == HostSpot(old(location), server, attachedEntityId)
        && (attachedEntityId.None? ==> WireOf() == old(WireOf()))
        && (attachedEntityId.Some? ==>
              Fanout(old(WireOf()), WireOf(), OnlineAmong(viewers, server),
                     RidePacket(attachedEntityId.value, Lookup(old(net.listener.passengers), attachedEntityId.value), entityId)))
      ensures !dead && renderMode != ViewerList ==> location == old(location)
      ensures !dead && renderMode != ViewerList && !WorldTracked(renderMode, location) ==> WireOf() == old(WireOf())
      ensures !dead && WorldTracked(renderMode, location) ==>
        WireOf() == BoxPass(old(WireOf()), renderMode, attachedEntityId, entityId,
                            KeepList(renderMode, server, blacklist, location.value, maxDistSq, attachedEntityId))
        && viewers == Target(renderMode, server, blacklist, location.value, maxDistSq, attachedEntityId)
    {
      if dead {
        return;
      }
      if renderMode == ViewerList {
        FollowHost(server);
        return;
      }
      if location.None? {
        // The source logs a warning here.
        return;
      }
      if location.value.world.Some? && TracksWorld(renderMode) {
        RefreshWorld(server);
      }
    }

    /** attach: as for a hologram. */
    method Attach(eid: int, server: Snapshot)
      modifies this`attachedEntityId, this`viewers, net, net.listener
      ensures attachedEntityId == Some(eid)
      ensures viewers == if HiddenHost(renderMode, server, Some(eid)).Some?
                         then old(viewers) - {HiddenHost(renderMode, server, Some(eid)).value.uuid}
                         else old(viewers)
      ensures Fanout(old(WireOf()).(viewers := viewers), WireOf(), viewers,
                     RidePacket(eid, Lookup(old(net.listener.passengers), eid), entityId))
    {
      attachedEntityId := Some(eid);
      if renderMode == NotAttachedPlayer {
        var host := PlayerByEntityId(server, eid);
        if host.Some? {
          RemoveViewer(host.value);
        }
      }
      var attachPacket := RidePacket(eid, net.listener.GetPassengers(eid), entityId);
      SendToViewers(attachPacket);
    }

    /** detach: as for a hologram, with the unguarded addViewer. */
    method Detach(server: Snapshot)
      modifies this`attachedEntityId, this`viewers, net, net.listener
      ensures attachedEntityId.None?
      ensures old(attachedEntityId).None? ==> WireOf() == old(WireOf())
      ensures old(attachedEntityId).Some? ==>
        var a := old(attachedEntityId).value;
        var mid := BoxRejoin(old(WireOf()), renderMode, server, a, entityId);
        viewers == mid.viewers
        && Fanout(mid, WireOf(), viewers, SetPassengers(a, RemoveElement(Lookup(old(net.listener.passengers), a), entityId)))
    {
      if attachedEntityId.None? {
        return;
      }
      var a := attachedEntityId.value;
      if renderMode == NotAttachedPlayer {
        var host := PlayerByEntityId(server, a);
        if host.Some? {
          AddViewer(host.value);
        }
      }
      BoxRejoinManifest(old(WireOf()), renderMode, server, a, entityId);
      var detachPacket := SetPassengers(a, RemoveElement(net.listener.GetPassengers(a), entityId));
      SendToViewers(detachPacket);
      attachedEntityId := None;
    }

    /** show, as written: the player is blacklisted once more and added as
        a viewer. */
    method Show(p: Player)
      modifies this`blacklist, this`viewers, net, net.listener
      ensures blacklist == ShowBlacklist(old(blacklist), p.uuid)
      ensures WireOf() == Touch(old(WireOf()), renderMode, attachedEntityId, entityId, p)
    {
      blacklist := blacklist + [p.uuid];
      AddViewer(p);
    }

    /** hide, as written: one blacklist entry of the player goes and the
        player stops viewing. */
    method Hide(p: Player)
      modifies this`blacklist, this`viewers
      ensures blacklist == RemoveFirst(old(blacklist), p.uuid)
      ensures viewers == old(viewers) - {p.uuid}
    {
      blacklist := RemoveFirst(blacklist, p.uuid);
      RemoveViewer(p);
    }

    /** show as evidently intended: unlisted once, then added as a viewer. */
    method ShowFixed(p: Player)
      modifies this`blacklist, this`viewers, net, net.listener
      ensures blacklist == ShowBlacklistFixed(old(blacklist), p.uuid)
      ensures WireOf() == Touch(old(WireOf()), renderMode, attachedEntityId, entityId, p)
    {
      blacklist := RemoveFirst(blacklist, p.uuid);
      AddViewer(p);
    }

    /** hide as evidently intended: listed once more, and no longer viewing. */
    method HideFixed(p: Player)
      modifies this`blacklist, this`viewers
      ensures blacklist == old(blacklist) + [p.uuid]
      ensures viewers == old(viewers) - {p.uuid}
    {
      blacklist := blacklist + [p.uuid];
      RemoveViewer(p);
    }

    method Spawn(loc: Location, ignorePitchYaw: bool)
      modifies this`location, this`dead
      ensures location == Some(if ignorePitchYaw then loc.(pitch := 0.0, yaw := 0.0) else loc)
      ensures !dead
    {
      location := Some(if ignorePitchYaw then loc.(pitch := 0.0, yaw := 0.0) else loc);
      dead := false;
    }

    method Kill()
      modifies this`dead, this`taskCancelled
      ensures dead && taskCancelled
    {
      taskCancelled := true;
      dead := true;
    }

    method SetUpdateTaskPeriod(period: int)
      modifies this`updateTaskPeriod
      ensures updateTaskPeriod == period
    {
      updateTaskPeriod := period;
    }

    method SetMaxPlayerRenderDistanceSquared(d: real)
      modifies this`maxDistSq
      ensures maxDistSq == d
    {
      maxDistSq := d;
    }

    method SetResponsive(responsive: bool)
      modifies this`responsive
      ensures this.responsive == responsive
    {
      this.responsive := responsive;
    }

    /** setSize(Vector3F): width from x, height from y; z is ignored. */
    method SetSize(size: Vector3)
      modifies this`width, this`height
      ensures width == size.x && height == size.y
    {
      width := size.x;
      height := size.y;
    }

    /** getSize: (width, height, 0). */
    function GetSize(): (r: Vector3)
      reads this
      ensures r.x == width && r.y == height && r.z == 0.0
    {
      Vector3(width, height, 0.0)
    }

    /** triggerInteraction: the callback runs once for the player. */
    method TriggerInteraction(p: Player)
      modifies onInteract
      ensures onInteract.calls == old(onInteract.calls) + [p.uuid]
    {
      onInteract.OnInteract(p);
    }

    /** copy(id): a new box with this box's render mode, callback, size,
        responsiveness, task period field and render distance; location,
        viewers, blacklist and attachment start afresh. The copy's own task
        was scheduled by its constructor, before the period was copied. */
    method Copy(newId: string, newEntityId: int) returns (r: Result<InteractionBox>)
      ensures r.Ok? <==> !HasSpace(newId)
      ensures r.Err? ==> r.error == ValidateBoxId(newId).error
      ensures r.Ok? ==> var c := r.value;
        fresh(c) && c.id == newId && c.entityId == newEntityId && c.net == net
        && c.renderMode == renderMode && c.onInteract == onInteract
        && c.width == width && c.height == height && c.responsive == responsive
        && c.updateTaskPeriod == updateTaskPeriod && c.maxDistSq == maxDistSq
        && c.taskPeriod == DefaultTaskPeriod
        && c.location.None? && c.viewers == {} && c.blacklist == [] && c.attachedEntityId.None? && c.dead
    {
      var v := ValidateBoxId(newId);
      if v.Fail? {
        return Err(v.error);
      }
      var c := new InteractionBox(newId, renderMode, onInteract, newEntityId, net);
      c.width := width;
      c.height := height;
      c.responsive := responsive;
      c.updateTaskPeriod := updateTaskPeriod;
      c.maxDistSq := maxDistSq;
      return Ok(c);
    }
  }
}
