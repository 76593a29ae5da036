/** InteractionPacketListener: the guard chain that decides whether a
    player's INTERACT_ENTITY packet runs an interaction box's callback. */
module Router {
  import opened Common
  import opened Protocol
  import opened Interactions
  import opened Registry

  /** 6.0 * 6.0: the reach, squared, within which an interaction counts. */
  const MaxInteractDistSq: real := 36.0

  /** The receive-time part of the chain: only an INTERACT_ENTITY packet
      whose entity id is registered as an interaction box names a box. */
  function TargetBox(p: Packet, byEntity: map<int, InteractionBox>): (r: Option<InteractionBox>)
    ensures r.Some? <==> p.InteractEntity? && p.entityId in byEntity
    ensures r.Some? ==> r.value == byEntity[p.entityId]
  {
    if !p.InteractEntity? then None
    else if p.entityId !in byEntity then None
    else Some(byEntity[p.entityId])
  }

  /** The task-time part of the chain, for the player looked up by uuid and
      the box's location at that moment: the player is online, the box is
      placed in a loaded world, the player is in that world and within
      reach (the bound is inclusive). */
  predicate InReach(player: Option<Player>, boxLocation: Option<Location>) {
    player.Some? && player.value.online
    && boxLocation.Some? && boxLocation.value.world.Some?
    && player.value.location.world == boxLocation.value.world
    && DistSq(player.value.location, boxLocation.value) <= MaxInteractDistSq
  }

  /** onPacketReceive, with the scheduled task run against the server as
      it is when the task runs: the callback of the targeted box is called
      exactly once, for the interacting player, when every guard passes;
      otherwise nothing is called. */
  method OnPacketReceive(p: Packet, user: Uuid, manager: HologramManager, server: Snapshot)
    modifies if TargetBox(p, manager.boxesByEntity).Some? then {TargetBox(p, manager.boxesByEntity).value.onInteract} else {}
    ensures TargetBox(p, manager.boxesByEntity).Some? ==>
      var box := TargetBox(p, manager.boxesByEntity).value;
      var player := PlayerByUuid(server, user);
      if InReach(player, box.location)
      then box.onInteract.calls == old(box.onInteract.calls) + [user]
      else box.onInteract.calls == old(box.onInteract.calls)
  {
    var target := TargetBox(p, manager.boxesByEntity);
    if target.None? {
      return;
    }
    var box := target.value;
    var player := PlayerByUuid(server, user);
    if player.Some? && player.value.online {
      var boxLocation := box.location;
      if boxLocation.None? || boxLocation.value.world.None? {
        return;
      }
      if player.value.location.world != boxLocation.value.world {
        return;
      }
      if DistSq(player.value.location, boxLocation.value) > MaxInteractDistSq {
        return;
      }
      box.TriggerInteraction(player.value);
    }
  }

  /** Whether a packet runs a callback at all, as one predicate over the
      registry, the box locations and the server. */
  ghost predicate Fires(p: Packet, byEntity: map<int, InteractionBox>, user: Uuid, server: Snapshot)
    reads byEntity.Values
  {
    TargetBox(p, byEntity).Some? && InReach(PlayerByUuid(server, user), TargetBox(p, byEntity).value.location)
  }

  /** Packets other than INTERACT_ENTITY, and entity ids that are not
      registered boxes, never fire. */
  lemma IgnoredPackets(p: Packet, byEntity: map<int, InteractionBox>, user: Uuid, server: Snapshot)
    requires !p.InteractEntity? || p.entityId !in byEntity
    ensures !Fires(p, byEntity, user, server)
  {
  }

  /** A player who is offline (or unknown) never fires a box. */
  lemma OfflineNeverFires(p: Packet, byEntity: map<int, InteractionBox>, user: Uuid, server: Snapshot)
    requires forall q :: q in server && q.uuid == user ==> !q.online
    ensures !Fires(p, byEntity, user, server)
  {
  }

  /** A box with no location, or in no loaded world, or in another world
      than the player's, never fires. */
  lemma ElsewhereNeverFires(p: Packet, byEntity: map<int, InteractionBox>, user: Uuid, server: Snapshot,
                            player: Player, boxLocation: Option<Location>)
    requires p.InteractEntity? && p.entityId in byEntity && byEntity[p.entityId].location == boxLocation
    requires PlayerByUuid(server, user) == Some(player)
    requires boxLocation.None? || boxLocation.value.world.None? || boxLocation.value.world != player.location.world
    ensures !Fires(p, byEntity, user, server)
  {
  }

  /** For an online player in the box's world, the callback fires exactly
      when the squared distance is at most 36: 6 blocks fire, anything
      beyond does not. */
  lemma FiresIffWithinSix(p: Packet, byEntity: map<int, InteractionBox>, user: Uuid, server: Snapshot,
                          player: Player, at: Location)
    requires p.InteractEntity? && p.entityId in byEntity && byEntity[p.entityId].location == Some(at)
    requires PlayerByUuid(server, user) == Some(player)
    requires at.world.Some? && player.location.world == at.world
    ensures Fires(p, byEntity, user, server) <==> DistSq(player.location, at) <= 6.0 * 6.0
  {
  }

  /** Reach is a ball around the box: a player in the same world who is
      no farther away than one who fires also fires. */
  lemma CloserAlsoFires(near: Player, far: Player, at: Location)
    requires near.online && near.location.world == far.location.world
    requires DistSq(near.location, at) <= DistSq(far.location, at)
    requires InReach(Some(far), Some(at))
    ensures InReach(Some(near), Some(at))
  {
  }
}
