/** The render modes and the viewer set a periodic pass aims for: the pure
    specification shared by holograms and interaction boxes. */
module Visibility {
  import opened Common

  /** RenderMode: `Nobody` is the source's NONE. */
  datatype RenderMode = Nobody | ViewerList | All | Nearby | NotAttachedPlayer

  /** The modes whose periodic pass recomputes viewers from the world. */
  predicate TracksWorld(mode: RenderMode) {
    mode == All || mode == Nearby || mode == NotAttachedPlayer
  }

  /** The filter of a world-tracking pass: online, not blacklisted, in the
      entity's world and within the squared render distance (inclusive). */
  predicate Eligible(p: Player, blacklist: seq<Uuid>, at: Location, maxDistSq: real) {
    p.online && p.uuid !in blacklist && p.location.world == at.world
    && DistSq(p.location, at) <= maxDistSq
  }

  /** viewersToKeep before the attached-player filter, in snapshot order. */
  function Keep(server: Snapshot, blacklist: seq<Uuid>, at: Location, maxDistSq: real): (r: seq<Player>)
    ensures forall p :: p in r <==> p in server && Eligible(p, blacklist, at, maxDistSq)
    ensures |r| <= |server|
  {
    if server == [] then []
    else
      var init, last := server[..|server| - 1], server[|server| - 1];
      assert server == init + [last];
      Keep(init, blacklist, at, maxDistSq) + (if Eligible(last, blacklist, at, maxDistSq) then [last] else [])
  }

  /** The players of a list other than the one with the given uuid. */
  function Without(ps: seq<Player>, u: Uuid): (r: seq<Player>)
    ensures forall p :: p in r <==> p in ps && p.uuid != u
  {
    if ps == [] then []
    else
      var init, last := ps[..|ps| - 1], ps[|ps| - 1];
      assert ps == init + [last];
      Without(init, u) + (if last.uuid != u then [last] else [])
  }

  /** The player a NOT_ATTACHED_PLAYER entity must hide from, if any. */
  function HiddenHost(mode: RenderMode, server: Snapshot, attached: Option<int>): (r: Option<Player>)
    ensures r.Some? <==> mode == NotAttachedPlayer && attached.Some?
                         && PlayerByEntityId(server, attached.value).Some?
    ensures r.Some? ==> r.value.online && r.value.entityId == attached.value && r.value in server
  {
    if mode == NotAttachedPlayer && attached.Some? then PlayerByEntityId(server, attached.value)
    else None
  }

  /** The final viewersToKeep list of a world-tracking pass. */
  function KeepList(mode: RenderMode, server: Snapshot, blacklist: seq<Uuid>, at: Location,
                    maxDistSq: real, attached: Option<int>): (r: seq<Player>)
    ensures forall p :: p in r ==> p in server && Eligible(p, blacklist, at, maxDistSq)
  {
    var keep := Keep(server, blacklist, at, maxDistSq);
    var host := HiddenHost(mode, server, attached);
    if host.Some? then Without(keep, host.value.uuid) else keep
  }

  /** The viewer set a world-tracking pass ends with: every eligible player,
      less the host player in NOT_ATTACHED_PLAYER mode. */
  function Target(mode: RenderMode, server: Snapshot, blacklist: seq<Uuid>, at: Location,
                  maxDistSq: real, attached: Option<int>): (r: set<Uuid>)
    ensures forall u :: u in r <==>
      (exists p :: p in server && Eligible(p, blacklist, at, maxDistSq) && p.uuid == u)
      && !(HiddenHost(mode, server, attached).Some? && HiddenHost(mode, server, attached).value.uuid == u)
  {
    UuidsOf(KeepList(mode, server, blacklist, at, maxDistSq, attached))
  }

  /** NEARBY does the exact same thing as ALL. */
  lemma NearbyIsAll(server: Snapshot, blacklist: seq<Uuid>, at: Location, maxDistSq: real, attached: Option<int>)
    ensures Target(Nearby, server, blacklist, at, maxDistSq, attached)
         == Target(All, server, blacklist, at, maxDistSq, attached)
  {
  }

  /** NOT_ATTACHED_PLAYER is ALL less the attached player, and exactly ALL
      when nothing is attached or the attached entity is no online player. */
  lemma {:induction false} NotAttachedIsAllLessHost(server: Snapshot, blacklist: seq<Uuid>, at: Location,
                                                    maxDistSq: real, attached: Option<int>)
    ensures attached.Some? && PlayerByEntityId(server, attached.value).Some? ==>
        Target(NotAttachedPlayer, server, blacklist, at, maxDistSq, attached)
        == Target(All, server, blacklist, at, maxDistSq, attached)
           - {PlayerByEntityId(server, attached.value).value.uuid}
    ensures attached.None? || PlayerByEntityId(server, attached.value).None? ==>
        Target(NotAttachedPlayer, server, blacklist, at, maxDistSq, attached)
        == Target(All, server, blacklist, at, maxDistSq, attached)
  {
    var a := Target(All, server, blacklist, at, maxDistSq, attached);
    var n := Target(NotAttachedPlayer, server, blacklist, at, maxDistSq, attached);
    if attached.Some? && PlayerByEntityId(server, attached.value).Some? {
      var h := PlayerByEntityId(server, attached.value).value.uuid;
      forall u ensures u in n <==> u in a - {h} {
      }
    } else {
      forall u ensures u in n <==> u in a {
      }
    }
  }

  /** A blacklisted player is never among the target viewers, in any mode. */
  lemma BlacklistedNeverTargeted(mode: RenderMode, server: Snapshot, blacklist: seq<Uuid>, at: Location,
                                 maxDistSq: real, attached: Option<int>, u: Uuid)
    requires u in blacklist
    ensures u !in Target(mode, server, blacklist, at, maxDistSq, attached)
  {
  }

  /** The distance bound is inclusive: an online, unlisted player in the same
      world exactly at the bound is a target viewer of an ALL entity. */
  lemma BoundIsInclusive(server: Snapshot, blacklist: seq<Uuid>, at: Location, maxDistSq: real,
                         attached: Option<int>, p: Player)
    requires p in server && p.online && p.uuid !in blacklist && p.location.world == at.world
    requires DistSq(p.location, at) == maxDistSq
    ensures p.uuid in Target(All, server, blacklist, at, maxDistSq, attached)
  {
    assert Eligible(p, blacklist, at, maxDistSq);
  }

  /** Growing the render distance never loses a target viewer. */
  lemma TargetMonotoneInDistance(mode: RenderMode, server: Snapshot, blacklist: seq<Uuid>, at: Location,
                                 d1: real, d2: real, attached: Option<int>)
    requires d1 <= d2
    ensures Target(mode, server, blacklist, at, d1, attached) <= Target(mode, server, blacklist, at, d2, attached)
  {
    forall u | u in Target(mode, server, blacklist, at, d1, attached)
      ensures u in Target(mode, server, blacklist, at, d2, attached)
    {
      var p :| p in server && Eligible(p, blacklist, at, d1) && p.uuid == u;
      assert Eligible(p, blacklist, at, d2);
    }
  }

  /** The uuids of the players of `ps` that are neither in `seen` nor an
      earlier entry of `ps`, in list order: who an `addViewer` guarded by
      "already a viewer" greets while walking `ps`. */
  function Newcomers(ps: seq<Player>, seen: set<Uuid>): seq<Uuid>
  {
    if ps == [] then []
    else
      var init, last := ps[..|ps| - 1], ps[|ps| - 1];
      Newcomers(init, seen) + (if last.uuid in seen + UuidsOf(init) then [] else [last.uuid])
  }

  /** Each player that was not yet a viewer is greeted exactly once, and no
      one else is. */
  lemma {:induction false} NewcomersExactlyOnce(ps: seq<Player>, seen: set<Uuid>)
    ensures forall u :: u in Newcomers(ps, seen) <==> u in UuidsOf(ps) && u !in seen
    ensures forall i, j :: 0 <= i < j < |Newcomers(ps, seen)| ==> Newcomers(ps, seen)[i] != Newcomers(ps, seen)[j]
  {
    if ps != [] {
      var init, last := ps[..|ps| - 1], ps[|ps| - 1];
      assert ps == init + [last];
      NewcomersExactlyOnce(init, seen);
      assert UuidsOf(ps) == UuidsOf(init) + {last.uuid};
    }
  }

  /** Only what `seen` says about the listed players matters. */
  lemma {:induction false} NewcomersRestrict(ps: seq<Player>, seen: set<Uuid>, others: set<Uuid>)
    requires others !! UuidsOf(ps)
    ensures Newcomers(ps, seen + others) == Newcomers(ps, seen)
  {
    if ps != [] {
      var init, last := ps[..|ps| - 1], ps[|ps| - 1];
      assert ps == init + [last];
      assert UuidsOf(init) <= UuidsOf(ps);
      NewcomersRestrict(init, seen, others);
    }
  }

  /** Walking one more player of the list. */
  lemma NewcomersStep(ps: seq<Player>, i: int, seen: set<Uuid>)
    requires 0 <= i < |ps|
    ensures Newcomers(ps[..i + 1], seen)
      == Newcomers(ps[..i], seen) + (if ps[i].uuid in seen + UuidsOf(ps[..i]) then [] else [ps[i].uuid])
    ensures UuidsOf(ps[..i + 1]) == UuidsOf(ps[..i]) + {ps[i].uuid}
  {
    assert ps[..i + 1][..i] == ps[..i];
    assert ps[..i + 1] == ps[..i] + [ps[i]];
  }

  /** One step of an addAllViewers walk, stated on the walk's running state:
      the viewer set so far and the uuids greeted so far. */
  lemma GreetStep(ps: seq<Player>, i: int, v0: set<Uuid>, viewers: set<Uuid>, greeted: seq<Uuid>)
    requires 0 <= i < |ps|
    requires viewers == v0 + UuidsOf(ps[..i]) && greeted == Newcomers(ps[..i], v0)
    ensures viewers + {ps[i].uuid} == v0 + UuidsOf(ps[..i + 1])
    ensures ps[i].uuid in viewers ==> greeted == Newcomers(ps[..i + 1], v0)
    ensures ps[i].uuid !in viewers ==> greeted + [ps[i].uuid] == Newcomers(ps[..i + 1], v0)
  {
    NewcomersStep(ps, i, v0);
  }
}
