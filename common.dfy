/** Shared value types of the model: optional values, error results, players,
    locations and the server snapshot every visibility decision is taken against. */
module Common {

  datatype Option<T> = None | Some(value: T)

  /** The source's IllegalArgumentException / IllegalStateException. */
  datatype Error = IllegalArgument(message: string) | IllegalState(message: string)

  datatype Result<T> = Ok(value: T) | Err(error: Error)

  /** A void call that either returns normally or throws. */
  datatype Outcome = Pass | Fail(error: Error)

  type Uuid = int
  type WorldId = int

  /** A Bukkit location; `world` is null when the world is unloaded or unset. */
  datatype Location = Location(world: Option<WorldId>, x: real, y: real, z: real, yaw: real, pitch: real)

  /** What the model needs to know of a connected (or formerly connected) player. */
  datatype Player = Player(uuid: Uuid, entityId: int, online: bool, location: Location)

  /** Location.distanceSquared: no square root is ever taken. */
  function DistSq(a: Location, b: Location): (r: real)
    ensures r >= 0.0
    ensures a.x == b.x && a.y == b.y && a.z == b.z ==> r == 0.0
  {
    (a.x - b.x) * (a.x - b.x) + (a.y - b.y) * (a.y - b.y) + (a.z - b.z) * (a.z - b.z)
  }

  /** Players known to the server at the moment an operation runs. */
  type Snapshot = seq<Player>

  /** Bukkit.getPlayer(uuid): the online player with that uuid, if any. */
  function PlayerByUuid(server: Snapshot, u: Uuid): (r: Option<Player>)
    ensures r.Some? ==> r.value in server && r.value.uuid == u && r.value.online
    ensures r.None? ==> forall p :: p in server && p.online ==> p.uuid != u
  {
    if server == [] then None
    else if server[0].online && server[0].uuid == u then Some(server[0])
    else PlayerByUuid(server[1..], u)
  }

  /** getPlayerByEntityId: the first online player whose entity id matches. */
  function PlayerByEntityId(server: Snapshot, entityId: int): (r: Option<Player>)
    ensures r.Some? ==> r.value in server && r.value.entityId == entityId && r.value.online
    ensures r.None? ==> forall p :: p in server && p.online ==> p.entityId != entityId
  {
    if server == [] then None
    else if server[0].online && server[0].entityId == entityId then Some(server[0])
    else PlayerByEntityId(server[1..], entityId)
  }

  /** Bukkit.getOnlinePlayers(), in snapshot order. */
  function OnlinePlayers(server: Snapshot): (r: seq<Player>)
    ensures forall p :: p in r <==> p in server && p.online
  {
    if server == [] then []
    else (if server[0].online then [server[0]] else []) + OnlinePlayers(server[1..])
  }

  /** The uuids of a list of players, as a set. */
  function UuidsOf(ps: seq<Player>): (r: set<Uuid>)
    ensures forall u :: u in r <==> exists p :: p in ps && p.uuid == u
  {
    set p | p in ps :: p.uuid
  }

  /** List.remove(Object): drop the first occurrence, keep everything else in order. */
  function RemoveFirst<T(==)>(xs: seq<T>, x: T): (r: seq<T>)
    ensures x in xs ==> multiset(r) == multiset(xs) - multiset{x}
    ensures x !in xs ==> r == xs
  {
    if xs == [] then []
    else if xs[0] == x then
      assert xs == [x] + xs[1..];
      xs[1..]
    else
      assert xs == [xs[0]] + xs[1..];
      [xs[0]] + RemoveFirst(xs[1..], x)
  }

  /** RemoveFirst cuts out exactly the first occurrence: everything before
      it and everything after it stays, in order. */
  lemma {:induction false} RemoveFirstAt<T>(xs: seq<T>, x: T) returns (i: nat)
    requires x in xs
    ensures i < |xs| && xs[i] == x && x !in xs[..i]
    ensures RemoveFirst(xs, x) == xs[..i] + xs[i + 1..]
  {
    if xs[0] == x {
      i := 0;
      assert xs[..0] == [];
      assert xs[1..] == RemoveFirst(xs, x);
    } else {
      var tail := xs[1..];
      assert xs == [xs[0]] + tail;
      var j := RemoveFirstAt(tail, x);
      i := j + 1;
      assert xs[..i] == [xs[0]] + tail[..j];
      assert xs[i + 1..] == tail[j + 1..];
    }
  }

  /** Appending an element and removing it again keeps the same elements,
      and gives back the very list when the element was not there before. */
  lemma RemoveFirstOfAppended<T>(xs: seq<T>, x: T)
    ensures multiset(RemoveFirst(xs + [x], x)) == multiset(xs)
    ensures x !in xs ==> RemoveFirst(xs + [x], x) == xs
  {
    if x !in xs {
      var i := RemoveFirstAt(xs + [x], x);
      assert (xs + [x])[..|xs|] == xs;
    }
  }

  /** A non-empty set has a member to pick: the step every walk over a hash
      set's unspecified iteration order takes. */
  lemma Pick<T>(s: set<T>) returns (x: T)
    requires s != {}
    ensures x in s
  {
    if forall y :: y !in s {
      assert false;
    }
    x :| x in s;
  }

  /** `xs` lists every element of `s` exactly once, in some order: what a
      walk over a hash set or map produces. */
  ghost predicate Enumerates<T>(xs: seq<T>, s: set<T>) {
    |xs| == |s| && (forall i :: 0 <= i < |xs| ==> xs[i] in s) && (forall x :: x in s ==> x in xs)
  }

  /** Walking one more element. */
  lemma EnumeratesStep<T>(xs: seq<T>, s: set<T>, x: T)
    requires Enumerates(xs, s) && x !in s
    ensures Enumerates(xs + [x], s + {x})
  {
    forall y | y in s + {x}
      ensures y in xs + [x]
    {
      if y != x {
        assert y in xs;
      }
    }
  }

  /** String.contains(" "): every id check of the library rejects a space. */
  predicate HasSpace(id: string) {
    ' ' in id
  }
}
