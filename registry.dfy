/** HologramManager: the registries of holograms and interaction boxes (by
    string id and by numeric entity id), the persistence bookkeeping on
    removal, the text-animation tasks and the event-handler list. */
module Registry {
  import opened Common
  import opened Visibility
  import opened Holograms
  import opened Interactions

  /** One call into the persistence manager. */
  datatype PersistOp = Save(id: string) | Delete(id: string)

  /** The persistence manager as the manager sees it: the set of ids it
      reports as persistent, and the log of calls made on it. */
  class Persistence {
    var persistent: set<string>
    var log: seq<PersistOp>

    constructor(persistent: set<string>)
      ensures this.persistent == persistent && log == []
    {
      this.persistent := persistent;
      log := [];
    }

    /** saveHologram: the id becomes (or stays) persistent. */
    method SaveHologram(id: string)
      modifies this
      ensures persistent == old(persistent) + {id}
      ensures log == old(log) + [Save(id)]
    {
      persistent := persistent + {id};
      log := log + [Save(id)];
    }

    /** removeHologram: the id is no longer persistent. */
    method RemoveHologram(id: string)
      modifies this
      ensures persistent == old(persistent) - {id}
      ensures log == old(log) + [Delete(id)]
    {
      persistent := persistent - {id};
      log := log + [Delete(id)];
    }
  }

  // ---------------------------------------------------------------------
  // Text animation

  /** Collections.rotate(frames, -1): the first frame moves to the end. */
  function RotateLeft<T>(xs: seq<T>): (r: seq<T>)
    ensures |r| == |xs|
  {
    if xs == [] then [] else xs[1..] + [xs[0]]
  }

  /** A rotation keeps every frame, as often as it occurred: it only moves
      the first one to the back. */
  lemma RotateLeftPermutes<T>(xs: seq<T>)
    ensures multiset(RotateLeft(xs)) == multiset(xs)
    ensures xs != [] ==> RotateLeft(xs)[|xs| - 1] == xs[0]
  {
    if xs != [] {
      assert xs == [xs[0]] + xs[1..];
    }
  }

  /** The frame list after `k` animation ticks. */
  function RotateLeftN<T>(xs: seq<T>, k: nat): (r: seq<T>)
    ensures |r| == |xs|
    decreases k
  {
    if k == 0 then xs else RotateLeftN(RotateLeft(xs), k - 1)
  }

  /** Ticks compose: `a` ticks then `b` ticks are `a + b` ticks. */
  lemma {:induction false} RotateLeftNAdd<T>(xs: seq<T>, a: nat, b: nat)
    ensures RotateLeftN(RotateLeftN(xs, a), b) == RotateLeftN(xs, a + b)
    decreases a
  {
    if a > 0 {
      RotateLeftNAdd(RotateLeft(xs), a - 1, b);
      assert RotateLeftN(xs, a) == RotateLeftN(RotateLeft(xs), a - 1);
      assert RotateLeftN(xs, a + b) == RotateLeftN(RotateLeft(xs), a - 1 + b);
    }
  }

  /** Within the first cycle, `k` ticks have moved the first `k` frames to
      the end, in order. */
  lemma {:induction false} RotateLeftNSplit<T>(xs: seq<T>, k: nat)
    requires k <= |xs|
    ensures RotateLeftN(xs, k) == xs[k..] + xs[..k]
    decreases k
  {
    if k == 0 {
      assert xs[..0] == [];
      assert xs[0..] == xs;
    } else {
      var ys := RotateLeft(xs);
      RotateLeftNSplit(ys, k - 1);
      assert ys[k - 1..] == xs[k..] + [xs[0]];
      assert ys[..k - 1] == xs[1..k];
      assert [xs[0]] + xs[1..k] == xs[..k];
      assert xs[k..] + [xs[0]] + xs[1..k] == xs[k..] + ([xs[0]] + xs[1..k]);
    }
  }

  /** After one full cycle of ticks the frame list is back where it began. */
  lemma RotateFullCycle<T>(xs: seq<T>)
    ensures RotateLeftN(xs, |xs|) == xs
  {
    RotateLeftNSplit(xs, |xs|);
    assert xs[|xs|..] == [];
    assert xs[..|xs|] == xs;
  }

  /** The frame shown by the tick after `k` earlier ones, within the first
      cycle, is frame `k`: the animation walks the frames in order. */
  lemma ShownFrame<T>(xs: seq<T>, k: nat)
    requires k < |xs|
    ensures RotateLeftN(xs, k)[0] == xs[k]
  {
    RotateLeftNSplit(xs, k);
  }

  /** The animation is periodic: `|xs|` more ticks show the same frames
      again. */
  lemma RotatePeriodic<T>(xs: seq<T>, k: nat)
    ensures RotateLeftN(xs, k + |xs|) == RotateLeftN(xs, k)
  {
    RotateLeftNAdd(xs, |xs|, k);
    RotateFullCycle(xs);
  }

  /** TextAnimation: a mutable list of frames (the delay and the period only
      drive the scheduler). */
  class TextAnimation {
    var frames: seq<string>

    constructor(frames: seq<string>)
      ensures this.frames == frames
    {
      this.frames := frames;
    }
  }

  /** The timer handle of a running animation. */
  class AnimationTask {
    const hologram: Hologram
    const animation: TextAnimation
    var cancelled: bool

    constructor(hologram: Hologram, animation: TextAnimation)
      ensures this.hologram == hologram && this.animation == animation && !cancelled
    {
      this.hologram := hologram;
      this.animation := animation;
      cancelled := false;
    }

    /** One run of the timer body: with no frames nothing happens; otherwise
        the first frame becomes the hologram's text (returned here) and the
        frame list is rotated left by one. A cancelled handle never runs. */
    method Tick() returns (shown: Option<string>)
      modifies animation
      ensures cancelled || old(animation.frames) == [] ==> shown.None? && animation.frames == old(animation.frames)
      ensures !cancelled && old(animation.frames) != [] ==>
        shown == Some(old(animation.frames)[0]) && animation.frames == RotateLeft(old(animation.frames))
    {
      if cancelled || animation.frames == [] {
        return None;
      }
      shown := Some(animation.frames[0]);
      animation.frames := RotateLeft(animation.frames);
    }

    /** cancel */
    method Cancel()
      modifies this
      ensures cancelled
    {
      cancelled := true;
    }
  }

  // ---------------------------------------------------------------------
  // Removal of a list of ids

  /** The elements of a list, as a set. */
  ghost function Elems<T>(xs: seq<T>): set<T> {
    set x | x in xs
  }

  /** Removing every id of `ids` in turn, from a registry whose ids are
      `keys`, succeeds every time: the ids are registered and pairwise
      distinct (a repeated id is already gone the second time). */
  ghost predicate Removable(keys: set<string>, ids: seq<string>) {
    (forall i :: 0 <= i < |ids| ==> ids[i] in keys)
    && (forall i, j :: 0 <= i < j < |ids| ==> ids[i] != ids[j])
  }

  /** Removing `a` and then `b` succeeds throughout iff removing `a + b`
      does. */
  lemma RemovableConcat(keys: set<string>, a: seq<string>, b: seq<string>)
    ensures Removable(keys, a + b) <==> Removable(keys, a) && Removable(keys - Elems(a), b)
  {
    var ab := a + b;
    if Removable(keys, a) && Removable(keys - Elems(a), b) {
      forall i, j | 0 <= i < j < |ab|
        ensures ab[i] != ab[j]
      {
        if i < |a| && j >= |a| {
          assert ab[i] in Elems(a);
          assert ab[j] == b[j - |a|];
        }
      }
      forall i | 0 <= i < |ab|
        ensures ab[i] in keys
      {
        if i >= |a| {
          assert ab[i] == b[i - |a|];
        }
      }
    }
    if Removable(keys, ab) {
      forall i | 0 <= i < |b|
        ensures b[i] !in Elems(a) && b[i] in keys
      {
        assert b[i] == ab[|a| + i];
        forall j | 0 <= j < |a|
          ensures a[j] != b[i]
        {
          assert ab[j] == a[j];
        }
      }
      forall i, j | 0 <= i < j < |b|
        ensures b[i] != b[j]
      {
        assert ab[|a| + i] == b[i] && ab[|a| + j] == b[j];
      }
      forall i | 0 <= i < |a|
        ensures a[i] in keys
      {
        assert ab[i] == a[i];
      }
      forall i, j | 0 <= i < j < |a|
        ensures a[i] != a[j]
      {
        assert ab[i] == a[i] && ab[j] == a[j];
      }
    }
  }

  lemma ElemsConcat<T>(a: seq<T>, b: seq<T>)
    ensures Elems(a + b) == Elems(a) + Elems(b)
  {
  }

  /** The concatenated id lists of several leaderboard pages. */
  function Flatten(pages: seq<seq<string>>): seq<string>
  {
    if pages == [] then [] else Flatten(pages[..|pages| - 1]) + pages[|pages| - 1]
  }

  /** The calls that save again the persistent ones among the holograms
      `done`. */
  ghost function Resaved(persistent: set<string>, done: set<Hologram>): set<PersistOp> {
    set g | g in done && g.id in persistent :: Save(g.id)
  }

  /** Saving one more registered hologram of a registry whose entries are
      filed under their own ids: its id was not saved yet. */
  lemma ResaveStep(m: map<string, Hologram>, persistent: set<string>, done: set<Hologram>,
                   saved: seq<PersistOp>, h: Hologram) returns (saved': seq<PersistOp>)
    requires forall k :: k in m ==> m[k].id == k
    requires h in m.Values && done <= m.Values && h !in done
    requires Enumerates(saved, Resaved(persistent, done))
    ensures saved' == saved + (if h.id in persistent then [Save(h.id)] else [])
    ensures Enumerates(saved', Resaved(persistent, done + {h}))
  {
    assert m[h.id] == h by {
      var k :| k in m && m[k] == h;
    }
    forall g | g in done
      ensures g.id != h.id
    {
      var k :| k in m && m[k] == g;
    }
    if h.id in persistent {
      assert Resaved(persistent, done + {h}) == Resaved(persistent, done) + {Save(h.id)};
      EnumeratesStep(saved, Resaved(persistent, done), Save(h.id));
      saved' := saved + [Save(h.id)];
    } else {
      assert Resaved(persistent, done + {h}) == Resaved(persistent, done);
      saved' := saved;
    }
  }

  /** `log` is `log0` followed by one call of `ops` each, in some order. */
  ghost predicate Appended(log0: seq<PersistOp>, log: seq<PersistOp>, ops: set<PersistOp>) {
    log0 <= log && Enumerates(log[|log0|..], ops)
  }

  lemma AppendedIntro(log0: seq<PersistOp>, added: seq<PersistOp>, ops: set<PersistOp>)
    requires Enumerates(added, ops)
    ensures Appended(log0, log0 + added, ops)
  {
    assert (log0 + added)[|log0|..] == added;
  }

  /** The calls that delete every id of `ids`. */
  ghost function Deleted(ids: set<string>): set<PersistOp> {
    set k | k in ids :: Delete(k)
  }

  /** The animation table only lost entries. */
  ghost predicate Shrunk(before: map<Hologram, AnimationTask>, after: map<Hologram, AnimationTask>) {
    forall h :: h in after ==> h in before && after[h] == before[h]
  }

  /** A registry with some ids taken out holds no hologram it did not
      hold before. */
  lemma MapMinusValues<K, V>(m: map<K, V>, ks: set<K>)
    ensures (m - ks).Values <= m.Values
  {
    forall v | v in (m - ks).Values
      ensures v in m.Values
    {
      var k :| k in m - ks && (m - ks)[k] == v;
      assert m[k] == v;
    }
  }

  /** An animation table that only lost entries holds no task it did not
      hold before. */
  lemma ShrunkValues(before: map<Hologram, AnimationTask>, after: map<Hologram, AnimationTask>)
    requires Shrunk(before, after)
    ensures after.Values <= before.Values
  {
    forall t | t in after.Values
      ensures t in before.Values
    {
      var h :| h in after && after[h] == t;
      assert before[h] == t;
    }
  }

  /** One more removal by id: the registry loses the id, and the AND of
      the answers stays "every id so far was registered and new". */
  lemma IdStep(h0: map<string, Hologram>, ids: seq<string>, i: int, ok: bool, removed: bool,
               before: map<string, Hologram>, after: map<string, Hologram>)
    requires 0 <= i < |ids|
    requires ok == Removable(h0.Keys, ids[..i]) && before == h0 - Elems(ids[..i])
    requires removed == (ids[i] in before) && after == before - {ids[i]}
    ensures (ok && removed) == Removable(h0.Keys, ids[..i + 1])
    ensures after == h0 - Elems(ids[..i + 1])
  {
    assert ids[..i + 1] == ids[..i] + [ids[i]];
    RemovableConcat(h0.Keys, ids[..i], [ids[i]]);
    ElemsConcat(ids[..i], [ids[i]]);
    assert before.Keys == h0.Keys - Elems(ids[..i]);
  }

  /** One more group removed: the registry loses the group's ids, and the
      AND of the answers covers the concatenated ids so far. */
  lemma GroupStep(h0: map<string, Hologram>, groups: seq<seq<string>>, i: int, ok: bool, removed: bool,
                  before: map<string, Hologram>, after: map<string, Hologram>)
    requires 0 <= i < |groups|
    requires ok == Removable(h0.Keys, Flatten(groups[..i])) && before == h0 - Elems(Flatten(groups[..i]))
    requires removed == Removable(before.Keys, groups[i]) && after == before - Elems(groups[i])
    ensures (ok && removed) == Removable(h0.Keys, Flatten(groups[..i + 1]))
    ensures after == h0 - Elems(Flatten(groups[..i + 1]))
  {
    assert groups[..i + 1][..i] == groups[..i];
    RemovableConcat(h0.Keys, Flatten(groups[..i]), groups[i]);
    ElemsConcat(Flatten(groups[..i]), groups[i]);
    assert before.Keys == h0.Keys - Elems(Flatten(groups[..i]));
  }

  /** The holograms of a board in the order they are removed: every page's,
      then the left and the right arrow. */
  function BoardHolograms(b: PagedBoard): (r: seq<string>)
    ensures |r| == |Flatten(b.pages)| + 2
  {
    Flatten(b.pages) + [b.leftArrow, b.rightArrow]
  }

  /** The arrows are removed as two groups of one hologram each. */
  lemma BoardGroups(b: PagedBoard)
    ensures Flatten(b.pages + [[b.leftArrow], [b.rightArrow]]) == BoardHolograms(b)
  {
    var groups := b.pages + [[b.leftArrow], [b.rightArrow]];
    assert groups[..|groups| - 1] == b.pages + [[b.leftArrow]];
    assert (b.pages + [[b.leftArrow]])[..|b.pages|] == b.pages;
  }

  /** The component ids of a PagedLeaderboard, as `remove(PagedLeaderboard)`
      walks them: the handler it registered, whether it is spawned, the ids
      of each page's holograms (text holograms, then the first-place head if
      any), the two arrows and the two interaction boxes. */
  datatype PagedBoard = PagedBoard(handler: int, spawned: bool, pages: seq<seq<string>>,
                                   leftArrow: string, rightArrow: string,
                                   leftBox: string, rightBox: string)

  /** The ids of a list of holograms, in order. */
  function IdsOf(hs: seq<Hologram>): (r: seq<string>)
    ensures |r| == |hs| && forall i :: 0 <= i < |hs| ==> r[i] == hs[i].id
  {
    if hs == [] then [] else IdsOf(hs[..|hs| - 1]) + [hs[|hs| - 1].id]
  }

  /** The id map after `register` has run on each listed hologram in turn: a
      hologram whose id is already taken is skipped. */
  function Registered(m: map<string, Hologram>, hs: seq<Hologram>): map<string, Hologram>
  {
    if hs == [] then m
    else
      var m', h := Registered(m, hs[..|hs| - 1]), hs[|hs| - 1];
      if h.id in m' then m' else m'[h.id := h]
  }

  /** Registration adds exactly the listed ids and never replaces an entry:
      a taken id keeps its hologram, and a new id gets the first listed
      hologram carrying it. */
  lemma {:induction false} RegisteredFacts(m: map<string, Hologram>, hs: seq<Hologram>)
    ensures Registered(m, hs).Keys == m.Keys + Elems(IdsOf(hs))
    ensures forall k :: k in m ==> Registered(m, hs)[k] == m[k]
    ensures forall i :: 0 <= i < |hs| && hs[i].id !in m && hs[i].id !in IdsOf(hs)[..i]
                        ==> Registered(m, hs)[hs[i].id] == hs[i]
    ensures forall k :: k in Registered(m, hs) && k !in m ==> Registered(m, hs)[k].id == k
  {
    if hs != [] {
      var init, h := hs[..|hs| - 1], hs[|hs| - 1];
      RegisteredFacts(m, init);
      assert IdsOf(hs) == IdsOf(init) + [h.id];
      assert Elems(IdsOf(hs)) == Elems(IdsOf(init)) + {h.id};
      forall i | 0 <= i < |hs| && hs[i].id !in m && hs[i].id !in IdsOf(hs)[..i]
        ensures Registered(m, hs)[hs[i].id] == hs[i]
      {
        if i < |hs| - 1 {
          assert hs[i] == init[i];
          assert IdsOf(hs)[..i] == IdsOf(init)[..i];
          assert hs[i].id in Elems(IdsOf(init));
        } else {
          assert IdsOf(hs)[..i] == IdsOf(init);
        }
      }
    }
  }

  /** Spawning a group of fresh holograms and then removing the group's
      ids, as remove(LeaderboardHologram) does, gives back the map as it
      was. */
  lemma RemoveUndoesRegister(m: map<string, Hologram>, hs: seq<Hologram>)
    requires m.Keys !! Elems(IdsOf(hs))
    ensures Registered(m, hs) - Elems(IdsOf(hs)) == m
  {
    RegisteredFacts(m, hs);
  }

  /** The box map after `register(interactionBox)`. */
  function RegisteredBox(m: map<string, InteractionBox>, b: InteractionBox?): (r: map<string, InteractionBox>)
    ensures b != null && b.id !in m ==> r == m[b.id := b]
    ensures b == null || b.id in m ==> r == m
  {
    if b == null || b.id in m then m else m[b.id := b]
  }

  // ---------------------------------------------------------------------
  // The manager

  class HologramManager {
    var holograms: map<string, Hologram>
    var hologramsByEntity: map<int, Hologram>
    var boxes: map<string, InteractionBox>
    var boxesByEntity: map<int, InteractionBox>
    var animations: map<Hologram, AnimationTask>
    /** Event handlers, by identity. */
    var eventHandlers: seq<int>
    /** Absent (null) when the library runs without persistence. */
    const persistence: Persistence?

    /** Every entry is filed under its own id. */
    ghost predicate Valid()
      reads this
    {
      (forall k :: k in holograms ==> holograms[k].id == k)
      && (forall k :: k in boxes ==> boxes[k].id == k)
    }

    constructor(persistence: Persistence?)
      ensures Valid()
      ensures this.persistence == persistence
      ensures holograms == map[] && hologramsByEntity == map[] && boxes == map[] && boxesByEntity == map[]
      ensures animations == map[] && eventHandlers == []
    {
      this.persistence := persistence;
      holograms := map[];
      hologramsByEntity := map[];
      boxes := map[];
      boxesByEntity := map[];
      animations := map[];
      eventHandlers := [];
    }

    /** registerEventHandler */
    method RegisterEventHandler(handler: int)
      modifies this`eventHandlers
      ensures eventHandlers == old(eventHandlers) + [handler]
    {
      eventHandlers := eventHandlers + [handler];
    }

    /** removeEventHandler: List.remove(Object) drops the first occurrence. */
    method RemoveEventHandler(handler: int)
      modifies this`eventHandlers
      ensures eventHandlers == RemoveFirst(old(eventHandlers), handler)
    {
      eventHandlers := RemoveFirst(eventHandlers, handler);
    }

    /** register(hologram): rejects null and an id already registered,
        leaving both maps alone; otherwise files the hologram under its id
        and its entity id. */
    method Register(h: Hologram?) returns (ok: bool)
      requires Valid()
      modifies this`holograms, this`hologramsByEntity
      ensures Valid()
      ensures ok <==> h != null && h.id !in old(holograms)
      ensures !ok ==> holograms == old(holograms) && hologramsByEntity == old(hologramsByEntity)
      ensures ok ==> holograms == old(holograms)[h.id := h]
                     && hologramsByEntity == old(hologramsByEntity)[h.entityId := h]
    {
      if h == null {
        return false;
      }
      if h.id in holograms {
        return false;
      }
      holograms := holograms[h.id := h];
      hologramsByEntity := hologramsByEntity[h.entityId := h];
      return true;
    }

    /** cancelAnimation: drop the hologram's task, if any, and cancel it. */
    method CancelAnimation(h: Hologram)
      modifies this`animations, if h in animations then {animations[h]} else {}
      ensures animations == old(animations) - {h}
      ensures h in old(animations) ==> old(animations)[h].cancelled
    {
      if h in animations {
        var task := animations[h];
        animations := animations - {h};
        task.Cancel();
      }
    }

    /** applyAnimation: any running animation of the hologram is cancelled
        first; a fresh task then runs the new animation. */
    method ApplyAnimation(h: Hologram, anim: TextAnimation)
      modifies this`animations, if h in animations then {animations[h]} else {}
      ensures h in animations && fresh(animations[h])
      ensures animations[h].hologram == h && animations[h].animation == anim && !animations[h].cancelled
      ensures animations == old(animations)[h := animations[h]]
      ensures h in old(animations) ==> old(animations)[h].cancelled
    {
      CancelAnimation(h);
      var task := new AnimationTask(h, anim);
      animations := animations[h := task];
    }

    /** remove(id, removePersistence): an unknown id changes nothing and
        answers false. Otherwise the hologram leaves both maps, its animation
        is cancelled, it is killed, and a persistent id is deleted from
        persistence when the flag is set and saved again otherwise. */
    method Remove(id: string, removePersistence: bool) returns (ok: bool)
      requires Valid()
      modifies this`holograms, this`hologramsByEntity, this`animations, holograms.Values, animations.Values, persistence
      ensures Valid()
      ensures ok <==> id in old(holograms)
      ensures !ok ==> holograms == old(holograms) && hologramsByEntity == old(hologramsByEntity)
                      && animations == old(animations)
      ensures !ok && persistence != null ==>
        persistence.persistent == old(persistence.persistent) && persistence.log == old(persistence.log)
      ensures ok ==> holograms == old(holograms) - {id}
                     && hologramsByEntity == old(hologramsByEntity) - {old(holograms)[id].entityId}
                     && animations == old(animations) - {old(holograms)[id]}
                     && old(holograms)[id].dead && old(holograms)[id].taskCancelled
      ensures ok && old(holograms)[id] in old(animations) ==> old(animations)[old(holograms)[id]].cancelled
      ensures ok && persistence != null ==>
        persistence.persistent == (if removePersistence then old(persistence.persistent) - {id}
                                   else old(persistence.persistent))
        && persistence.log == old(persistence.log)
             + (if id !in old(persistence.persistent) then []
                else if removePersistence then [Delete(id)] else [Save(id)])
    {
      if id !in holograms {
        return false;
      }
      var h := holograms[id];
      holograms := holograms - {id};
      hologramsByEntity := hologramsByEntity - {h.entityId};
      CancelAnimation(h);
      h.Kill();
      if persistence != null {
        if removePersistence && id in persistence.persistent {
          persistence.RemoveHologram(id);
        } else if id in persistence.persistent {
          persistence.SaveHologram(h.id);
        }
      }
      return true;
    }

    /** remove(hologram, removePersistence): false for null, else removal by
        the hologram's id. */
    method RemoveHologram(h: Hologram?, removePersistence: bool) returns (ok: bool)
      requires Valid()
      modifies this`holograms, this`hologramsByEntity, this`animations, holograms.Values, animations.Values, persistence
      ensures Valid()
      ensures ok <==> h != null && h.id in old(holograms)
      ensures !ok ==> holograms == old(holograms) && hologramsByEntity == old(hologramsByEntity)
      ensures ok ==> holograms == old(holograms) - {h.id} && old(holograms)[h.id].dead
    {
      if h == null {
        return false;
      }
      ok := Remove(h.id, removePersistence);
    }

    /** The body removeAll runs for each registered hologram: its
        animation is cancelled, it is killed, and when `resave` holds and
        its id is persistent it is saved once more. */
    method Retire(h: Hologram, resave: bool)
      modifies this`animations, if h in animations then {animations[h]} else {}, h`dead, h`taskCancelled, persistence
      ensures animations == old(animations) - {h}
      ensures h in old(animations) ==> old(animations)[h].cancelled
      ensures h.dead && h.taskCancelled
      ensures persistence != null ==> persistence.persistent == old(persistence.persistent)
      ensures persistence != null ==>
        persistence.log == old(persistence.log)
                           + (if resave && h.id in old(persistence.persistent) then [Save(h.id)] else [])
    {
      CancelAnimation(h);
      h.Kill();
      if resave && persistence != null && h.id in persistence.persistent {
        persistence.SaveHologram(h.id);
      }
    }

    /** One step of the walk of RetireAll once the holograms `done` are
        retired: `a0`, `p0` and `log0` are the animation table, the
        persistent ids and the persistence log before the walk. */
    method RetireStep(h: Hologram, resave: bool, ghost done: set<Hologram>, ghost saved: seq<PersistOp>,
                      ghost a0: map<Hologram, AnimationTask>, ghost p0: set<string>, ghost log0: seq<PersistOp>,
                      ghost m: map<string, Hologram>)
      returns (ghost saved': seq<PersistOp>)
      requires (forall k :: k in m ==> m[k].id == k) && h in m.Values && done <= m.Values && h !in done
      requires animations == a0 - done
      requires forall g :: g in done ==> g.dead && g.taskCancelled
      requires forall g :: g in done && g in a0 ==> a0[g].cancelled
      requires persistence != null ==> persistence.persistent == p0 && persistence.log == log0 + saved
      requires !resave ==> saved == []
      requires resave ==> Enumerates(saved, Resaved(p0, done))
      modifies this`animations, if h in animations then {animations[h]} else {}, h`dead, h`taskCancelled, persistence
      ensures animations == a0 - (done + {h})
      ensures forall g :: g in done + {h} ==> g.dead && g.taskCancelled
      ensures forall g :: g in done + {h} && g in a0 ==> a0[g].cancelled
      ensures persistence != null ==> persistence.persistent == p0 && persistence.log == log0 + saved'
      ensures !resave ==> saved' == []
      ensures resave ==> Enumerates(saved', Resaved(p0, done + {h}))
    {
      saved' := saved;
      if resave {
        saved' := ResaveStep(m, p0, done, saved, h);
      }
      ghost var before := animations;
      Retire(h, resave);
      forall g | g in done && g in a0
        ensures a0[g].cancelled
      {
        if h in before && a0[g] == before[h] {
        }
      }
      assert animations == a0 - (done + {h});
    }

    /** The walk over the registered holograms that removeAll makes: each
        one is retired, and with `resave` each persistent one is saved once
        more. */
    method RetireAll(resave: bool)
      requires Valid()
      modifies this`animations, holograms.Values, animations.Values, persistence
      ensures forall h :: h in holograms.Values ==> h.dead && h.taskCancelled && h !in animations
      ensures forall h :: h in holograms.Values && h in old(animations) ==> old(animations)[h].cancelled
      ensures Shrunk(old(animations), animations)
      ensures persistence != null ==>
        persistence.persistent == old(persistence.persistent)
        && Appended(old(persistence.log), persistence.log,
                    if resave then Resaved(old(persistence.persistent), holograms.Values) else {})
    {
      ghost var m0 := holograms;
      ghost var all := holograms.Values;
      ghost var a0 := animations;
      ghost var p0 := if persistence != null then persistence.persistent else {};
      ghost var log0 := if persistence != null then persistence.log else [];
      var todo := holograms.Values;
      ghost var done: set<Hologram> := {};
      ghost var saved: seq<PersistOp> := [];
      while todo != {}
        invariant todo <= all && done == all - todo
        invariant animations == a0 - done
        invariant forall g :: g in done ==> g.dead && g.taskCancelled
        invariant forall g :: g in done && g in a0 ==> a0[g].cancelled
        invariant persistence != null ==> persistence.persistent == p0 && persistence.log == log0 + saved
        invariant !resave ==> saved == []
        invariant resave ==> Enumerates(saved, Resaved(p0, done))
        decreases todo
      {
        ghost var some := Pick(todo);
        var h :| h in todo;
        saved := RetireStep(h, resave, done, saved, a0, p0, log0, m0);
        todo := todo - {h};
        done := done + {h};
      }
      assert done == all;
      if persistence != null {
        AppendedIntro(log0, saved, if resave then Resaved(p0, all) else {});
      }
    }

    /** The loop of removeAll with the flag set: every id the persistence
        manager holds is deleted, one call each. */
    method PurgePersistence()
      requires persistence != null
      modifies persistence
      ensures persistence.persistent == {}
      ensures Appended(old(persistence.log), persistence.log, Deleted(old(persistence.persistent)))
    {
      ghost var p0 := persistence.persistent;
      var ids := persistence.persistent;
      ghost var dels: seq<PersistOp> := [];
      while ids != {}
        invariant persistence.persistent == ids
        invariant ids <= p0
        invariant persistence.log == old(persistence.log) + dels
        invariant Enumerates(dels, Deleted(p0 - ids))
        decreases ids
      {
        ghost var some := Pick(ids);
        var id :| id in ids;
        persistence.RemoveHologram(id);
        EnumeratesStep(dels, Deleted(p0 - ids), Delete(id));
        assert Deleted(p0 - (ids - {id})) == Deleted(p0 - ids) + {Delete(id)};
        dels := dels + [Delete(id)];
        ids := ids - {id};
      }
      assert p0 - ids == p0;
      AppendedIntro(old(persistence.log), dels, Deleted(p0));
    }

    /** removeAll(removePersistence): every hologram loses its animation and
        is killed, and both maps end empty. Without the flag, each
        registered persistent hologram is saved once more; with it, every id
        the persistence manager holds is deleted, registered or not. */
    method RemoveAll(removePersistence: bool)
      requires Valid()
      modifies this`holograms, this`hologramsByEntity, this`animations, holograms.Values, animations.Values, persistence
      ensures Valid()
      ensures holograms == map[] && hologramsByEntity == map[]
      ensures forall h :: h in old(holograms.Values) ==> h.dead && h.taskCancelled && h !in animations
      ensures forall h :: h in old(holograms.Values) && h in old(animations) ==> old(animations)[h].cancelled
      ensures persistence != null && !removePersistence ==>
        persistence.persistent == old(persistence.persistent)
        && Appended(old(persistence.log), persistence.log, Resaved(old(persistence.persistent), old(holograms.Values)))
      ensures persistence != null && removePersistence ==>
        persistence.persistent == {}
        && Appended(old(persistence.log), persistence.log, Deleted(old(persistence.persistent)))
    {
      RetireAll(!removePersistence);
      if removePersistence && persistence != null {
        PurgePersistence();
      }
      holograms := map[];
      hologramsByEntity := map[];
    }

    /** remove(LeaderboardHologram, removePersistence): each listed hologram
        is removed in turn and the answer is the AND of the individual
        answers; a failure does not stop the later removals. */
    method RemoveLeaderboard(ids: seq<string>, removePersistence: bool) returns (ok: bool)
      requires Valid()
      modifies this`holograms, this`hologramsByEntity, this`animations, holograms.Values, animations.Values, persistence
      ensures Valid()
      ensures ok == Removable(old(holograms.Keys), ids)
      ensures holograms == old(holograms) - Elems(ids)
      ensures Shrunk(old(animations), animations)
      ensures forall k :: k in Elems(ids) && k in old(holograms) ==> old(holograms)[k].dead
      ensures persistence != null && !removePersistence ==> persistence.persistent == old(persistence.persistent)
    {
      ghost var h0 := holograms;
      ghost var a0 := animations;
      ghost var p0 := if persistence != null then persistence.persistent else {};
      ok := true;
      var i := 0;
      while i < |ids|
        invariant 0 <= i <= |ids|
        invariant Valid()
        invariant ok == Removable(h0.Keys, ids[..i])
        invariant holograms == h0 - Elems(ids[..i])
        invariant Shrunk(a0, animations)
        invariant forall k :: k in Elems(ids[..i]) && k in h0 ==> h0[k].dead
        invariant persistence != null && !removePersistence ==> persistence.persistent == p0
      {
        MapMinusValues(h0, Elems(ids[..i]));
        ShrunkValues(a0, animations);
        ghost var before := holograms;
        var removed := Remove(ids[i], removePersistence);
        IdStep(h0, ids, i, ok, removed, before, holograms);
        ok := ok && removed;
        i := i + 1;
      }
      assert ids[..i] == ids;
    }

    /** The hologram part of remove(PagedLeaderboard): each group (a page's
        holograms, or one arrow) is removed as remove(LeaderboardHologram)
        does, and the answer is the AND over all groups. */
    method RemoveGroups(groups: seq<seq<string>>) returns (ok: bool)
      requires Valid()
      modifies this`holograms, this`hologramsByEntity, this`animations, holograms.Values, animations.Values, persistence
      ensures Valid()
      ensures ok == Removable(old(holograms.Keys), Flatten(groups))
      ensures holograms == old(holograms) - Elems(Flatten(groups))
      ensures Shrunk(old(animations), animations)
      ensures forall k :: k in Elems(Flatten(groups)) && k in old(holograms) ==> old(holograms)[k].dead
      ensures persistence != null ==> persistence.persistent == old(persistence.persistent)
    {
      ghost var h0 := holograms;
      ghost var a0 := animations;
      ghost var p0 := if persistence != null then persistence.persistent else {};
      ok := true;
      var i := 0;
      while i < |groups|
        invariant 0 <= i <= |groups|
        invariant Valid()
        invariant ok == Removable(h0.Keys, Flatten(groups[..i]))
        invariant holograms == h0 - Elems(Flatten(groups[..i]))
        invariant Shrunk(a0, animations)
        invariant forall k :: k in Elems(Flatten(groups[..i])) && k in h0 ==> h0[k].dead
        invariant persistence != null ==> persistence.persistent == p0
      {
        MapMinusValues(h0, Elems(Flatten(groups[..i])));
        ShrunkValues(a0, animations);
        ghost var before := holograms;
        var removed := RemoveLeaderboard(groups[i], false);
        GroupStep(h0, groups, i, ok, removed, before, holograms);
        ok := ok && removed;
        i := i + 1;
      }
      assert groups[..i] == groups;
    }

    /** The box part of remove(PagedLeaderboard): two removals, both run,
        and the AND of their answers. */
    method RemoveBoxPair(left: string, right: string) returns (ok: bool)
      requires Valid()
      modifies this`boxes, this`boxesByEntity, boxes.Values
      ensures Valid()
      ensures boxes == old(boxes) - {left, right}
      ensures ok <==> left in old(boxes) && right in old(boxes) && left != right
      ensures left in old(boxes) ==> old(boxes)[left].dead
      ensures right in old(boxes) ==> old(boxes)[right].dead
    {
      var l := RemoveBox(left);
      var r := RemoveBox(right);
      ok := l && r;
    }

    /** remove(PagedLeaderboard): null or an unspawned board answers false
        and changes nothing. Otherwise the board's event handler is
        dropped and every component is removed in turn (pages, then the two
        arrows, then the two interaction boxes); the answer is the AND of
        the individual answers, so every removal runs even after one
        fails. */
    method RemoveBoard(board: Option<PagedBoard>) returns (ok: bool)
      requires Valid()
      modifies this`eventHandlers, this`holograms, this`hologramsByEntity, this`animations,
               this`boxes, this`boxesByEntity, holograms.Values, animations.Values, boxes.Values, persistence
      ensures Valid()
      ensures board.None? || !board.value.spawned ==>
        !ok && eventHandlers == old(eventHandlers) && holograms == old(holograms) && boxes == old(boxes)
        && hologramsByEntity == old(hologramsByEntity) && boxesByEntity == old(boxesByEntity)
        && animations == old(animations)
      ensures (board.None? || !board.value.spawned) && persistence != null ==>
        persistence.persistent == old(persistence.persistent) && persistence.log == old(persistence.log)
      ensures board.Some? && board.value.spawned ==>
        forall k :: k in Elems(BoardHolograms(board.value)) && k in old(holograms) ==> old(holograms)[k].dead
      ensures board.Some? && board.value.spawned ==>
        (board.value.leftBox in old(boxes) ==> old(boxes)[board.value.leftBox].dead)
        && (board.value.rightBox in old(boxes) ==> old(boxes)[board.value.rightBox].dead)
      ensures persistence != null ==> persistence.persistent == old(persistence.persistent)
      ensures board.Some? && board.value.spawned ==>
        eventHandlers == RemoveFirst(old(eventHandlers), board.value.handler)
      ensures board.Some? && board.value.spawned ==>
        holograms == old(holograms) - Elems(BoardHolograms(board.value))
      ensures board.Some? && board.value.spawned ==>
        boxes == old(boxes) - {board.value.leftBox, board.value.rightBox}
      ensures board.Some? && board.value.spawned ==>
        (ok <==> Removable(old(holograms.Keys), BoardHolograms(board.value))
                 && board.value.leftBox in old(boxes) && board.value.rightBox in old(boxes)
                 && board.value.leftBox != board.value.rightBox)
    {
      if board.None? || !board.value.spawned {
        return false;
      }
      var b := board.value;
      RemoveEventHandler(b.handler);
      var groups := b.pages + [[b.leftArrow], [b.rightArrow]];
      BoardGroups(b);
      ok := RemoveGroups(groups);
      var boxesOk := RemoveBoxPair(b.leftBox, b.rightBox);
      ok := ok && boxesOk;
    }

    /** register(interactionBox): as for holograms, null and a taken id are
        rejected and leave both maps alone. */
    method RegisterBox(b: InteractionBox?) returns (ok: bool)
      requires Valid()
      modifies this`boxes, this`boxesByEntity
      ensures Valid()
      ensures ok <==> b != null && b.id !in old(boxes)
      ensures !ok ==> boxes == old(boxes) && boxesByEntity == old(boxesByEntity)
      ensures ok ==> boxes == old(boxes)[b.id := b] && boxesByEntity == old(boxesByEntity)[b.entityId := b]
    {
      if b == null {
        return false;
      }
      if b.id in boxes {
        return false;
      }
      boxes := boxes[b.id := b];
      boxesByEntity := boxesByEntity[b.entityId := b];
      return true;
    }

    /** removeInteractionBox(id): an unknown id answers false; otherwise the
        box leaves both maps and is killed. */
    method RemoveBox(id: string) returns (ok: bool)
      requires Valid()
      modifies this`boxes, this`boxesByEntity, boxes.Values
      ensures Valid()
      ensures ok <==> id in old(boxes)
      ensures !ok ==> boxes == old(boxes) && boxesByEntity == old(boxesByEntity)
      ensures ok ==> boxes == old(boxes) - {id}
                     && boxesByEntity == old(boxesByEntity) - {old(boxes)[id].entityId}
                     && old(boxes)[id].dead && old(boxes)[id].taskCancelled
    {
      if id !in boxes {
        return false;
      }
      var b := boxes[id];
      boxes := boxes - {id};
      boxesByEntity := boxesByEntity - {b.entityId};
      b.Kill();
      return true;
    }

    /** removeInteractionBox(box): false for null, else removal by the box's
        id. */
    method RemoveBoxObject(b: InteractionBox?) returns (ok: bool)
      requires Valid()
      modifies this`boxes, this`boxesByEntity, boxes.Values
      ensures Valid()
      ensures ok <==> b != null && b.id in old(boxes)
      ensures ok ==> boxes == old(boxes) - {b.id} && old(boxes)[b.id].dead
      ensures !ok ==> boxes == old(boxes)
    {
      if b == null {
        return false;
      }
      ok := RemoveBox(b.id);
    }

    /** removeAllInteractionBoxes: every box is killed and both maps end
        empty. */
    method RemoveAllBoxes()
      requires Valid()
      modifies this`boxes, this`boxesByEntity, boxes.Values
      ensures Valid()
      ensures boxes == map[] && boxesByEntity == map[]
      ensures forall b :: b in old(boxes.Values) ==> b.dead && b.taskCancelled
    {
      var todo := boxes.Values;
      while todo != {}
        invariant todo <= old(boxes.Values) && boxes == old(boxes)
        invariant forall b :: b in old(boxes.Values) - todo ==> b.dead && b.taskCancelled
        decreases todo
      {
        ghost var some := Pick(todo);
        var b :| b in todo;
        b.Kill();
        todo := todo - {b};
      }
      boxes := map[];
      boxesByEntity := map[];
    }

    /** spawn(hologram, location, persistent, ignorePitchYaw): registration
        happens at once; the scheduled part then places and updates the
        hologram whether or not registration succeeded, and saves it when
        asked to and persistence is available. The two-argument spawn is
        the case `persistent == false`, `ignorePitchYaw == true`. A null
        hologram only fails to register (the scheduled part throws and is
        logged). */
    method Spawn(h: Hologram?, loc: Location, persistent: bool, ignorePitchYaw: bool, server: Snapshot)
      returns (registered: bool)
      requires Valid()
      modifies this`holograms, this`hologramsByEntity, h, if h != null then {h.net, h.net.listener} else {}, persistence
      ensures Valid()
      ensures registered <==> h != null && h.id !in old(holograms)
      ensures registered ==> holograms == old(holograms)[h.id := h]
      ensures !registered ==> holograms == old(holograms)
      ensures h != null ==> !h.dead
      ensures h != null && h.renderMode != ViewerList ==>
        h.location == Some(if ignorePitchYaw then loc.(pitch := 0.0, yaw := 0.0) else loc)
      ensures h != null && WorldTracked(h.renderMode, h.location) ==>
        h.viewers == Target(h.renderMode, server, h.blacklist, h.location.value, h.maxDistSq, h.attachedEntityId)
      ensures persistence != null ==>
        if h != null && persistent
        then persistence.persistent == old(persistence.persistent) + {h.id}
             && persistence.log == old(persistence.log) + [Save(h.id)]
        else persistence.persistent == old(persistence.persistent) && persistence.log == old(persistence.log)
    {
      registered := Register(h);
      if h == null {
        return;
      }
      h.Spawn(loc, ignorePitchYaw);
      h.UpdateAffectedPlayers(server);
      if persistent && persistence != null {
        persistence.SaveHologram(h.id);
      }
    }

    /** spawn(interactionBox, location, ignorePitchYaw): registration, then
        placement and an update whether or not registration succeeded. */
    method SpawnBox(b: InteractionBox?, loc: Location, ignorePitchYaw: bool, server: Snapshot)
      returns (registered: bool)
      requires Valid()
      modifies this`boxes, this`boxesByEntity, b, if b != null then {b.net, b.net.listener} else {}
      ensures Valid()
      ensures registered <==> b != null && b.id !in old(boxes)
      ensures registered ==> boxes == old(boxes)[b.id := b]
      ensures !registered ==> boxes == old(boxes)
      ensures b != null ==> !b.dead
      ensures b != null && b.renderMode != ViewerList ==>
        b.location == Some(if ignorePitchYaw then loc.(pitch := 0.0, yaw := 0.0) else loc)
      ensures b != null && WorldTracked(b.renderMode, b.location) ==>
        b.viewers == Target(b.renderMode, server, b.blacklist, b.location.value, b.maxDistSq, b.attachedEntityId)
    {
      registered := RegisterBox(b);
      if b == null {
        return;
      }
      b.Spawn(loc, ignorePitchYaw);
      b.UpdateAffectedPlayers(server);
    }

    /** The registrations of spawn(LeaderboardHologram, location, ...):
        every text hologram and then the first-place head, if any, is
        registered in turn. */
    method SpawnLeaderboard(parts: seq<Hologram>)
      requires Valid()
      modifies this`holograms, this`hologramsByEntity
      ensures Valid()
      ensures holograms == Registered(old(holograms), parts)
    {
      var i := 0;
      while i < |parts|
        invariant 0 <= i <= |parts|
        invariant Valid()
        invariant holograms == Registered(old(holograms), parts[..i])
      {
        assert parts[..i + 1][..i] == parts[..i];
        var _ := Register(parts[i]);
        i := i + 1;
      }
      assert parts[..i] == parts;
    }

    /** The registry part of spawn(PagedLeaderboard, location): the board's
        event handler is registered, then every page's holograms and the
        two arrows, then the two interaction boxes. The scheduled `init`
        runs afterwards; when it throws, the handler is removed again. */
    method SpawnBoard(handler: int, parts: seq<Hologram>, leftBox: InteractionBox?, rightBox: InteractionBox?,
                      initThrows: bool)
      requires Valid()
      modifies this`eventHandlers, this`holograms, this`hologramsByEntity, this`boxes, this`boxesByEntity
      ensures Valid()
      ensures eventHandlers == if initThrows then RemoveFirst(old(eventHandlers) + [handler], handler)
                               else old(eventHandlers) + [handler]
      ensures initThrows ==> multiset(eventHandlers) == multiset(old(eventHandlers))
      ensures initThrows && handler !in old(eventHandlers) ==> eventHandlers == old(eventHandlers)
      ensures holograms == Registered(old(holograms), parts)
      ensures boxes == RegisteredBox(RegisteredBox(old(boxes), leftBox), rightBox)
    {
      RegisterEventHandler(handler);
      SpawnLeaderboard(parts);
      var _ := RegisterBox(leftBox);
      var _ := RegisterBox(rightBox);
      if initThrows {
        RemoveEventHandler(handler);
        RemoveFirstOfAppended(old(eventHandlers), handler);
      }
    }

    /** makePersistent(id): with persistence available and the id
        registered, the hologram is saved; otherwise nothing happens. */
    method MakePersistent(id: string) returns (ok: bool)
      requires Valid()
      modifies persistence
      ensures ok <==> persistence != null && id in holograms
      ensures ok ==> persistence.persistent == old(persistence.persistent) + {id}
                     && persistence.log == old(persistence.log) + [Save(id)]
      ensures !ok && persistence != null ==>
        persistence.persistent == old(persistence.persistent) && persistence.log == old(persistence.log)
    {
      if persistence != null && id in holograms {
        persistence.SaveHologram(holograms[id].id);
        return true;
      }
      return false;
    }

    /** removePersistence(id): only an id the persistence manager holds is
        deleted; the hologram itself stays registered. */
    method RemovePersistence(id: string) returns (ok: bool)
      modifies persistence
      ensures ok <==> persistence != null && id in old(persistence.persistent)
      ensures ok ==> persistence.persistent == old(persistence.persistent) - {id}
                     && persistence.log == old(persistence.log) + [Delete(id)]
      ensures !ok && persistence != null ==>
        persistence.persistent == old(persistence.persistent) && persistence.log == old(persistence.log)
    {
      if persistence != null && id in persistence.persistent {
        persistence.RemoveHologram(id);
        return true;
      }
      return false;
    }
  }
}
