/** PlaceholderAPIHook: outbound ENTITY_METADATA packets of text holograms
    with placeholders enabled get their text component re-rendered for the
    receiving player. */
module PlaceholderHook {
  import opened Common
  import opened Protocol
  import opened Holograms
  import opened Registry

  /** TEXT_DISPLAY_TEXT_INDEX: the metadata slot of a text display's text. */
  const TextIndex: int := 23

  /** What the hook reads of a TextHologram: the placeholder switch and the
      raw text (null is None). */
  datatype TextState = TextState(placeholderApiEnabled: bool, rawText: Option<string>)

  /** An entry the hook replaces: slot 23 holding an Adventure component. */
  predicate IsTextEntry(d: EntityData) {
    d.index == TextIndex && d.kind == AdvComponent
  }

  /** The entry the hook writes for a rendered component. */
  function TextEntry(component: string): (r: EntityData)
    ensures IsTextEntry(r) && r.value == component
  {
    EntityData(TextIndex, AdvComponent, component)
  }

  /** Whether some entry of the list is a text entry. */
  predicate HasTextEntry(md: seq<EntityData>) {
    exists i :: 0 <= i < |md| && IsTextEntry(md[i])
  }

  /** Every text entry replaced by the new component, every other entry
      kept, in place. */
  function ReplaceText(md: seq<EntityData>, component: string): (r: seq<EntityData>)
    ensures |r| == |md|
    ensures forall i :: 0 <= i < |md| ==> r[i] == if IsTextEntry(md[i]) then TextEntry(component) else md[i]
  {
    if md == [] then []
    else
      var last := md[|md| - 1];
      ReplaceText(md[..|md| - 1], component) + [if IsTextEntry(last) then TextEntry(component) else last]
  }

  /** The metadata list the hook writes back: the list with its text
      entries replaced, and one text entry appended when there was none. */
  function RewriteMetadata(md: seq<EntityData>, component: string): (r: seq<EntityData>)
    ensures |r| == if HasTextEntry(md) then |md| else |md| + 1
    ensures forall i :: 0 <= i < |md| ==> r[i] == if IsTextEntry(md[i]) then TextEntry(component) else md[i]
    ensures !HasTextEntry(md) ==> r[|md|] == TextEntry(component)
  {
    if HasTextEntry(md) then ReplaceText(md, component) else ReplaceText(md, component) + [TextEntry(component)]
  }

  /** One more entry has a text entry iff it is one or one came before. */
  lemma HasTextEntrySnoc(md: seq<EntityData>, d: EntityData)
    ensures HasTextEntry(md + [d]) <==> HasTextEntry(md) || IsTextEntry(d)
  {
    if HasTextEntry(md) {
      var j :| 0 <= j < |md| && IsTextEntry(md[j]);
      assert (md + [d])[j] == md[j];
    }
    if IsTextEntry(d) {
      assert (md + [d])[|md|] == d;
    }
    if HasTextEntry(md + [d]) && !IsTextEntry(d) {
      var j :| 0 <= j < |md| + 1 && IsTextEntry((md + [d])[j]);
      assert j < |md| && md[j] == (md + [d])[j];
    }
  }

  /** The rewrite loop: a fresh list built entry by entry, with a flag
      recording whether a text entry was met. */
  method Rewrite(md: seq<EntityData>, component: string) returns (out: seq<EntityData>)
    ensures out == RewriteMetadata(md, component)
  {
    out := [];
    var found := false;
    for i := 0 to |md|
      invariant out == ReplaceText(md[..i], component)
      invariant found <==> HasTextEntry(md[..i])
    {
      if IsTextEntry(md[i]) {
        out := out + [TextEntry(component)];
        found := true;
      } else {
        out := out + [md[i]];
      }
      assert md[..i + 1] == md[..i] + [md[i]];
      HasTextEntrySnoc(md[..i], md[i]);
    }
    assert md[..|md|] == md;
    if !found {
      out := out + [TextEntry(component)];
    }
  }

  /** The hook's output carries the component in a text entry, and in
      every text entry it has. */
  lemma RewriteCarriesComponent(md: seq<EntityData>, component: string)
    ensures HasTextEntry(RewriteMetadata(md, component))
    ensures forall i :: 0 <= i < |RewriteMetadata(md, component)| && IsTextEntry(RewriteMetadata(md, component)[i])
                        ==> RewriteMetadata(md, component)[i].value == component
  {
    var r := RewriteMetadata(md, component);
    if HasTextEntry(md) {
      var i :| 0 <= i < |md| && IsTextEntry(md[i]);
      assert IsTextEntry(r[i]);
    } else {
      assert IsTextEntry(r[|md|]);
    }
  }

  /** Rewriting twice with the same component is rewriting once: the
      second pass finds a text entry and replaces it with itself. */
  lemma {:induction false} RewriteIdempotent(md: seq<EntityData>, component: string)
    ensures RewriteMetadata(RewriteMetadata(md, component), component) == RewriteMetadata(md, component)
  {
    var r := RewriteMetadata(md, component);
    RewriteCarriesComponent(md, component);
    var r2 := RewriteMetadata(r, component);
    forall i | 0 <= i < |r|
      ensures r2[i] == r[i]
    {
      if IsTextEntry(r[i]) {
        assert r[i] == TextEntry(component);
      }
    }
  }

  /** Which registered hologram an outbound packet concerns, if the hook
      acts on it at all: an ENTITY_METADATA packet, a manager, a hologram
      registered under the entity id that is a text hologram (`texts` holds
      the text holograms' state), placeholders enabled, a receiving player,
      and a non-empty raw text. */
  function HookTarget(p: Packet, manager: HologramManager?, texts: map<Hologram, TextState>,
                      player: Option<Uuid>): (r: Option<string>)
    reads manager
    ensures r.Some? ==> r.value != []
    ensures r.Some? ==> p.EntityMetadata? && manager != null && p.entityId in manager.hologramsByEntity
                        && manager.hologramsByEntity[p.entityId] in texts && player.Some?
                        && texts[manager.hologramsByEntity[p.entityId]].placeholderApiEnabled
                        && texts[manager.hologramsByEntity[p.entityId]].rawText == r
  {
    if !p.EntityMetadata? then None
    else if manager == null then None
    else if p.entityId !in manager.hologramsByEntity then None
    else if manager.hologramsByEntity[p.entityId] !in texts then None
    else
      var t := texts[manager.hologramsByEntity[p.entityId]];
      if !t.placeholderApiEnabled then None
      else if player.None? then None
      else if t.rawText.None? || t.rawText.value == [] then None
      else t.rawText
  }

  /** onPacketSend: a packet the hook does not act on leaves unchanged;
      otherwise its metadata is rewritten with the raw text rendered for
      the player (`render` stands for placeholder expansion, font-image
      replacement and MiniMessage parsing). */
  method OnPacketSend(p: Packet, manager: HologramManager?, texts: map<Hologram, TextState>,
                      player: Option<Uuid>, render: (Uuid, string) -> string)
    returns (out: Packet)
    ensures HookTarget(p, manager, texts, player).None? ==> out == p
    ensures HookTarget(p, manager, texts, player).Some? ==>
      out == EntityMetadata(p.entityId,
                            RewriteMetadata(p.metadata, render(player.value, HookTarget(p, manager, texts, player).value)))
  {
    var raw := HookTarget(p, manager, texts, player);
    if raw.None? {
      return p;
    }
    var md := Rewrite(p.metadata, render(player.value, raw.value));
    out := EntityMetadata(p.entityId, md);
  }

  /** Packets of any other type, and packets for entities that are not
      registered text holograms, pass through unchanged. */
  lemma OtherPacketsUntouched(p: Packet, manager: HologramManager?, texts: map<Hologram, TextState>, player: Option<Uuid>)
    requires !p.EntityMetadata? || manager == null || p.entityId !in manager.hologramsByEntity
             || manager.hologramsByEntity[p.entityId] !in texts
    ensures HookTarget(p, manager, texts, player).None?
  {
  }
}
