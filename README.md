# HologramLib in Dafny

A model of the core of HologramLib, a Minecraft server library that shows
packet-based display entities ("holograms") and clickable hit-boxes
("interaction boxes") to players. The model covers:

- the per-entity visibility engine (`Holograms`, `Interactions`,
  `Visibility`). It has render modes, a blacklist that is a list with
  repeats, the viewer set and attachment to a host entity. It also has the
  periodic pass, which recomputes the viewers from a snapshot of the
  server's players;
- the two passenger-list helpers `addElement` and `removeElement`
  (`Passengers`), as functions on sequences and as the source's array loops;
- the packets the library sends, and the passenger manifest cache that
  listens to them (`Protocol`);
- the registry of holograms and interaction boxes, with persistence,
  text-animation rotation and composite removal (`Registry`);
- the guard chain that routes an interaction packet to a box's callback
  (`Router`);
- the leaderboard widget (`Leaderboards`): its component-id layout, top-N
  selection, place formats, placeholder substitution and the `update`
  refresh;
- the paged leaderboard (`PagedLeaderboards`): a per-player page state
  machine over per-page blacklist counts, with modular next/previous, page
  removal with index shifting, and init/join/quit;
- the metadata rewrite of the placeholder hook (`PlaceholderHook`);
- the player-head encoder, the pixel overlay rule, the name key
  normalisation and the least-recently-used caches of `PlayerUtils`
  (`PlayerHeads`).

The server is an immutable snapshot: a sequence of players, each with a uuid,
an entity id, an online flag and a location. The network is an append-only
log of outbound packets. Every packet in that log is also fed to the
passenger manifest cache, as the packet listener does. Hash-set and hash-map
iteration order is left open: loops pick an arbitrary remaining element, and
contracts state results that do not depend on the order. Coordinates are
`real`. Java's `%` is modelled by `PagedLeaderboards.Rem`, which truncates
toward zero.

The source's classes keep their form: `Hologram`, `InteractionBox`,
`PassengerManager`, `HologramManager`, `LeaderboardHologram`,
`PagedLeaderboard`, the `LRUCache` and the static caches of `PlayerUtils` are
Dafny classes with `modifies` clauses. Their loops carry invariants. Where
the source computes a value, there is a function or a lemma.

## Model

| member | source | states |
|---|---|---|
| Common.DistSq | src/main/java/com/maximde/hologramlib/hologram/Hologram.java:284-288 | The squared distance is never negative, and it is zero at the same point. |
| Common.PlayerByUuid | src/main/java/com/maximde/hologramlib/hologram/Hologram.java:257-258 | Bukkit.getPlayer answers an online player with that uuid, or none when no online player has it. |
| Common.PlayerByEntityId | src/main/java/com/maximde/hologramlib/hologram/Hologram.java:340-347 | getPlayerByEntityId answers an online player with that entity id, or null when no online player has it. |
| Common.OnlinePlayers | src/main/java/com/maximde/hologramlib/hologram/Hologram.java:341 | The online players are exactly the server's players whose online flag is set. |
| Common.RemoveFirst | src/main/java/com/maximde/hologramlib/hologram/Hologram.java:428-430 | List.remove(Object) drops one occurrence when there is one and leaves the list alone otherwise. |
| Common.RemoveFirstAt | src/main/java/com/maximde/hologramlib/hologram/Hologram.java:428-430 | The occurrence removed is the first one, and the elements before and after it keep their order. |
| Common.RemoveFirstOfAppended | src/main/java/com/maximde/hologramlib/hologram/HologramManager.java:140-160 | Appending an element and then removing it keeps the same elements. When the element was not there before, the list is back as it was. |
| Protocol.Lookup | src/main/java/com/maximde/hologramlib/hologram/PassengerManager.java:29-31 | getPassengers answers an empty list for a host never observed, and the recorded list otherwise. |
| Protocol.Observe | src/main/java/com/maximde/hologramlib/hologram/PassengerManager.java:23-27 | A SET_PASSENGERS packet overwrites exactly its host's entry. Any other packet leaves the map unchanged. No entry is ever removed. |
| Protocol.ObserveAllKeepsHosts | src/main/java/com/maximde/hologramlib/hologram/PassengerManager.java:16-31 | Over any run of packets, the set of hosts with a manifest only grows. |
| Protocol.ObserveAllUntouched | src/main/java/com/maximde/hologramlib/hologram/PassengerManager.java:24-26 | A run with no SET_PASSENGERS packet for the host leaves its manifest as it was. |
| Protocol.ObserveAllLastAt | src/main/java/com/maximde/hologramlib/hologram/PassengerManager.java:24-26 | When packet i is the last SET_PASSENGERS packet for the host, the manifest ends as its riders. |
| Protocol.ObserveAllLastWins | src/main/java/com/maximde/hologramlib/hologram/PassengerManager.java:24-26 | A host's manifest is the riders of the last SET_PASSENGERS packet for it, wherever in the run that packet is. With no such packet it is unchanged. |
| Protocol.ObserveIdempotent | src/main/java/com/maximde/hologramlib/hologram/PassengerManager.java:26 | Observing the same packet twice is observing it once. |
| Protocol.PacketsToAt | src/main/java/com/maximde/hologramlib/hologram/Hologram.java:306-311 | Sending one packet to a list of players logs, at position i, the packet to the i-th player. |
| Protocol.PassengerManager.GetPassengers | src/main/java/com/maximde/hologramlib/hologram/PassengerManager.java:29-31 | An unknown host gives an empty list; a known host gives its recorded list. |
| Protocol.PassengerManager.constructor | src/main/java/com/maximde/hologramlib/hologram/PassengerManager.java:16 | The manifest map starts empty. |
| Protocol.PassengerManager.OnPacketSend | src/main/java/com/maximde/hologramlib/hologram/PassengerManager.java:23-27 | The map becomes Observe of the old map. A SET_PASSENGERS packet makes getPassengers of its host return the packet's riders. Any other packet changes nothing. |
| Protocol.Transport.Send | src/main/java/com/maximde/hologramlib/hologram/Hologram.java:306-311 | A packet sent is appended to the log and reaches the passenger manifest listener. |
| Passengers.AddElementFacts | src/main/java/com/maximde/hologramlib/hologram/Hologram.java:398-404 | The element is present afterwards. The result is the same list exactly when the element was present; otherwise the old list is a prefix and one element is appended. No duplicate is ever created. |
| Passengers.AddElementIdempotent | src/main/java/com/maximde/hologramlib/hologram/Hologram.java:398-404 | Adding twice is adding once. |
| Passengers.RemoveElement | src/main/java/com/maximde/hologramlib/hologram/Hologram.java:439-448 | The element is absent afterwards, and an absent element leaves the list as it was. |
| Passengers.RemoveElementCounts | src/main/java/com/maximde/hologramlib/hologram/Hologram.java:439-448 | The new length is the old length minus the number of occurrences. Every other element keeps its count. |
| Passengers.RemoveElementConcat | src/main/java/com/maximde/hologramlib/hologram/Hologram.java:445-446 | Removal works element by element, so the rest keep their relative order. |
| Passengers.RemoveAfterAdd | src/main/java/com/maximde/hologramlib/hologram/Hologram.java:359-389 | A detach right after an attach restores the old manifest when the rider was not on it. |
| Passengers.RemoveAbsorbsAdd | src/main/java/com/maximde/hologramlib/hologram/Hologram.java:359-389 | Removing after adding equals removing alone. |
| Passengers.AddElementArray | src/main/java/com/maximde/hologramlib/hologram/Hologram.java:398-404 | The array loop returns the very same array when the element is present; otherwise a copy with it appended. This agrees with AddElement. |
| Passengers.CountOccurrences | src/main/java/com/maximde/hologramlib/hologram/Hologram.java:440-441 | The counting loop computes the number of occurrences. |
| Passengers.RemoveElementArray | src/main/java/com/maximde/hologramlib/hologram/Hologram.java:439-448 | The array loops return the same array when the element is absent; otherwise a fresh array of the kept elements. This agrees with RemoveElement. |
| Passengers.CopyKept | src/main/java/com/maximde/hologramlib/hologram/Hologram.java:444-447 | The copy loop fills a fresh array with the elements other than the removed one, in order. |
| Visibility.Keep | src/main/java/com/maximde/hologramlib/hologram/Hologram.java:277-288 | viewersToKeep holds exactly the players that are online, not blacklisted, in the entity's world and within the squared distance (inclusive). |
| Visibility.HiddenHost | src/main/java/com/maximde/hologramlib/hologram/Hologram.java:290-297 | There is a player to hide exactly in NOT_ATTACHED_PLAYER mode when the attached entity id belongs to an online player. |
| Visibility.Target | src/main/java/com/maximde/hologramlib/hologram/Hologram.java:276-302 | The target viewers are exactly the eligible players, less the attached player in NOT_ATTACHED_PLAYER mode. |
| Visibility.KeepList | src/main/java/com/maximde/hologramlib/hologram/Hologram.java:277-297 | viewersToKeep holds only players of the server that are eligible: online, not blacklisted, in the world and in range. |
| Visibility.NearbyIsAll | src/main/java/com/maximde/hologramlib/hologram/RenderMode.java:19-23 | NEARBY gives the same viewers as ALL. |
| Visibility.NotAttachedIsAllLessHost | src/main/java/com/maximde/hologramlib/hologram/RenderMode.java:25-29 | NOT_ATTACHED_PLAYER equals ALL minus the attached online player, and equals ALL when there is none. |
| Visibility.BlacklistedNeverTargeted | src/main/java/com/maximde/hologramlib/hologram/Hologram.java:284 | A blacklisted player is never a target viewer. |
| Visibility.BoundIsInclusive | src/main/java/com/maximde/hologramlib/hologram/Hologram.java:286 | A player exactly at the render distance is a viewer. |
| Visibility.TargetMonotoneInDistance | src/main/java/com/maximde/hologramlib/hologram/Hologram.java:286 | A larger render distance never loses a viewer. |
| Visibility.NewcomersExactlyOnce | src/main/java/com/maximde/hologramlib/hologram/Hologram.java:623-632 | Walking a list with the already-a-viewer guard greets each new player exactly once and no one else. |
| Holograms.ValidateId | src/main/java/com/maximde/hologramlib/hologram/Hologram.java:199-203 | An id passes exactly when it has no space; otherwise it fails with an IllegalArgumentException. |
| Holograms.OnlineAmong | src/main/java/com/maximde/hologramlib/hologram/Hologram.java:256-259 | The viewers that resolve to an online player. |
| Holograms.RidePacket | src/main/java/com/maximde/hologramlib/hologram/Hologram.java:626-629 | The ride packet names the host and carries the old riders plus this entity. |
| Holograms.RidePacketStable | src/main/java/com/maximde/hologramlib/hologram/Hologram.java:623-632 | A second greeting rebuilds the same ride packet as the first, once the first has updated the manifest. |
| Holograms.SendVia | src/main/java/com/maximde/hologramlib/hologram/Hologram.java:306-311 | In NONE mode a packet is dropped. Otherwise it is logged once and fed to the manifest cache. |
| Holograms.GreetAllViewers | src/main/java/com/maximde/hologramlib/hologram/Hologram.java:655-658 | addAllViewers makes every listed player a viewer and removes no one. |
| Holograms.GreetAllQuiet | src/main/java/com/maximde/hologramlib/hologram/Hologram.java:623-632 | Unattached, or in NONE mode, addAllViewers sends nothing. |
| Holograms.GreetAllManifest | src/main/java/com/maximde/hologramlib/hologram/Hologram.java:623-632 | Attached, the manifest moves only when someone new was greeted, and then to the first greeting's riders. |
| Holograms.GreetAllPackets | src/main/java/com/maximde/hologramlib/hologram/Hologram.java:623-632 | Attached, addAllViewers sends one ride packet to each player that was not yet a viewer, in list order. |
| Holograms.Prune | src/main/java/com/maximde/hologramlib/hologram/Hologram.java:297-300 | Removing the viewers off the keep list only shrinks the viewers and sends nothing. |
| Holograms.WorldPassViewers | src/main/java/com/maximde/hologramlib/hologram/Hologram.java:276-302 | After a world-tracking pass, the viewers are exactly the target set. |
| Holograms.WorldPassPackets | src/main/java/com/maximde/hologramlib/hologram/Hologram.java:297-301 | Attached, a pass sends one ride packet to each kept player who was not already a viewer, and to no one else. |
| Holograms.WorldPassQuiet | src/main/java/com/maximde/hologramlib/hologram/Hologram.java:297-301 | Unattached, or in NONE mode, a pass sends nothing. |
| Holograms.ResendStep | src/main/java/com/maximde/hologramlib/hologram/Hologram.java:255-264 | An online viewer gets the ride packet again; an offline or unknown one gets nothing. |
| Holograms.HostSpot | src/main/java/com/maximde/hologramlib/hologram/Hologram.java:247-254 | A VIEWER_LIST entity moves only when it is attached to an online player. Unattached, it stays where it is. |
| Holograms.Rejoin | src/main/java/com/maximde/hologramlib/hologram/Hologram.java:378-383 | The first step of detach in NOT_ATTACHED_PLAYER mode adds back the online host player as a viewer. |
| Holograms.RejoinManifest | src/main/java/com/maximde/hologramlib/hologram/Hologram.java:376-389 | Greeting the host first does not change the detach packet's rider list. |
| Holograms.AttachDetachManifest | src/main/java/com/maximde/hologramlib/hologram/Hologram.java:359-389 | After attach and then detach, the host's riders lose this entity and keep the rest. They are back where they were when the entity was not riding before. |
| Holograms.PackBrightness | src/main/java/com/maximde/hologramlib/hologram/Hologram.java:612-621 | The packed brightness is in 0..2^24. |
| Holograms.UnpackBrightness | src/main/java/com/maximde/hologramlib/hologram/Hologram.java:620 | Both light levels can be read back from the packed value, and its low nibble is clear. |
| Holograms.GlowColor | src/main/java/com/maximde/hologramlib/hologram/Hologram.java:576-582 | The red and blue bytes swap, green stays and alpha is cleared. |
| Holograms.GlowColorInvolution | src/main/java/com/maximde/hologramlib/hologram/Hologram.java:576-582 | Swapping twice gives back the colour without its alpha byte. |
| Holograms.ShowUndoesOneHide | src/main/java/com/maximde/hologramlib/hologram/Hologram.java:410-430 | One show undoes exactly one hide, so a player hidden twice is still blacklisted after one show. |
| Holograms.NewHologram | src/main/java/com/maximde/hologramlib/hologram/Hologram.java:133-141 | An id with a space throws the validateId error. Otherwise a new entity has the id and render mode given. |
| Holograms.Hologram.constructor | src/main/java/com/maximde/hologramlib/hologram/Hologram.java:133-147 | A new entity is dead, unplaced, unattached, with an empty blacklist and no viewers, and every default. The task is scheduled with the initial period. |
| Holograms.Hologram.SendPacket | src/main/java/com/maximde/hologramlib/hologram/Hologram.java:306-311 | In NONE mode nothing is sent. Otherwise the packet is logged once. |
| Holograms.Hologram.AddViewer | src/main/java/com/maximde/hologramlib/hologram/Hologram.java:623-632 | A current viewer causes nothing. A new viewer is added and, when attached, gets exactly one ride packet. |
| Holograms.Hologram.RemoveViewer | src/main/java/com/maximde/hologramlib/hologram/Hologram.java:634-637 | The player is no longer a viewer. |
| Holograms.Hologram.AddAllViewers | src/main/java/com/maximde/hologramlib/hologram/Hologram.java:655-658 | addViewer for each player, in order (GreetAll). |
| Holograms.Hologram.PruneViewers | src/main/java/com/maximde/hologramlib/hologram/Hologram.java:297-300 | The viewers become the old viewers that are on the keep list. |
| Holograms.Hologram.SendToViewers | src/main/java/com/maximde/hologramlib/hologram/Hologram.java:370 | One copy of the packet goes to every viewer, in some order. |
| Holograms.Hologram.ResendRide | src/main/java/com/maximde/hologramlib/hologram/Hologram.java:255-264 | Every online viewer is sent the ride packet once. |
| Holograms.Hologram.ResendTo | src/main/java/com/maximde/hologramlib/hologram/Hologram.java:255-264 | One viewer of the VIEWER_LIST pass: an online one is sent the ride packet once, an offline or unknown one nothing. |
| Holograms.Hologram.Teleport | src/main/java/com/maximde/hologramlib/hologram/Hologram.java:220-224 | The location becomes the new one. |
| Holograms.Hologram.FollowHost | src/main/java/com/maximde/hologramlib/hologram/Hologram.java:246-267 | The VIEWER_LIST pass moves the entity to its online host and resends the ride to the online viewers. It never changes the viewer set. |
| Holograms.Hologram.RefreshWorld | src/main/java/com/maximde/hologramlib/hologram/Hologram.java:276-302 | A world-tracking pass leaves exactly the target viewers. |
| Holograms.Hologram.UpdateAffectedPlayers | src/main/java/com/maximde/hologramlib/hologram/Hologram.java:243-304 | Dead: nothing changes. Without a location outside VIEWER_LIST: nothing changes. World-tracking: the viewers are exactly the target set. |
| Holograms.Hologram.Attach | src/main/java/com/maximde/hologramlib/hologram/Hologram.java:359-371 | The entity rides the host. In NOT_ATTACHED_PLAYER mode the host player stops viewing. The ride packet goes to every viewer. |
| Holograms.Hologram.Detach | src/main/java/com/maximde/hologramlib/hologram/Hologram.java:376-389 | Unattached: a no-op. Otherwise the host's riders without this entity are sent to the viewers, and the attachment is cleared. |
| Holograms.Hologram.SetRenderMode | src/main/java/com/maximde/hologramlib/hologram/Hologram.java:183-197 | Null throws. The same mode changes nothing. A new world-tracking mode leaves exactly the target viewers. With no world pass (dead, VIEWER_LIST or NONE, or not placed), the viewers are the old ones plus the host player that NOT_ATTACHED_PLAYER hid, when it is online. |
| Holograms.Hologram.Show | src/main/java/com/maximde/hologramlib/hologram/Hologram.java:410-413 | One blacklist occurrence goes, and the player is added as a viewer. |
| Holograms.Hologram.Hide | src/main/java/com/maximde/hologramlib/hologram/Hologram.java:419-422 | One more blacklist occurrence is added (duplicates allowed), and the player stops viewing. |
| Holograms.Hologram.Spawn | src/main/java/com/maximde/hologramlib/hologram/Hologram.java:313-321 | The entity is placed, with pitch and yaw zeroed on request, and is alive. |
| Holograms.Hologram.Kill | src/main/java/com/maximde/hologramlib/hologram/Hologram.java:214-218 | The task is cancelled and the entity is dead. |
| Holograms.Hologram.SetUpdateTaskPeriod | src/main/java/com/maximde/hologramlib/hologram/Hologram.java:469-472 | Only the field changes. The running task keeps its period. |
| Holograms.Hologram.SetMaxPlayerRenderDistanceSquared | src/main/java/com/maximde/hologramlib/hologram/Hologram.java:474-477 | The distance bound is set. |
| Holograms.Hologram.SetBrightnessRaw | src/main/java/com/maximde/hologramlib/hologram/Hologram.java:603-606 | The raw value is stored unchecked. |
| Holograms.Hologram.SetBrightness | src/main/java/com/maximde/hologramlib/hologram/Hologram.java:612-621 | Levels outside 0..15 throw, with block checked first. Otherwise both are packed. |
| Holograms.Hologram.SetGlowColor | src/main/java/com/maximde/hologramlib/hologram/Hologram.java:576-582 | The stored colour is GlowColor of the ARGB value. |
| Interactions.ValidateBoxId | src/main/java/com/maximde/hologramlib/hologram/InteractionBox.java:178-182 | A box id passes exactly when it has no space. |
| Interactions.UuidList | src/main/java/com/maximde/hologramlib/hologram/InteractionBox.java:466-469 | One uuid per listed player. |
| Interactions.TouchRepeats | src/main/java/com/maximde/hologramlib/hologram/InteractionBox.java:435-443 | Unlike a hologram, an attached box resends its ride packet to a current viewer. |
| Interactions.TouchAllViewers | src/main/java/com/maximde/hologramlib/hologram/InteractionBox.java:466-469 | addAllViewers makes every listed player a viewer. |
| Interactions.TouchAllQuiet | src/main/java/com/maximde/hologramlib/hologram/InteractionBox.java:435-443 | Unattached, or in NONE mode, nothing is sent. |
| Interactions.TouchAllPackets | src/main/java/com/maximde/hologramlib/hologram/InteractionBox.java:435-443 | Attached, one ride packet goes per list entry, repeats and current viewers included. |
| Interactions.BoxPassViewers | src/main/java/com/maximde/hologramlib/hologram/InteractionBox.java:248-271 | After a pass, a box's viewers are exactly the target set, as for a hologram. |
| Interactions.BoxPassPackets | src/main/java/com/maximde/hologramlib/hologram/InteractionBox.java:248-271 | Attached, a box pass resends the ride packet to every kept player. |
| Interactions.BoxRejoin | src/main/java/com/maximde/hologramlib/hologram/InteractionBox.java:346-353 | The first step of detach greets the online host player again. |
| Interactions.BoxRejoinManifest | src/main/java/com/maximde/hologramlib/hologram/InteractionBox.java:346-359 | That greeting does not change the detach packet. |
| Interactions.ShowBlacklist | src/main/java/com/maximde/hologramlib/hologram/InteractionBox.java:150-153 | As written, show adds the player to the blacklist. |
| Interactions.ShowBlacklistFixed | src/main/java/com/maximde/hologramlib/hologram/InteractionBox.java:150-153 | As intended, show removes one blacklist entry of the player. |
| Interactions.ShowAsWrittenDroppedByPass | src/main/java/com/maximde/hologramlib/hologram/InteractionBox.java:150-153 | As written, a player shown a box is dropped by the next world-tracking pass. |
| Interactions.ShowFixedKeptByPass | src/main/java/com/maximde/hologramlib/hologram/InteractionBox.java:150-153 | Fixed, a player in range who was blacklisted at most once stays a viewer through the next pass. |
| Interactions.Callback.OnInteract | src/main/java/com/maximde/hologramlib/hologram/InteractionBox.java:476-478 | The callback is recorded once for the player. |
| Interactions.NewInteractionBox | src/main/java/com/maximde/hologramlib/hologram/InteractionBox.java:110-120 | An id with a space throws. Otherwise a new box has the id and the render mode. |
| Interactions.InteractionBox.constructor | src/main/java/com/maximde/hologramlib/hologram/InteractionBox.java:110-125 | A new box is dead, unplaced, 1x1, responsive, with no viewers. |
| Interactions.InteractionBox.SendPacket | src/main/java/com/maximde/hologramlib/hologram/InteractionBox.java:274-279 | In NONE mode nothing is sent. |
| Interactions.InteractionBox.AddViewer | src/main/java/com/maximde/hologramlib/hologram/InteractionBox.java:435-443 | Unguarded: the player becomes a viewer and, when attached, every call sends one ride packet. |
| Interactions.InteractionBox.RemoveViewer | src/main/java/com/maximde/hologramlib/hologram/InteractionBox.java:445-448 | The player stops viewing. |
| Interactions.InteractionBox.AddAllViewers | src/main/java/com/maximde/hologramlib/hologram/InteractionBox.java:466-469 | addViewer for each listed player, in order (TouchAll). |
| Interactions.InteractionBox.PruneViewers | src/main/java/com/maximde/hologramlib/hologram/InteractionBox.java:266-269 | The viewers become the old viewers on the keep list. |
| Interactions.InteractionBox.SendToViewers | src/main/java/com/maximde/hologramlib/hologram/InteractionBox.java:339 | One copy goes to each viewer. |
| Interactions.InteractionBox.ResendRide | src/main/java/com/maximde/hologramlib/hologram/InteractionBox.java:218-238 | Every online viewer is sent the ride packet once. |
| Interactions.InteractionBox.ResendTo | src/main/java/com/maximde/hologramlib/hologram/InteractionBox.java:226-238 | One viewer of the VIEWER_LIST pass: an online one is sent the ride packet once, an offline or unknown one nothing. |
| Interactions.InteractionBox.Teleport | src/main/java/com/maximde/hologramlib/hologram/InteractionBox.java:195-199 | The location becomes the new one. |
| Interactions.InteractionBox.FollowHost | src/main/java/com/maximde/hologramlib/hologram/InteractionBox.java:218-239 | The VIEWER_LIST pass follows the host and resends the ride; the viewers are unchanged. |
| Interactions.InteractionBox.RefreshWorld | src/main/java/com/maximde/hologramlib/hologram/InteractionBox.java:248-271 | A world-tracking pass leaves exactly the target viewers. |
| Interactions.InteractionBox.UpdateAffectedPlayers | src/main/java/com/maximde/hologramlib/hologram/InteractionBox.java:215-272 | The same dead and no-location skips and the same candidate rule as a hologram. |
| Interactions.InteractionBox.Attach | src/main/java/com/maximde/hologramlib/hologram/InteractionBox.java:328-340 | The box rides the host. In NOT_ATTACHED_PLAYER mode the host stops viewing. The ride packet goes to the viewers. |
| Interactions.InteractionBox.Detach | src/main/java/com/maximde/hologramlib/hologram/InteractionBox.java:346-359 | Unattached: a no-op. Otherwise the riders without the box are sent, and the attachment is cleared. |
| Interactions.InteractionBox.Show | src/main/java/com/maximde/hologramlib/hologram/InteractionBox.java:150-153 | As written: the player is blacklisted once more and added as a viewer. |
| Interactions.InteractionBox.Hide | src/main/java/com/maximde/hologramlib/hologram/InteractionBox.java:155-158 | As written: one blacklist entry goes and the player stops viewing. |
| Interactions.InteractionBox.ShowFixed | src/main/java/com/maximde/hologramlib/hologram/InteractionBox.java:150-153 | Corrected show: one blacklist entry goes and the player is added. |
| Interactions.InteractionBox.HideFixed | src/main/java/com/maximde/hologramlib/hologram/InteractionBox.java:155-158 | Corrected hide: blacklisted once more, and no longer viewing. |
| Interactions.InteractionBox.Spawn | src/main/java/com/maximde/hologramlib/hologram/InteractionBox.java:281-289 | Placed, with pitch and yaw zeroed on request, and alive. |
| Interactions.InteractionBox.Kill | src/main/java/com/maximde/hologramlib/hologram/InteractionBox.java:189-193 | Dead, with the task cancelled. |
| Interactions.InteractionBox.SetUpdateTaskPeriod | src/main/java/com/maximde/hologramlib/hologram/InteractionBox.java:398-401 | Only the field changes. |
| Interactions.InteractionBox.SetMaxPlayerRenderDistanceSquared | src/main/java/com/maximde/hologramlib/hologram/InteractionBox.java:403-406 | The bound is set. |
| Interactions.InteractionBox.SetResponsive | src/main/java/com/maximde/hologramlib/hologram/InteractionBox.java:430-433 | The responsive flag is set. |
| Interactions.InteractionBox.SetSize | src/main/java/com/maximde/hologramlib/hologram/InteractionBox.java:418-422 | Width comes from x and height from y. |
| Interactions.InteractionBox.GetSize | src/main/java/com/maximde/hologramlib/hologram/InteractionBox.java:507-509 | The size is (width, height, 0). |
| Interactions.InteractionBox.TriggerInteraction | src/main/java/com/maximde/hologramlib/hologram/InteractionBox.java:476-478 | The callback runs once for the player. |
| Interactions.InteractionBox.Copy | src/main/java/com/maximde/hologramlib/hologram/InteractionBox.java:494-502 | The copy has the same mode, callback, size, responsiveness, period and distance. It has no location, no viewers and no attachment. An id with a space throws. |
| Registry.Persistence.SaveHologram | src/main/java/com/maximde/hologramlib/hologram/HologramManager.java:297-299 | The id becomes persistent, and one save is logged. |
| Registry.Persistence.RemoveHologram | src/main/java/com/maximde/hologramlib/hologram/HologramManager.java:295-296 | The id stops being persistent, and one delete is logged. |
| Registry.RotateLeftPermutes | src/main/java/com/maximde/hologramlib/hologram/HologramManager.java:370-371 | Collections.rotate(frames, -1) keeps every frame and moves the first one to the end. |
| Registry.RotateLeft | src/main/java/com/maximde/hologramlib/hologram/HologramManager.java:370-371 | One tick of rotation keeps the number of frames. |
| Registry.RotateLeftNAdd | src/main/java/com/maximde/hologramlib/hologram/HologramManager.java:367-374 | a ticks followed by b ticks equal a + b ticks. |
| Registry.RotateLeftNSplit | src/main/java/com/maximde/hologramlib/hologram/HologramManager.java:367-374 | Within one cycle, k ticks move the first k frames to the end, in order. |
| Registry.RotateFullCycle | src/main/java/com/maximde/hologramlib/hologram/HologramManager.java:367-374 | A full cycle of ticks restores the frame list. |
| Registry.ShownFrame | src/main/java/com/maximde/hologramlib/hologram/HologramManager.java:369-370 | The k-th tick shows frame k. |
| Registry.RotatePeriodic | src/main/java/com/maximde/hologramlib/hologram/HologramManager.java:367-374 | The animation repeats with period equal to the number of frames. |
| Registry.AnimationTask.Tick | src/main/java/com/maximde/hologramlib/hologram/HologramManager.java:367-374 | With no frames nothing happens. Otherwise the first frame is shown and the list rotates left by one. |
| Registry.AnimationTask.constructor | src/main/java/com/maximde/hologramlib/hologram/HologramManager.java:367-374 | A new task drives the given hologram and animation and is not cancelled. |
| Registry.AnimationTask.Cancel | src/main/java/com/maximde/hologramlib/hologram/HologramManager.java:363-365 | The task is cancelled. |
| Registry.RemovableConcat | src/main/java/com/maximde/hologramlib/hologram/HologramManager.java:340-352 | Removing a then b succeeds throughout exactly when removing a + b does. |
| Registry.BoardGroups | src/main/java/com/maximde/hologramlib/hologram/HologramManager.java:170-190 | The paged board's holograms go page by page, then the two arrows. |
| Registry.HologramManager.constructor | src/main/java/com/maximde/hologramlib/hologram/HologramManager.java:22-37 | All maps and the handler list start empty. |
| Registry.HologramManager.RegisterEventHandler | src/main/java/com/maximde/hologramlib/hologram/HologramManager.java:39-41 | The handler is appended. |
| Registry.HologramManager.RemoveEventHandler | src/main/java/com/maximde/hologramlib/hologram/HologramManager.java:43-45 | The first occurrence of the handler is removed. |
| Registry.HologramManager.Register | src/main/java/com/maximde/hologramlib/hologram/HologramManager.java:270-281 | Null or a taken id answers false and changes neither map. Otherwise both maps gain the entry. |
| Registry.HologramManager.CancelAnimation | src/main/java/com/maximde/hologramlib/hologram/HologramManager.java:363-365 | The hologram's task, if any, is dropped and cancelled. |
| Registry.HologramManager.ApplyAnimation | src/main/java/com/maximde/hologramlib/hologram/HologramManager.java:358-361 | A running animation is cancelled first. Then a fresh task runs the new animation. |
| Registry.HologramManager.Remove | src/main/java/com/maximde/hologramlib/hologram/HologramManager.java:287-305 | An unknown id answers false. Otherwise the hologram leaves both maps, its animation is cancelled and it is killed. A persistent id is deleted when the flag is set and saved again otherwise. |
| Registry.HologramManager.RemoveHologram | src/main/java/com/maximde/hologramlib/hologram/HologramManager.java:283-285 | Null answers false; otherwise removal is by the hologram's id. |
| Registry.HologramManager.RetireAll | src/main/java/com/maximde/hologramlib/hologram/HologramManager.java:316-325 | Every registered hologram is killed and loses its animation. Without the flag, each persistent one is saved once. |
| Registry.HologramManager.Retire | src/main/java/com/maximde/hologramlib/hologram/HologramManager.java:316-325 | One hologram of removeAll: its animation is cancelled and dropped, it is killed, and when asked its id is saved again if persistent. |
| Registry.HologramManager.PurgePersistence | src/main/java/com/maximde/hologramlib/hologram/HologramManager.java:326-331 | Every persistent id is deleted, one call each. |
| Registry.HologramManager.RemoveAll | src/main/java/com/maximde/hologramlib/hologram/HologramManager.java:315-334 | Both maps end empty and every hologram is killed. With the flag, every persistent id is deleted, registered or not. |
| Registry.HologramManager.RemoveLeaderboard | src/main/java/com/maximde/hologramlib/hologram/HologramManager.java:340-352 | Every component id is removed, and no failure stops the later ones. The answer is true exactly when every id was registered and no id repeats. |
| Registry.HologramManager.RemoveGroups | src/main/java/com/maximde/hologramlib/hologram/HologramManager.java:176-186 | All ids of all groups are removed, each removed hologram is killed, and the persistent ids stay as they were (the groups are removed without the persistence flag). The answer is true exactly when every id was registered once. |
| Registry.HologramManager.RemoveBoxPair | src/main/java/com/maximde/hologramlib/hologram/HologramManager.java:187-188 | Both boxes are removed and each registered one is killed. The answer is true exactly when both were registered and are distinct. |
| Registry.HologramManager.RemoveBoard | src/main/java/com/maximde/hologramlib/hologram/HologramManager.java:170-190 | Null or an unspawned board answers false and changes nothing: handlers, both hologram maps, both box maps, the animations and the persistence state are unchanged. Otherwise the event handler, every page hologram, both arrows and both boxes are removed and killed, and the persistent ids stay as they were. The answer is true exactly when every removal succeeded. |
| Registry.HologramManager.RegisterBox | src/main/java/com/maximde/hologramlib/hologram/HologramManager.java:93-107 | Null or a taken id is rejected and changes neither map. Otherwise both maps gain the box. |
| Registry.HologramManager.RemoveBox | src/main/java/com/maximde/hologramlib/hologram/HologramManager.java:113-124 | An unknown id answers false. Otherwise the box leaves both maps and is killed. |
| Registry.HologramManager.RemoveBoxObject | src/main/java/com/maximde/hologramlib/hologram/HologramManager.java:109-111 | Null answers false; otherwise removal is by the box's id. |
| Registry.HologramManager.RemoveAllBoxes | src/main/java/com/maximde/hologramlib/hologram/HologramManager.java:126-133 | Every box is killed, and both maps end empty. |
| Registry.HologramManager.Spawn | src/main/java/com/maximde/hologramlib/hologram/HologramManager.java:249-264 | Registration is tried. The hologram is placed and updated even when registration failed, and saved when persistent. |
| Registry.HologramManager.SpawnLeaderboard | src/main/java/com/maximde/hologramlib/hologram/HologramManager.java:227-240 | spawn(LeaderboardHologram) registers each text hologram, then the head, in turn, as Registered says. |
| Registry.HologramManager.SpawnBoard | src/main/java/com/maximde/hologramlib/hologram/HologramManager.java:138-164 | The handler is added, every page hologram and the arrows are registered, then both boxes. When init throws, the handler is removed again, which leaves the old list when the handler was new. |
| Registry.RegisteredFacts | src/main/java/com/maximde/hologramlib/hologram/HologramManager.java:270-281 | Registering a group adds exactly its ids. A taken id keeps its hologram, and a new id gets the first listed hologram with it. |
| Registry.RemoveUndoesRegister | src/main/java/com/maximde/hologramlib/hologram/HologramManager.java:227-240 | Spawning a group of fresh holograms and then removing its ids gives back the old map. |
| Registry.RegisteredBox | src/main/java/com/maximde/hologramlib/hologram/HologramManager.java:93-107 | A null box or a taken id leaves the map; otherwise the box is filed under its id. |
| Registry.HologramManager.SpawnBox | src/main/java/com/maximde/hologramlib/hologram/HologramManager.java:75-91 | Registration is tried, then placement and an update whether or not it succeeded. |
| Registry.HologramManager.MakePersistent | src/main/java/com/maximde/hologramlib/hologram/HologramManager.java:411-417 | A registered id is saved when persistence is available; otherwise nothing happens. |
| Registry.HologramManager.RemovePersistence | src/main/java/com/maximde/hologramlib/hologram/HologramManager.java:426-432 | Only an id that is persistent is deleted, and the answer says whether it was. Nothing else changes. |
| Router.TargetBox | src/main/java/com/maximde/hologramlib/listener/InteractionPacketListener.java:24-30 | Only an INTERACT_ENTITY packet with a registered box id names a box. |
| Router.OnPacketReceive | src/main/java/com/maximde/hologramlib/listener/InteractionPacketListener.java:23-50 | The callback runs once exactly when the whole guard chain passes; otherwise nothing is called. |
| Router.IgnoredPackets | src/main/java/com/maximde/hologramlib/listener/InteractionPacketListener.java:24-30 | Other packet types and unregistered ids never fire. |
| Router.OfflineNeverFires | src/main/java/com/maximde/hologramlib/listener/InteractionPacketListener.java:35-37 | An offline or unknown player never fires. |
| Router.ElsewhereNeverFires | src/main/java/com/maximde/hologramlib/listener/InteractionPacketListener.java:38-42 | A box with no location or world, or in another world, never fires. |
| Router.FiresIffWithinSix | src/main/java/com/maximde/hologramlib/listener/InteractionPacketListener.java:44-47 | For an online player in the box's world, the callback fires exactly when the squared distance is at most 36. |
| Router.CloserAlsoFires | src/main/java/com/maximde/hologramlib/listener/InteractionPacketListener.java:44-45 | A nearer player in the same world fires too. |
| PlaceholderHook.TextEntry | src/main/java/com/maximde/hologramlib/hook/PlaceholderAPIHook.java:79-81 | The written entry is a slot-23 component holding the rendered text. |
| PlaceholderHook.ReplaceText | src/main/java/com/maximde/hologramlib/hook/PlaceholderAPIHook.java:74-87 | Every text entry is replaced in place; every other entry is kept. |
| PlaceholderHook.RewriteMetadata | src/main/java/com/maximde/hologramlib/hook/PlaceholderAPIHook.java:71-95 | The length is unchanged when a text entry existed, and one more otherwise. Replaced entries sit in place; a missing text entry is appended last. |
| PlaceholderHook.Rewrite | src/main/java/com/maximde/hologramlib/hook/PlaceholderAPIHook.java:71-95 | The flag-and-append loop computes RewriteMetadata. |
| PlaceholderHook.RewriteCarriesComponent | src/main/java/com/maximde/hologramlib/hook/PlaceholderAPIHook.java:74-95 | The result always has a text entry, and every text entry holds the component. |
| PlaceholderHook.RewriteIdempotent | src/main/java/com/maximde/hologramlib/hook/PlaceholderAPIHook.java:71-95 | Rewriting twice equals rewriting once. |
| PlaceholderHook.HookTarget | src/main/java/com/maximde/hologramlib/hook/PlaceholderAPIHook.java:34-66 | The hook acts only on ENTITY_METADATA packets of a registered text hologram with placeholders on, a player, and a non-empty text. |
| PlaceholderHook.OnPacketSend | src/main/java/com/maximde/hologramlib/hook/PlaceholderAPIHook.java:26-97 | Untargeted packets pass unchanged. A targeted packet gets the rewritten metadata. |
| PlaceholderHook.OtherPacketsUntouched | src/main/java/com/maximde/hologramlib/hook/PlaceholderAPIHook.java:34-52 | Other packet types and unregistered entities are never touched. |
| Leaderboards.DecimalInjective | src/main/java/com/maximde/hologramlib/hologram/custom/LeaderboardHologram.java:176-180 | Distinct entry numbers give distinct decimal strings, so entry ids never collide. |
| Leaderboards.DecimalSplit | src/main/java/com/maximde/hologramlib/hologram/custom/LeaderboardHologram.java:176-180 | The last digit of the decimal form is n mod 10, and the rest is the form of n / 10. |
| Leaderboards.Decimal | src/main/java/com/maximde/hologramlib/hologram/custom/LeaderboardHologram.java:176-180 | The decimal form of a number is a non-empty string of digits, with at least two digits from 10 on. |
| Leaderboards.EntryIds | src/main/java/com/maximde/hologramlib/hologram/custom/LeaderboardHologram.java:176-180 | Exactly maxDisplayEntries ids, baseId_entry_1 to baseId_entry_N. |
| Leaderboards.TextIds | src/main/java/com/maximde/hologramlib/hologram/custom/LeaderboardHologram.java:165-184 | allTextHolograms has one id per entry plus three more: background, header and footer. |
| Leaderboards.HeadId | src/main/java/com/maximde/hologramlib/hologram/custom/LeaderboardHologram.java:186-190 | There is a first-place head exactly for TOP_PLAYER_HEAD. |
| Leaderboards.ComponentIdsDistinct | src/main/java/com/maximde/hologramlib/hologram/custom/LeaderboardHologram.java:165-190 | All component ids of a leaderboard are distinct. |
| Leaderboards.ComponentIds | src/main/java/com/maximde/hologramlib/hologram/custom/LeaderboardHologram.java:165-190 | A leaderboard has one component per entry, plus background, header and footer, plus the head for TOP_PLAYER_HEAD. |
| Leaderboards.ReplaceAbsent | src/main/java/com/maximde/hologramlib/hologram/custom/LeaderboardHologram.java:442-456 | String.replace of an absent pattern leaves the string alone. |
| Leaderboards.PlaceFormat | src/main/java/com/maximde/hologramlib/hologram/custom/LeaderboardHologram.java:437-440 | Places 1 to 3 that have a format use it. Any other place uses the default. |
| Leaderboards.HeadText | src/main/java/com/maximde/hologramlib/hologram/custom/LeaderboardHologram.java:447-453 | {head} is empty unless the type is ALL_PLAYER_HEADS in RESOURCEPACK mode. |
| Leaderboards.LatePlacesUseDefault | src/main/java/com/maximde/hologramlib/hologram/custom/LeaderboardHologram.java:437-440 | Entries after place 3 are formatted with the default format. |
| Leaderboards.NameSeenByLaterSubstitutions | src/main/java/com/maximde/hologramlib/hologram/custom/LeaderboardHologram.java:442-456 | Substitution is in sequence: a name containing "{score}" is itself substituted. |
| Leaderboards.ReplaceWhole | src/main/java/com/maximde/hologramlib/hologram/custom/LeaderboardHologram.java:442-456 | String.replace of a whole string by itself as pattern gives the replacement. |
| Leaderboards.InsertKeeps | src/main/java/com/maximde/hologramlib/hologram/custom/LeaderboardHologram.java:426-433 | Inserting keeps the list ranked and adds exactly one entry. |
| Leaderboards.SortEntriesKeeps | src/main/java/com/maximde/hologramlib/hologram/custom/LeaderboardHologram.java:426-433 | The sort is a permutation, ranked by score in the configured order. |
| Leaderboards.TopEntries | src/main/java/com/maximde/hologramlib/hologram/custom/LeaderboardHologram.java:423-435 | min(size, maxDisplayEntries) entries. |
| Leaderboards.TopEntriesIsTop | src/main/java/com/maximde/hologramlib/hologram/custom/LeaderboardHologram.java:423-435 | The selection is ranked, is drawn from the player data, and no player left out ranks above one shown. |
| Leaderboards.ListDone | src/main/java/com/maximde/hologramlib/hologram/custom/LeaderboardHologram.java:424 | The entry list holds every player's entry exactly once. |
| Leaderboards.EntryTexts | src/main/java/com/maximde/hologramlib/hologram/custom/LeaderboardHologram.java:272-300 | One text per entry slot. |
| Leaderboards.NewLeaderboard | src/main/java/com/maximde/hologramlib/hologram/custom/LeaderboardHologram.java:161-163 | An id with a space throws. Otherwise a new leaderboard is built with the id and the options. |
| Leaderboards.LeaderboardHologram.constructor | src/main/java/com/maximde/hologramlib/hologram/custom/LeaderboardHologram.java:161-193 | The entry ids, the text order and the head match the layout functions. Every entry starts blank. |
| Leaderboards.LeaderboardHologram.Components | src/main/java/com/maximde/hologramlib/hologram/custom/LeaderboardHologram.java:165-190 | The component ids are the layout's. |
| Leaderboards.LeaderboardHologram.SetPlayerScore | src/main/java/com/maximde/hologramlib/hologram/custom/LeaderboardHologram.java:218-224 | The player's score is overwritten. |
| Leaderboards.LeaderboardHologram.SetAllScores | src/main/java/com/maximde/hologramlib/hologram/custom/LeaderboardHologram.java:226-228 | The score map is replaced. |
| Leaderboards.LeaderboardHologram.RemovePlayer | src/main/java/com/maximde/hologramlib/hologram/custom/LeaderboardHologram.java:230-232 | The player is deleted. |
| Leaderboards.LeaderboardHologram.ScoreList | src/main/java/com/maximde/hologramlib/hologram/custom/LeaderboardHologram.java:424 | The entry list has each player exactly once. |
| Leaderboards.LeaderboardHologram.Update | src/main/java/com/maximde/hologramlib/hologram/custom/LeaderboardHologram.java:255-339 | No base location: nothing changes. Otherwise the entries shown are the top ones, the texts are the formatted entries and empty places, and the header, footer and head are set. |
| Leaderboards.LeaderboardHologram.RankedEntries | src/main/java/com/maximde/hologramlib/hologram/custom/LeaderboardHologram.java:263-264 | The shown entries are the top maxDisplayEntries. |
| Leaderboards.LeaderboardHologram.WriteEntries | src/main/java/com/maximde/hologramlib/hologram/custom/LeaderboardHologram.java:272-300 | The entry texts become EntryTexts. |
| Leaderboards.LeaderboardHologram.FillEmptyPlaces | src/main/java/com/maximde/hologramlib/hologram/custom/LeaderboardHologram.java:272-286 | Slots after the ranked ones get the empty-place format when showEmptyPlaces is set, and "" otherwise. Earlier slots are unchanged. |
| Leaderboards.LeaderboardHologram.Teleport | src/main/java/com/maximde/hologramlib/hologram/custom/LeaderboardHologram.java:514-518 | The base location is set and an update runs. |
| PagedLeaderboards.Rem | src/main/java/com/maximde/hologramlib/hologram/custom/PagedLeaderboard.java:196 | Java's % on a nonnegative operand lies in 0..n-1, and wraps once on n..2n-1. |
| PagedLeaderboards.NextPrevInverse | src/main/java/com/maximde/hologramlib/hologram/custom/PagedLeaderboard.java:191-214 | Next and previous stay in range, undo each other, and wrap at the ends. |
| PagedLeaderboards.AddEntry | src/main/java/com/maximde/hologramlib/hologram/Hologram.java:419-422 | hide adds one blacklist entry for the pair, duplicates allowed. |
| PagedLeaderboards.DropEntry | src/main/java/com/maximde/hologramlib/hologram/Hologram.java:410-413 | show removes one blacklist entry for the pair when there is one, and otherwise changes nothing. |
| PagedLeaderboards.EntriesFollowBlacklist | src/main/java/com/maximde/hologramlib/hologram/Hologram.java:410-422 | The counts match the blacklist list: appending and List.remove(Object) move one player's multiplicity as AddEntry and DropEntry move its count. A player is on the list exactly when its count is positive. |
| PagedLeaderboards.PagesHiddenEntries | src/main/java/com/maximde/hologramlib/hologram/custom/PagedLeaderboard.java:343-345 | Hiding every page from one player adds one entry per listing of each page, and touches no other player. |
| PagedLeaderboards.PageHiddenFromEntries | src/main/java/com/maximde/hologramlib/hologram/custom/PagedLeaderboard.java:292-294 | Hiding one page from every online player adds one entry per listing of each player, and touches no other page. |
| PagedLeaderboards.PagesHiddenFromEntries | src/main/java/com/maximde/hologramlib/hologram/custom/PagedLeaderboard.java:174-178 | Hiding every page from every online player adds, per pair, the player's listings times the page's listings. |
| PagedLeaderboards.PageShownToEntries | src/main/java/com/maximde/hologramlib/hologram/custom/PagedLeaderboard.java:181-184 | Showing the first page to every online player removes one entry per listing, down to none, and touches no other page. |
| PagedLeaderboards.MovedEntries | src/main/java/com/maximde/hologramlib/hologram/custom/PagedLeaderboard.java:311-323 | Moving one player of the removed page changes only that player's counts: one entry more on the hidden page, then one fewer on the shown page. |
| PagedLeaderboards.WithoutPage | src/main/java/com/maximde/hologramlib/hologram/custom/PagedLeaderboard.java:305 | pages.remove(index) leaves one page fewer, the earlier pages in place and the later ones one slot down. |
| PagedLeaderboards.SwitchKeepsOnPage | src/main/java/com/maximde/hologramlib/hologram/custom/PagedLeaderboard.java:259-275 | A player who sees only page cur sees only page index after switchToPage. |
| PagedLeaderboards.FirstShowPutsOnPage | src/main/java/com/maximde/hologramlib/hologram/custom/PagedLeaderboard.java:340-358 | show for a player no page was hidden from leaves them seeing only their current page. |
| PagedLeaderboards.HideThenShowKeepsPageHidden | src/main/java/com/maximde/hologramlib/hologram/custom/PagedLeaderboard.java:340-374 | hide then show does not restore the view: the current page keeps one entry and every other page has three. |
| PagedLeaderboards.RepeatedShowStacksEntries | src/main/java/com/maximde/hologramlib/hologram/custom/PagedLeaderboard.java:340-358 | A second show keeps the current page visible but leaves two entries on every other page. After the next switch, every page is blacklisted. |
| PagedLeaderboards.InitPutsOnFirstPage | src/main/java/com/maximde/hologramlib/hologram/custom/PagedLeaderboard.java:172-186 | After init, an online player listed once and never hidden from sees the first page only. |
| PagedLeaderboards.AddPageKeepsOnPage | src/main/java/com/maximde/hologramlib/hologram/custom/PagedLeaderboard.java:287-297 | addPage keeps every online player on the page they saw: the new page is hidden from them once. |
| PagedLeaderboards.ShiftedKeepsPages | src/main/java/com/maximde/hologramlib/hologram/custom/PagedLeaderboard.java:311-323 | After removing a page, entries stay in range. Players on it lose their entry, later ones move down by one, and the rest keep theirs. |
| PagedLeaderboards.SwitchHide | src/main/java/com/maximde/hologramlib/hologram/custom/PagedLeaderboard.java:259-275 | When page `index` is removed, switchToPage(p, 0) for one of its players hides the page that moved into slot `index`. It hides something only when the board is spawned and `index` is a nonzero slot of the shortened list. |
| PagedLeaderboards.SwitchShow | src/main/java/com/maximde/hologramlib/hologram/custom/PagedLeaderboard.java:264-266 | In the same call, the new first page is shown only when the board is spawned, pages remain, and the removed index was not 0. |
| PagedLeaderboards.FirstPageShow | src/main/java/com/maximde/hologramlib/hologram/custom/PagedLeaderboard.java:311-323 | Corrected: the new first page is shown whenever the board is spawned and pages remain. |
| PagedLeaderboards.RemovingFirstPageStrandsViewers | src/main/java/com/maximde/hologramlib/hologram/custom/PagedLeaderboard.java:302-326 | As written, removePage(0) leaves a player who saw the first page with one entry on every remaining page, so they see no page. |
| PagedLeaderboards.RemovalDoubleHidesNextPage | src/main/java/com/maximde/hologramlib/hologram/custom/PagedLeaderboard.java:302-326 | As written, removing a middle page shows its players the first page but hides the page that slid into its slot a second time. After they switch to that page, every page is blacklisted. |
| PagedLeaderboards.CorrectedRemovalKeepsOnPage | src/main/java/com/maximde/hologramlib/hologram/custom/PagedLeaderboard.java:302-326 | Corrected, every player who saw one page still sees one. The removed page's players see the new first page, and the others see their page at its new index. |
| PagedLeaderboards.NewPagedLeaderboard | src/main/java/com/maximde/hologramlib/hologram/custom/PagedLeaderboard.java:66-76 | An id with a space throws. Otherwise the board starts with no pages, no entries and no blacklist entries. |
| PagedLeaderboards.PagedLeaderboard.CurrentPage | src/main/java/com/maximde/hologramlib/hologram/custom/PagedLeaderboard.java:280-282 | The recorded page, or 0 for a player with no entry. |
| PagedLeaderboards.PagedLeaderboard.constructor | src/main/java/com/maximde/hologramlib/hologram/custom/PagedLeaderboard.java:66-70 | The arrow and interaction ids derive from the base id. The board starts unspawned and empty. |
| PagedLeaderboards.PagedLeaderboard.SwitchToPage | src/main/java/com/maximde/hologramlib/hologram/custom/PagedLeaderboard.java:259-275 | A no-op when unspawned, without pages, out of range, or on the current page. Otherwise the current page gets one entry (when it exists), the new page loses one, and the index is recorded. |
| PagedLeaderboards.PagedLeaderboard.NextPage | src/main/java/com/maximde/hologramlib/hologram/custom/PagedLeaderboard.java:191-200 | The switch goes to (current+1) mod n, with the whole new state as in SwitchToPage. A no-op when unspawned, without pages, or when that is the current page. |
| PagedLeaderboards.PagedLeaderboard.PreviousPage | src/main/java/com/maximde/hologramlib/hologram/custom/PagedLeaderboard.java:205-214 | The switch goes to (current-1+n) mod n, with the whole new state as in SwitchToPage. A no-op when unspawned, without pages, or when that is the current page. |
| PagedLeaderboards.PagedLeaderboard.OnQuit | src/main/java/com/maximde/hologramlib/hologram/custom/PagedLeaderboard.java:119-122 | The player's entry is removed. |
| PagedLeaderboards.PagedLeaderboard.Show | src/main/java/com/maximde/hologramlib/hologram/custom/PagedLeaderboard.java:340-358 | When spawned: every page gets one entry, then the current page (or, past the end, the first page via a switch) loses one. The arrows lose one entry; the boxes gain one, as InteractionBox.show is written. |
| PagedLeaderboards.PagedLeaderboard.Hide | src/main/java/com/maximde/hologramlib/hologram/custom/PagedLeaderboard.java:363-374 | When spawned: the boxes lose one entry as written, and the arrows and every page gain one. |
| PagedLeaderboards.PagedLeaderboard.ShowControls | src/main/java/com/maximde/hologramlib/hologram/custom/PagedLeaderboard.java:347-350 | The arrows lose one entry and gain the viewer; the boxes gain one entry and the viewer. |
| PagedLeaderboards.PagedLeaderboard.HideControls | src/main/java/com/maximde/hologramlib/hologram/custom/PagedLeaderboard.java:366-369 | The boxes lose one entry and the viewer; the arrows gain one entry and lose the viewer. |
| PagedLeaderboards.PagedLeaderboard.HidePages | src/main/java/com/maximde/hologramlib/hologram/custom/PagedLeaderboard.java:371-373 | Every page gets one entry for the player; no one else is affected. |
| PagedLeaderboards.PagedLeaderboard.OnJoin | src/main/java/com/maximde/hologramlib/hologram/custom/PagedLeaderboard.java:112-117 | A player with no entry gets the whole new state of Show on page 0. A player with an entry, or an unspawned board, changes nothing. |
| PagedLeaderboards.PagedLeaderboard.AddPage | src/main/java/com/maximde/hologramlib/hologram/custom/PagedLeaderboard.java:287-297 | The page is appended. When spawned, it gets one entry per online player. |
| PagedLeaderboards.PagedLeaderboard.HideFromAll | src/main/java/com/maximde/hologramlib/hologram/custom/PagedLeaderboard.java:292-294 | The page gets one entry per listed player; no other pair changes. |
| PagedLeaderboards.PagedLeaderboard.Init | src/main/java/com/maximde/hologramlib/hologram/custom/PagedLeaderboard.java:127-155 | Already spawned, or no pages: an IllegalStateException, and nothing changes. Otherwise the board is spawned at the location, and every online player gets a page entry of 0 in the map (other entries kept), with every page hidden and then page 0 shown. |
| PagedLeaderboards.PagedLeaderboard.ShowInitialPage | src/main/java/com/maximde/hologramlib/hologram/custom/PagedLeaderboard.java:172-186 | Every page is hidden from everyone online, then each is recorded on page 0 and shown it. |
| PagedLeaderboards.PagedLeaderboard.PutOnFirstPage | src/main/java/com/maximde/hologramlib/hologram/custom/PagedLeaderboard.java:181-184 | Every listed player is recorded on page 0, and the first page loses one entry per listing. |
| PagedLeaderboards.PagedLeaderboard.HideAllFromAll | src/main/java/com/maximde/hologramlib/hologram/custom/PagedLeaderboard.java:174-178 | Every page gets one entry per listed player. |
| PagedLeaderboards.PagedLeaderboard.RemovePage | src/main/java/com/maximde/hologramlib/hologram/custom/PagedLeaderboard.java:302-326 | Out of range answers false and changes nothing. Otherwise the page is removed and hidden from everyone online, the entries shift, and each online player of the removed page is moved as switchToPage(p, 0) does from the old index. |
| PagedLeaderboards.PagedLeaderboard.RemoveEntries | src/main/java/com/maximde/hologramlib/hologram/custom/PagedLeaderboard.java:311-323 | The removeIf loop shifts every entry and moves every online player of the removed page, whatever the visiting order. |
| PagedLeaderboards.PagedLeaderboard.RemoveEntry | src/main/java/com/maximde/hologramlib/hologram/custom/PagedLeaderboard.java:311-323 | One step of removeIf: a player of the removed page loses their entry and, when online, is moved; a later page moves down by one; an earlier page stays. |
| PagedLeaderboards.PagedLeaderboard.RemovePageCorrected | src/main/java/com/maximde/hologramlib/hologram/custom/PagedLeaderboard.java:302-326 | removePage with the fix: the removed page's online players are shown the new first page and nothing more is hidden from them. |
| PagedLeaderboards.PagedLeaderboard.RemoveEntriesCorrected | src/main/java/com/maximde/hologramlib/hologram/custom/PagedLeaderboard.java:311-323 | The fixed loop shows the new first page once to every online player of the removed page. |
| PlayerHeads.HexRoundTrip | src/main/java/com/maximde/hologramlib/utils/PlayerUtils.java:278 | Parsing the hex digits of n gives n back. |
| PlayerHeads.HexDigits | src/main/java/com/maximde/hologramlib/utils/PlayerUtils.java:278 | w upper-case hex digits. |
| PlayerHeads.FormatColourRoundTrip | src/main/java/com/maximde/hologramlib/utils/PlayerUtils.java:278 | "#%06X" of the low 24 bits is a colour string whose digits give those bits back. |
| PlayerHeads.FormatColour | src/main/java/com/maximde/hologramlib/utils/PlayerUtils.java:278 | "#%06X" gives "#" and six hex digits. |
| PlayerHeads.PixelColour | src/main/java/com/maximde/hologramlib/utils/PlayerUtils.java:270-279 | The overlay pixel is used when present with non-zero alpha; otherwise the face pixel. |
| PlayerHeads.PixelColours | src/main/java/com/maximde/hologramlib/utils/PlayerUtils.java:265-279 | The 64 colours, column by column and each column top to bottom; each is the overlay pixel when that is opaque, else the face pixel, as "#RRGGBB". |
| PlayerHeads.FaceColour | src/main/java/com/maximde/hologramlib/utils/PlayerUtils.java:270-279 | Each pixel of the 8x8 face becomes a colour string. |
| PlayerHeads.Glyph | src/main/java/com/maximde/hologramlib/utils/PlayerUtils.java:212-221 | U+F001 + i mod 8, then U+F101 after a column, U+F102 otherwise, and nothing after the last. |
| PlayerHeads.HeadTextCarriesColours | src/main/java/com/maximde/hologramlib/utils/PlayerUtils.java:209-223 | The head text has a fixed length. Colour i's digits can be read back at a fixed offset. |
| PlayerHeads.BuildHead | src/main/java/com/maximde/hologramlib/utils/PlayerUtils.java:209-223 | The StringBuilder loop produces HeadText. |
| PlayerHeads.HeadFor | src/main/java/com/maximde/hologramlib/utils/PlayerUtils.java:192-223 | There is a head exactly with a skin url, 64 colours, and none of them empty. |
| PlayerHeads.TrimIdempotent | src/main/java/com/maximde/hologramlib/utils/PlayerUtils.java:110 | Trimming twice equals trimming once. |
| PlayerHeads.TrimEnd | src/main/java/com/maximde/hologramlib/utils/PlayerUtils.java:110 | A prefix of the name that ends with a non-blank character, or is empty. |
| PlayerHeads.TrimStart | src/main/java/com/maximde/hologramlib/utils/PlayerUtils.java:110 | A suffix of the name that starts with a non-blank character, or is empty. |
| PlayerHeads.KeyIdempotent | src/main/java/com/maximde/hologramlib/utils/PlayerUtils.java:110 | The cache key of a key is itself. |
| PlayerHeads.KeyIgnoresCase | src/main/java/com/maximde/hologramlib/utils/PlayerUtils.java:110 | Names differing only in ASCII case share a key. |
| PlayerHeads.Lower | src/main/java/com/maximde/hologramlib/utils/PlayerUtils.java:110 | Lower-casing keeps the length and maps each character on its own; no upper-case ASCII letter remains. |
| PlayerHeads.BlankIffEmptyKey | src/main/java/com/maximde/hologramlib/utils/PlayerUtils.java:106-110 | A name is blank exactly when its key is empty. |
| PlayerHeads.TrimStartEmpty | src/main/java/com/maximde/hologramlib/utils/PlayerUtils.java:106-108 | Trimming leaves nothing exactly when every character is blank. |
| PlayerHeads.LruCache.Get | src/main/java/com/maximde/hologramlib/utils/PlayerUtils.java:31-43 | A found key's value is returned and the key becomes the most recent. A missing key changes nothing. |
| PlayerHeads.LruCache.constructor | src/main/java/com/maximde/hologramlib/utils/PlayerUtils.java:31-37 | A new cache is empty and keeps its maximum size. |
| PlayerHeads.LruCache.Put | src/main/java/com/maximde/hologramlib/utils/PlayerUtils.java:31-43 | The entry is written and its key is most recent. A new key that takes the size over maxSize evicts the eldest. The cache never exceeds maxSize. |
| PlayerHeads.WithoutKeeps | src/main/java/com/maximde/hologramlib/utils/PlayerUtils.java:35 | Moving a key to the end keeps the order without repeats. |
| PlayerHeads.PutKeeps | src/main/java/com/maximde/hologramlib/utils/PlayerUtils.java:40-42 | With maxSize at least 1, the entry just put survives eviction. |
| PlayerHeads.PlayerHeadCaches.GetPlayerHead | src/main/java/com/maximde/hologramlib/utils/PlayerUtils.java:172-241 | A null uuid gives null. A cached answer is returned as it is. A head already loading gives null. Otherwise the head is computed, cached and returned. |
| PlayerHeads.PlayerHeadCaches.constructor | src/main/java/com/maximde/hologramlib/utils/PlayerUtils.java:45-47 | Both caches start empty with a maximum of 1000 entries, and no head is loading. |
| PlayerHeads.PlayerHeadCaches.LoadHead | src/main/java/com/maximde/hologramlib/utils/PlayerUtils.java:185-239 | The head is computed and cached, and the loading mark is cleared. |
| PlayerHeads.PlayerHeadCaches.ComputeHead | src/main/java/com/maximde/hologramlib/utils/PlayerUtils.java:192-237 | The computation gives HeadFor. |
| PlayerHeads.PlayerHeadCaches.GetUuid | src/main/java/com/maximde/hologramlib/utils/PlayerUtils.java:105-166 | A blank name gives nothing and touches no cache. A cached key answers from the cache. Otherwise the look-up is cached under the key. |

## Left out

- Threading and scheduling: every async task and `runTask` is run at once, in
  program order. The periodic task is a `taskCancelled` flag plus the period
  it was scheduled with. `ConcurrentHashMap` behaves as a plain map.
- Player identity: the viewer blacklists (`Hologram.java:47`,
  `InteractionBox.java:91`) hold `Player` objects and match them with the
  server's `Player.equals`, which is not part of this model. Here blacklist
  entries, the page entries and the per-page counts are keyed by the player's
  uuid alone. A relog, which gives the player a new entity and may stop it
  matching its old entries, is not modelled: the model keeps those entries
  for the returning player.
- EntityLib, packetevents, Bukkit and the network are not part of this model.
  Spawn and destroy packets are represented by the viewer set alone; only the
  passenger packets the library builds itself are logged.
- Floating point: coordinates, the squared distance, scores and sizes are
  `real`. Quaternions, rotations, transformations, the arrow trigonometry of
  `computeArrowLocation`, and the leaderboard's background offsets and
  heights are not modelled.
- TextHologram, ItemHologram and BlockHologram: their metadata and setters
  write into foreign EntityLib objects. The text a hologram renders is an
  input to the placeholder hook.
- PlaceholderAPI.setPlaceholders and MiniMessage parsing are not part of this
  model; the rendered component is a parameter of the hook.
- Persistence internals: the persistence manager is a set of persistent ids
  and a log of save and delete calls.
- HTTP, JSON, Base64, image download and the profile look-up in PlayerUtils:
  the fetched uuid, skin url and pixel values are parameters.
- Leaderboards.LeaderboardHologram.Update: score formatting (a
  locale-dependent NumberFormat) is a function parameter. The asynchronous
  head loading is a map of known heads plus a placeholder head.
- Leaderboards.SortEntries: scores are `real`, so NaN ordering and the
  Number-to-double conversion are not modelled.
- Leaderboards.LeaderboardHologram: `options` is fixed at construction. The
  source's Lombok setter (LeaderboardHologram.java:157-159) is not modelled.
  So two failures of `update` are not captured: the index error at
  `entryHolograms.get(i)` (lines 274 and 291) once `maxDisplayEntries` is
  raised past the entry holograms made at construction, and the `subList`
  error (line 434) for a negative `maxDisplayEntries`, which is a `nat` here.
- The leaderboard's own hide and show, its rotation and its text styling
  setters only forward to the component holograms and are not modelled.
- PagedLeaderboards.PagedLeaderboard.Init and AddPage: the teleports of the
  pages and arrows, the arrow holograms' appearance and the click sounds are
  not modelled; only the page state and the blacklist counts are.
- PagedLeaderboards.PagedLeaderboard: one blacklist count per (player, page)
  stands for all of the page's components. They all get the same calls, and
  the background gets each call twice (LeaderboardHologram.java:234-248), so
  it is clear exactly when the count is 0. The periodic viewer pass is not
  run; `pageViewers` records only the immediate addViewer and removeViewer.
- PagedLeaderboards.SwitchKeepsOnPage, FirstShowPutsOnPage, InitPutsOnFirstPage,
  AddPageKeepsOnPage and the three removal lemmas are stated for a page list
  without repeats and a server that lists each player once. The count lemmas
  (PagesHiddenEntries and the others) also cover repeats.
- Registry.HologramManager.SpawnLeaderboard and SpawnBoard: only the
  registrations are modelled. The scheduled spawn and update of each
  component is modelled for one hologram by Spawn and SpawnBox, and
  `init` by PagedLeaderboard.Init. Here `init`'s outcome is the parameter
  `initThrows`. The teleport and `setFixedRotation` of the pages are not
  modelled, and the entity-id map is left unstated.
- PlayerHeads.Lower: only ASCII letters are case-folded; Java's full Unicode
  case mapping is not modelled.
- PlayerHeads.PlayerHeadCaches.GetUuid: a null player name is not modelled; names are strings, and a blank one takes the same path as null.
- PlayerHeads.HeadFor: a null colour string in the array is not
  distinguished from an empty one; both end in the caught exception.
- Registry.HologramManager.RemoveLeaderboard: the contract states the
  persistent set only for the case without the flag.
- The join and quit listeners are one-line event dispatchers and are not
  modelled. The quit listener calls `onJoin`, so `onQuit` is not assumed to
  be wired to any event.
- HologramLib's bootstrap, commands and metrics, HeadDatabaseHook and the
  build configuration are not part of this model.

## Findings

| source | as written | input that shows it | evidently intended | confidence | as-written member | corrected member |
|---|---|---|---|---|---|---|
| src/main/java/com/maximde/hologramlib/hologram/InteractionBox.java:150-158 | `show` adds the player to the viewer blacklist, and `hide` removes one blacklist entry: the reverse of `Hologram.show`/`hide` | A box in mode ALL, with an online player in range who was never blacklisted. `show(p)` blacklists p, so the next periodic pass removes p from the viewers | `show` removes one blacklist entry and `hide` adds one, as in `Hologram` | not executed | Interactions.ShowAsWrittenDroppedByPass | Interactions.ShowFixedKeptByPass |
| src/main/java/com/maximde/hologramlib/hologram/custom/PagedLeaderboard.java:311-323 | `removePage` moves the players of the removed page with `switchToPage(p, 0)` before dropping their entry. That call returns early when the recorded page is already 0 | Two pages, and an online player on page 0. `removePage(0)` hides the old page 0, and `switchToPage(p, 0)` sees index 0 as the current page and shows nothing | The players of the removed page are shown the new first page | not executed | PagedLeaderboards.RemovingFirstPageStrandsViewers | PagedLeaderboards.CorrectedRemovalKeepsOnPage |
| src/main/java/com/maximde/hologramlib/hologram/custom/PagedLeaderboard.java:311-323 | For a removed page between the first and the last, `switchToPage(p, 0)` still reads the old index, so it hides the page that slid into that slot, which `removePage` has already hidden from everyone online | Three pages, and an online player on page 1. `removePage(1)` leaves the old page 2 with two blacklist entries for the player. When they then go to that page, one show removes one entry, and no page is visible | The players of the removed page are moved to the first page without another hide | not executed | PagedLeaderboards.RemovalDoubleHidesNextPage | PagedLeaderboards.CorrectedRemovalKeepsOnPage |
