# Concealment core: revealed sector, control state machine, server dispatch

This project models three pieces of the GardenPerformance concealment
subsystem, which takes unobserved structures ("grids") out of simulation and
brings them back when players come near.

- **Revealed sector** (`RevealedSector`). This is the registry of revealed entities.
  It holds the active-player list, the lazily rebuilt spawn-owner list with its
  rebuild flag, and two id-keyed registries, one for observing entities and one
  for grids. Each registry has its own bounding-volume tree. Duplicate adds and
  removals of absent ids change nothing. The spawn-owner list is rebuilt only
  when flagged, from the active players and their factions. A revealed entity
  appearing or disappearing marks the observers near it for a fresh
  observation pass.
- **Control state machine** (`ControllableEntity`). Each update samples motion
  and keeps a grace window after the entity stops. It raises edge-triggered
  control-acquired and control-released notices. It also covers the stream
  order of the three control fields.
- **Server dispatch** (`ServerMessageHandler`). This maps the disabled switch, the
  message type, the decoded request and the concealment manager's answers to a
  reply, the new sector and the transitions queued with the manager.

The style is functional. Every operation is a pure function from the old
state to the new one. Host queries are parameters: the faction lookup, the
intersection test of the bounding-volume tree, the motion sample, the clock
and the manager's answers. Notifications come back as lists. Supporting
modules:

- `Wrappers`: `Option`, standing in for null.
- `Lists`: `List.Remove` and LINQ `Distinct` over sequences.
- `AabbTree`: the tree, seen only through its contract. It maps an entity to
  its recorded bounds, and a sphere query is exact under the supplied test.

The recently-moved window is cleared only when the clock is strictly past
its end (`now > recentlyMovedEnds`, ControllableEntity.cs:191). A still tick
at exactly the end time keeps the entity controlled.

## Model

| member | source | states |
|---|---|---|
| Lists.RemoveFirst | Data/Scripts/GardenPerformance/Concealment/World/Sectors/RevealedSector.cs:222 | `List.Remove` drops exactly one occurrence of the player when present. The multiset shrinks by that one element and every other player stays. An absent player leaves the list unchanged. |
| Lists.RemoveFirstDropsFirstOccurrence | Data/Scripts/GardenPerformance/Concealment/World/Sectors/RevealedSector.cs:222 | `List.Remove` cuts out exactly the first occurrence of the player and keeps the rest in order. |
| Lists.RemoveFirstNoDuplicates | Data/Scripts/GardenPerformance/Concealment/World/Sectors/RevealedSector.cs:217-222 | Removing a player from a duplicate-free list removes them entirely, and the list stays duplicate-free. |
| Lists.Distinct | Data/Scripts/GardenPerformance/Concealment/World/Sectors/RevealedSector.cs:455 | `Distinct()` yields a duplicate-free list with exactly the same elements, and it is never longer. |
| Lists.DistinctIdempotent | Data/Scripts/GardenPerformance/Concealment/World/Sectors/RevealedSector.cs:455 | Applying `Distinct()` to its own result changes nothing. |
| RevealedSector.EmptyIsValid | Data/Scripts/GardenPerformance/Concealment/World/Sectors/RevealedSector.cs:51-66 | The freshly constructed sector has no duplicate players or owners, and each tree indexes exactly its registry. |
| RevealedSector.GetGrid | Data/Scripts/GardenPerformance/Concealment/World/Sectors/RevealedSector.cs:90-94 | The lookup yields the registered grid exactly when the id is registered. Otherwise it yields null (None). |
| RevealedSector.ObservingInSphere | Data/Scripts/GardenPerformance/Concealment/World/Sectors/RevealedSector.cs:483-491 | It returns exactly the indexed observers whose bounds meet the sphere: nothing outside the tree, and no false positives or negatives. |
| RevealedSector.ObservableInSphere | Data/Scripts/GardenPerformance/Concealment/World/Sectors/RevealedSector.cs:470-481 | It returns exactly the indexed grids whose bounds meet the sphere. |
| RevealedSector.RememberPlayer | Data/Scripts/GardenPerformance/Concealment/World/Sectors/RevealedSector.cs:178-201 | The player is tracked afterwards. An already-tracked player leaves the whole sector unchanged. A new player is appended and the rebuild is flagged. The list stays duplicate-free, and entities and spawn owners are untouched. |
| RevealedSector.ForgetPlayer | Data/Scripts/GardenPerformance/Concealment/World/Sectors/RevealedSector.cs:203-225 | An untracked player leaves the sector unchanged. A tracked player is removed and the rebuild is flagged. Other players keep their membership, and a duplicate-free list loses the player entirely. |
| RevealedSector.PlayerLoggedIn | Data/Scripts/GardenPerformance/Concealment/World/Sectors/RevealedSector.cs:408-412 | Afterwards the player is active and the rebuild flag is set, whether or not the player was already tracked. The active set grows by exactly the player. The invariant is preserved and entities are untouched. |
| RevealedSector.PlayerLoggedOut | Data/Scripts/GardenPerformance/Concealment/World/Sectors/RevealedSector.cs:418-421 | Afterwards the player is not active and the rebuild flag is set. The active set shrinks by exactly the player. Logging out an untracked player changes only the flag. |
| RevealedSector.PlayerChangedFactions | Data/Scripts/GardenPerformance/Concealment/World/Sectors/RevealedSector.cs:414-416 | A faction change may make the spawn-owner list stale under the new faction lookup. The hook flags a rebuild, so the list counts as current under every lookup until the next refresh. Players, owners and entities are untouched, and the invariant is preserved. |
| RevealedSector.RememberObservingEntity | Data/Scripts/GardenPerformance/Concealment/World/Sectors/RevealedSector.cs:227-238 | A known id leaves the sector unchanged. A new id is put in the observer registry and the observer tree together. Grids and players are untouched. |
| RevealedSector.ForgetObservingEntity | Data/Scripts/GardenPerformance/Concealment/World/Sectors/RevealedSector.cs:244-254 | An unknown id leaves the sector unchanged. A known id leaves both the observer registry and the observer tree. Grids and players are untouched. |
| RevealedSector.RememberGrid | Data/Scripts/GardenPerformance/Concealment/World/Sectors/RevealedSector.cs:256-266 | A known id leaves the sector unchanged. A new id is put in the grid registry and the grid tree together. Observers and players are untouched. |
| RevealedSector.ForgetGrid | Data/Scripts/GardenPerformance/Concealment/World/Sectors/RevealedSector.cs:272-282 | An unknown id leaves the sector unchanged. A known id leaves both the grid registry and the grid tree. Observers and players are untouched. |
| RevealedSector.ControllableEntityAdded | Data/Scripts/GardenPerformance/Concealment/World/Sectors/RevealedSector.cs:288-301 | Each role the entity plays is registered independently, and a role it lacks leaves that registry and tree unchanged. A duplicate add keeps the first stored value and the first recorded bounds: that role's tree is unchanged. A new id is indexed with the entity's bounds. No other id's registry entry or tree bounds change, and the invariant is preserved. |
| RevealedSector.ControllableEntityMoved | Data/Scripts/GardenPerformance/Concealment/World/Sectors/RevealedSector.cs:303-318 | No registry changes and no tree gains or loses a key. Only the moved entity's bounds are re-recorded, in the trees of the roles it plays. |
| RevealedSector.ControllableEntityRemoved | Data/Scripts/GardenPerformance/Concealment/World/Sectors/RevealedSector.cs:320-333 | Each role the entity plays is purged from its registry and, under the invariant, from its tree. Roles it lacks are untouched, and the invariant is preserved. |
| RevealedSector.AddThenRemove | Data/Scripts/GardenPerformance/Concealment/World/Sectors/RevealedSector.cs:288-333 | After an add and then a remove, the entity is absent from the registry of every role it plays, and no sphere query returns it. For an id the sector did not know, the sector comes back exactly as it was. |
| RevealedSector.GetGridAfterAddAndRemove | Data/Scripts/GardenPerformance/Concealment/World/Sectors/RevealedSector.cs:90-94 | A grid added under a fresh id is what the lookup returns, and after its removal the lookup returns null. |
| RevealedSector.MarkNearbyObserversToObserve | Data/Scripts/GardenPerformance/Concealment/World/Sectors/RevealedSector.cs:377-394 | Exactly the observers that the sphere query around the position returns get marked; no other observer changes. Registry keys, grids, trees and players are unchanged. |
| RevealedSector.RevealedEntityAdded | Data/Scripts/GardenPerformance/Concealment/World/Sectors/RevealedSector.cs:353-362 | When a revealed entity appears, exactly the observers the observer tree finds within the visibility distance of its position become marked to observe again. Every other observer, the grids, both trees and the players stay as they were. |
| RevealedSector.RevealedEntityRemoved | Data/Scripts/GardenPerformance/Concealment/World/Sectors/RevealedSector.cs:364-373 | When a revealed entity disappears, an indexed observer ends up marked exactly when its recorded bounds meet the visibility sphere around the position or it was marked already. Observers outside the tree, the grids, both trees and the players stay as they were. |
| RevealedSector.GatherOwners | Data/Scripts/GardenPerformance/Concealment/World/Sectors/RevealedSector.cs:437-450 | The first rebuild pass contains exactly the owners protected by some active player. For a player in a faction these are all its members; for a factionless player it is the player's own id. |
| RevealedSector.UpdateSpawnOwners | Data/Scripts/GardenPerformance/Concealment/World/Sectors/RevealedSector.cs:433-465 | After the rebuild the owner list is duplicate-free and equals, as a set, the union over active players of their owners. Every grid is marked as needing a spawn update, with its other fields kept. |
| RevealedSector.UpdateSpawnOwnersIfNeeded | Data/Scripts/GardenPerformance/Concealment/World/Sectors/RevealedSector.cs:426-431 | The flag is always clear afterwards. An unflagged sector comes back unchanged and the concealed side is not notified. A flagged sector is rebuilt and the concealed side is notified. |
| RevealedSector.UpdateSpawnOwnersIfNeededIdempotent | Data/Scripts/GardenPerformance/Concealment/World/Sectors/RevealedSector.cs:426-431 | A second call, with no new event in between, changes nothing and does no work. |
| RevealedSector.SpawnOwnersStayCurrent | Data/Scripts/GardenPerformance/Concealment/World/Sectors/RevealedSector.cs:100-104 | Unless the rebuild flag is set, the owner list matches the active players. Login, logout and faction change keep this true under any faction lookup, because they flag a rebuild. The entity operations keep it true under the unchanged lookup. After a refresh, SpawnOwnerNeeded(o), a membership test on the owner list, holds exactly when o is protected by some active player. |
| RevealedSector.FactionChangeRefreshes | Data/Scripts/GardenPerformance/Concealment/World/Sectors/RevealedSector.cs:414-431 | After a faction change, the next refresh notifies the concealed side and marks every grid. SpawnOwnerNeeded(o) then holds exactly when o is protected by some active player under the new faction lookup. |
| RevealedSector.LoginLogoutScenario | Data/Scripts/GardenPerformance/Concealment/World/Sectors/RevealedSector.cs:408-455 | A factionless player logs in and a refresh follows: the owner list is exactly that player. After the player logs out and a refresh follows, the list is empty and the player no longer counts as a spawn owner. |
| ControllableEntity.IsConcealableAuto | Data/Scripts/GardenPerformance/Concealment/World/Entities/ControllableEntity.cs:99-106 | IsControlled is moving or recently moved. An entity is automatically concealable exactly when the base says so and it is not controlled. A controlled entity is never concealable. |
| ControllableEntity.ConcealableAutoBlockedByMotion | Data/Scripts/GardenPerformance/Concealment/World/Entities/ControllableEntity.cs:99-106 | A tick with motion, or the first still tick after motion, leaves the entity not automatically concealable. |
| ControllableEntity.ConcealableAutoRestoredAfterGrace | Data/Scripts/GardenPerformance/Concealment/World/Entities/ControllableEntity.cs:99-106 | Take a moving entity that stops and stays still until a tick strictly past its window. Its automatic concealability is then exactly the base class's answer again. |
| ControllableEntity.UpdateMoving | Data/Scripts/GardenPerformance/Concealment/World/Entities/ControllableEntity.cs:171-206 | A tick with motion sets moving, keeps the window, flags the asteroid check and raises Moved. The first still tick opens a window ending at now + grace. A later still tick clears the window only when now is strictly past its end, and otherwise changes nothing. Acquired is raised exactly on a false-to-true control edge, Released exactly on a true-to-false edge, and never both. |
| ControllableEntity.UpdateMovingRefinesModes | Data/Scripts/GardenPerformance/Concealment/World/Entities/ControllableEntity.cs:103-106 | The three flags step like the idle / moving / recently-moved(expiry) machine, and the control notices are exactly that machine's control edges. |
| ControllableEntity.QuietRunNotices | Data/Scripts/GardenPerformance/Concealment/World/Entities/ControllableEntity.cs:186-205 | Over any run of still ticks, no Acquired or Moved is raised. Exactly one Released is raised when the entity starts controlled and ends uncontrolled, and none otherwise. An uncontrolled entity stays uncontrolled. |
| ControllableEntity.QuietRunExpires | Data/Scripts/GardenPerformance/Concealment/World/Entities/ControllableEntity.cs:191-193 | A still entity whose window has passed at some later still tick ends that run uncontrolled. |
| ControllableEntity.StopThenExpireReleasesOnce | Data/Scripts/GardenPerformance/Concealment/World/Entities/ControllableEntity.cs:186-205 | Take a moving entity that stops and stays still until a tick strictly past now + grace. The run raises exactly one Released and no Acquired. |
| ControllableEntity.AddToByteStream | Data/Scripts/GardenPerformance/Concealment/World/Entities/ControllableEntity.cs:144-149 | The base fields stay as the prefix, followed by exactly three fields in this order: moving, recently moved, window end. |
| ControllableEntity.RoundTrip | Data/Scripts/GardenPerformance/Concealment/World/Entities/ControllableEntity.cs:132-149 | The stream constructor, modelled as ReadControlState, reads the three written fields back in the same order, unchanged, and leaves the rest of the stream. |
| ControllableEntity.ReadIsInverse | Data/Scripts/GardenPerformance/Concealment/World/Entities/ControllableEntity.cs:132-138 | Any stream the constructor reads successfully is the encoding of what it read followed by the rest. |
| ServerMessageHandler.SendDisabledNotice | Data/Scripts/GardenPerformance/Concealment/MessageHandlers/ServerMessageHandler.cs:158-164 | The sender receives a status response saying the server is not running. Nothing else changes. |
| ServerMessageHandler.ReceiveConcealRequest | Data/Scripts/GardenPerformance/Concealment/MessageHandlers/ServerMessageHandler.cs:106-123 | The reply echoes the entity id. Success holds exactly when CanConceal and QueueConceal both agreed. QueueConceal is not called when CanConceal says no. |
| ServerMessageHandler.ReceiveRevealRequest | Data/Scripts/GardenPerformance/Concealment/MessageHandlers/ServerMessageHandler.cs:137-156 | The reply echoes the entity id, and success is exactly QueueReveal's answer. One reveal is queued. |
| ServerMessageHandler.ReceiveChangeSettingRequest | Data/Scripts/GardenPerformance/Concealment/MessageHandlers/ServerMessageHandler.cs:180-192 | The reply is always a failure. Nothing changes. |
| ServerMessageHandler.ReceiveLoginRequest | Data/Scripts/GardenPerformance/Concealment/MessageHandlers/ServerMessageHandler.cs:125-129 | There is no reply and nothing is queued. The only effect is the sector's login. The active players grow by exactly the sender, which is appended when new, and the rebuild is flagged. The spawn-owner list and the entities are untouched until the next refresh, and the sector invariant is kept. |
| ServerMessageHandler.ReceiveLogoutRequest | Data/Scripts/GardenPerformance/Concealment/MessageHandlers/ServerMessageHandler.cs:131-135 | There is no reply and nothing is queued. The only effect is the sector's logout. The sender's first entry leaves the active players, so under the invariant the sender is gone and every other player stays. The rebuild is flagged, the spawn-owner list and the entities are untouched, and the invariant is kept. |
| ServerMessageHandler.HandleMessage | Data/Scripts/GardenPerformance/Concealment/MessageHandlers/ServerMessageHandler.cs:31-73 | When disabled, every type gets exactly the not-running status, with no handler run, no call queued and no state change. An unlisted type gets no reply and has no effect. Each listed type goes to its handler, with that handler's reply. A conceal request queues its conceal only when CanConceal agrees, a reveal request always queues its reveal, and no other type queues anything. |
| ServerMessageHandler.DispatchShape | Data/Scripts/GardenPerformance/Concealment/MessageHandlers/ServerMessageHandler.cs:44-72 | Every reply goes to the sender. While enabled, exactly the types other than login, logout and unlisted ones get a reply, and it is the response kind matching the request. Only conceal and reveal requests reach the manager's queue. |

## Left out

- AABB tree internals and sphere geometry are left out. They are library code working on doubles. The tree is a map from entity to recorded bounds, and the intersection test is a parameter. The model treats a move of an entity not in the tree as a no-op, because the library's behaviour there cannot be seen.
- The host faction lookup is a parameter. It returns the faction's member ids in the host's enumeration order, or None for a factionless player.
- Settings are parameters: the visibility distance and the grace period. The wall clock is an integer count of seconds. Overflow of the date type when the grace period is added is not modelled.
- Log output is not modelled. A duplicate add or the removal of an absent id is visible only as "state unchanged".
- ControllableEntityControlled and ControllableEntityReleased on the sector are not modelled; they only raise on-screen alerts. The alerts raised by RevealedEntityAdded and RevealedEntityRemoved are left out for the same reason.
- The client message handler, and the window and chat notifications, are presentation only.
- Request decoding (`FromBytes`) and sending (`SendToPlayer`) are not modelled. A request comes in already decoded, and a reply is returned instead of being sent.
- The numeric ids of the message-type enumeration are not modelled. `OtherType` stands for every id the switch does not list.
- ReceiveLoginRequest and ReceiveLogoutRequest: the handler passes one `ulong` sender (Steam) id to `PlayerLoggedIn` and `PlayerLoggedOut` (ServerMessageHandler.cs:128, 134). The only visible overloads take `(long playerId, long factionId)` (RevealedSector.cs:408, 418), so the call matches no visible member. The model assumes the sender id is the player identity that the faction lookup and grid owners use, and that the unseen overload behaves like the two-argument one, whose faction id is never read.
- ReplyToConcealedGridsRequest, ReceiveRevealedGridsRequest, ReceiveSettingsRequest and ReceiveObservingEntitiesRequest only copy a list into a response. They are modelled inline in HandleMessage. The revealed-grid and observing-entity replies carry the sector's whole id-keyed registry. The source sends `Values.ToList()`, the registry's values in dictionary order, so the model keeps the ids and does not fix an order. The other replies carry the manager's concealed-grid list and the settings.
- The concealment manager's CanConceal, QueueConceal and QueueReveal are inputs, recorded as answers and queued calls. The concealed sector is not part of this model; its UpdateSpawn call is a returned flag.
- The static multicast events are replaced by the notice list that UpdateMoving returns. It holds Moved, ControlAcquired and ControlReleased. Three things are left out: the added and removed notices raised at Initialize and Terminate (ControllableEntity.cs:154-166), the subscription plumbing, and the `UpdateActions` entry that runs the control update every 60 frames (:91-97).
- The base classes' serialized fields, GetConcealability and the concealability score are not part of this model. The ObservingEntity class is represented only by its observation-update mark.
- Entity and player ids are 64-bit in the code. They are only compared, never computed on, so the model uses unbounded integers.
- The commented-out faction cache and controlled-entity registry are dead code and not modelled.
- ReadIsInverse: the stream is a sequence of typed fields (boolean or date-time), not raw bytes. A `ByteStream` read takes whatever bytes come next and throws on a short stream. `ReadControlState` returns None both for a short stream and for a field of the wrong kind. The round trip therefore holds at the field-order level, not for byte layouts.
- `IsControlled`, `ControlAcquired` and `ControlReleased` are virtual (ControllableEntity.cs:106, 111-117). The model covers the base class only, not overrides in subclasses.
