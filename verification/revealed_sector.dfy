/**
 * The revealed sector: the registry of revealed entities that may be concealed
 * or may cause others to be revealed, the active players, and the lazily
 * rebuilt list of spawn owners whose structures must stay revealed.
 *
 * Each operation is a pure function from the old sector to the new one. The
 * faction lookup is a parameter; the two bounding-volume trees are `AabbTree`
 * maps whose intersection test is a parameter.
 */
module RevealedSector {
  import opened Wrappers
  import opened Lists
  import opened AabbTree

  type EntityId = int
  type PlayerId = int

  /** The observing role of an entity: whether it must re-run its observation pass. */
  datatype ObservingEntity = ObservingEntity(markedForObservingUpdate: bool)

  /** The grid role of an entity, with the concealable-entity flags folded in. */
  datatype RevealedGrid = RevealedGrid(
    displayName: string,
    ownerId: PlayerId,
    isRevealBlocked: bool,
    isInsideAsteroid: bool,
    spawnUpdateNeeded: bool)

  /**
   * A controllable entity as the host reports it: its id, current bounds and
   * whichever of the two roles it plays.
   */
  datatype Controllable = Controllable(
    id: EntityId,
    bounds: Box,
    observing: Option<ObservingEntity>,
    grid: Option<RevealedGrid>)

  /** The host's faction lookup: the member ids of a player's faction, or `None` when factionless. */
  type FactionLookup = PlayerId -> Option<seq<PlayerId>>

  datatype Sector = Sector(
    activePlayers: seq<PlayerId>,
    spawnOwnersNeeded: seq<PlayerId>,
    updateSpawnOwnersNextUpdate: bool,
    observingEntities: map<EntityId, ObservingEntity>,
    grids: map<EntityId, RevealedGrid>,
    observingTree: Tree<EntityId>,
    gridTree: Tree<EntityId>)

  /** The sector as constructed: everything empty, nothing to rebuild. */
  const Empty := Sector([], [], false, map[], map[], map[], map[])

  /**
   * The structural invariant: no player or spawn owner listed twice, and each
   * tree indexes exactly the entities of its registry.
   */
  predicate Valid(s: Sector) {
    && NoDuplicates(s.activePlayers)
    && NoDuplicates(s.spawnOwnersNeeded)
    && s.observingEntities.Keys == s.observingTree.Keys
    && s.grids.Keys == s.gridTree.Keys
  }

  /** Two sectors agree on everything but the player bookkeeping. */
  predicate SameEntities(s: Sector, r: Sector) {
    && r.observingEntities == s.observingEntities
    && r.grids == s.grids
    && r.observingTree == s.observingTree
    && r.gridTree == s.gridTree
  }

  /** Two sectors agree on all the player bookkeeping. */
  predicate SamePlayers(s: Sector, r: Sector) {
    && r.activePlayers == s.activePlayers
    && r.spawnOwnersNeeded == s.spawnOwnersNeeded
    && r.updateSpawnOwnersNextUpdate == s.updateSpawnOwnersNextUpdate
  }

  lemma EmptyIsValid()
    ensures Valid(Empty)
  {
  }

  // ---------------------------------------------------------------- lookups

  /** `GetGrid`: the grid registered under `entityId`, or `None` (a null reference). */
  function GetGrid(s: Sector, entityId: EntityId): (r: Option<RevealedGrid>)
    ensures r.Some? <==> entityId in s.grids
    ensures r.Some? ==> r.value == s.grids[entityId]
  {
    if entityId in s.grids then Some(s.grids[entityId]) else None
  }

  /** `SpawnOwnerNeeded`: whether `ownerId` is on the current spawn-owner list. */
  predicate SpawnOwnerNeeded(s: Sector, ownerId: PlayerId) {
    ownerId in s.spawnOwnersNeeded
  }

  /** `ObservingInSphere`: the observing entities whose indexed bounds meet the sphere. */
  function ObservingInSphere(s: Sector, sphere: Sphere, intersects: Intersects): (r: set<EntityId>)
    ensures r <= s.observingTree.Keys
    ensures forall id :: id in s.observingTree ==> (id in r <==> intersects(s.observingTree[id], sphere))
  {
    InSphere(s.observingTree, sphere, intersects)
  }

  /** `ObservableInSphere`: the grids whose indexed bounds meet the sphere. */
  function ObservableInSphere(s: Sector, sphere: Sphere, intersects: Intersects): (r: set<EntityId>)
    ensures r <= s.gridTree.Keys
    ensures forall id :: id in s.gridTree ==> (id in r <==> intersects(s.gridTree[id], sphere))
  {
    InSphere(s.gridTree, sphere, intersects)
  }

  // ---------------------------------------------------------------- players

  /** `RememberPlayer`: adds an untracked player and flags a rebuild; a tracked one is ignored. */
  function RememberPlayer(s: Sector, playerId: PlayerId): (r: Sector)
    ensures playerId in r.activePlayers
    ensures playerId in s.activePlayers ==> r == s
    ensures playerId !in s.activePlayers ==>
              r.activePlayers == s.activePlayers + [playerId] && r.updateSpawnOwnersNextUpdate
    ensures NoDuplicates(s.activePlayers) ==> NoDuplicates(r.activePlayers)
    ensures r.spawnOwnersNeeded == s.spawnOwnersNeeded
    ensures SameEntities(s, r)
  {
    if playerId in s.activePlayers then s
    else s.(activePlayers := s.activePlayers + [playerId], updateSpawnOwnersNextUpdate := true)
  }

  /** `ForgetPlayer`: removes a tracked player and flags a rebuild; an untracked one is ignored. */
  function ForgetPlayer(s: Sector, playerId: PlayerId): (r: Sector)
    ensures playerId !in s.activePlayers ==> r == s
    ensures playerId in s.activePlayers ==>
              r.activePlayers == RemoveFirst(s.activePlayers, playerId) && r.updateSpawnOwnersNextUpdate
    ensures NoDuplicates(s.activePlayers) ==> playerId !in r.activePlayers && NoDuplicates(r.activePlayers)
    ensures forall p :: p != playerId ==> (p in r.activePlayers <==> p in s.activePlayers)
    ensures r.spawnOwnersNeeded == s.spawnOwnersNeeded
    ensures SameEntities(s, r)
  {
    RemoveFirstNoDuplicates(s.activePlayers, playerId);
    if playerId !in s.activePlayers then s
    else s.(activePlayers := RemoveFirst(s.activePlayers, playerId), updateSpawnOwnersNextUpdate := true)
  }

  /** `PlayerLoggedIn`: the player is tracked afterwards, and a rebuild is flagged either way. */
  function PlayerLoggedIn(s: Sector, playerId: PlayerId): (r: Sector)
    ensures playerId in r.activePlayers
    ensures r.updateSpawnOwnersNextUpdate
    ensures Elements(r.activePlayers) == Elements(s.activePlayers) + {playerId}
    ensures playerId in s.activePlayers ==> r == s.(updateSpawnOwnersNextUpdate := true)
    ensures Valid(s) ==> Valid(r)
    ensures r.spawnOwnersNeeded == s.spawnOwnersNeeded
    ensures SameEntities(s, r)
  {
    RememberPlayer(s, playerId).(updateSpawnOwnersNextUpdate := true)
  }

  /** `PlayerLoggedOut`: the player is untracked afterwards, and a rebuild is flagged either way. */
  function PlayerLoggedOut(s: Sector, playerId: PlayerId): (r: Sector)
    ensures Valid(s) ==> playerId !in r.activePlayers && Valid(r)
    ensures Valid(s) ==> Elements(r.activePlayers) == Elements(s.activePlayers) - {playerId}
    ensures r.updateSpawnOwnersNextUpdate
    ensures playerId !in s.activePlayers ==> r == s.(updateSpawnOwnersNextUpdate := true)
    ensures r.spawnOwnersNeeded == s.spawnOwnersNeeded
    ensures SameEntities(s, r)
  {
    ForgetPlayer(s, playerId).(updateSpawnOwnersNextUpdate := true)
  }

  /**
   * `PlayerChangedFactions`: the host's faction membership changed, so the
   * spawn-owner list may be stale under the new lookup; the hook flags a
   * rebuild and touches nothing else.
   */
  function PlayerChangedFactions(s: Sector, playerId: PlayerId, oldFactionId: int, newFactionId: int): (r: Sector)
    ensures forall factionOf :: SpawnOwnersCurrent(r, factionOf)
    ensures r.updateSpawnOwnersNextUpdate
    ensures r.activePlayers == s.activePlayers && r.spawnOwnersNeeded == s.spawnOwnersNeeded
    ensures SameEntities(s, r)
    ensures Valid(s) ==> Valid(r)
  {
    s.(updateSpawnOwnersNextUpdate := true)
  }

  // ---------------------------------------------------------------- entities

  /** `RememberObservingEntity`: registers and indexes a new observer; a known id is ignored. */
  function RememberObservingEntity(s: Sector, id: EntityId, e: ObservingEntity, bounds: Box): (r: Sector)
    ensures id in s.observingEntities ==> r == s
    ensures id !in s.observingEntities ==>
              && r.observingEntities == s.observingEntities[id := e]
              && r.observingTree == Add(s.observingTree, id, bounds)
    ensures r.grids == s.grids && r.gridTree == s.gridTree
    ensures SamePlayers(s, r)
  {
    if id in s.observingEntities then s
    else s.(observingEntities := s.observingEntities[id := e],
            observingTree := Add(s.observingTree, id, bounds))
  }

  /** `ForgetObservingEntity`: unregisters and unindexes an observer; an unknown id is ignored. */
  function ForgetObservingEntity(s: Sector, id: EntityId): (r: Sector)
    ensures id !in s.observingEntities ==> r == s
    ensures id in s.observingEntities ==>
              && r.observingEntities == s.observingEntities - {id}
              && r.observingTree == Remove(s.observingTree, id)
    ensures r.grids == s.grids && r.gridTree == s.gridTree
    ensures SamePlayers(s, r)
  {
    if id !in s.observingEntities then s
    else s.(observingEntities := s.observingEntities - {id},
            observingTree := Remove(s.observingTree, id))
  }

  /** `RememberGrid`: registers and indexes a new grid; a known id is ignored. */
  function RememberGrid(s: Sector, id: EntityId, g: RevealedGrid, bounds: Box): (r: Sector)
    ensures id in s.grids ==> r == s
    ensures id !in s.grids ==>
              && r.grids == s.grids[id := g]
              && r.gridTree == Add(s.gridTree, id, bounds)
    ensures r.observingEntities == s.observingEntities && r.observingTree == s.observingTree
    ensures SamePlayers(s, r)
  {
    if id in s.grids then s
    else s.(grids := s.grids[id := g], gridTree := Add(s.gridTree, id, bounds))
  }

  /** `ForgetGrid`: unregisters and unindexes a grid; an unknown id is ignored. */
  function ForgetGrid(s: Sector, id: EntityId): (r: Sector)
    ensures id !in s.grids ==> r == s
    ensures id in s.grids ==>
              && r.grids == s.grids - {id}
              && r.gridTree == Remove(s.gridTree, id)
    ensures r.observingEntities == s.observingEntities && r.observingTree == s.observingTree
    ensures SamePlayers(s, r)
  {
    if id !in s.grids then s
    else s.(grids := s.grids - {id}, gridTree := Remove(s.gridTree, id))
  }

  /**
   * `ControllableEntityAdded`: each role the entity plays is registered on its
   * own; a role already registered under the id keeps its first value.
   */
  function ControllableEntityAdded(s: Sector, e: Controllable): (r: Sector)
    ensures e.observing.Some? ==>
              && e.id in r.observingEntities && (Valid(s) ==> e.id in r.observingTree)
              && r.observingEntities[e.id] ==
                   (if e.id in s.observingEntities then s.observingEntities[e.id] else e.observing.value)
              && (e.id !in s.observingEntities ==> e.id in r.observingTree && r.observingTree[e.id] == e.bounds)
    ensures e.observing.None? ==> r.observingEntities == s.observingEntities && r.observingTree == s.observingTree
    ensures e.grid.Some? ==>
              && e.id in r.grids && (Valid(s) ==> e.id in r.gridTree)
              && r.grids[e.id] == (if e.id in s.grids then s.grids[e.id] else e.grid.value)
              && (e.id !in s.grids ==> e.id in r.gridTree && r.gridTree[e.id] == e.bounds)
    ensures e.grid.None? ==> r.grids == s.grids && r.gridTree == s.gridTree
    ensures forall id :: id != e.id && id in s.observingEntities ==>
              id in r.observingEntities && r.observingEntities[id] == s.observingEntities[id]
    ensures forall id :: id != e.id && id in s.grids ==> id in r.grids && r.grids[id] == s.grids[id]
    ensures r.observingEntities.Keys <= s.observingEntities.Keys + {e.id}
    ensures r.grids.Keys <= s.grids.Keys + {e.id}
    ensures r.observingTree.Keys <= s.observingTree.Keys + {e.id}
    ensures r.gridTree.Keys <= s.gridTree.Keys + {e.id}
    ensures forall id :: id != e.id && id in s.observingTree ==>
              id in r.observingTree && r.observingTree[id] == s.observingTree[id]
    ensures forall id :: id != e.id && id in s.gridTree ==> id in r.gridTree && r.gridTree[id] == s.gridTree[id]
    ensures e.id in s.observingEntities ==> r.observingTree == s.observingTree
    ensures e.id in s.grids ==> r.gridTree == s.gridTree
    ensures Valid(s) ==> Valid(r)
    ensures SamePlayers(s, r)
  {
    var withObserver := if e.observing.Some? then RememberObservingEntity(s, e.id, e.observing.value, e.bounds) else s;
    if e.grid.Some? then RememberGrid(withObserver, e.id, e.grid.value, e.bounds) else withObserver
  }

  /**
   * `ControllableEntityMoved`: re-records the entity's bounds in the trees of
   * the roles it plays; no registry gains or loses a member.
   */
  function ControllableEntityMoved(s: Sector, e: Controllable): (r: Sector)
    ensures r.observingEntities == s.observingEntities && r.grids == s.grids
    ensures r.observingTree.Keys == s.observingTree.Keys && r.gridTree.Keys == s.gridTree.Keys
    ensures e.observing.Some? && e.id in s.observingTree ==> r.observingTree[e.id] == e.bounds
    ensures e.grid.Some? && e.id in s.gridTree ==> r.gridTree[e.id] == e.bounds
    ensures forall id :: id in s.observingTree && (id != e.id || e.observing.None?) ==>
              r.observingTree[id] == s.observingTree[id]
    ensures forall id :: id in s.gridTree && (id != e.id || e.grid.None?) ==> r.gridTree[id] == s.gridTree[id]
    ensures Valid(s) ==> Valid(r)
    ensures SamePlayers(s, r)
  {
    var s' := if e.observing.Some? then s.(observingTree := Move(s.observingTree, e.id, e.bounds)) else s;
    if e.grid.Some? then s'.(gridTree := Move(s'.gridTree, e.id, e.bounds)) else s'
  }

  /**
   * `ControllableEntityRemoved`: each role the entity plays is purged from its
   * registry and tree; roles it does not play are untouched.
   */
  function ControllableEntityRemoved(s: Sector, e: Controllable): (r: Sector)
    ensures e.observing.Some? ==> r.observingEntities == s.observingEntities - {e.id}
    ensures e.observing.Some? && Valid(s) ==> r.observingTree == s.observingTree - {e.id}
    ensures e.observing.None? ==> r.observingEntities == s.observingEntities && r.observingTree == s.observingTree
    ensures e.grid.Some? ==> r.grids == s.grids - {e.id}
    ensures e.grid.Some? && Valid(s) ==> r.gridTree == s.gridTree - {e.id}
    ensures e.grid.None? ==> r.grids == s.grids && r.gridTree == s.gridTree
    ensures Valid(s) ==> Valid(r)
    ensures SamePlayers(s, r)
  {
    var withoutObserver := if e.observing.Some? then ForgetObservingEntity(s, e.id) else s;
    if e.grid.Some? then ForgetGrid(withoutObserver, e.id) else withoutObserver
  }

  /** The entity's id is in none of the sector's registries or trees. */
  predicate Untracked(s: Sector, id: EntityId) {
    id !in s.observingEntities && id !in s.observingTree && id !in s.grids && id !in s.gridTree
  }

  /**
   * Adding an entity and removing it again purges it from every registry and
   * tree of the roles it plays, so no sphere query finds it; an entity the
   * sector did not know leaves the sector exactly as it was.
   */
  lemma AddThenRemove(s: Sector, e: Controllable, sphere: Sphere, intersects: Intersects)
    requires Valid(s)
    ensures var r := ControllableEntityRemoved(ControllableEntityAdded(s, e), e);
            && Valid(r)
            && (e.observing.Some? ==> e.id !in r.observingEntities && e.id !in ObservingInSphere(r, sphere, intersects))
            && (e.grid.Some? ==> e.id !in r.grids && e.id !in ObservableInSphere(r, sphere, intersects))
            && (Untracked(s, e.id) ==> r == s)
  {
    var a := ControllableEntityAdded(s, e);
    assert Valid(a);
    if Untracked(s, e.id) {
      AddThenRemoveUntracked(s, e);
    }
  }

  /** The round trip of `AddThenRemove` for an id the sector did not know. */
  lemma AddThenRemoveUntracked(s: Sector, e: Controllable)
    requires Untracked(s, e.id)
    ensures ControllableEntityRemoved(ControllableEntityAdded(s, e), e) == s
  {
    var a1 := if e.observing.Some? then RememberObservingEntity(s, e.id, e.observing.value, e.bounds) else s;
    var a := if e.grid.Some? then RememberGrid(a1, e.id, e.grid.value, e.bounds) else a1;
    var r1 := if e.observing.Some? then ForgetObservingEntity(a, e.id) else a;
    var r := if e.grid.Some? then ForgetGrid(r1, e.id) else r1;
    assert r.observingEntities == s.observingEntities;
    assert r.observingTree == s.observingTree;
    assert r.grids == s.grids;
    assert r.gridTree == s.gridTree;
    assert r == s;
  }

  /** A grid added under a fresh id is what `GetGrid` returns, until it is removed. */
  lemma GetGridAfterAddAndRemove(s: Sector, e: Controllable)
    requires e.grid.Some? && e.id !in s.grids
    ensures GetGrid(ControllableEntityAdded(s, e), e.id) == e.grid
    ensures GetGrid(ControllableEntityRemoved(ControllableEntityAdded(s, e), e), e.id) == None
  {
  }

  // ---------------------------------------------------------------- observation sweep

  /**
   * `MarkNearbyObserversToObserve`: marks for an observation update every
   * observer the observing tree finds within `radius` of `position`, and no other.
   */
  function MarkNearbyObserversToObserve(s: Sector, position: Vec3, radius: real, intersects: Intersects): (r: Sector)
    ensures r.observingEntities.Keys == s.observingEntities.Keys
    ensures forall id :: id in s.observingEntities ==>
              r.observingEntities[id].markedForObservingUpdate ==
                (s.observingEntities[id].markedForObservingUpdate
                 || id in ObservingInSphere(s, Sphere(position, radius), intersects))
    ensures Valid(s) ==> forall id :: id in ObservingInSphere(s, Sphere(position, radius), intersects) ==>
              id in r.observingEntities && r.observingEntities[id].markedForObservingUpdate
    ensures r.grids == s.grids && r.observingTree == s.observingTree && r.gridTree == s.gridTree
    ensures Valid(s) ==> Valid(r)
    ensures SamePlayers(s, r)
  {
    var nearby := ObservingInSphere(s, Sphere(position, radius), intersects);
    if nearby == {} then s
    else
      var marked := map id | id in s.observingEntities ::
        if id in nearby then s.observingEntities[id].(markedForObservingUpdate := true)
        else s.observingEntities[id];
      s.(observingEntities := marked)
  }

  /**
   * `RevealedEntityAdded`: a revealed entity appeared at `position`. Exactly the
   * observers the observing tree finds within the visibility distance of it
   * are marked to observe again; nothing else in the sector changes.
   */
  function RevealedEntityAdded(s: Sector, position: Vec3, revealVisibilityMeters: real, intersects: Intersects): (r: Sector)
    ensures r.observingEntities.Keys == s.observingEntities.Keys
    ensures forall id :: id in s.observingEntities ==>
              if id in InSphere(s.observingTree, Sphere(position, revealVisibilityMeters), intersects)
              then r.observingEntities[id] == ObservingEntity(true)
              else r.observingEntities[id] == s.observingEntities[id]
    ensures r.grids == s.grids && r.observingTree == s.observingTree && r.gridTree == s.gridTree
    ensures SamePlayers(s, r)
  {
    MarkNearbyObserversToObserve(s, position, revealVisibilityMeters, intersects)
  }

  /**
   * `RevealedEntityRemoved`: a revealed entity left `position`. An observer
   * whose tree bounds lie within the visibility distance of it is marked to
   * observe again, and any other observer keeps its mark as it was.
   */
  function RevealedEntityRemoved(s: Sector, position: Vec3, revealVisibilityMeters: real, intersects: Intersects): (r: Sector)
    ensures r.observingEntities.Keys == s.observingEntities.Keys
    ensures forall id :: id in s.observingEntities && id in s.observingTree ==>
              r.observingEntities[id].markedForObservingUpdate ==
                (intersects(s.observingTree[id], Sphere(position, revealVisibilityMeters))
                 || s.observingEntities[id].markedForObservingUpdate)
    ensures forall id :: id in s.observingEntities && id !in s.observingTree ==>
              r.observingEntities[id] == s.observingEntities[id]
    ensures r.grids == s.grids && r.observingTree == s.observingTree && r.gridTree == s.gridTree
    ensures SamePlayers(s, r)
  {
    MarkNearbyObserversToObserve(s, position, revealVisibilityMeters, intersects)
  }

  // ---------------------------------------------------------------- spawn owners

  /** The owners one active player keeps spawn-protected: their faction's members, or themself. */
  function OwnersOf(factionOf: FactionLookup, playerId: PlayerId): seq<PlayerId> {
    match factionOf(playerId)
    case Some(members) => members
    case None => [playerId]
  }

  /** The reference meaning of the spawn-owner set for a list of active players. */
  ghost function SpawnOwnerSet(players: seq<PlayerId>, factionOf: FactionLookup): set<PlayerId> {
    set i, o | 0 <= i < |players| && o in OwnersOf(factionOf, players[i]) :: o
  }

  /** The rebuild's first pass: every active player's owners, concatenated, duplicates and all. */
  function GatherOwners(players: seq<PlayerId>, factionOf: FactionLookup): (r: seq<PlayerId>)
    ensures forall o :: o in r <==> o in SpawnOwnerSet(players, factionOf)
    decreases |players|
  {
    if |players| == 0 then []
    else
      var rest := GatherOwners(players[1..], factionOf);
      assert forall o :: o in SpawnOwnerSet(players, factionOf) <==>
               o in OwnersOf(factionOf, players[0]) || o in SpawnOwnerSet(players[1..], factionOf) by {
        forall o ensures o in SpawnOwnerSet(players, factionOf) <==>
                         o in OwnersOf(factionOf, players[0]) || o in SpawnOwnerSet(players[1..], factionOf) {
          if o in SpawnOwnerSet(players, factionOf) {
            var i :| 0 <= i < |players| && o in OwnersOf(factionOf, players[i]);
            if i > 0 {
              assert players[1..][i - 1] == players[i];
            }
          }
          if o in SpawnOwnerSet(players[1..], factionOf) {
            var i :| 0 <= i < |players[1..]| && o in OwnersOf(factionOf, players[1..][i]);
            assert players[1..][i] == players[i + 1];
          }
        }
      }
      OwnersOf(factionOf, players[0]) + rest
  }

  /**
   * `UpdateSpawnOwners`: rebuilds the spawn-owner list from the active players
   * and marks every grid as needing a spawn update.
   */
  function UpdateSpawnOwners(s: Sector, factionOf: FactionLookup): (r: Sector)
    ensures NoDuplicates(r.spawnOwnersNeeded)
    ensures Elements(r.spawnOwnersNeeded) == SpawnOwnerSet(s.activePlayers, factionOf)
    ensures r.grids.Keys == s.grids.Keys
    ensures forall id :: id in s.grids ==> r.grids[id] == s.grids[id].(spawnUpdateNeeded := true)
    ensures r.activePlayers == s.activePlayers
    ensures r.updateSpawnOwnersNextUpdate == s.updateSpawnOwnersNextUpdate
    ensures r.observingEntities == s.observingEntities
    ensures r.observingTree == s.observingTree && r.gridTree == s.gridTree
  {
    var owners := Distinct(GatherOwners(s.activePlayers, factionOf));
    var marked := map id | id in s.grids :: s.grids[id].(spawnUpdateNeeded := true);
    s.(spawnOwnersNeeded := owners, grids := marked)
  }

  /** The sector after a refresh, and whether the concealed side was told to re-check spawn exemptions. */
  datatype SpawnRefresh = SpawnRefresh(sector: Sector, concealedNotified: bool)

  /**
   * `UpdateSpawnOwnersIfNeeded`: rebuilds only when a rebuild is flagged, and
   * always leaves the flag clear.
   */
  function UpdateSpawnOwnersIfNeeded(s: Sector, factionOf: FactionLookup): (r: SpawnRefresh)
    ensures !r.sector.updateSpawnOwnersNextUpdate
    ensures !s.updateSpawnOwnersNextUpdate ==> r == SpawnRefresh(s, false)
    ensures s.updateSpawnOwnersNextUpdate ==>
              && r.concealedNotified
              && NoDuplicates(r.sector.spawnOwnersNeeded)
              && Elements(r.sector.spawnOwnersNeeded) == SpawnOwnerSet(s.activePlayers, factionOf)
              && r.sector.grids.Keys == s.grids.Keys
              && (forall id :: id in s.grids ==> r.sector.grids[id] == s.grids[id].(spawnUpdateNeeded := true))
    ensures r.sector.activePlayers == s.activePlayers
    ensures r.sector.observingEntities == s.observingEntities
    ensures r.sector.observingTree == s.observingTree && r.sector.gridTree == s.gridTree
    ensures Valid(s) ==> Valid(r.sector)
  {
    if s.updateSpawnOwnersNextUpdate then
      SpawnRefresh(UpdateSpawnOwners(s, factionOf).(updateSpawnOwnersNextUpdate := false), true)
    else SpawnRefresh(s, false)
  }

  /** A second refresh with nothing flagged in between does no work and changes nothing. */
  lemma UpdateSpawnOwnersIfNeededIdempotent(s: Sector, factionOf: FactionLookup)
    ensures var once := UpdateSpawnOwnersIfNeeded(s, factionOf).sector;
            UpdateSpawnOwnersIfNeeded(once, factionOf) == SpawnRefresh(once, false)
  {
  }

  /**
   * The spawn-owner list is current: unless a rebuild is flagged, it lists
   * exactly the owners the active players keep protected.
   */
  ghost predicate SpawnOwnersCurrent(s: Sector, factionOf: FactionLookup) {
    !s.updateSpawnOwnersNextUpdate ==> Elements(s.spawnOwnersNeeded) == SpawnOwnerSet(s.activePlayers, factionOf)
  }

  /**
   * Every operation keeps the spawn-owner list current. The player hooks flag
   * a rebuild, so they leave it current under any faction lookup, including
   * one changed by a faction move; the entity operations leave it current
   * under the unchanged lookup. After a refresh `SpawnOwnerNeeded` answers the
   * reference question.
   */
  lemma SpawnOwnersStayCurrent(s: Sector, factionOf: FactionLookup, p: PlayerId, e: Controllable,
                               position: Vec3, radius: real, intersects: Intersects, o: PlayerId,
                               oldFactionId: int, newFactionId: int)
    requires SpawnOwnersCurrent(s, factionOf)
    ensures forall f :: SpawnOwnersCurrent(PlayerLoggedIn(s, p), f)
    ensures forall f :: SpawnOwnersCurrent(PlayerLoggedOut(s, p), f)
    ensures forall f :: SpawnOwnersCurrent(PlayerChangedFactions(s, p, oldFactionId, newFactionId), f)
    ensures SpawnOwnersCurrent(ControllableEntityAdded(s, e), factionOf)
    ensures SpawnOwnersCurrent(ControllableEntityMoved(s, e), factionOf)
    ensures SpawnOwnersCurrent(ControllableEntityRemoved(s, e), factionOf)
    ensures SpawnOwnersCurrent(MarkNearbyObserversToObserve(s, position, radius, intersects), factionOf)
    ensures var r := UpdateSpawnOwnersIfNeeded(s, factionOf).sector;
            && SpawnOwnersCurrent(r, factionOf)
            && (SpawnOwnerNeeded(r, o) <==> o in SpawnOwnerSet(s.activePlayers, factionOf))
  {
  }

  /**
   * After a faction change, the next refresh rebuilds the list from the new
   * faction lookup, whatever the list held before.
   */
  lemma FactionChangeRefreshes(s: Sector, p: PlayerId, oldFactionId: int, newFactionId: int,
                               newFactionOf: FactionLookup, o: PlayerId)
    ensures var r := UpdateSpawnOwnersIfNeeded(PlayerChangedFactions(s, p, oldFactionId, newFactionId), newFactionOf);
            && r.concealedNotified
            && (SpawnOwnerNeeded(r.sector, o) <==> o in SpawnOwnerSet(s.activePlayers, newFactionOf))
            && (forall id :: id in s.grids ==> r.sector.grids[id].spawnUpdateNeeded)
  {
  }

  /**
   * A factionless player logs in and out: after each refresh the spawn-owner
   * list is exactly that player, then empty.
   */
  lemma LoginLogoutScenario(factionOf: FactionLookup, p: PlayerId)
    requires factionOf(p) == None
    ensures var loggedIn := UpdateSpawnOwnersIfNeeded(PlayerLoggedIn(Empty, p), factionOf).sector;
            && loggedIn.spawnOwnersNeeded == [p]
            && SpawnOwnerNeeded(loggedIn, p)
            && var loggedOut := UpdateSpawnOwnersIfNeeded(PlayerLoggedOut(loggedIn, p), factionOf).sector;
               && loggedOut.spawnOwnersNeeded == []
               && !SpawnOwnerNeeded(loggedOut, p)
  {
    var a := PlayerLoggedIn(Empty, p);
    assert a.activePlayers == [p];
    assert GatherOwners([p], factionOf) == [p] by {
      assert [p][1..] == [];
    }
    DistinctFromOfDistinct([p], {});
    var loggedIn := UpdateSpawnOwnersIfNeeded(a, factionOf).sector;
    var b := PlayerLoggedOut(loggedIn, p);
    assert b.activePlayers == [];
  }
}
