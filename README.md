# impact-layers, modelled in Dafny

impact-layers patches Impact's `ig.Game` so that a game keeps its entities,
background maps and other drawables ("items") in named *layers*. The game
walks them in a configurable *layer order* for `update` and `draw`. Changes
that could disturb a walk in progress are queued and applied once per tick.
At the start of `update` the game applies:

- property merges, through `setLayerProperties`;
- item removals, through `removeItem` and `clearLayer`;
- layer removals, through `removeLayer`;
- a staged order, through `setLayerSort`.

Entities killed during the update pass are queued separately and removed
after that pass.

The layers and the items' `_layer` fields form a registry that is
*consistent* when every item of layer `L` has `_layer == L`. Every drain,
the update pass, sorting and a level load keep it consistent. `addItem`
keeps it only for an item that no other layer holds: it re-parents an item
without taking it out of its old layer.

Entity layers can be kept sorted. Each tick, a spatial hash finds the pairs
of overlapping entities in each entity layer. `loadLevel` clears the layers
of the order flagged `clearOnLoad`, spawns the level's entities, builds its
background and collision maps, and calls `ready` on every item of the entity
layers in the order.

The model has eight modules:

- `Outcomes` (flags.dfy): the error cases and the JavaScript truthiness the
  code relies on. A `TypeError` on a missing layer becomes
  `Fail(MissingLayer)`.
- `LayerFlags` (flags.dfy): a layer's flags and sort key, and the
  `ig.merge` of a properties object into them.
- `LayerItems` (items.dfy): the `Item` class, whose `_layer` and `_killed`
  change in place. It also holds the layer value, the event log, and
  `indexOf`/`splice` and the sort, both modelled on values.
- `SpatialHash` (spatial_hash.dfy): the broad phase of `checkEntities`. It
  is written as imperative loops over a grid of cells, and proved sound,
  complete and duplicate-free.
- `LayerQueues` (queues.dfy): the drains of the deferred queues, written as
  functions.
- `LevelData` (level.dfy): level data, entity spawning, map routing and
  what a load leaves in each layer.
- `LayerPasses` (passes.dfy): the walks over the layer order and the
  per-layer update pass, written as functions.
- `Layers` (game.dfy): the `Game` class itself. Its fields are the source's
  fields; its methods have the source's loops and are proved against the
  functions above.

Calls into code outside this file (an item's `update`, `draw`, `ready`,
`_cleanUp`, and `ig.Entity.checkPair`) are recorded as `Event`s in a log. A
test on a missing layer, a missing entity class or an item without a layer
is modelled on the error path, as the source's thrown exception.

## Model

| member | source | states |
|---|---|---|
| LayerFlags.MergeGet | layers.js:52 | after `ig.merge` each flag and the sort key take the patch's value where the patch names them, and keep the old value otherwise |
| LayerFlags.MergeThen | layers.js:255-258 | merging two property objects one after the other equals merging their union once, with the later object winning |
| LayerFlags.MergeIdempotent | layers.js:51-69 | registering a layer twice with the same properties gives the same flags as registering it once |
| LayerFlags.MergeEmpty | layers.js:52 | merging an empty properties object leaves the flags unchanged |
| LayerItems.Item.constructor | layers.js:379 | a new item carries the given id, name, classes, geometry, type and `_layer`, and is not killed |
| LayerItems.IndexOf | layers.js:264 | `indexOf` is -1 exactly when the item is absent, and otherwise the position of its first occurrence |
| LayerItems.RemovedCount | layers.js:264-271 | `splice(indexOf(item), 1)` removes exactly one copy of a present item, and leaves the array unchanged when the item is absent |
| LayerItems.SortByKeySorted | layers.js:124-131 | sorting by a key yields an array sorted by that key |
| LayerItems.SortByKeyOfSorted | layers.js:124-131 | sorting an array that is already sorted leaves it unchanged, so sorting is idempotent |
| LayerItems.SortItemsSpec | layers.js:124-131 | `sort` returns a permutation of the layer's items; with a comparator the result is sorted by its key and the items sharing a key keep their relative order; without one the array is unchanged |
| LayerItems.SortByKeyStable | layers.js:124-131 | the sort is stable: for every key value, the items with that key appear in the result in the same order as in the input |
| SpatialHash.OccupantsMember | layers.js:183-202 | an entity is filed in a cell exactly when it came earlier in the layer, collides, and its bounds cover that cell |
| SpatialHash.OccupantsIncreasing | layers.js:183-202 | each cell holds each entity at most once, in layer order |
| SpatialHash.SharedCell | layers.js:177-184 | two touching entities of non-negative size cover at least one common cell |
| SpatialHash.ScanCell | layers.js:193-201 | a cell reports exactly its occupants that touch the entity and whose id is not yet in `checked`; `checked` gains those ids, and every touching occupant ends up checked |
| SpatialHash.VisitCell | layers.js:185-202 | the cell gains the entity at its end, and the scan's invariant (hash contents, reported partners, checked ids) moves on to the next cell |
| SpatialHash.ScanColumn | layers.js:184-203 | one column of cells is visited, row by row, keeping the scan's progress invariant |
| SpatialHash.ScanEntity | layers.js:177-204 | the hash gains the entity in exactly the cells it covers; the reported partners are earlier, colliding, touching, with distinct ids, and every earlier touching candidate is reported |
| SpatialHash.AppendScan | layers.js:165-205 | appending one entity's scan keeps the pair list sound, ordered by scan, distinct within a scan, and complete |
| SpatialHash.PassStep | layers.js:165-205 | one iteration of the outer loop preserves the pass invariant over the entities scanned so far |
| SpatialHash.Detect | layers.js:165-205 | every reported pair (i, j) has j before i, both colliding and touching; pairs come out scan by scan, one scan never reports the same id twice, and every touching pair of non-negative size is reported under the earlier entity's id |
| SpatialHash.PairReportedOnce | layers.js:165-205 | when ids are unique, each touching pair is reported exactly once, as (later, earlier) |
| LayerQueues.EnqueueOnceIdempotent | layers.js:78-85 | queueing the same layer for removal twice is the same as queueing it once |
| LayerQueues.EnqueueOnceContents | layers.js:78-85 | the queue gains the name if it was missing, keeps its old entries in order, and stays free of duplicates |
| LayerQueues.MergeAllKeeps | layers.js:255-258 | draining property merges never adds or deletes a layer and never changes any items |
| LayerQueues.MergeAllOk | layers.js:255-258 | the drain succeeds exactly when every queued pair names a present layer, or the pair's properties are empty |
| LayerQueues.MergeAllSingle | layers.js:255-258 | one queued pair has the effect of one direct merge into that layer |
| LayerQueues.MergeAllTwice | layers.js:255-258 | two queued pairs for the same layer have the effect of merging their union |
| LayerQueues.MergeAllFlags | layers.js:255-258 | on success, for a queue of any length, each layer's flags are the in-order merge of exactly the patches queued for it |
| LayerQueues.QueuedForMember | layers.js:261-272 | an item is queued for a layer exactly when it is in the queue and its `_layer` is that layer |
| LayerQueues.RemoveAllKeeps | layers.js:261-272 | draining item removals never adds or deletes a layer and never changes flags |
| LayerQueues.RemoveAllOk | layers.js:261-272 | the drain succeeds exactly when every queued item's layer is present; then `_cleanUp` runs once per item that has one, in queue order |
| LayerQueues.RemoveAllCounts | layers.js:261-272 | each layer loses exactly the multiset of items queued for it, as far as it held them |
| LayerQueues.RemoveAllSubset | layers.js:261-272 | draining removals only ever takes items away from a layer |
| LayerQueues.ConsistentRemoveAll | layers.js:261-272 | draining removals keeps every item's `_layer` pointing at the layer that holds it |
| LayerQueues.ConsistentMergeAll | layers.js:255-258 | draining property merges keeps every item's `_layer` pointing at the layer that holds it |
| LayerQueues.DropAllKeys | layers.js:275-285 | the queued layers are deleted and every other layer is unchanged |
| LayerQueues.ConsistentDropAll | layers.js:275-285 | dropping layers keeps every remaining item's `_layer` pointing at the layer that holds it |
| LayerQueues.DropAllPending | layers.js:275-285 | the removal queue keeps its old entries; every entry added is an item of a deleted `clean` layer, and every such item is added |
| LayerQueues.CleanRemovalBreaksNextDrain | layers.js:261-285 | an item cascaded from a deleted `clean` layer makes the next item drain fail before any `_cleanUp` runs, because its `_layer` is no longer in `layers` |
| LevelData.RouteNewMap | layers.js:444-449 | a new map goes to `foregroundMaps` exactly when it is foreground, and to `backgroundMaps` otherwise |
| LevelData.CollisionOfSpec | layers.js:430-435 | the collision map is a grid exactly when some map layer is named `collision`, and is built from the last one |
| LevelData.PlacedSpec | layers.js:94-107 | placing items keeps every layer's flags and appends to each layer exactly the new items routed to it, in order |
| LevelData.NamedOfSpec | layers.js:384-386 | each name in `namedEntities` was there before or maps to a spawned entity that carries that name; every name of a spawned entity is present and maps to the last spawned entity carrying it; a name no spawned entity carries keeps its old entry |
| LevelData.SortedInSpec | layers.js:124-131 | sorting one layer permutes that layer's items and changes no other layer |
| LevelData.LoadedLayers | layers.js:403-453 | after a load each layer keeps its flags and holds its old items (none if it is in the order and clears on load), then the spawned entities and then the maps routed to it; for the sorted `entities` layer this holds as a multiset |
| LevelData.LoadedClears | layers.js:403-453 | a layer in the order flagged `clearOnLoad` holds only items of the new level that are routed to it |
| LevelData.ConsistentCleared | layers.js:403-417 | clearing layers for a load keeps the registry consistent |
| LevelData.ConsistentSortedIn | layers.js:124-131 | sorting a layer keeps the registry consistent |
| LevelData.ConsistentPlaced | layers.js:94-107 | adding items to the layers their `_layer` names keeps the registry consistent |
| LevelData.ConsistentLoaded | layers.js:403-453 | a whole load (clear, spawn, sort, place maps) keeps the registry consistent |
| LayerPasses.CallsAt | layers.js:309-311 | a walk over a layer calls each item once, in the layer's order |
| LayerPasses.CallsMember | layers.js:309-311 | an item is called exactly when it is in the layer |
| LayerPasses.WalkOk | layers.js:360-369 | a walk fails exactly when some listed name has no layer, and then reports the first such name |
| LayerPasses.WalkSticky | layers.js:360-369 | once a walk has failed, the later layers add no calls |
| LayerPasses.WalkCalls | layers.js:360-369 | an item is called exactly when it lies in a layer of the order that the walk selects |
| LayerPasses.FirstNamed | layers.js:239-243 | the position of the first item with that name, and -1 exactly when no item has it |
| LayerPasses.FindMapFound | layers.js:231-246 | a found map carries the name and is the first item of that name in the first listed map layer holding one; every earlier listed layer is present and holds no map layer item of that name |
| LayerPasses.FindMapReaches | layers.js:231-246 | when a listed map layer holds an item of that name and every layer listed up to it is present, a map is found |
| LayerPasses.FindMapNull | layers.js:231-246 | the result is `null` exactly when every listed layer is present and no listed map layer holds an item of that name; the scan never returns the collision map |
| LayerPasses.FindMapMissing | layers.js:231-246 | a failure names the first listed layer that is missing, and no listed map layer before it holds an item of that name |
| LayerPasses.LiveSpec | layers.js:136-141 | each item that is not killed keeps its multiplicity among the live items, and each killed item is dropped |
| LayerPasses.OfTypeSpec | layers.js:215-220 | each item of the type that is not killed keeps its multiplicity in the result, and every other item is dropped |
| LayerPasses.AllReportAt | layers.js:318-320 | along the pass, each checked layer's pairs are a sound and complete broad phase over the items it checked |
| LayerPasses.VisitSkips | layers.js:305-307 | a layer flagged `noUpdate` or `mapLayer` is left unchanged and gets no calls |
| LayerPasses.VisitUpdates | layers.js:309-316 | any other layer updates each item once, in order; an entity layer is then re-sorted when `autoSort` or a pending sort asks for it, and the pending flag is cleared |
| LayerPasses.VisitChecks | layers.js:318-320 | an updated entity layer is checked over its items after the sort, a layer named `""` checks `entities` instead, and a layer that is not an entity layer is not checked |
| LayerPasses.VisitKeys | layers.js:300-321 | the update pass never adds or deletes a layer |
| LayerPasses.LayerPassOk | layers.js:300-321 | the pass keeps the set of layers, and fails exactly when some name in the order has no layer |
| LayerPasses.ConsistentVisit | layers.js:301-320 | one layer's update visit keeps the registry consistent |
| LayerPasses.ConsistentLayerPass | layers.js:300-321 | the whole update pass keeps the registry consistent |
| LayerPasses.ListedAgainUpdatedAgain | layers.js:300-311 | after any pass that has not failed, listing an updated layer once more updates each of its items once more, in order, right after the earlier calls (exactly those calls for a layer that is not an entity layer); the layer stays selected and keeps its items as a multiset |
| LayerPasses.ListedTwiceUpdatedTwice | layers.js:300-311 | for the order `[n, n]` of a layer that is not an entity layer, the pass's calls are exactly two update walks over its items |
| Layers.DefaultFlags | layers.js:19-38 | the two map layers clear on load and hold maps; the entity layer is an entity layer with the game's sort settings |
| Layers.DrawEntitiesDrawsNothing | layers.js:469-478 | as written, `drawEntities` draws nothing on any layer, while a loop bounded by the layer's length draws every item once |
| Layers.Game.constructor | layers.js:19-38 | a new game has exactly the three default layers, with their default flags and no items, in order, with empty queues and no collision map |
| Layers.Game.SetLayerProperties | layers.js:40-43 | the pair is appended to the property queue and nothing else changes |
| Layers.Game.SetLayerSort | layers.js:45-48 | the order is staged and nothing else changes |
| Layers.Game.CreateLayer | layers.js:51-69 | the layer is created, or its flags are merged while it keeps its items; unless passive, its name is appended to the order |
| Layers.Game.RemoveLayer | layers.js:78-85 | the name is queued once for removal and nothing else changes |
| Layers.Game.ClearLayer | layers.js:88-91 | a missing layer fails; otherwise all its items are appended to the removal queue |
| Layers.Game.AddItem | layers.js:94-107 | the target is the argument, else the item's `_layer`; a missing target fails; otherwise the item is appended to that layer and its `_layer` is set |
| Layers.Game.ReparentBreaksConsistent | layers.js:100-106 | adding an item that another layer still holds to a different layer leaves it in both, so the registry is no longer consistent |
| Layers.Game.RemoveItem | layers.js:111-117 | an item without a layer is refused; otherwise it is appended to the removal queue |
| Layers.Game.SortEntitiesDeferred | layers.js:119-122 | the layer (default `entities`) is marked for sorting; a missing layer fails |
| Layers.Game.SortEntities | layers.js:124-131 | the layer (default `entities`) is permuted and, with a comparator, sorted by it; without one it is unchanged; no other layer changes |
| Layers.Game.DrawEntities | layers.js:469-478 | as written, the loop bound is undefined and no item is drawn |
| Layers.Game.DrawEntitiesIntended | layers.js:469-478 | every item of the layer is drawn once, in order |
| Layers.Game.Collect | layers.js:309-311 | the loop calls each item once, in order |
| Layers.Game.UpdateEntities | layers.js:133-143 | each live item of the layer is updated once, in order; a missing layer fails |
| Layers.Game.UpdateLive | layers.js:136-141 | the loop logs an update for exactly the items that are not killed |
| Layers.Game.CheckEntities | layers.js:145-206 | the reported pairs are a sound and complete broad phase over the layer's entities, and one `checkPair` call is logged per pair |
| Layers.Game.Broadphase | layers.js:151-205 | the same for a given layer map and layer name |
| Layers.Game.GetEntitiesByType | layers.js:208-222 | a missing layer fails; an unregistered type fails on a non-empty layer, where the first `instanceof` test throws; otherwise the result is the layer's live items of that type |
| Layers.Game.GetMapByName | layers.js:224-247 | `collision` returns the collision map; any other name returns the first map of that name in layer order, or `null` |
| Layers.Game.DrainProperties | layers.js:255-258 | the layers, the rest of the queue and the outcome are those of `MergeAll` |
| Layers.Game.RemoveLoop | layers.js:261-272 | the loop computes `RemoveAll` of the queue |
| Layers.Game.RemoveOne | layers.js:262-271 | one removal runs `_cleanUp` if present and splices the item out of its layer |
| Layers.Game.RemoveEach | layers.js:261-272 | the layers become `RemoveAll` of the queue and the cleanups are logged |
| Layers.Game.DrainItems | layers.js:261-272 | the item-removal queue is drained as `RemoveAll` states |
| Layers.Game.DrainKills | layers.js:324-335 | the kill queue is drained in the same way |
| Layers.Game.DrainLayers | layers.js:275-285 | the layers become `DropAll` of the queue; the items of `clean` layers are queued for removal |
| Layers.Game.ApplyStagedOrder | layers.js:288-291 | a staged order replaces the layer order and is cleared; with none staged the order is unchanged |
| Layers.Game.Visit | layers.js:301-320 | one layer's step is `VisitLayer`, and its pairs are a sound and complete broad phase over the items it checked |
| Layers.Game.VisitUpdate | layers.js:301-320 | the same, with the new layers and the calls written back to the game |
| Layers.Game.RunPass | layers.js:300-321 | the loop computes `LayerPass` over the layers it reached (all of them on success), and every layer's pairs are a sound and complete broad phase |
| Layers.Game.UpdateLayers | layers.js:300-321 | the update pass leaves the layers as `LayerPass` states, logs its calls, and every layer's pairs are a sound and complete broad phase |
| Layers.Game.Update | layers.js:249-344 | on success the property, layer and kill queues are empty, no order or level is pending, a staged order has replaced the layer order, and exactly the queued layers are gone |
| Layers.Game.DrainQueues | layers.js:255-285 | on success the property and layer queues are empty and exactly the queued layers are gone |
| Layers.Game.LoadPending | layers.js:293-297 | the set of layers is kept; with no level pending nothing changes; on success no level is pending |
| Layers.Game.UpdateAndKill | layers.js:300-335 | on success the set of layers is kept and the kill queue is empty |
| Layers.Game.RunWalk | layers.js:360-369 | the walk's calls are those `WalkLayers` states, and its failure is the first missing layer |
| Layers.Game.Draw | layers.js:346-370 | the calls and the outcome are those of the draw walk, which draws the items of every layer in the order not flagged `noDraw` |
| Layers.Game.SpawnEntity | layers.js:372-389 | an unregistered type fails and changes nothing; a registered type takes the next id; a missing target layer fails; otherwise a fresh entity is appended to its layer and, if named, recorded under its name; it takes its position from the arguments, its name and any size, `zIndex`, type or collision setting from the settings, and everything else from its class |
| Layers.Game.ClearForLoad | layers.js:403-417 | every layer listed in the order and flagged `clearOnLoad` loses its items; every other layer is unchanged |
| Layers.Game.SpawnNext | layers.js:421-423 | one spawn of the loop extends the spawned list by a fresh entity built from the next definition, whose `_layer` comes from its class and settings and names an existing layer; on failure the layers and names are unchanged |
| Layers.Game.SpawnAll | layers.js:420-424 | the entities are spawned in order with consecutive ids, placed as `Placed` states and recorded as `NamedOf` states; each entity is built from its definition and its `_layer`, taken from its class and settings, names an existing layer (`SpawnedFrom`); on success all of them are spawned |
| Layers.Game.SpawnedLands | layers.js:403-428 | after a load each spawned entity is an item of the layer its class and settings name |
| Layers.Game.PlaceMap | layers.js:431-452 | a `collision` layer replaces the collision map; any other layer adds a fresh map with its name, routed by `foreground` |
| Layers.Game.PlaceNext | layers.js:431-452 | a `collision` layer replaces the collision map; any other layer adds one map |
| Layers.Game.PlaceMaps | layers.js:430-453 | on success the collision map is `CollisionOf` the level, and one fresh map per other layer is placed, named and routed as the level says |
| Layers.Game.LoadEntities | layers.js:403-428 | on success the layers are cleared, receive the spawned entities and `entities` is sorted; `namedEntities` holds only the new names; one id per entity is taken; each entity is fresh, built from the level's definition and lands in an existing layer (`SpawnedFrom`) |
| Layers.Game.LoadContent | layers.js:403-453 | the layers end as `Cleared`, then `Placed` with the entities, then sorted, then `Placed` with the maps; the entities are fresh and satisfy `SpawnedFrom`, and the maps are fresh, named and routed as the level says (`MapsFrom`) |
| Layers.Game.LoadLevel | layers.js:392-467 | the same, followed by a `ready` call on every item of every entity layer in the order |

## Left out

- Rendering is not modelled. This covers `clearColor`, `ig.system.clear`,
  the `_rscreen` rounding (layers.js:350-358) and the screen reset in
  `loadLevel` (layers.js:397-400).
- The `BackgroundMap.draw` override (layers.js:488-504) is not modelled. It
  only renders.
- Background animations are not modelled (layers.js:337-343). Neither are
  the render properties of a new map (`anims`, `repeat`, `distance`,
  `preRender`, the tileset), because only drawing reads them.
- Code outside this file is recorded as events, and its effects are not
  modelled. This covers an item's `update`, `draw`, `ready` and `_cleanUp`,
  and `ig.Entity.checkPair`. An item's position, size, type and collision
  mode change only in that code, so `Item` keeps them as constant fields.
- Impact's `ig.Entity`, `ig.merge`, `ig.CollisionMap`, `ig.BackgroundMap`
  and `loadLevelDeferred` are not part of this model.
  - `touches` is taken as the strict overlap of two boxes.
  - A property patch covers the flags and the sort key only.
  - A new entity takes `name`, `_layer`, `size.x`, `size.y`, `zIndex`,
    `type`, `checkAgainst` and `collides` from its settings when they are
    given, and from its class otherwise. Any other settings key that the
    entity constructor merges (such as `pos` or `id`) is not modelled.
  - A pending level is a field that the caller sets.
- The `this.entities` alias of the `entities` layer's array is not modelled
  (layers.js:58-60, 413-415). The model keeps the one array inside the
  layer.
- The staged order is copied, not aliased. `setLayerSort` keeps the caller's
  array (layers.js:46), and that array becomes `layerOrder`
  (layers.js:289). From then on, `createLayer`'s push (layers.js:67) also
  grows the caller's array, and a caller who changes the array changes the
  order that `update` and `draw` walk (layers.js:300, 360). The model
  stages and installs a copy of the sequence, so the caller cannot change it
  later.
- Entity classes are named by registered type strings. A class object
  passed directly to `spawnEntity` or `getEntitiesByType` is not modelled.
- The model assumes a single game instance. The layer map and the queues
  declared on the prototype, and so shared between instances, are not
  modelled.
- Sorting uses the three `ig.Game.SORT` keys and assumes a stable
  `Array.prototype.sort`. A custom comparator function is not modelled.
- Positions and sizes are integers. Floating-point coordinates are not
  modelled.
- An exception thrown from an item's own `update` or `draw` is not modelled.
- Layers.Game.SpawnAll: does not restate after the loop that each spawned
  entity is not killed. `SpawnEntity` states it for one call.
- Layers.Game.LoadLevel: does not restate that the spawned entities are not
  killed, nor the fresh maps' render properties.
- Layers.Game.LoadContent: the same as `LoadLevel`.
- Layers.Game.Update: on success states the queues, the layer order and the
  set of layers. What each phase does to the layers is stated on the phase
  methods it calls (`DrainQueues`, `LoadPending`, `UpdateAndKill`), not
  composed here.
- Layers.Game.DrainQueues: states the emptied queues and the set of layers.
  Each drain's full effect is stated on `DrainProperties`, `DrainItems` and
  `DrainLayers`.
- Layers.Game.LoadPending: states the set of layers and the cleared
  request. The load itself is stated on `LoadLevel`.
- Layers.Game.UpdateAndKill: states the set of layers and the empty kill
  queue. The pass and the drain are stated on `UpdateLayers` and
  `DrainKills`.
- Layers.Game.constructor: the three `createLayer` calls of `init` are
  composed as values with `Created`, rather than made as calls.
- SpatialHash.Detect: completeness is stated for entities of non-negative
  size only. A box of negative size can cover fewer cells than the boxes it
  touches, so the source's hash can miss such a pair.

## Findings

| source | as written | input that shows it | evidently intended | confidence | as-written member | corrected member |
|---|---|---|---|---|---|---|
| layers.js:469-478 | `elen` is declared but never assigned, so `i < elen` is false at once and the loop draws nothing | the `entities` layer holding one item | `elen = entities.length`, so every item of the layer is drawn | high, not executed | Layers.Game.DrawEntities, with Layers.DrawEntitiesDrawsNothing | Layers.Game.DrawEntitiesIntended |
