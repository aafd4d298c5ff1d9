/** The layer manager that layers.js patches into `ig.Game`: a map of named
    layers, the order they are processed in, and the queues that defer every
    removal and reconfiguration to the top of the next `update`. Calls into
    items and into `ig.Entity.checkPair` are appended to `log`. */
module Layers {
  import opened Outcomes
  import opened LayerFlags
  import opened LayerItems
  import opened SpatialHash
  import opened LayerQueues
  import opened LayerPasses
  import opened LevelData

  /** `ig.Game.cellSize`, the side of a broad-phase cell. */
  type CellSize = s: int | s > 0 witness 64

  /** The flags `init` gives the two map layers. */
  const MapFlags := Merge(Unset, MapPatch)

  /** The properties `init` gives both map layers. */
  const MapPatch := Patch(map[ClearOnLoad := true, MapLayer := true], None)

  /** The properties `init` gives the 'entities' layer. */
  function EntityPatch(autoSort: bool, sortBy: Option<SortKey>): Patch
  {
    Patch(map[ClearOnLoad := true, EntityLayer := true, AutoSort := autoSort, DoSortEntities := false], sortBy)
  }

  /** The flags `init` gives the 'entities' layer. */
  function EntityFlags(autoSort: bool, sortBy: Option<SortKey>): Flags
  {
    Merge(Unset, EntityPatch(autoSort, sortBy))
  }

  /** The layers after `createLayer(name, p)` (layers.js:51-69): the layer
      already there, or the empty object, with `p` merged over its flags and
      its items kept. */
  function Created(ls: map<string, Layer>, name: string, p: Patch): (r: map<string, Layer>)
    ensures r.Keys == ls.Keys + {name}
    ensures forall n :: n in ls && n != name ==> r[n] == ls[n]
    ensures name in ls ==> r[name] == Layer(Merge(ls[name].flags, p), ls[name].items)
    ensures name !in ls ==> r[name] == Layer(Merge(Unset, p), [])
  {
    var base := if name in ls then ls[name] else Layer(Unset, []);
    ls[name := base.(flags := Merge(base.flags, p))]
  }

  /** The three layers `init` creates, as a map display. */
  lemma InitialLayers(autoSort: bool, sortBy: Option<SortKey>)
    ensures var ls := Created(Created(Created(map[], "backgroundMaps", MapPatch), "entities", EntityPatch(autoSort, sortBy)), "foregroundMaps", MapPatch);
      ls.Keys == {"backgroundMaps", "entities", "foregroundMaps"} &&
      ls["backgroundMaps"] == Layer(MapFlags, []) &&
      ls["entities"] == Layer(EntityFlags(autoSort, sortBy), []) &&
      ls["foregroundMaps"] == Layer(MapFlags, [])
  {
  }

  /** The map layers are cleared on load and hold maps; the 'entities' layer
      is cleared on load, holds entities, sorts itself when the game does, by
      the game's comparator, and has no sort pending. */
  lemma {:induction false} DefaultFlags(autoSort: bool, sortBy: Option<SortKey>)
    ensures MapFlags.clearOnLoad && MapFlags.mapLayer && !MapFlags.entityLayer && !MapFlags.noUpdate && !MapFlags.noDraw
    ensures var f := EntityFlags(autoSort, sortBy);
      f.clearOnLoad && f.entityLayer && !f.mapLayer && f.autoSort == autoSort && f.sortBy == sortBy &&
      !f.doSortEntities && !f.noUpdate && !f.noDraw && !f.clean
  {
    var p := MapPatch;
    MergeGet(Unset, p, ClearOnLoad);
    MergeGet(Unset, p, MapLayer);
    MergeGet(Unset, p, EntityLayer);
    MergeGet(Unset, p, NoUpdate);
    MergeGet(Unset, p, NoDraw);
    var q := EntityPatch(autoSort, sortBy);
    MergeGet(Unset, q, ClearOnLoad);
    MergeGet(Unset, q, EntityLayer);
    MergeGet(Unset, q, MapLayer);
    MergeGet(Unset, q, AutoSort);
    MergeGet(Unset, q, DoSortEntities);
    MergeGet(Unset, q, NoUpdate);
    MergeGet(Unset, q, NoDraw);
    MergeGet(Unset, q, Clean);
  }

  /** The layer name an `addItem` call resolves: `layerName || item._layer`. */
  function Target(layerName: Option<string>, current: Option<string>): Option<string>
  {
    if Truthy(layerName) then layerName else current
  }

  /** The `draw` calls of `for (i = 0; i < elen; i++) entities[i].draw()`:
      with no bound (`elen` undefined) `0 < elen` is false and nothing is drawn. */
  function EntityDraws(entities: seq<Item>, elen: Option<nat>): seq<Event>
    requires elen.Some? ==> elen.value <= |entities|
  {
    if elen.None? then [] else Calls(entities[..elen.value], DrawWalk)
  }

  /** `drawEntities` as written draws nothing even when its layer holds
      items, while the intended bound draws each item once, in order. */
  lemma {:induction false} DrawEntitiesDrawsNothing(entities: seq<Item>)
    requires entities != []
    ensures EntityDraws(entities, None) == []
    ensures var drawn := EntityDraws(entities, Some(|entities|));
      Drawn(entities[0]) in drawn && |drawn| == |entities| &&
      forall k :: 0 <= k < |entities| ==> drawn[k] == Drawn(entities[k])
  {
    assert entities[..|entities|] == entities;
    CallsAt(entities, DrawWalk);
  }

  class Game {
    var layers: map<string, Layer>
    var layerOrder: seq<string>
    var layerProperties: seq<(string, Patch)>   // `_layerProperties`
    var layersToRemove: seq<string>             // `_layersToRemove`
    var itemsToRemove: seq<Item>                // `_itemsToRemove`
    var stagedOrder: Option<seq<string>>        // `_layerOrder`
    var deferredKill: seq<Item>                 // `_deferredKill`
    var levelToLoad: Option<Level>              // `_levelToLoad`
    var collisionMap: CollisionMap
    var namedEntities: map<string, Item>
    var lastId: nat                             // `ig.Entity._lastId`
    var log: seq<Event>
    const cellSize: CellSize
    const sortBy: Option<SortKey>
    const autoSort: bool
    const registry: map<string, Kind>           // `ig.global`, by class name

    /** `init` (layers.js:19-38): the three default layers, in order. */
    constructor (cellSize: CellSize, sortBy: Option<SortKey>, autoSort: bool, registry: map<string, Kind>)
      ensures layers.Keys == {"backgroundMaps", "entities", "foregroundMaps"}
      ensures layers["backgroundMaps"] == Layer(MapFlags, [])
      ensures layers["entities"] == Layer(EntityFlags(autoSort, sortBy), [])
      ensures layers["foregroundMaps"] == Layer(MapFlags, [])
      ensures layerOrder == ["backgroundMaps", "entities", "foregroundMaps"]
      ensures layerProperties == [] && layersToRemove == [] && itemsToRemove == [] && deferredKill == []
      ensures stagedOrder.None? && levelToLoad.None? && log == [] && namedEntities == map[]
      ensures collisionMap == StaticNoCollision
      ensures this.cellSize == cellSize && this.sortBy == sortBy && this.autoSort == autoSort && this.registry == registry
    {
      this.cellSize, this.sortBy, this.autoSort, this.registry := cellSize, sortBy, autoSort, registry;
      // the three `createLayer` calls, none of them passive
      layers := Created(Created(Created(map[], "backgroundMaps", MapPatch), "entities", EntityPatch(autoSort, sortBy)), "foregroundMaps", MapPatch);
      layerOrder := ["backgroundMaps", "entities", "foregroundMaps"];
      layerProperties, layersToRemove, itemsToRemove, deferredKill := [], [], [], [];
      stagedOrder, levelToLoad := None, None;
      collisionMap, namedEntities, lastId, log := StaticNoCollision, map[], 0, [];
      InitialLayers(autoSort, sortBy);
    }

    // ------------------------------------------------------------ requests

    /** `setLayerProperties` (layers.js:40-43) only queues the pair. */
    method SetLayerProperties(name: string, p: Patch)
      modifies this`layerProperties
      ensures layerProperties == old(layerProperties) + [(name, p)]
    {
      layerProperties := layerProperties + [(name, p)];
    }

    /** `setLayerSort` (layers.js:45-48) stages an order for the next update; a
        missing or empty order stages the empty order, which is still staged. */
    method SetLayerSort(order: Option<seq<string>>)
      modifies this`stagedOrder
      ensures stagedOrder == Some(if order.Some? then order.value else [])
    {
      stagedOrder := if order.Some? && |order.value| > 0 then order else Some([]);
    }

    /** `createLayer` (layers.js:51-69): merges the properties into the layer of
        that name, or into a new one, keeps or creates its items, and lists the
        name again at the end of the order unless `passive`. */
    method CreateLayer(name: string, p: Patch, passive: bool)
      modifies this`layers, this`layerOrder
      ensures layers == Created(old(layers), name, p)
      ensures layerOrder == if passive then old(layerOrder) else old(layerOrder) + [name]
    {
      layers := Created(layers, name, p);
      if passive {
        return;
      }
      layerOrder := layerOrder + [name];
    }

    /** `removeLayer` (layers.js:78-85) queues the name once. */
    method RemoveLayer(name: string)
      modifies this`layersToRemove
      ensures layersToRemove == EnqueueOnce(old(layersToRemove), name)
    {
      var index := if name in layersToRemove then 0 else -1;
      if index == -1 {
        layersToRemove := layersToRemove + [name];
      }
    }

    /** `clearLayer` (layers.js:88-91) queues the layer's current items, in
        order; reading the items of a missing layer is a TypeError. */
    method ClearLayer(name: string) returns (r: Outcome)
      modifies this`itemsToRemove
      ensures name in layers ==> r == Ok && itemsToRemove == old(itemsToRemove) + layers[name].items
      ensures name !in layers ==> r == Fail(MissingLayer(name)) && itemsToRemove == old(itemsToRemove)
    {
      if name !in layers {
        return Fail(MissingLayer(name));
      }
      itemsToRemove := itemsToRemove + layers[name].items;
      return Ok;
    }

    /** `addItem` (layers.js:94-107): the item goes at the end of the layer
        `layerName || item._layer` and remembers that name in `_layer`; a
        missing layer is reported and changes nothing. Adding an item that sits
        in no other layer keeps every layer consistent with the items' `_layer`. */
    method AddItem(item: Item, layerName: Option<string>) returns (r: Outcome)
      modifies this`layers, item`layer
      ensures var t := Target(layerName, old(item.layer));
        var key := PropertyKey(t);
        (key in old(layers) ==>
           r == Ok && item.layer == t &&
           layers == old(layers)[key := old(layers)[key].(items := old(layers)[key].items + [item])]) &&
        (key !in old(layers) ==>
           r == Fail(UnknownLayer(key)) && item.layer == old(item.layer) && layers == old(layers))
      ensures r.Ok? && old(Consistent(layers)) &&
              (forall n :: n in old(layers) && item in old(layers)[n].items ==> n == PropertyKey(Target(layerName, old(item.layer))))
              ==> Consistent(layers)
    {
      var resolved := if Truthy(layerName) then layerName else item.layer;
      var key := PropertyKey(resolved);
      if key !in layers {
        return Fail(UnknownLayer(key));
      }
      ghost var before := layers;
      item.layer := resolved;
      layers := layers[key := layers[key].(items := layers[key].items + [item])];
      r := Ok;
      if old(Consistent(layers)) && forall n :: n in before && item in before[n].items ==> n == key {
        AddKeepsConsistent(before, key, item);
      }
    }

    /** The frame argument for `AddItem`: only the added item's `_layer`
        changed, and it now names the layer it was appended to. */
    static lemma {:induction false} AddKeepsConsistent(before: map<string, Layer>, key: string, item: Item)
      requires key in before && PropertyKey(item.layer) == key
      requires forall n, it :: n in before && it in before[n].items && it != item ==> PropertyKey(it.layer) == n
      requires forall n :: n in before && item in before[n].items ==> n == key
      ensures Consistent(before[key := before[key].(items := before[key].items + [item])])
    {
    }

    /** `addItem` does not take an item out of the layer it already sits in:
        adding an item held by layer `other` to a different layer leaves it in
        both, and `other` no longer leads back to it, so the registry is no
        longer consistent. */
    static lemma {:induction false} ReparentBreaksConsistent(before: map<string, Layer>, key: string, other: string, item: Item)
      requires key in before && other in before && other != key
      requires item in before[other].items && PropertyKey(item.layer) == key
      ensures !Consistent(before[key := before[key].(items := before[key].items + [item])])
    {
      var after := before[key := before[key].(items := before[key].items + [item])];
      assert item in after[other].items;
    }

    /** `removeItem` (layers.js:111-117) queues an item that has a `_layer`
        and rejects a missing item or one without. */
    method RemoveItem(item: Item?) returns (r: Outcome)
      modifies this`itemsToRemove
      ensures item == null || !Truthy(item.layer) ==> r == Fail(InvalidItem) && itemsToRemove == old(itemsToRemove)
      ensures item != null && Truthy(item.layer) ==> r == Ok && itemsToRemove == old(itemsToRemove) + [item]
    {
      if item == null || !Truthy(item.layer) {
        return Fail(InvalidItem);
      }
      itemsToRemove := itemsToRemove + [item];
      return Ok;
    }

    /** `sortEntitiesDeferred` (layers.js:119-122) flags the layer (default
        'entities') for sorting on the next update; setting a property of a
        missing layer is a TypeError. */
    method SortEntitiesDeferred(layer: Option<string>) returns (r: Outcome)
      modifies this`layers
      ensures var key := OrDefault(layer, "entities");
        (key in old(layers) ==>
           r == Ok && layers == old(layers)[key := old(layers)[key].(flags := old(layers)[key].flags.(doSortEntities := true))]) &&
        (key !in old(layers) ==> r == Fail(MissingLayer(key)) && layers == old(layers))
    {
      var key := OrDefault(layer, "entities");
      if key !in layers {
        return Fail(MissingLayer(key));
      }
      layers := layers[key := layers[key].(flags := layers[key].flags.(doSortEntities := true))];
      return Ok;
    }

    /** `sortEntities` (layers.js:124-131) sorts the layer (default 'entities')
        at once by the layer's own comparator only, and does nothing for a
        missing layer. The items are permuted, ordered when the layer has a
        comparator, and left in place when it has none. */
    method SortEntities(layer: Option<string>)
      modifies this`layers
      ensures var key := OrDefault(layer, "entities");
        layers == SortedIn(old(layers), key) &&
        (key in old(layers) ==>
           var l := old(layers)[key];
           multiset(layers[key].items) == multiset(l.items) &&
           (l.flags.sortBy.Some? ==> SortedBy(layers[key].items, l.flags.sortBy.value)) &&
           (l.flags.sortBy.None? ==> layers[key].items == l.items)) &&
        (key !in old(layers) ==> layers == old(layers))
    {
      var key := OrDefault(layer, "entities");
      if key !in layers {
        return;
      }
      var l := layers[key];
      SortItemsSpec(l.items, l.flags.sortBy);
      layers := layers[key := l.(items := SortItems(l.items, l.flags.sortBy))];
    }

    /** `drawEntities` (layers.js:469-478) as written: it reads the layer's
        items (default 'entities'), a TypeError when the layer is missing, and
        then runs its loop up to a bound that is never assigned. */
    method DrawEntities(layerName: Option<string>) returns (r: Outcome)
      modifies this`log
      ensures var key := OrDefault(layerName, "entities");
        (key in layers ==> r == Ok && log == old(log) + EntityDraws(layers[key].items, None)) &&
        (key !in layers ==> r == Fail(MissingLayer(key)) && log == old(log))
    {
      var key := OrDefault(layerName, "entities");
      if key !in layers {
        return Fail(MissingLayer(key));
      }
      var elen: Option<nat> := None;
      log := log + EntityDraws(layers[key].items, elen);
      return Ok;
    }

    /** `drawEntities` with the bound it evidently means, `entities.length`:
        `draw` on every item of the layer, in order. */
    method DrawEntitiesIntended(layerName: Option<string>) returns (r: Outcome)
      modifies this`log
      ensures var key := OrDefault(layerName, "entities");
        (key in layers ==> r == Ok && log == old(log) + EntityDraws(layers[key].items, Some(|layers[key].items|))) &&
        (key !in layers ==> r == Fail(MissingLayer(key)) && log == old(log))
    {
      var key := OrDefault(layerName, "entities");
      if key !in layers {
        return Fail(MissingLayer(key));
      }
      var entities := layers[key].items;
      var calls := Collect(entities, DrawWalk);
      assert entities[..|entities|] == entities;
      log := log + calls;
      return Ok;
    }

    /** `for (xx = 0; xx < items.length; xx++) items[xx].<method>()`: the
        calls it makes, in order. */
    method Collect(items: seq<Item>, w: Walk) returns (calls: seq<Event>)
      ensures calls == Calls(items, w)
    {
      calls := [];
      var xx := 0;
      while xx < |items|
        invariant 0 <= xx <= |items|
        invariant calls == Calls(items[..xx], w)
      {
        assert items[..xx + 1] == items[..xx] + [items[xx]];
        CallsSnoc(items[..xx], items[xx], w);
        calls := calls + [Call(w, items[xx])];
        xx := xx + 1;
      }
      assert items[..xx] == items;
    }

    // ------------------------------------------------------------ queries

    /** `updateEntities` (layers.js:133-143) calls `update` on the items of the
        layer (default 'entities') that are not `_killed`, in order. */
    method UpdateEntities(layerName: Option<string>) returns (r: Outcome)
      modifies this`log
      ensures var key := OrDefault(layerName, "entities");
        (key in layers ==> r == Ok && log == old(log) + Calls(Live(layers[key].items), UpdateWalk)) &&
        (key !in layers ==> r == Fail(MissingLayer(key)) && log == old(log))
    {
      var key := OrDefault(layerName, "entities");
      if key !in layers {
        return Fail(MissingLayer(key));
      }
      UpdateLive(layers[key].items);
      return Ok;
    }

    /** The loop of `updateEntities`: `update` on each item not `_killed`,
        the calls collected in order and then appended to `log`. */
    method UpdateLive(entities: seq<Item>)
      modifies this`log
      ensures log == old(log) + Calls(Live(entities), UpdateWalk)
    {
      var calls: seq<Event> := [];
      ghost var alive: seq<Item> := [];
      var i := 0;
      while i < |entities|
        invariant 0 <= i <= |entities|
        invariant alive == Live(entities[..i])
        invariant calls == Calls(alive, UpdateWalk)
        invariant log == old(log)
      {
        var ent := entities[i];
        assert Live(entities[..i + 1]) == if ent.killed then alive else alive + [ent] by {
          assert entities[..i + 1] == entities[..i] + [ent];
          LiveSnoc(entities[..i], ent);
        }
        if !ent.killed {
          CallsSnoc(alive, ent, UpdateWalk);
          calls := calls + [Updated(ent)];
          alive := alive + [ent];
        }
        i := i + 1;
      }
      assert entities[..i] == entities;
      log := log + calls;
    }

    /** `checkEntities` (layers.js:145-206): the broad phase over the layer
        `name || 'entities'` when it is an entity layer, nothing otherwise;
        each reported pair is handed to `checkPair` in turn. */
    method CheckEntities(name: Option<string>) returns (pairs: seq<(nat, nat)>)
      modifies this`log
      ensures Reports(CheckedItems(layers, name), pairs)
      ensures log == old(log) + PairEvents(CheckedItems(layers, name), pairs)
    {
      pairs := Broadphase(layers, name);
      log := log + PairEvents(CheckedItems(layers, name), pairs);
    }

    /** The scan of `checkEntities` (layers.js:151-205) over layer map `ls`:
        the reported pairs are exactly what `Reports` describes. */
    method Broadphase(ls: map<string, Layer>, name: Option<string>) returns (pairs: seq<(nat, nat)>)
      ensures Reports(CheckedItems(ls, name), pairs)
    {
      var key := OrDefault(name, "entities");
      if key !in ls || !ls[key].flags.entityLayer {
        return [];
      }
      pairs := Detect(Bodies(ls[key].items), cellSize);
    }

    /** `getEntitiesByType` (layers.js:208-222): the items of the layer
        (default 'entities') that are instances of the class registered under
        `tag` and not `_killed`, in order. An unregistered tag makes the
        `instanceof` test throw at the first item, so only an empty layer
        gets by without it. */
    method GetEntitiesByType(tag: string, layer: Option<string>) returns (r: Result<seq<Item>>)
      ensures var key := OrDefault(layer, "entities");
        (key !in layers ==> r == Failure(MissingLayer(key))) &&
        (key in layers && tag !in registry && layers[key].items != [] ==> r == Failure(UnknownEntityType(tag))) &&
        (key in layers && (tag in registry || layers[key].items == []) ==> r == Success(OfType(layers[key].items, tag)))
    {
      var key := OrDefault(layer, "entities");
      if key !in layers {
        return Failure(MissingLayer(key));
      }
      var entities := layers[key].items;
      var a := [];
      var i := 0;
      while i < |entities|
        invariant 0 <= i <= |entities|
        invariant tag !in registry ==> i == 0
        invariant a == OfType(entities[..i], tag)
      {
        var ent := entities[i];
        if tag !in registry {
          return Failure(UnknownEntityType(tag));
        }
        assert entities[..i + 1] == entities[..i] + [ent];
        OfTypeSnoc(entities[..i], tag, ent);
        if tag in ent.classes && !ent.killed {
          a := a + [ent];
        }
        i := i + 1;
      }
      assert entities[..i] == entities;
      return Success(a);
    }

    /** `getMapByName` (layers.js:224-247): the collision map for
        "collision", otherwise the scan `FindMap` describes. */
    method GetMapByName(name: Option<string>) returns (r: Result<MapRef>)
      ensures name == Some("collision") ==> r == Success(CollisionRef(collisionMap))
      ensures name != Some("collision") ==> r == FindMap(layers, layerOrder, name)
    {
      if name == Some("collision") {
        return Success(CollisionRef(collisionMap));
      }
      var x := 0;
      while x < |layerOrder|
        invariant 0 <= x <= |layerOrder|
        invariant FindMap(layers, layerOrder, name) == FindMap(layers, layerOrder[x..], name)
      {
        var rest := layerOrder[x..];
        assert rest[0] == layerOrder[x] && rest[1..] == layerOrder[x + 1..];
        if layerOrder[x] !in layers {
          return Failure(MissingLayer(layerOrder[x]));
        }
        var layer := layers[layerOrder[x]];
        var items := layer.items;
        if layer.flags.mapLayer {
          var xx := 0;
          while xx < |items|
            invariant 0 <= xx <= |items|
            invariant forall j :: 0 <= j < xx ==> items[j].name != name
          {
            if items[xx].name == name {
              assert FirstNamed(items, name) == xx;
              return Success(MapItem(items[xx]));
            }
            xx := xx + 1;
          }
          assert FirstNamed(items, name) < 0;
        }
        x := x + 1;
      }
      return Success(Null);
    }

    // ------------------------------------------------------------ update

    /** The first drain of `update` (layers.js:255-258): merges each queued
        patch into its layer, as `MergeAll` describes. */
    method DrainProperties() returns (r: Outcome)
      modifies this`layers, this`layerProperties
      ensures var m := MergeAll(old(layers), old(layerProperties));
        layers == m.layers && layerProperties == m.left && r == m.outcome
    {
      while |layerProperties| > 0
        invariant MergeAll(layers, layerProperties) == MergeAll(old(layers), old(layerProperties))
        decreases |layerProperties|
      {
        var entry := layerProperties[0];
        layerProperties := layerProperties[1..];
        if entry.0 !in layers {
          if !IsEmpty(entry.1) {
            return Fail(MissingLayer(entry.0));
          }
        } else {
          layers := layers[entry.0 := layers[entry.0].(flags := Merge(layers[entry.0].flags, entry.1))];
        }
      }
      return Ok;
    }

    /** The removal loop of `update` (layers.js:261-272, 324-335) over the
        layer map `ls`: each queued item is shifted, cleaned up and spliced
        out of its layer, as `RemoveAll` describes. */
    static method RemoveLoop(ls: map<string, Layer>, q: seq<Item>)
      returns (ls': map<string, Layer>, events: seq<Event>, left: seq<Item>, r: Outcome)
      ensures RemoveAll(ls, q) == Drain(ls', events, left, r)
    {
      ghost var goal := RemoveAll(ls, q);
      ls', events, left, r := ls, [], q, Ok;
      while |left| > 0
        invariant var d := RemoveAll(ls', left);
          d.layers == goal.layers && events + d.events == goal.events &&
          d.left == goal.left && d.outcome == goal.outcome
        decreases |left|
      {
        var item := left[0];
        var rest := left[1..];
        assert left == [item] + rest;
        left := rest;
        if PropertyKey(item.layer) !in ls' {
          RemoveAllCons(ls', item, rest);
          r := Fail(MissingLayer(PropertyKey(item.layer)));
          return;
        }
        RemoveAllStep(ls', item, rest, events);
        var calls;
        ls', calls := RemoveOne(ls', item);
        events := events + calls;
      }
    }

    /** One shifted item whose layer exists (layers.js:262-271, 325-334):
        `_cleanUp` runs if it has one, and the item is spliced out at its first
        occurrence when it is there. */
    static method RemoveOne(ls: map<string, Layer>, item: Item) returns (ls': map<string, Layer>, calls: seq<Event>)
      requires Home(item) in ls
      ensures ls' == ls[Home(item) := ls[Home(item)].(items := Removed(ls[Home(item)].items, item))]
      ensures calls == CleanUpCall(item)
    {
      var key := PropertyKey(item.layer);
      var items := ls[key].items;
      var x := IndexOf(items, item);
      calls := [];
      if item.hasCleanUp {
        calls := [CleanedUp(item)];
      }
      ls' := ls;
      if x >= 0 {
        ls' := ls[key := ls[key].(items := items[..x] + items[x + 1..])];
      } else {
        assert ls[key := ls[key].(items := Removed(items, item))] == ls;
      }
    }

    /** `RemoveLoop` applied to the game's own layers and log. */
    method RemoveEach(q: seq<Item>) returns (left: seq<Item>, r: Outcome)
      modifies this`layers, this`log
      ensures layers == RemoveAll(old(layers), q).layers
      ensures log == old(log) + RemoveAll(old(layers), q).events
      ensures left == RemoveAll(old(layers), q).left
      ensures r == RemoveAll(old(layers), q).outcome
    {
      var ls, events;
      ls, events, left, r := RemoveLoop(layers, q);
      layers, log := ls, log + events;
    }

    /** Drains `_itemsToRemove` (layers.js:261-272). */
    method DrainItems() returns (r: Outcome)
      modifies this`layers, this`log, this`itemsToRemove
      ensures var d := RemoveAll(old(layers), old(itemsToRemove));
        layers == d.layers && log == old(log) + d.events && itemsToRemove == d.left && r == d.outcome
    {
      itemsToRemove, r := RemoveEach(itemsToRemove);
    }

    /** Drains `_deferredKill` (layers.js:324-335). */
    method DrainKills() returns (r: Outcome)
      modifies this`layers, this`log, this`deferredKill
      ensures var d := RemoveAll(old(layers), old(deferredKill));
        layers == d.layers && log == old(log) + d.events && deferredKill == d.left && r == d.outcome
    {
      deferredKill, r := RemoveEach(deferredKill);
    }

    /** Drains `_layersToRemove` (layers.js:275-285), as `DropAll` describes. */
    method DrainLayers()
      modifies this`layers, this`layersToRemove, this`itemsToRemove
      ensures var d := DropAll(old(layers), old(layersToRemove), old(itemsToRemove));
        layers == d.layers && itemsToRemove == d.pending && layersToRemove == []
    {
      while |layersToRemove| > 0
        invariant DropAll(layers, layersToRemove, itemsToRemove) == DropAll(old(layers), old(layersToRemove), old(itemsToRemove))
        decreases |layersToRemove|
      {
        var name := layersToRemove[0];
        layersToRemove := layersToRemove[1..];
        if name !in layers {
          continue;
        }
        var layer := layers[name];
        if layer.flags.clean {
          itemsToRemove := itemsToRemove + layer.items;
        }
        layers := layers - {name};
      }
    }

    /** Installs a staged order (layers.js:288-291). Any staged array is
        truthy, so a staged empty order empties `layerOrder`. */
    method ApplyStagedOrder()
      modifies this`layerOrder, this`stagedOrder
      ensures layerOrder == if old(stagedOrder).Some? then old(stagedOrder).value else old(layerOrder)
      ensures stagedOrder.None?
    {
      if stagedOrder.Some? {
        layerOrder := stagedOrder.value;
        stagedOrder := None;
      }
    }

    /** One iteration of the update pass (layers.js:301-320) over the layer
        map `ls`, as `VisitLayer` describes; the pairs are those its
        `checkEntities` call reports. */
    method Visit(ls: map<string, Layer>, name: string) returns (r: Outcome, ls': map<string, Layer>, events: seq<Event>, pairs: seq<(nat, nat)>)
      ensures var v := VisitLayer(ls, name, sortBy, pairs);
        ls' == v.layers && events == v.events && r == v.outcome && Reports(v.checked, pairs)
    {
      if name !in ls {
        return Fail(MissingLayer(name)), ls, [], [];
      }
      var layer := ls[name];
      var items := layer.items;
      if layer.flags.noUpdate || layer.flags.mapLayer {
        return Ok, ls, [], [];
      }
      var calls := Collect(items, UpdateWalk);
      ls' := ls;
      if layer.flags.entityLayer && (layer.flags.doSortEntities || layer.flags.autoSort) {
        ls' := ls'[name := Layer(layer.flags.(doSortEntities := false), SortItems(items, Comparator(layer.flags, sortBy)))];
      }
      var checked: seq<Item> := [];
      pairs := [];
      if layer.flags.entityLayer {
        pairs := Broadphase(ls', Some(name));
        checked := CheckedItems(ls', Some(name));
      }
      VisitUnfold(ls, name, sortBy, pairs);
      events := calls + PairEvents(checked, pairs);
      r := Ok;
    }

    /** `Visit` applied to the game's own layers and log. */
    method VisitUpdate(name: string) returns (r: Outcome, pairs: seq<(nat, nat)>)
      modifies this`layers, this`log
      ensures layers == VisitLayer(old(layers), name, sortBy, pairs).layers
      ensures log == old(log) + VisitLayer(old(layers), name, sortBy, pairs).events
      ensures r == VisitLayer(old(layers), name, sortBy, pairs).outcome
      ensures Reports(VisitLayer(old(layers), name, sortBy, pairs).checked, pairs)
    {
      var ls, events;
      r, ls, events, pairs := Visit(layers, name);
      layers, log := ls, log + events;
    }

    /** The update pass (layers.js:300-321) over `order`, on the layer map
        `ls`, as `LayerPass` describes for the names it reached: `checks[k]`
        is what the k-th visit's `checkEntities` reported, and a failure ends
        the pass at the name that caused it. */
    method RunPass(ls: map<string, Layer>, order: seq<string>)
      returns (r: Outcome, ls': map<string, Layer>, events: seq<Event>, checks: seq<seq<(nat, nat)>>)
      ensures |checks| <= |order|
      ensures var p := LayerPass(ls, order[..|checks|], sortBy, checks);
        ls' == p.layers && events == p.events && r == p.outcome && AllReport(p.checked, checks)
      ensures r.Ok? ==> |checks| == |order|
    {
      checks, ls', events := [], ls, [];
      ghost var done: seq<string> := [];
      var x := 0;
      while x < |order|
        invariant 0 <= x <= |order| && |checks| == x && done == order[..x]
        invariant var p := LayerPass(ls, done, sortBy, checks);
          ls' == p.layers && events == p.events && p.outcome.Ok? && AllReport(p.checked, checks)
      {
        var pairs, after, more;
        r, after, more, pairs := Visit(ls', order[x]);
        LayerPassStep(ls, done, sortBy, checks, order[x], pairs);
        checks, ls', events := checks + [pairs], after, events + more;
        done := done + [order[x]];
        TakeSnoc(order, x);
        x := x + 1;
        if r.Fail? {
          return;
        }
      }
      assert done == order;
      r := Ok;
    }

    /** `RunPass` over `layerOrder`, applied to the game's own layers and log. */
    method UpdateLayers() returns (r: Outcome, checks: seq<seq<(nat, nat)>>)
      modifies this`layers, this`log
      ensures |checks| <= |layerOrder|
      ensures layers == LayerPass(old(layers), layerOrder[..|checks|], sortBy, checks).layers
      ensures log == old(log) + LayerPass(old(layers), layerOrder[..|checks|], sortBy, checks).events
      ensures r == LayerPass(old(layers), layerOrder[..|checks|], sortBy, checks).outcome
      ensures AllReport(LayerPass(old(layers), layerOrder[..|checks|], sortBy, checks).checked, checks)
      ensures r.Ok? ==> |checks| == |layerOrder|
    {
      var ls, events;
      r, ls, events, checks := RunPass(layers, layerOrder);
      layers, log := ls, log + events;
    }

    /** `update` (layers.js:249-344): the three drains, the staged order, a
        deferred level, the update pass and the kill drain, in that order;
        the first TypeError ends the tick. A completed tick leaves every queue
        but `_itemsToRemove` empty, installs the staged order, and keeps
        exactly the layers that were not queued for removal. */
    method Update() returns (r: Outcome)
      modifies this`layers, this`log, this`layerProperties, this`itemsToRemove, this`layersToRemove
      modifies this`layerOrder, this`stagedOrder, this`levelToLoad, this`deferredKill
      modifies this`lastId, this`namedEntities, this`collisionMap
      ensures r.Ok? ==> layerProperties == [] && layersToRemove == [] && deferredKill == []
      ensures r.Ok? ==> stagedOrder.None? && levelToLoad.None?
      ensures r.Ok? ==> layerOrder == if old(stagedOrder).Some? then old(stagedOrder).value else old(layerOrder)
      ensures r.Ok? ==> forall n :: n in layers <==> n in old(layers) && n !in old(layersToRemove)
    {
      r := DrainQueues();
      if r.Fail? {
        return;
      }
      ApplyStagedOrder();
      r := LoadPending();
      if r.Fail? {
        return;
      }
      r := UpdateAndKill();
    }

    /** The first three drains of `update` (layers.js:255-285): on success
        the property and layer queues are empty and exactly the layers queued
        for removal are gone. */
    method DrainQueues() returns (r: Outcome)
      modifies this`layers, this`log, this`layerProperties, this`itemsToRemove, this`layersToRemove
      ensures r.Ok? ==> layerProperties == [] && layersToRemove == []
      ensures r.Ok? ==> forall n :: n in layers <==> n in old(layers) && n !in old(layersToRemove)
    {
      MergeAllOk(layers, layerProperties);
      MergeAllKeeps(layers, layerProperties);
      r := DrainProperties();
      if r.Fail? {
        return;
      }
      RemoveAllKeeps(layers, itemsToRemove);
      r := DrainItems();
      if r.Fail? {
        return;
      }
      DropAllKeys(layers, layersToRemove, itemsToRemove);
      DrainLayers();
    }

    /** A deferred level load (layers.js:293-297): the layer names stay. */
    method LoadPending() returns (r: Outcome)
      modifies this`layers, this`lastId, this`namedEntities, this`collisionMap, this`log, this`levelToLoad
      ensures layers.Keys == old(layers).Keys
      ensures old(levelToLoad).None? ==> r == Ok && levelToLoad.None? && layers == old(layers)
      ensures r.Ok? ==> levelToLoad.None?
    {
      r := Ok;
      if levelToLoad.Some? {
        ghost var spawned, maps;
        r, spawned, maps := LoadLevel(levelToLoad.value);
        if r.Fail? {
          return;
        }
        levelToLoad := None;
      }
    }

    /** The update pass and the kill drain (layers.js:300-335): on success
        the layer names stay and `_deferredKill` is empty. */
    method UpdateAndKill() returns (r: Outcome)
      modifies this`layers, this`log, this`deferredKill
      ensures r.Ok? ==> layers.Keys == old(layers).Keys && deferredKill == []
    {
      ghost var l2 := layers;
      var checks;
      r, checks := UpdateLayers();
      if r.Fail? {
        return;
      }
      LayerPassOk(l2, layerOrder, sortBy, checks);
      assert layerOrder[..|checks|] == layerOrder;
      RemoveAllOk(layers, deferredKill);
      RemoveAllKeeps(layers, deferredKill);
      r := DrainKills();
    }

    // ------------------------------------------------------------ draw

    /** The draw loop (layers.js:360-369) and the ready loop of `loadLevel`
        (layers.js:455-466): calls `w` on every item of each selected layer
        listed in `layerOrder`, as `WalkLayers` describes. */
    method RunWalk(w: Walk) returns (r: Outcome)
      modifies this`log
      ensures var t := WalkLayers(layers, layerOrder, w);
        log == old(log) + t.events && r == t.outcome
    {
      var x := 0;
      while x < |layerOrder|
        invariant 0 <= x <= |layerOrder|
        invariant var t := WalkLayers(layers, layerOrder[..x], w);
          log == old(log) + t.events && t.outcome.Ok?
      {
        var name := layerOrder[x];
        assert layerOrder[..x + 1][..x] == layerOrder[..x];
        if name !in layers {
          WalkSticky(layers, layerOrder, x + 1, w);
          return Fail(MissingLayer(name));
        }
        var layer := layers[name];
        if Selected(layer.flags, w) {
          var calls := Collect(layer.items, w);
          log := log + calls;
        }
        x := x + 1;
      }
      assert layerOrder[..x] == layerOrder;
      return Ok;
    }

    /** `draw` (layers.js:346-370), apart from clearing the screen and
        rounding its position: `draw` on every item of each layer that is not
        `noDraw`, in layer order. */
    method Draw() returns (r: Outcome)
      modifies this`log
      ensures var t := WalkLayers(layers, layerOrder, DrawWalk);
        log == old(log) + t.events && r == t.outcome
    {
      r := RunWalk(DrawWalk);
    }

    // ------------------------------------------------------------ levels

    /** `spawnEntity` (layers.js:372-389): a new instance of the class
        registered under `tag`, with the next id, added to the layer its
        `_layer` names and recorded under its name when it has one. An
        unregistered tag is an error before anything happens; a missing
        layer is an error after the id was taken. */
    method SpawnEntity(tag: string, x: int, y: int, settings: Settings) returns (r: Result<Item>)
      modifies this`layers, this`lastId, this`namedEntities
      ensures tag !in registry ==>
        r == Failure(UnknownEntityType(tag)) && layers == old(layers) && lastId == old(lastId) &&
        namedEntities == old(namedEntities)
      ensures tag in registry ==> lastId == old(lastId) + 1
      ensures tag in registry && PropertyKey(SpawnLayer(registry[tag], settings)) !in old(layers) ==>
        r == Failure(UnknownLayer(PropertyKey(SpawnLayer(registry[tag], settings)))) &&
        layers == old(layers) && namedEntities == old(namedEntities)
      ensures tag in registry && PropertyKey(SpawnLayer(registry[tag], settings)) in old(layers) ==> r.Success?
      ensures r.Success? ==>
        var ent := r.value;
        var key := Home(ent);
        fresh(ent) && tag in registry && Spawned(ent, registry[tag], EntityDef(tag, x, y, settings), lastId) &&
        ent.layer == SpawnLayer(registry[tag], settings) && !ent.killed &&
        key in old(layers) && layers == old(layers)[key := old(layers)[key].(items := old(layers)[key].items + [ent])] &&
        namedEntities == if Truthy(ent.name) then old(namedEntities)[ent.name.value := ent] else old(namedEntities)
    {
      if tag !in registry {
        return Failure(UnknownEntityType(tag));
      }
      var k := registry[tag];
      lastId := lastId + 1;
      var ent := new Item(lastId, settings.name, k.classes, k.hasCleanUp, SpawnLayer(k, settings),
                          x, y, SettingOr(settings.sizeX, k.w), SettingOr(settings.sizeY, k.h),
                          SettingOr(settings.zIndex, k.zIndex), SettingOr(settings.entityType, k.entityType),
                          SettingOr(settings.checkAgainst, k.checkAgainst), SettingOr(settings.collides, k.collides));
      var added := AddItem(ent, None);
      if added.Fail? {
        return Failure(added.error);
      }
      if Truthy(ent.name) {
        namedEntities := namedEntities[ent.name.value := ent];
      }
      return Success(ent);
    }

    /** The first loop of `loadLevel` (layers.js:403-417): as `Cleared`
        describes. */
    method ClearForLoad()
      modifies this`layers
      ensures layers == Cleared(old(layers), layerOrder)
    {
      var x := 0;
      assert Cleared(layers, []) == layers;
      while x < |layerOrder|
        invariant 0 <= x <= |layerOrder|
        invariant layers == Cleared(old(layers), layerOrder[..x])
      {
        var name := layerOrder[x];
        assert layerOrder[..x + 1] == layerOrder[..x] + [name];
        ClearedSnoc(old(layers), layerOrder[..x], name);
        if name in layers && layers[name].flags.clearOnLoad {
          layers := layers[name := layers[name].(items := [])];
        }
        x := x + 1;
      }
      assert layerOrder[..x] == layerOrder;
    }

    /** The entities `spawned` came from the first `|spawned|` definitions of
        `defs`, in order: each of a registered class, built as that class and
        its definition say with the ids after `id0` in turn, and carrying the
        `_layer` its class and settings give it, which names a layer of `ls`. */
    predicate SpawnedFrom(spawned: seq<Item>, defs: seq<EntityDef>, id0: nat, ls: map<string, Layer>)
      reads spawned
    {
      |spawned| <= |defs| &&
      forall k :: 0 <= k < |spawned| ==>
        defs[k].tag in registry &&
        Spawned(spawned[k], registry[defs[k].tag], defs[k], id0 + k + 1) &&
        spawned[k].layer == SpawnLayer(registry[defs[k].tag], defs[k].settings) &&
        PropertyKey(SpawnLayer(registry[defs[k].tag], defs[k].settings)) in ls
    }

    /** `SpawnedFrom` extended by one more entity built from the next
        definition. */
    lemma {:induction false} SpawnedFromSnoc(spawned: seq<Item>, defs: seq<EntityDef>, id0: nat, ls: map<string, Layer>, ent: Item)
      requires SpawnedFrom(spawned, defs, id0, ls) && |spawned| < |defs|
      requires var d := defs[|spawned|];
        d.tag in registry && Spawned(ent, registry[d.tag], d, id0 + |spawned| + 1) &&
        ent.layer == SpawnLayer(registry[d.tag], d.settings) && PropertyKey(SpawnLayer(registry[d.tag], d.settings)) in ls
      ensures SpawnedFrom(spawned + [ent], defs, id0, ls)
    {
      var s' := spawned + [ent];
      assert forall k :: 0 <= k < |spawned| ==> s'[k] == spawned[k];
      assert s'[|spawned|] == ent;
    }

    /** `SpawnedFrom` only asks `ls` which layer names exist. */
    lemma {:induction false} SpawnedFromKeys(spawned: seq<Item>, defs: seq<EntityDef>, id0: nat, ls: map<string, Layer>, ls': map<string, Layer>)
      requires SpawnedFrom(spawned, defs, id0, ls) && ls.Keys == ls'.Keys
      ensures SpawnedFrom(spawned, defs, id0, ls')
    {
    }

    /** After a load, each spawned entity sits in the layer its class and
        settings name. */
    lemma {:induction false} SpawnedLands(ls: map<string, Layer>, order: seq<string>, spawned: seq<Item>, maps: seq<Item>,
                                          defs: seq<EntityDef>, id0: nat, k: nat)
      requires SpawnedFrom(spawned, defs, id0, ls) && k < |spawned|
      ensures var n := PropertyKey(SpawnLayer(registry[defs[k].tag], defs[k].settings));
        var r := Placed(SortedIn(Placed(Cleared(ls, order), spawned), "entities"), maps);
        n in r && spawned[k] in r[n].items
    {
      var n := PropertyKey(SpawnLayer(registry[defs[k].tag], defs[k].settings));
      assert n in ls && spawned[k] in spawned && Home(spawned[k]) == n;
      LoadedLayers(ls, order, spawned, maps, n);
      QueuedForMember(spawned, n, spawned[k]);
      var r := Placed(SortedIn(Placed(Cleared(ls, order), spawned), "entities"), maps);
      var base := if n in order && ls[n].flags.clearOnLoad then [] else ls[n].items;
      assert spawned[k] in multiset(QueuedFor(spawned, n));
      assert multiset(r[n].items) == multiset(base) + multiset(QueuedFor(spawned, n)) + multiset(QueuedFor(maps, n));
      assert spawned[k] in multiset(r[n].items);
    }

    /** One iteration of the spawn loop of `loadLevel` (layers.js:421-423):
        `spawnEntity` on `defs[i]`, continuing the placement and naming the
        earlier iterations made from `ls0` and `nm0`. */
    method SpawnNext(ghost ls0: map<string, Layer>, ghost nm0: map<string, Item>, ghost id0: nat,
                     ghost spawned: seq<Item>, defs: seq<EntityDef>, i: nat) returns (r: Result<Item>)
      modifies this`layers, this`lastId, this`namedEntities
      requires i < |defs| && |spawned| == i && lastId == id0 + i
      requires layers == Placed(ls0, spawned) && namedEntities == NamedOf(nm0, spawned)
      requires SpawnedFrom(spawned, defs, id0, ls0)
      ensures SpawnedFrom(spawned, defs, id0, ls0)
      ensures r.Failure? ==> layers == old(layers) && namedEntities == old(namedEntities)
      ensures r.Success? ==> fresh(r.value) && lastId == id0 + i + 1
      ensures r.Success? ==> SpawnedFrom(spawned + [r.value], defs, id0, ls0)
      ensures r.Success? ==> layers == Placed(ls0, spawned + [r.value])
      ensures r.Success? ==> namedEntities == NamedOf(nm0, spawned + [r.value])
    {
      var d := defs[i];
      r := SpawnEntity(d.tag, d.x, d.y, d.settings);
      if r.Success? {
        var ent := r.value;
        assert d == EntityDef(d.tag, d.x, d.y, d.settings);
        PlacedKeys(ls0, spawned);
        PlacedSnoc(ls0, spawned, ent);
        NamedOfSnoc(nm0, spawned, ent);
        SpawnedFromSnoc(spawned, defs, id0, ls0, ent);
      }
    }

    /** The spawn loop of `loadLevel` (layers.js:420-424): the level's
        entities in order, each with the `_layer` its class and settings give
        it, placed and named as `Placed` and `NamedOf` describe; the first
        failed spawn ends it. */
    method SpawnAll(defs: seq<EntityDef>) returns (r: Outcome, ghost spawned: seq<Item>)
      modifies this`layers, this`lastId, this`namedEntities
      ensures layers == Placed(old(layers), spawned)
      ensures namedEntities == NamedOf(old(namedEntities), spawned)
      ensures SpawnedFrom(spawned, defs, old(lastId), old(layers))
      ensures forall k :: 0 <= k < |spawned| ==> fresh(spawned[k])
      ensures r.Ok? ==> |spawned| == |defs| && lastId == old(lastId) + |defs|
    {
      spawned := [];
      var i := 0;
      while i < |defs|
        invariant 0 <= i <= |defs| && |spawned| == i && lastId == old(lastId) + i
        invariant layers == Placed(old(layers), spawned)
        invariant namedEntities == NamedOf(old(namedEntities), spawned)
        invariant SpawnedFrom(spawned, defs, old(lastId), old(layers))
        invariant forall k :: 0 <= k < i ==> fresh(spawned[k])
      {
        var ent := SpawnNext(old(layers), old(namedEntities), old(lastId), spawned, defs, i);
        if ent.Failure? {
          r := Fail(ent.error);
          return;
        }
        spawned := spawned + [ent.value];
        i := i + 1;
      }
      r := Ok;
    }

    /** One iteration of the map loop of `loadLevel` (layers.js:431-452): a
        layer named "collision" becomes the collision map; any other becomes a
        new background map, routed by `RouteMap` and added as `addItem` does. */
    method PlaceMap(ld: MapDef) returns (r: Outcome, ghost placed: seq<Item>)
      modifies this`layers, this`collisionMap
      ensures ld.name == "collision" ==> r == Ok && placed == [] && collisionMap == Grid(ld.tilesize, ld.data)
      ensures ld.name != "collision" ==>
        collisionMap == old(collisionMap) && |placed| == 1 && fresh(placed[0]) &&
        placed[0].name == Some(ld.name) && placed[0].layer == RouteMap(None, ld.foreground) &&
        (r.Ok? <==> Home(placed[0]) in old(layers))
      ensures layers == Placed(old(layers), placed)
    {
      if ld.name == "collision" {
        collisionMap := Grid(ld.tilesize, ld.data);
        return Ok, [];
      }
      var newMap := new Item(0, Some(ld.name), {"BackgroundMap"}, false, None,
                             0, 0, 0, 0, 0, TYPE_NONE, TYPE_NONE, COLLIDES_NEVER);
      if !Truthy(newMap.layer) && ld.foreground {
        newMap.layer := Some("foregroundMaps");
      } else if !Truthy(newMap.layer) {
        newMap.layer := Some("backgroundMaps");
      }
      r := AddItem(newMap, None);
      placed := [newMap];
      assert Placed(old(layers), placed) == PlaceOne(old(layers), newMap);
    }

    /** `PlaceMap` on the next layer definition, appending the new map, if
        any, to the maps placed so far. */
    method PlaceNext(ghost ls0: map<string, Layer>, ghost maps: seq<Item>, ld: MapDef)
      returns (r: Outcome, ghost maps': seq<Item>)
      modifies this`layers, this`collisionMap
      requires layers == Placed(ls0, maps)
      ensures layers == Placed(ls0, maps')
      ensures collisionMap == if ld.name == "collision" then Grid(ld.tilesize, ld.data) else old(collisionMap)
      ensures ld.name == "collision" ==> maps' == maps
      ensures ld.name != "collision" ==> |maps'| == |maps| + 1 && maps'[..|maps|] == maps
      ensures ld.name != "collision" ==>
        var m := maps'[|maps|];
        fresh(m) && m.name == Some(ld.name) && m.layer == RouteMap(None, ld.foreground)
    {
      ghost var placed;
      r, placed := PlaceMap(ld);
      maps' := maps;
      if ld.name != "collision" {
        PlacedSnoc(ls0, maps, placed[0]);
        assert placed == [placed[0]];
        maps' := maps + placed;
      }
    }

    /** The map loop of `loadLevel` (layers.js:430-453): the last layer named
        "collision" becomes the collision map, every other one a background
        map routed by `RouteMap` and added in order; the first failed add
        ends it. */
    method PlaceMaps(defs: seq<MapDef>) returns (r: Outcome, ghost maps: seq<Item>)
      modifies this`layers, this`collisionMap
      ensures layers == Placed(old(layers), maps)
      ensures r.Ok? ==> collisionMap == CollisionOf(defs) && |maps| == |MapDefs(defs)|
      ensures r.Ok? ==> forall k :: 0 <= k < |maps| ==>
        fresh(maps[k]) && maps[k].name == Some(MapDefs(defs)[k].name) &&
        maps[k].layer == RouteMap(None, MapDefs(defs)[k].foreground)
    {
      collisionMap := StaticNoCollision;
      maps := [];
      ghost var done: seq<MapDef> := [];
      ghost var placedDefs: seq<MapDef> := [];
      var i := 0;
      while i < |defs|
        invariant 0 <= i <= |defs| && done == defs[..i] && placedDefs == MapDefs(done)
        invariant layers == Placed(old(layers), maps)
        invariant collisionMap == CollisionOf(done) && |maps| == |placedDefs|
        invariant forall k :: 0 <= k < |maps| ==> fresh(maps[k])
        invariant forall k :: 0 <= k < |maps| ==>
          maps[k].name == Some(placedDefs[k].name) && maps[k].layer == RouteMap(None, placedDefs[k].foreground)
      {
        var ld := defs[i];
        CollisionOfSnoc(done, ld);
        MapDefsSnoc(done, ld);
        r, maps := PlaceNext(old(layers), maps, ld);
        if r.Fail? {
          return;
        }
        done := done + [ld];
        if ld.name != "collision" {
          placedDefs := placedDefs + [ld];
        }
        TakeSnoc(defs, i);
        i := i + 1;
      }
      assert done == defs;
      r := Ok;
    }

    /** Lines 403-428 of `loadLevel` (layers.js): clear the layers flagged
        `clearOnLoad`, forget the named entities, spawn the level's entities in
        order and sort 'entities'. */
    method LoadEntities(level: Level) returns (r: Outcome, ghost spawned: seq<Item>)
      modifies this`layers, this`lastId, this`namedEntities
      ensures layers.Keys == old(layers).Keys
      ensures r.Ok? ==> layers == SortedIn(Placed(Cleared(old(layers), layerOrder), spawned), "entities")
      ensures r.Ok? ==> namedEntities == NamedOf(map[], spawned)
      ensures r.Ok? ==> lastId == old(lastId) + |level.entities| && |spawned| == |level.entities|
      ensures r.Ok? ==> SpawnedFrom(spawned, level.entities, old(lastId), old(layers))
      ensures forall k :: 0 <= k < |spawned| ==> fresh(spawned[k])
    {
      ClearForLoad();
      ghost var cleared := layers;
      assert cleared.Keys == old(layers).Keys;
      namedEntities := map[];
      r, spawned := SpawnAll(level.entities);
      PlacedKeys(cleared, spawned);
      SpawnedFromKeys(spawned, level.entities, old(lastId), cleared, old(layers));
      if r.Fail? {
        return;
      }
      SortEntities(None);
    }

    /** Lines 403-453 of `loadLevel` (layers.js): `LoadEntities`, then install
        the maps. The layer names never change, and a completed load leaves
        each layer as `LoadedLayers` describes. */
    method LoadContent(level: Level) returns (r: Outcome, ghost spawned: seq<Item>, ghost maps: seq<Item>)
      modifies this`layers, this`lastId, this`namedEntities, this`collisionMap
      ensures layers.Keys == old(layers).Keys
      ensures r.Ok? ==> layers == Placed(SortedIn(Placed(Cleared(old(layers), layerOrder), spawned), "entities"), maps)
      ensures r.Ok? ==> namedEntities == NamedOf(map[], spawned) && collisionMap == CollisionOf(level.layer)
      ensures r.Ok? ==> lastId == old(lastId) + |level.entities|
      ensures r.Ok? ==> |spawned| == |level.entities| && |maps| == |MapDefs(level.layer)|
      ensures r.Ok? ==> SpawnedFrom(spawned, level.entities, old(lastId), old(layers))
      ensures r.Ok? ==> MapsFrom(maps, level.layer)
      ensures forall k :: 0 <= k < |spawned| ==> fresh(spawned[k])
      ensures r.Ok? ==> forall k :: 0 <= k < |maps| ==> fresh(maps[k])
    {
      maps := [];
      r, spawned := LoadEntities(level);
      if r.Fail? {
        return;
      }
      ghost var sorted := layers;
      r, maps := PlaceMaps(level.layer);
      PlacedKeys(sorted, maps);
    }

    /** `loadLevel` (layers.js:392-467), apart from resetting the screen: the
        content of `LoadContent`, then `ready` every item of the listed entity
        layers (layers.js:455-466). */
    method LoadLevel(level: Level) returns (r: Outcome, ghost spawned: seq<Item>, ghost maps: seq<Item>)
      modifies this`layers, this`lastId, this`namedEntities, this`collisionMap, this`log
      ensures layers.Keys == old(layers).Keys
      ensures r.Ok? ==> layers == Placed(SortedIn(Placed(Cleared(old(layers), layerOrder), spawned), "entities"), maps)
      ensures r.Ok? ==> namedEntities == NamedOf(map[], spawned) && collisionMap == CollisionOf(level.layer)
      ensures r.Ok? ==> lastId == old(lastId) + |level.entities|
      ensures r.Ok? ==> |spawned| == |level.entities| && |maps| == |MapDefs(level.layer)|
      ensures r.Ok? ==> SpawnedFrom(spawned, level.entities, old(lastId), old(layers))
      ensures r.Ok? ==> MapsFrom(maps, level.layer)
      ensures forall k :: 0 <= k < |spawned| ==> fresh(spawned[k])
      ensures r.Ok? ==> forall k :: 0 <= k < |maps| ==> fresh(maps[k])
      ensures r.Ok? ==> log == old(log) + WalkLayers(layers, layerOrder, ReadyWalk).events
    {
      r, spawned, maps := LoadContent(level);
      if r.Fail? {
        return;
      }
      r := RunWalk(ReadyWalk);
    }
  }
}
