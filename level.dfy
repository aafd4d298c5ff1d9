/** The data `loadLevel` consumes and the rules it routes that data by. */
module LevelData {
  import opened Outcomes
  import opened LayerFlags
  import opened LayerItems
  import opened LayerQueues

  /** An entity class as `spawnEntity` sees it: what `new EntityClass(x, y,
      settings)` produces, apart from the position and the settings. */
  datatype Kind = Kind(
    classes: set<string>,
    layer: Option<string>,   // a `_layer` the class declares itself
    w: int,
    h: int,
    zIndex: int,
    entityType: int,
    checkAgainst: int,
    collides: int,
    hasCleanUp: bool)

  /** The keys of a settings object the model tracks. The entity constructor
      merges every key onto the new entity, so each one present overrides
      what the class declares. */
  datatype Settings = Settings(
    name: Option<string>,
    layer: Option<string>,   // `_layer`
    sizeX: Option<int>,      // `size.x`
    sizeY: Option<int>,      // `size.y`
    zIndex: Option<int>,
    entityType: Option<int>, // `type`
    checkAgainst: Option<int>,
    collides: Option<int>)

  datatype EntityDef = EntityDef(tag: string, x: int, y: int, settings: Settings)

  datatype MapDef = MapDef(name: string, tilesize: int, data: seq<seq<int>>, foreground: bool)

  /** Level data: its entities and its map layers. */
  datatype Level = Level(entities: seq<EntityDef>, layer: seq<MapDef>)

  datatype CollisionMap = StaticNoCollision | Grid(tilesize: int, data: seq<seq<int>>)

  /** `ig.Entity.inject({ _layer: 'entities' })` (layers.js:482-486). */
  const DEFAULT_ENTITY_LAYER := "entities"

  /** The `_layer` a new entity carries: settings override its class, and the
      class overrides the default every entity inherits. */
  function SpawnLayer(k: Kind, s: Settings): (r: Option<string>)
    ensures r.Some?
  {
    if s.layer.Some? then s.layer else if k.layer.Some? then k.layer else Some(DEFAULT_ENTITY_LAYER)
  }

  /** A numeric property after the settings are merged onto a new entity:
      the setting when the object carries it, the class's value otherwise. */
  function SettingOr(setting: Option<int>, declared: int): int
  {
    if setting.Some? then setting.value else declared
  }

  /** A new entity as the class constructor leaves it, apart from its
      `_layer` and its `_killed` flag, which later code may change: the
      position comes from the level, the name and any numeric property the
      settings carry from the settings, everything else from the class. */
  predicate Spawned(it: Item, k: Kind, d: EntityDef, id: nat)
  {
    var st := d.settings;
    it.id == id && it.name == st.name && it.classes == k.classes && it.hasCleanUp == k.hasCleanUp &&
    it.x == d.x && it.y == d.y && it.w == SettingOr(st.sizeX, k.w) && it.h == SettingOr(st.sizeY, k.h) &&
    it.zIndex == SettingOr(st.zIndex, k.zIndex) && it.entityType == SettingOr(st.entityType, k.entityType) &&
    it.checkAgainst == SettingOr(st.checkAgainst, k.checkAgainst) && it.collides == SettingOr(st.collides, k.collides)
  }

  /** The layer a new background map is routed to (layers.js:445-449): a map
      without a `_layer` goes to 'foregroundMaps' when it is a foreground map
      and to 'backgroundMaps' otherwise. */
  function RouteMap(current: Option<string>, foreground: bool): Option<string>
  {
    if !Truthy(current) && foreground then Some("foregroundMaps")
    else if !Truthy(current) then Some("backgroundMaps")
    else current
  }

  /** A new `ig.BackgroundMap` has no `_layer`, so it lands in 'foregroundMaps'
      exactly when it is a foreground map, and in 'backgroundMaps' otherwise. */
  lemma {:induction false} RouteNewMap(foreground: bool)
    ensures RouteMap(None, foreground) == Some("foregroundMaps") <==> foreground
    ensures RouteMap(None, foreground) == Some("backgroundMaps") <==> !foreground
  {
  }

  /** The map layers of a level that become background maps, in order. */
  function MapDefs(defs: seq<MapDef>): seq<MapDef>
  {
    if defs == [] then []
    else MapDefs(defs[..|defs| - 1]) + (if defs[|defs| - 1].name == "collision" then [] else [defs[|defs| - 1]])
  }

  lemma {:induction false} MapDefsSnoc(defs: seq<MapDef>, d: MapDef)
    ensures MapDefs(defs + [d]) == MapDefs(defs) + (if d.name == "collision" then [] else [d])
  {
    assert (defs + [d])[..|defs|] == defs;
  }

  /** The maps `maps` are the background maps built from `defs`, in order:
      one per layer not named "collision", carrying its name and routed by
      its `foreground` flag. */
  predicate MapsFrom(maps: seq<Item>, defs: seq<MapDef>)
    reads maps
  {
    |maps| == |MapDefs(defs)| &&
    forall k :: 0 <= k < |maps| ==>
      maps[k].name == Some(MapDefs(defs)[k].name) && maps[k].layer == RouteMap(None, MapDefs(defs)[k].foreground)
  }

  /** The collision map a level installs (layers.js:430-435): the last layer
      named "collision", or the static empty map when there is none. */
  function CollisionOf(defs: seq<MapDef>): CollisionMap
  {
    if defs == [] then StaticNoCollision
    else if defs[|defs| - 1].name == "collision" then Grid(defs[|defs| - 1].tilesize, defs[|defs| - 1].data)
    else CollisionOf(defs[..|defs| - 1])
  }

  lemma {:induction false} CollisionOfSnoc(defs: seq<MapDef>, d: MapDef)
    ensures CollisionOf(defs + [d]) == if d.name == "collision" then Grid(d.tilesize, d.data) else CollisionOf(defs)
  {
    assert (defs + [d])[..|defs|] == defs;
  }

  /** The collision map is a grid exactly when some layer is named
      "collision", and then it is built from the last such layer. */
  lemma {:induction false} CollisionOfSpec(defs: seq<MapDef>)
    ensures CollisionOf(defs).Grid? <==> exists k :: 0 <= k < |defs| && defs[k].name == "collision"
    ensures CollisionOf(defs).Grid? ==>
              exists k :: 0 <= k < |defs| && defs[k].name == "collision" &&
                CollisionOf(defs) == Grid(defs[k].tilesize, defs[k].data) &&
                forall j :: k < j < |defs| ==> defs[j].name != "collision"
  {
    if defs != [] {
      var m := |defs| - 1;
      var init := defs[..m];
      CollisionOfSpec(init);
      assert forall k :: 0 <= k < m ==> init[k] == defs[k];
      if defs[m].name != "collision" && CollisionOf(defs).Grid? {
        var k :| 0 <= k < |init| && init[k].name == "collision" &&
          CollisionOf(init) == Grid(init[k].tilesize, init[k].data) &&
          forall j :: k < j < |init| ==> init[j].name != "collision";
        assert defs[k] == init[k];
      }
    }
  }

  /** The first loop of `loadLevel` (layers.js:403-417): every present layer
      listed in `order` that is `clearOnLoad` gets a fresh, empty items array. */
  function Cleared(ls: map<string, Layer>, order: seq<string>): map<string, Layer>
  {
    map n | n in ls :: if n in order && ls[n].flags.clearOnLoad then ls[n].(items := []) else ls[n]
  }

  /** Clearing for one more listed name clears that layer too, when it is
      present and `clearOnLoad`. */
  lemma {:induction false} ClearedSnoc(ls: map<string, Layer>, order: seq<string>, name: string)
    ensures var c := Cleared(ls, order);
      Cleared(ls, order + [name]) == if name in c && c[name].flags.clearOnLoad then c[name := c[name].(items := [])] else c
  {
  }

  /** `sortEntities(key)` on a layer map: the layer `key`, when present, is
      sorted by its own comparator only (layers.js:124-131). */
  function SortedIn(ls: map<string, Layer>, key: string): map<string, Layer>
  {
    if key in ls then ls[key := ls[key].(items := SortItems(ls[key].items, ls[key].flags.sortBy))] else ls
  }

  /** `addItem(item)` for each item in turn, each going to the layer its
      `_layer` names when that layer exists. */
  function Placed(ls: map<string, Layer>, s: seq<Item>): map<string, Layer>
    reads s
  {
    if s == [] then ls else PlaceOne(Placed(ls, s[..|s| - 1]), s[|s| - 1])
  }

  /** `addItem(it)` with no layer name, on a layer map. */
  function PlaceOne(ls: map<string, Layer>, it: Item): map<string, Layer>
    reads it
  {
    var key := Home(it);
    if key in ls then ls[key := ls[key].(items := ls[key].items + [it])] else ls
  }

  lemma {:induction false} PlacedSnoc(ls: map<string, Layer>, s: seq<Item>, it: Item)
    ensures Placed(ls, s + [it]) == PlaceOne(Placed(ls, s), it)
  {
    assert (s + [it])[..|s|] == s;
  }

  lemma {:induction false} PlacedKeys(ls: map<string, Layer>, s: seq<Item>)
    ensures Placed(ls, s).Keys == ls.Keys
  {
    if s != [] {
      PlacedKeys(ls, s[..|s| - 1]);
    }
  }

  /** Placing items keeps the layer names and flags, and appends to each
      layer the placed items whose `_layer` names it, in order. */
  lemma {:induction false} PlacedSpec(ls: map<string, Layer>, s: seq<Item>)
    ensures Placed(ls, s).Keys == ls.Keys
    ensures forall n :: n in ls ==>
              Placed(ls, s)[n].flags == ls[n].flags && Placed(ls, s)[n].items == ls[n].items + QueuedFor(s, n)
  {
    if s != [] {
      var init := s[..|s| - 1];
      var it := s[|s| - 1];
      PlacedSpec(ls, init);
      assert s == init + [it];
      forall n | n in ls ensures QueuedFor(s, n) == QueuedFor(init, n) + (if Home(it) == n then [it] else []) {
        QueuedForSnoc(init, it, n);
      }
    }
  }

  /** `namedEntities[ent.name] = ent` for each named entity in turn. */
  function NamedOf(m: map<string, Item>, s: seq<Item>): map<string, Item>
  {
    if s == [] then m
    else
      var pre := NamedOf(m, s[..|s| - 1]);
      var it := s[|s| - 1];
      if Truthy(it.name) then pre[it.name.value := it] else pre
  }

  lemma {:induction false} NamedOfSnoc(m: map<string, Item>, s: seq<Item>, it: Item)
    ensures NamedOf(m, s + [it]) == if Truthy(it.name) then NamedOf(m, s)[it.name.value := it] else NamedOf(m, s)
  {
    assert (s + [it])[..|s|] == s;
  }

  /** Each name maps to an entity carrying it: a later entity of the same
      name replaces an earlier one. */
  lemma {:induction false} NamedOfSpec(m: map<string, Item>, s: seq<Item>)
    ensures forall n :: n in NamedOf(m, s) ==> n in m || (NamedOf(m, s)[n] in s && NamedOf(m, s)[n].name == Some(n))
    ensures forall k :: 0 <= k < |s| && Truthy(s[k].name) ==> s[k].name.value in NamedOf(m, s)
    ensures forall k :: 0 <= k < |s| && Truthy(s[k].name) && (forall l :: k < l < |s| ==> s[l].name != s[k].name) ==>
      NamedOf(m, s)[s[k].name.value] == s[k]
    ensures forall n :: n in m && (forall k :: 0 <= k < |s| ==> s[k].name != Some(n)) ==>
      n in NamedOf(m, s) && NamedOf(m, s)[n] == m[n]
  {
    if s != [] {
      var init := s[..|s| - 1];
      var last := s[|s| - 1];
      NamedOfSpec(m, init);
      assert s == init + [last];
      forall k | 0 <= k < |s| - 1 ensures s[k] == init[k] {
      }
      forall k | 0 <= k < |s| && Truthy(s[k].name) && (forall l :: k < l < |s| ==> s[l].name != s[k].name)
        ensures NamedOf(m, s)[s[k].name.value] == s[k]
      {
        if k < |s| - 1 {
          assert last.name != s[k].name;
          assert forall l :: k < l < |init| ==> init[l].name != init[k].name by {
            forall l | k < l < |init| ensures init[l].name != init[k].name {
              assert init[l] == s[l];
            }
          }
        }
      }
      forall n | n in m && (forall k :: 0 <= k < |s| ==> s[k].name != Some(n)) ensures n in NamedOf(m, s) && NamedOf(m, s)[n] == m[n] {
        assert last.name != Some(n);
        assert forall k :: 0 <= k < |init| ==> init[k].name != Some(n) by {
          forall k | 0 <= k < |init| ensures init[k].name != Some(n) {
            assert init[k] == s[k];
          }
        }
      }
    }
  }

  /** Sorting one layer permutes its items and changes nothing else. */
  lemma {:induction false} SortedInSpec(ls: map<string, Layer>, key: string)
    ensures var r := SortedIn(ls, key);
      r.Keys == ls.Keys &&
      (forall n :: n in ls ==> r[n].flags == ls[n].flags && multiset(r[n].items) == multiset(ls[n].items)) &&
      (forall n :: n in ls && n != key ==> r[n] == ls[n])
  {
    if key in ls {
      SortItemsSpec(ls[key].items, ls[key].flags.sortBy);
    }
  }

  /** What `loadLevel` leaves in each layer (layers.js:403-453): the layers
      and their flags stay; a listed `clearOnLoad` layer holds only the new
      entities and maps routed to it, any other layer keeps its items and
      gains those. Only 'entities' is re-sorted, so every other layer keeps
      the exact order. */
  lemma {:induction false} LoadedLayers(ls: map<string, Layer>, order: seq<string>, spawned: seq<Item>, maps: seq<Item>, n: string)
    requires n in ls
    ensures var r := Placed(SortedIn(Placed(Cleared(ls, order), spawned), "entities"), maps);
      var base := if n in order && ls[n].flags.clearOnLoad then [] else ls[n].items;
      r.Keys == ls.Keys && r[n].flags == ls[n].flags &&
      multiset(r[n].items) == multiset(base) + multiset(QueuedFor(spawned, n)) + multiset(QueuedFor(maps, n)) &&
      (n != "entities" ==> r[n].items == base + QueuedFor(spawned, n) + QueuedFor(maps, n))
  {
    var c := Cleared(ls, order);
    var p := Placed(c, spawned);
    PlacedSpec(c, spawned);
    var s := SortedIn(p, "entities");
    SortedInSpec(p, "entities");
    PlacedSpec(s, maps);
  }

  /** After a load, a listed `clearOnLoad` layer holds nothing but the new
      entities and maps whose `_layer` names it. */
  lemma {:induction false} LoadedClears(ls: map<string, Layer>, order: seq<string>, spawned: seq<Item>, maps: seq<Item>, n: string)
    requires n in ls && n in order && ls[n].flags.clearOnLoad
    ensures var r := Placed(SortedIn(Placed(Cleared(ls, order), spawned), "entities"), maps);
      n in r && forall it :: it in r[n].items ==> (it in spawned || it in maps) && Home(it) == n
  {
    LoadedLayers(ls, order, spawned, maps, n);
    var r := Placed(SortedIn(Placed(Cleared(ls, order), spawned), "entities"), maps);
    forall it | it in r[n].items ensures (it in spawned || it in maps) && Home(it) == n {
      assert it in multiset(r[n].items);
      QueuedForMember(spawned, n, it);
      QueuedForMember(maps, n, it);
    }
  }

  /** Clearing layers keeps the registry consistent. */
  lemma {:induction false} ConsistentCleared(ls: map<string, Layer>, order: seq<string>)
    requires Consistent(ls)
    ensures Consistent(Cleared(ls, order))
  {
    ConsistentWithin(ls, Cleared(ls, order));
  }

  /** Sorting a layer keeps the registry consistent. */
  lemma {:induction false} ConsistentSortedIn(ls: map<string, Layer>, key: string)
    requires Consistent(ls)
    ensures Consistent(SortedIn(ls, key))
  {
    var r := SortedIn(ls, key);
    SortedInSpec(ls, key);
    forall n, it | n in r && it in r[n].items ensures n in ls && it in ls[n].items {
      assert it in multiset(r[n].items);
    }
    ConsistentWithin(ls, r);
  }

  /** Placing items by their own `_layer` keeps the registry consistent. */
  lemma {:induction false} ConsistentPlaced(ls: map<string, Layer>, s: seq<Item>)
    requires Consistent(ls)
    ensures Consistent(Placed(ls, s))
  {
    var r := Placed(ls, s);
    PlacedSpec(ls, s);
    forall n, it | n in r && it in r[n].items ensures PropertyKey(it.layer) == n {
      if it !in ls[n].items {
        assert it in QueuedFor(s, n);
        QueuedForMember(s, n, it);
      }
    }
  }

  /** A whole load keeps the registry consistent. */
  lemma {:induction false} ConsistentLoaded(ls: map<string, Layer>, order: seq<string>, spawned: seq<Item>, maps: seq<Item>)
    requires Consistent(ls)
    ensures Consistent(Placed(SortedIn(Placed(Cleared(ls, order), spawned), "entities"), maps))
  {
    ConsistentCleared(ls, order);
    ConsistentPlaced(Cleared(ls, order), spawned);
    ConsistentSortedIn(Placed(Cleared(ls, order), spawned), "entities");
    ConsistentPlaced(SortedIn(Placed(Cleared(ls, order), spawned), "entities"), maps);
  }
}
