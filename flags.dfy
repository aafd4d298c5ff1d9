/** Optional values, the errors the layer manager raises, and the layer flag record. */
module Outcomes {
  datatype Option<T> = None | Some(value: T)

  /** The failures a call can end in. `UnknownLayer` and `InvalidItem` are the
      errors layers.js throws on purpose; `MissingLayer` is the TypeError JS
      raises when code reads `.items` (or another property) of a layer that is
      not in the map; `UnknownEntityType` is the spawn error. */
  datatype Error =
    | UnknownLayer(name: string)
    | InvalidItem
    | UnknownEntityType(tag: string)
    | MissingLayer(name: string)

  datatype Outcome = Ok | Fail(error: Error)

  /** A value, or the error a call ended in. */
  datatype Result<T> = Success(value: T) | Failure(error: Error)

  /** JS converts a property key to a string: `layers[undefined]` reads key "undefined". */
  function PropertyKey(name: Option<string>): (k: string)
    ensures name.Some? ==> k == name.value
  {
    match name
    case Some(n) => n
    case None => "undefined"
  }

  /** A layer-name argument is truthy when present and not the empty string. */
  predicate Truthy(name: Option<string>)
  {
    name.Some? && name.value != ""
  }

  /** `arg || fallback` on an optional layer-name argument. */
  function OrDefault(arg: Option<string>, fallback: string): string
  {
    if Truthy(arg) then arg.value else fallback
  }

  /** Extending a prefix of `s` by the next element of `s`. */
  lemma TakeSnoc<T>(s: seq<T>, i: nat)
    requires i < |s|
    ensures s[..i] + [s[i]] == s[..i + 1]
  {
  }
}

/** The properties a layer record carries and `ig.merge` into it. */
module LayerFlags {
  import opened Outcomes

  /** The comparators of `ig.Game.SORT`: by z-index, by right edge, by bottom edge. */
  datatype SortKey = ZIndex | PosX | PosY

  /** The boolean properties of a layer; a property JS never set reads as false. */
  datatype Flag = NoUpdate | NoDraw | MapLayer | EntityLayer | ClearOnLoad | AutoSort | Clean | DoSortEntities

  datatype Flags = Flags(
    noUpdate: bool,
    noDraw: bool,
    mapLayer: bool,
    entityLayer: bool,
    clearOnLoad: bool,
    autoSort: bool,
    clean: bool,
    doSortEntities: bool,  // `_doSortEntities`
    sortBy: Option<SortKey>)

  /** The flags of the empty object `{}` that a new layer starts from. */
  const Unset := Flags(false, false, false, false, false, false, false, false, None)

  function Get(f: Flags, n: Flag): bool
  {
    match n
    case NoUpdate => f.noUpdate
    case NoDraw => f.noDraw
    case MapLayer => f.mapLayer
    case EntityLayer => f.entityLayer
    case ClearOnLoad => f.clearOnLoad
    case AutoSort => f.autoSort
    case Clean => f.clean
    case DoSortEntities => f.doSortEntities
  }

  /** A properties object: the flags it names, with their values, and possibly a comparator. */
  datatype Patch = Patch(values: map<Flag, bool>, sortBy: Option<SortKey>)

  /** A properties object with no key at all (`{}` or `undefined`). */
  predicate IsEmpty(p: Patch)
  {
    p.values == map[] && p.sortBy.None?
  }

  function Pick(p: Patch, n: Flag, current: bool): bool
  {
    if n in p.values then p.values[n] else current
  }

  /** `ig.merge(layer, properties)` restricted to the flag record: every key of
      the properties object overrides, every other flag is kept. */
  function Merge(f: Flags, p: Patch): Flags
  {
    Flags(
      Pick(p, NoUpdate, f.noUpdate),
      Pick(p, NoDraw, f.noDraw),
      Pick(p, MapLayer, f.mapLayer),
      Pick(p, EntityLayer, f.entityLayer),
      Pick(p, ClearOnLoad, f.clearOnLoad),
      Pick(p, AutoSort, f.autoSort),
      Pick(p, Clean, f.clean),
      Pick(p, DoSortEntities, f.doSortEntities),
      if p.sortBy.Some? then p.sortBy else f.sortBy)
  }

  /** After a merge, a flag holds the value the properties object gives it, or
      its previous value when the object does not name it; so does the comparator. */
  lemma {:induction false} MergeGet(f: Flags, p: Patch, n: Flag)
    ensures Get(Merge(f, p), n) == if n in p.values then p.values[n] else Get(f, n)
    ensures Merge(f, p).sortBy == if p.sortBy.Some? then p.sortBy else f.sortBy
  {
    match n
    case NoUpdate =>
    case NoDraw =>
    case MapLayer =>
    case EntityLayer =>
    case ClearOnLoad =>
    case AutoSort =>
    case Clean =>
    case DoSortEntities =>
  }

  /** Two flag records agree when every flag and the comparator agree. */
  lemma {:induction false} FlagsExt(f: Flags, g: Flags)
    requires forall n :: Get(f, n) == Get(g, n)
    requires f.sortBy == g.sortBy
    ensures f == g
  {
    assert Get(f, NoUpdate) == Get(g, NoUpdate);
    assert Get(f, NoDraw) == Get(g, NoDraw);
    assert Get(f, MapLayer) == Get(g, MapLayer);
    assert Get(f, EntityLayer) == Get(g, EntityLayer);
    assert Get(f, ClearOnLoad) == Get(g, ClearOnLoad);
    assert Get(f, AutoSort) == Get(g, AutoSort);
    assert Get(f, Clean) == Get(g, Clean);
    assert Get(f, DoSortEntities) == Get(g, DoSortEntities);
  }

  /** The properties object that results from writing `p` and then `q` into one object. */
  function Then(p: Patch, q: Patch): Patch
  {
    Patch(p.values + q.values, if q.sortBy.Some? then q.sortBy else p.sortBy)
  }

  /** Merging two queued properties objects one after the other equals merging
      their union once, the later one winning on shared keys. */
  lemma {:induction false} MergeThen(f: Flags, p: Patch, q: Patch)
    ensures Merge(Merge(f, p), q) == Merge(f, Then(p, q))
  {
    forall n ensures Get(Merge(Merge(f, p), q), n) == Get(Merge(f, Then(p, q)), n) {
      MergeGet(f, p, n);
      MergeGet(Merge(f, p), q, n);
      MergeGet(f, Then(p, q), n);
    }
    MergeGet(f, p, NoUpdate);
    MergeGet(Merge(f, p), q, NoUpdate);
    MergeGet(f, Then(p, q), NoUpdate);
    FlagsExt(Merge(Merge(f, p), q), Merge(f, Then(p, q)));
  }

  /** Merging the same properties twice changes nothing the first merge did not. */
  lemma {:induction false} MergeIdempotent(f: Flags, p: Patch)
    ensures Merge(Merge(f, p), p) == Merge(f, p)
  {
    MergeThen(f, p, p);
    assert Then(p, p) == p;
  }

  /** Merging an empty properties object is the identity. */
  lemma {:induction false} MergeEmpty(f: Flags, p: Patch)
    requires IsEmpty(p)
    ensures Merge(f, p) == f
  {
    forall n ensures Get(Merge(f, p), n) == Get(f, n) {
      MergeGet(f, p, n);
    }
    MergeGet(f, p, NoUpdate);
    FlagsExt(Merge(f, p), f);
  }
}
