/** Items (entities and background maps) and the layers that hold them. */
module LayerItems {
  import opened Outcomes
  import opened LayerFlags

  /** `ig.Entity.TYPE.NONE` and `ig.Entity.COLLIDES.NEVER`. */
  const TYPE_NONE := 0
  const COLLIDES_NEVER := 0

  /** An object placed on a layer. Its identity is the object reference; `layer`
      is the `_layer` back-reference that `addItem` writes. */
  class Item {
    const id: nat                // `ig.Entity` id, the key of the broad-phase `checked` set
    const name: Option<string>   // `name`, looked up by `getMapByName`
    const classes: set<string>   // the classes the object is an `instanceof`
    const hasCleanUp: bool       // whether it defines `_cleanUp`
    var layer: Option<string>
    const x: int                 // `pos.x`
    const y: int                 // `pos.y`
    const w: int                 // `size.x`
    const h: int                 // `size.y`
    const zIndex: int
    const entityType: int        // `type`
    const checkAgainst: int
    const collides: int
    var killed: bool             // `_killed`

    constructor (id: nat, name: Option<string>, classes: set<string>, hasCleanUp: bool,
                 layer: Option<string>, x: int, y: int, w: int, h: int, zIndex: int,
                 entityType: int, checkAgainst: int, collides: int)
      ensures this.id == id && this.name == name && this.classes == classes
      ensures this.hasCleanUp == hasCleanUp && this.layer == layer
      ensures this.x == x && this.y == y && this.w == w && this.h == h && this.zIndex == zIndex
      ensures this.entityType == entityType && this.checkAgainst == checkAgainst
      ensures this.collides == collides && !this.killed
    {
      this.id := id;
      this.name := name;
      this.classes := classes;
      this.hasCleanUp := hasCleanUp;
      this.layer := layer;
      this.x, this.y, this.w, this.h := x, y, w, h;
      this.zIndex := zIndex;
      this.entityType, this.checkAgainst, this.collides := entityType, checkAgainst, collides;
      this.killed := false;
    }
  }

  /** An entity that neither checks, is checked, nor collides is skipped by the broad phase. */
  predicate Inert(it: Item)
  {
    it.entityType == TYPE_NONE && it.checkAgainst == TYPE_NONE && it.collides == COLLIDES_NEVER
  }

  /** A layer record: its flags and its `items` array. */
  datatype Layer = Layer(flags: Flags, items: seq<Item>)

  /** Calls out of the layer manager into code it does not own, in call order. */
  datatype Event =
    | Updated(item: Item)        // item.update()
    | Drawn(item: Item)          // item.draw()
    | CleanedUp(item: Item)      // item._cleanUp()
    | Readied(item: Item)        // item.ready()
    | Pair(a: Item, b: Item)     // ig.Entity.checkPair(a, b)

  /** Every item of layer `n` leads back to `n`: `layers[item._layer]` is its layer. */
  ghost predicate Consistent(ls: map<string, Layer>)
    reads ItemsOf(ls)
  {
    forall n, it :: n in ls && it in ls[n].items ==> PropertyKey(it.layer) == n
  }

  function ItemsOf(ls: map<string, Layer>): set<Item>
  {
    set n, it | n in ls && it in ls[n].items :: it
  }

  /** A registry whose layers hold only items that a consistent registry
      holds in the same layers is consistent too. */
  lemma ConsistentWithin(ls: map<string, Layer>, ls': map<string, Layer>)
    requires Consistent(ls)
    requires forall n, it :: n in ls' && it in ls'[n].items ==> n in ls && it in ls[n].items
    ensures Consistent(ls')
  {
  }

  // ---------------------------------------------------------------- removal

  /** `Array.prototype.indexOf` by reference. */
  function IndexOf(s: seq<Item>, it: Item): (x: int)
    ensures -1 <= x < |s|
    ensures x >= 0 ==> s[x] == it && it !in s[..x]
    ensures x < 0 <==> it !in s
  {
    if s == [] then -1
    else if s[0] == it then 0
    else
      var x := IndexOf(s[1..], it);
      assert x >= 0 ==> s[1..][..x] == s[1..x + 1];
      if x < 0 then -1 else x + 1
  }

  /** `x = items.indexOf(item); if (x >= 0) items.splice(x, 1)`. */
  function Removed(s: seq<Item>, it: Item): seq<Item>
  {
    var x := IndexOf(s, it);
    if x < 0 then s else s[..x] + s[x + 1..]
  }

  /** Removing takes away exactly one copy of the item when it is present, and
      leaves the sequence alone when it is not. */
  lemma {:induction false} RemovedCount(s: seq<Item>, it: Item)
    ensures multiset(Removed(s, it)) == multiset(s) - multiset{it}
    ensures it !in s ==> Removed(s, it) == s
    ensures it in s ==> |Removed(s, it)| == |s| - 1
  {
    var x := IndexOf(s, it);
    if x >= 0 {
      assert s == s[..x] + [it] + s[x + 1..];
      calc {
        multiset(s);
        multiset(s[..x]) + multiset{it} + multiset(s[x + 1..]);
        multiset(s[..x] + s[x + 1..]) + multiset{it};
      }
    } else {
      assert multiset(s)[it] == 0;
    }
  }

  // ---------------------------------------------------------------- sorting

  /** The key the `ig.Game.SORT` comparator compares: z-index, right edge or bottom edge. */
  function Key(it: Item, k: SortKey): int
  {
    match k
    case ZIndex => it.zIndex
    case PosX => it.x + it.w
    case PosY => it.y + it.h
  }

  predicate SortedBy(s: seq<Item>, k: SortKey)
  {
    forall i, j :: 0 <= i < j < |s| ==> Key(s[i], k) <= Key(s[j], k)
  }

  /** Insert `it` before the first element whose key is not smaller. */
  function Insert(it: Item, s: seq<Item>, k: SortKey): (r: seq<Item>)
    ensures multiset(r) == multiset(s) + multiset{it}
  {
    if s == [] || Key(it, k) <= Key(s[0], k) then [it] + s
    else
      assert s == [s[0]] + s[1..];
      [s[0]] + Insert(it, s[1..], k)
  }

  /** A stable sort by key: the later elements are sorted first and the head
      goes in front of every element with an equal key. */
  function SortByKey(s: seq<Item>, k: SortKey): (r: seq<Item>)
    ensures multiset(r) == multiset(s)
  {
    if s == [] then []
    else
      var rest := SortByKey(s[1..], k);
      assert s == [s[0]] + s[1..];
      assert forall o :: o in rest ==> o in multiset(s[1..]);
      assert forall o :: o in rest ==> o in s;
      Insert(s[0], rest, k)
  }

  /** `items.sort(comparator)`. Without a comparator JS compares the items'
      string forms, which are all "[object Object]", and its stable sort then
      leaves the array as it is. */
  function SortItems(s: seq<Item>, cmp: Option<SortKey>): seq<Item>
  {
    match cmp
    case None => s
    case Some(k) => SortByKey(s, k)
  }

  lemma {:induction false} InsertSorted(it: Item, s: seq<Item>, k: SortKey)
    requires SortedBy(s, k)
    ensures SortedBy(Insert(it, s, k), k)
  {
    if s != [] && Key(it, k) > Key(s[0], k) {
      var tail := s[1..];
      assert SortedBy(tail, k);
      InsertSorted(it, tail, k);
      var r := Insert(it, tail, k);
      forall j | 0 <= j < |r| ensures Key(s[0], k) <= Key(r[j], k) {
        assert r[j] in multiset(tail) + multiset{it};
        if r[j] != it {
          assert r[j] in tail;
        }
      }
      assert Insert(it, s, k) == [s[0]] + r;
      SortedCons(s[0], r, k);
    }
  }

  lemma {:induction false} SortedCons(x: Item, r: seq<Item>, k: SortKey)
    requires SortedBy(r, k)
    requires forall j :: 0 <= j < |r| ==> Key(x, k) <= Key(r[j], k)
    ensures SortedBy([x] + r, k)
  {
    var s := [x] + r;
    forall i, j | 0 <= i < j < |s| ensures Key(s[i], k) <= Key(s[j], k) {
      if i > 0 {
        assert s[i] == r[i - 1] && s[j] == r[j - 1];
      } else {
        assert s[j] == r[j - 1];
      }
    }
  }

  /** The sort orders the items by key. */
  lemma {:induction false} SortByKeySorted(s: seq<Item>, k: SortKey)
    ensures SortedBy(SortByKey(s, k), k)
  {
    if s != [] {
      SortByKeySorted(s[1..], k);
      InsertSorted(s[0], SortByKey(s[1..], k), k);
    }
  }

  /** Sorting an already sorted array leaves it unchanged; in particular
      sorting twice is sorting once. */
  lemma {:induction false} SortByKeyOfSorted(s: seq<Item>, k: SortKey)
    requires SortedBy(s, k)
    ensures SortByKey(s, k) == s
  {
    if s != [] {
      assert SortedBy(s[1..], k);
      SortByKeyOfSorted(s[1..], k);
      assert s == [s[0]] + s[1..];
    }
  }

  /** The items whose key is `v`, in their order in `s`. */
  function WithKey(s: seq<Item>, k: SortKey, v: int): seq<Item>
  {
    if s == [] then []
    else (if Key(s[0], k) == v then [s[0]] else []) + WithKey(s[1..], k, v)
  }

  lemma {:induction false} WithKeyCons(x: Item, s: seq<Item>, k: SortKey, v: int)
    ensures WithKey([x] + s, k, v) == (if Key(x, k) == v then [x] else []) + WithKey(s, k, v)
  {
    assert ([x] + s)[0] == x && ([x] + s)[1..] == s;
  }

  /** Inserting an item puts it in front of every item with its key and
      changes the order of no key's items. */
  lemma {:induction false} InsertWithKey(it: Item, s: seq<Item>, k: SortKey, v: int)
    ensures WithKey(Insert(it, s, k), k, v) == (if Key(it, k) == v then [it] else []) + WithKey(s, k, v)
  {
    if s == [] || Key(it, k) <= Key(s[0], k) {
      WithKeyCons(it, s, k, v);
    } else {
      InsertWithKey(it, s[1..], k, v);
      WithKeyCons(s[0], Insert(it, s[1..], k), k, v);
      WithKeyCons(s[0], s[1..], k, v);
      assert s == [s[0]] + s[1..];
    }
  }

  /** The sort is stable: the items sharing any one key keep their relative
      order. */
  lemma {:induction false} SortByKeyStable(s: seq<Item>, k: SortKey, v: int)
    ensures WithKey(SortByKey(s, k), k, v) == WithKey(s, k, v)
  {
    if s != [] {
      SortByKeyStable(s[1..], k, v);
      InsertWithKey(s[0], SortByKey(s[1..], k), k, v);
    }
  }

  /** Sorting with or without a comparator permutes the items and, with one,
      orders them by its key while the items of each key keep their order. */
  lemma {:induction false} SortItemsSpec(s: seq<Item>, cmp: Option<SortKey>)
    ensures multiset(SortItems(s, cmp)) == multiset(s)
    ensures cmp.Some? ==> SortedBy(SortItems(s, cmp), cmp.value)
    ensures cmp.Some? ==> forall v :: WithKey(SortItems(s, cmp), cmp.value, v) == WithKey(s, cmp.value, v)
    ensures cmp.None? ==> SortItems(s, cmp) == s
  {
    if cmp.Some? {
      SortByKeySorted(s, cmp.value);
      forall v ensures WithKey(SortItems(s, cmp), cmp.value, v) == WithKey(s, cmp.value, v) {
        SortByKeyStable(s, cmp.value, v);
      }
    }
  }
}
