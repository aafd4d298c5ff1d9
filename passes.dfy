/** What one tick's passes over `layerOrder` do, and the read-only lookups, as
    functions of the layer map. */
module LayerPasses {
  import opened Outcomes
  import opened LayerFlags
  import opened LayerItems
  import opened SpatialHash
  import opened LevelData

  // ---------------------------------------------------------------- item calls

  /** The three loops that call one method on every item of a selected layer. */
  datatype Walk = UpdateWalk | DrawWalk | ReadyWalk

  /** Which layers a walk calls into: the update pass skips `noUpdate` and
      `mapLayer` layers, the draw pass `noDraw` layers, and the ready loop of
      `loadLevel` visits entity layers only. */
  predicate Selected(f: Flags, w: Walk)
  {
    match w
    case UpdateWalk => !f.noUpdate && !f.mapLayer
    case DrawWalk => !f.noDraw
    case ReadyWalk => f.entityLayer
  }

  function Call(w: Walk, it: Item): Event
  {
    match w
    case UpdateWalk => Updated(it)
    case DrawWalk => Drawn(it)
    case ReadyWalk => Readied(it)
  }

  /** `for (xx = 0; xx < items.length; xx++) items[xx].method()`. */
  function Calls(s: seq<Item>, w: Walk): seq<Event>
  {
    if s == [] then [] else Calls(s[..|s| - 1], w) + [Call(w, s[|s| - 1])]
  }

  /** The loop calls each item once, in order. */
  lemma {:induction false} CallsAt(s: seq<Item>, w: Walk)
    ensures |Calls(s, w)| == |s|
    ensures forall k :: 0 <= k < |s| ==> Calls(s, w)[k] == Call(w, s[k])
  {
    if s != [] {
      CallsAt(s[..|s| - 1], w);
    }
  }

  lemma {:induction false} CallsSnoc(s: seq<Item>, it: Item, w: Walk)
    ensures Calls(s + [it], w) == Calls(s, w) + [Call(w, it)]
  {
    assert (s + [it])[..|s|] == s;
  }

  lemma {:induction false} CallsMember(s: seq<Item>, w: Walk, it: Item)
    ensures Call(w, it) in Calls(s, w) <==> it in s
  {
    CallsAt(s, w);
    if Call(w, it) in Calls(s, w) {
      var k :| 0 <= k < |Calls(s, w)| && Calls(s, w)[k] == Call(w, it);
      assert s[k] == it;
    }
    if it in s {
      var k :| 0 <= k < |s| && s[k] == it;
      assert Calls(s, w)[k] == Call(w, it);
    }
  }

  // ---------------------------------------------------------------- draw and ready

  /** The calls a walk made and how it ended. */
  datatype Trace = Trace(events: seq<Event>, outcome: Outcome)

  /** A walk over the names of `order` (the draw loop, layers.js:360-369, and
      the ready loop, layers.js:455-466): reading `.items` of a name with no
      layer is a TypeError that ends the walk. */
  function WalkLayers(ls: map<string, Layer>, order: seq<string>, w: Walk): Trace
  {
    if order == [] then Trace([], Ok)
    else
      var pre := WalkLayers(ls, order[..|order| - 1], w);
      var name := order[|order| - 1];
      if pre.outcome.Fail? then pre
      else if name !in ls then Trace(pre.events, Fail(MissingLayer(name)))
      else if Selected(ls[name].flags, w) then Trace(pre.events + Calls(ls[name].items, w), Ok)
      else pre
  }

  /** A walk fails exactly when a listed name has no layer, and then names the
      first such name. */
  lemma {:induction false} WalkOk(ls: map<string, Layer>, order: seq<string>, w: Walk)
    ensures WalkLayers(ls, order, w).outcome.Ok? <==> forall k :: 0 <= k < |order| ==> order[k] in ls
    ensures WalkLayers(ls, order, w).outcome.Fail? ==>
              exists k :: 0 <= k < |order| && order[k] !in ls &&
                WalkLayers(ls, order, w).outcome == Fail(MissingLayer(order[k])) &&
                forall j :: 0 <= j < k ==> order[j] in ls
  {
    if order != [] {
      var m := |order| - 1;
      var init := order[..m];
      WalkOk(ls, init, w);
      assert forall k :: 0 <= k < m ==> init[k] == order[k];
    }
  }

  /** A walk stops at its first missing layer: names after it change nothing. */
  lemma {:induction false} WalkSticky(ls: map<string, Layer>, order: seq<string>, n: nat, w: Walk)
    requires n <= |order| && WalkLayers(ls, order[..n], w).outcome.Fail?
    ensures WalkLayers(ls, order, w) == WalkLayers(ls, order[..n], w)
    decreases |order|
  {
    if n < |order| {
      var m := |order| - 1;
      assert order[..m][..n] == order[..n];
      WalkSticky(ls, order[..m], n, w);
    } else {
      assert order[..n] == order;
    }
  }

  /** When the walk completes, it called an item exactly when the item sits in
      a selected layer listed in `order`; a layer listed twice is walked twice. */
  lemma {:induction false} WalkCalls(ls: map<string, Layer>, order: seq<string>, w: Walk, it: Item)
    requires WalkLayers(ls, order, w).outcome.Ok?
    ensures Call(w, it) in WalkLayers(ls, order, w).events <==>
              exists k :: 0 <= k < |order| && order[k] in ls && Selected(ls[order[k]].flags, w) && it in ls[order[k]].items
  {
    if order != [] {
      var m := |order| - 1;
      var init := order[..m];
      var name := order[m];
      WalkCalls(ls, init, w, it);
      assert forall k :: 0 <= k < m ==> init[k] == order[k];
      if Selected(ls[name].flags, w) {
        CallsMember(ls[name].items, w, it);
      }
    }
  }

  // ---------------------------------------------------------------- lookups

  /** The index of the first item whose `name` is `name`, or -1. */
  function FirstNamed(s: seq<Item>, name: Option<string>): (x: int)
    ensures -1 <= x < |s|
    ensures x >= 0 ==> s[x].name == name && forall j :: 0 <= j < x ==> s[j].name != name
    ensures x < 0 <==> forall j :: 0 <= j < |s| ==> s[j].name != name
  {
    if s == [] then -1
    else if s[0].name == name then 0
    else
      var x := FirstNamed(s[1..], name);
      if x < 0 then -1 else x + 1
  }

  /** What `getMapByName` hands back. */
  datatype MapRef = CollisionRef(grid: CollisionMap) | MapItem(item: Item) | Null

  /** The scan of `getMapByName` for a name other than "collision"
      (layers.js:231-246): the layers of `order` in turn, map layers only,
      first item with that name. */
  function FindMap(ls: map<string, Layer>, order: seq<string>, name: Option<string>): Result<MapRef>
  {
    if order == [] then Success(Null)
    else if order[0] !in ls then Failure(MissingLayer(order[0]))
    else
      var l := ls[order[0]];
      if l.flags.mapLayer && FirstNamed(l.items, name) >= 0 then Success(MapItem(l.items[FirstNamed(l.items, name)]))
      else FindMap(ls, order[1..], name)
  }

  /** `order[k]` is the first listed layer that is a map layer holding an
      item of that name, and every layer listed before it is present. */
  predicate FirstMapLayer(ls: map<string, Layer>, order: seq<string>, name: Option<string>, k: int)
  {
    0 <= k < |order| && order[k] in ls && ls[order[k]].flags.mapLayer &&
    FirstNamed(ls[order[k]].items, name) >= 0 &&
    forall j :: 0 <= j < k ==> order[j] in ls && NoMapNamed(ls[order[j]], name)
  }

  /** A found map is the first item of that name in the first listed map
      layer holding one; every earlier listed layer is present and holds no
      map of that name. */
  lemma {:induction false} FindMapFound(ls: map<string, Layer>, order: seq<string>, name: Option<string>)
    ensures var r := FindMap(ls, order, name);
      r.Success? && r.value.MapItem? ==>
        r.value.item.name == name &&
        exists k :: FirstMapLayer(ls, order, name, k) &&
          r.value.item == ls[order[k]].items[FirstNamed(ls[order[k]].items, name)]
  {
    var r := FindMap(ls, order, name);
    if order != [] && order[0] in ls && r.Success? && r.value.MapItem? {
      var l := ls[order[0]];
      if l.flags.mapLayer && FirstNamed(l.items, name) >= 0 {
        assert FirstMapLayer(ls, order, name, 0);
      } else {
        var rest := order[1..];
        FindMapFound(ls, rest, name);
        assert r == FindMap(ls, rest, name);
        var k :| FirstMapLayer(ls, rest, name, k) &&
          r.value.item == ls[rest[k]].items[FirstNamed(ls[rest[k]].items, name)];
        assert order[k + 1] == rest[k];
        assert forall j :: 1 <= j < k + 1 ==> order[j] == rest[j - 1];
        assert NoMapNamed(l, name);
        assert FirstMapLayer(ls, order, name, k + 1);
      }
    }
  }

  /** A map of that name in a listed map layer, with every layer listed up to
      it present, is always found. */
  lemma {:induction false} FindMapReaches(ls: map<string, Layer>, order: seq<string>, name: Option<string>, k: nat)
    requires k < |order| && forall j :: 0 <= j <= k ==> order[j] in ls
    requires ls[order[k]].flags.mapLayer && FirstNamed(ls[order[k]].items, name) >= 0
    ensures FindMap(ls, order, name).Success? && FindMap(ls, order, name).value.MapItem?
  {
    var l := ls[order[0]];
    if !(l.flags.mapLayer && FirstNamed(l.items, name) >= 0) {
      var rest := order[1..];
      assert k > 0;
      assert forall j :: 0 <= j <= k - 1 ==> rest[j] == order[j + 1];
      FindMapReaches(ls, rest, name, k - 1);
    }
  }

  /** The result is null exactly when every listed layer is present and no
      listed map layer holds a map of that name; the scan never returns the
      collision map. */
  lemma {:induction false} FindMapNull(ls: map<string, Layer>, order: seq<string>, name: Option<string>)
    ensures var r := FindMap(ls, order, name);
      (r.Success? && r.value.Null? ==> forall k :: 0 <= k < |order| ==> order[k] in ls && NoMapNamed(ls[order[k]], name)) &&
      (r.Success? ==> !r.value.CollisionRef?)
    ensures (forall k :: 0 <= k < |order| ==> order[k] in ls && NoMapNamed(ls[order[k]], name)) ==>
      FindMap(ls, order, name) == Success(Null)
  {
    if order != [] && order[0] in ls {
      var l := ls[order[0]];
      if !(l.flags.mapLayer && FirstNamed(l.items, name) >= 0) {
        var rest := order[1..];
        FindMapNull(ls, rest, name);
        assert forall k :: 1 <= k < |order| ==> order[k] == rest[k - 1];
      }
    }
  }

  /** A failure names the first listed layer that is missing, and no
      listed map layer before it holds a map of that name. */
  lemma {:induction false} FindMapMissing(ls: map<string, Layer>, order: seq<string>, name: Option<string>)
    ensures var r := FindMap(ls, order, name);
      r.Failure? ==>
        exists k :: 0 <= k < |order| && order[k] !in ls && r.error == MissingLayer(order[k]) &&
          forall j :: 0 <= j < k ==> order[j] in ls && NoMapNamed(ls[order[j]], name)
  {
    if order != [] && order[0] in ls {
      var l := ls[order[0]];
      if !(l.flags.mapLayer && FirstNamed(l.items, name) >= 0) {
        var rest := order[1..];
        FindMapMissing(ls, rest, name);
        var r := FindMap(ls, order, name);
        if r.Failure? {
          var k :| 0 <= k < |rest| && rest[k] !in ls && r.error == MissingLayer(rest[k]) &&
            forall j :: 0 <= j < k ==> rest[j] in ls && NoMapNamed(ls[rest[j]], name);
          assert order[k + 1] == rest[k];
          assert forall j :: 1 <= j < k + 1 ==> order[j] == rest[j - 1];
        }
      }
    }
  }

  /** The layer holds no map of that name (or is no map layer at all). */
  predicate NoMapNamed(l: Layer, name: Option<string>)
  {
    l.flags.mapLayer ==> forall it :: it in l.items ==> it.name != name
  }

  /** The items not `_killed`, in order. */
  function Live(s: seq<Item>): seq<Item>
    reads s
  {
    if s == [] then [] else Live(s[..|s| - 1]) + if s[|s| - 1].killed then [] else [s[|s| - 1]]
  }

  /** The live items are the items not `_killed`, each as often as it occurs. */
  lemma {:induction false} LiveSpec(s: seq<Item>)
    ensures forall it: Item :: multiset(Live(s))[it] == if it.killed then 0 else multiset(s)[it]
    ensures multiset(Live(s)) <= multiset(s)
  {
    if s != [] {
      var init := s[..|s| - 1];
      var last := s[|s| - 1];
      LiveSpec(init);
      assert s == init + [last];
      assert multiset(s) == multiset(init) + multiset{last};
      var tail := if last.killed then [] else [last];
      assert Live(s) == Live(init) + tail;
      forall it: Item ensures multiset(Live(s))[it] == if it.killed then 0 else multiset(s)[it] {
        assert multiset(Live(s))[it] == multiset(Live(init))[it] + multiset(tail)[it];
      }
    }
  }

  lemma {:induction false} LiveSnoc(s: seq<Item>, it: Item)
    ensures Live(s + [it]) == if it.killed then Live(s) else Live(s) + [it]
  {
    assert (s + [it])[..|s|] == s;
    assert Live(s) + [] == Live(s);
  }

  /** `getEntitiesByType`'s filter (layers.js:215-220): the items that are an
      instance of the class tagged `tag` and not `_killed`, in order. */
  function OfType(s: seq<Item>, tag: string): seq<Item>
    reads s
  {
    if s == [] then []
    else OfType(s[..|s| - 1], tag) + if tag in s[|s| - 1].classes && !s[|s| - 1].killed then [s[|s| - 1]] else []
  }

  /** The result holds each live instance as often as the layer does, and
      nothing else. */
  lemma {:induction false} OfTypeSpec(s: seq<Item>, tag: string)
    ensures forall it: Item :: multiset(OfType(s, tag))[it] == if tag in it.classes && !it.killed then multiset(s)[it] else 0
    ensures multiset(OfType(s, tag)) <= multiset(s)
  {
    if s != [] {
      var init := s[..|s| - 1];
      var last := s[|s| - 1];
      OfTypeSpec(init, tag);
      assert s == init + [last];
      assert multiset(s) == multiset(init) + multiset{last};
      var tail := if tag in last.classes && !last.killed then [last] else [];
      assert OfType(s, tag) == OfType(init, tag) + tail;
      forall it: Item ensures multiset(OfType(s, tag))[it] == if tag in it.classes && !it.killed then multiset(s)[it] else 0 {
        assert multiset(OfType(s, tag))[it] == multiset(OfType(init, tag))[it] + multiset(tail)[it];
      }
    }
  }

  lemma {:induction false} OfTypeSnoc(s: seq<Item>, tag: string, it: Item)
    ensures OfType(s + [it], tag) == OfType(s, tag) + if tag in it.classes && !it.killed then [it] else []
  {
    assert (s + [it])[..|s|] == s;
  }

  // ---------------------------------------------------------------- broad phase

  function BodyOf(it: Item): Body
  {
    Body(it.id, it.x, it.y, it.w, it.h, Inert(it))
  }

  /** The items of a layer as the broad phase sees them, in item order. */
  function Bodies(s: seq<Item>): (bs: seq<Body>)
    ensures |bs| == |s| && forall k :: 0 <= k < |s| ==> bs[k] == BodyOf(s[k])
  {
    if s == [] then [] else [BodyOf(s[0])] + Bodies(s[1..])
  }

  /** `pairs` is what one `checkEntities` pass over `s` reports: sound,
      scan-ordered, no occupant id twice within a scan, and complete. */
  predicate Reports(s: seq<Item>, pairs: seq<(nat, nat)>)
  {
    var bs := Bodies(s);
    Sound(bs, pairs) && ScanOrdered(pairs) && DistinctPerScan(bs, pairs) && Complete(bs, pairs)
  }

  /** `Reports` for each visit of a pass: `checks[k]` is what a scan of
      `checked[k]` reports. */
  predicate AllReport(checked: seq<seq<Item>>, checks: seq<seq<(nat, nat)>>)
  {
    |checked| == |checks| &&
    (checked == [] ||
     (AllReport(checked[..|checked| - 1], checks[..|checks| - 1]) &&
      Reports(checked[|checked| - 1], checks[|checks| - 1])))
  }

  lemma {:induction false} AllReportSnoc(checked: seq<seq<Item>>, checks: seq<seq<(nat, nat)>>, c: seq<Item>, pairs: seq<(nat, nat)>)
    requires AllReport(checked, checks) && Reports(c, pairs)
    ensures AllReport(checked + [c], checks + [pairs])
  {
    assert (checked + [c])[..|checked|] == checked;
    assert (checks + [pairs])[..|checks|] == checks;
  }

  /** Each visit's pairs are what a scan of its items reports. */
  lemma {:induction false} AllReportAt(checked: seq<seq<Item>>, checks: seq<seq<(nat, nat)>>, k: nat)
    requires AllReport(checked, checks) && k < |checks|
    ensures Reports(checked[k], checks[k])
  {
    var m := |checked| - 1;
    if k < m {
      AllReportAt(checked[..m], checks[..m], k);
    }
  }

  /** The `checkPair(entity, occupant)` calls for reported index pairs. */
  function PairEvents(s: seq<Item>, pairs: seq<(nat, nat)>): seq<Event>
  {
    if pairs == [] then []
    else
      (if pairs[0].0 < |s| && pairs[0].1 < |s| then [Pair(s[pairs[0].0], s[pairs[0].1])] else []) +
      PairEvents(s, pairs[1..])
  }

  /** The items `checkEntities(name)` scans: those of layer `name || 'entities'`
      when it exists and is an entity layer, none otherwise (layers.js:151-156). */
  function CheckedItems(ls: map<string, Layer>, name: Option<string>): seq<Item>
  {
    var key := OrDefault(name, "entities");
    if key in ls && ls[key].flags.entityLayer then ls[key].items else []
  }

  // ---------------------------------------------------------------- update pass

  /** `layer.sortBy || this.sortBy`. */
  function Comparator(f: Flags, fallback: Option<SortKey>): Option<SortKey>
  {
    if f.sortBy.Some? then f.sortBy else fallback
  }

  /** An entity layer is sorted when a sort was requested or it sorts itself. */
  predicate SortsOnUpdate(f: Flags)
  {
    f.entityLayer && (f.doSortEntities || f.autoSort)
  }

  /** One visit of the update pass: the layers afterwards, the calls made, the
      items `checkEntities` scanned, and how it ended. */
  datatype Step = Step(layers: map<string, Layer>, events: seq<Event>, checked: seq<Item>, outcome: Outcome)

  /** The layer after its update visit: sorted by `layer.sortBy || sortBy` with
      the request flag cleared when it sorts, as it was otherwise. */
  function AfterSort(l: Layer, fallback: Option<SortKey>): (r: Layer)
    ensures multiset(r.items) == multiset(l.items)
  {
    if SortsOnUpdate(l.flags) then
      SortItemsSpec(l.items, Comparator(l.flags, fallback));
      Layer(l.flags.(doSortEntities := false), SortItems(l.items, Comparator(l.flags, fallback)))
    else l
  }

  /** One iteration of the update pass over layer `name` (layers.js:301-320),
      with `pairs` the index pairs its `checkEntities` call reports. */
  function VisitLayer(ls: map<string, Layer>, name: string, fallback: Option<SortKey>, pairs: seq<(nat, nat)>): (v: Step)
  {
    if name !in ls then Step(ls, [], [], Fail(MissingLayer(name)))
    else
      var l := ls[name];
      if !Selected(l.flags, UpdateWalk) then Step(ls, [], [], Ok)
      else
        var l' := AfterSort(l, fallback);
        var ls' := ls[name := l'];
        var checked := if l.flags.entityLayer then CheckedItems(ls', Some(name)) else [];
        Step(ls', Calls(l.items, UpdateWalk) + PairEvents(checked, pairs), checked, Ok)
  }

  /** A visit of a present, selected layer, spelt out. */
  lemma {:induction false} VisitUnfold(ls: map<string, Layer>, name: string, fallback: Option<SortKey>, pairs: seq<(nat, nat)>)
    requires name in ls && Selected(ls[name].flags, UpdateWalk)
    ensures var ls' := ls[name := AfterSort(ls[name], fallback)];
      var checked := if ls[name].flags.entityLayer then CheckedItems(ls', Some(name)) else [];
      VisitLayer(ls, name, fallback, pairs) == Step(ls', Calls(ls[name].items, UpdateWalk) + PairEvents(checked, pairs), checked, Ok)
  {
  }

  /** The result of the update pass over a list of layer names. */
  datatype Pass = Pass(layers: map<string, Layer>, events: seq<Event>, checked: seq<seq<Item>>, outcome: Outcome)

  /** The update pass over `order` (layers.js:300-321), `checks[k]` being what
      the k-th visit's `checkEntities` reports. The first missing layer ends it
      with a TypeError; later names are not visited and scan nothing. */
  function LayerPass(ls: map<string, Layer>, order: seq<string>, fallback: Option<SortKey>, checks: seq<seq<(nat, nat)>>): (p: Pass)
    requires |checks| == |order|
    ensures |p.checked| == |order|
  {
    if order == [] then Pass(ls, [], [], Ok)
    else
      var m := |order| - 1;
      var pre := LayerPass(ls, order[..m], fallback, checks[..m]);
      if pre.outcome.Fail? then pre.(checked := pre.checked + [[]])
      else
        var v := VisitLayer(pre.layers, order[m], fallback, checks[m]);
        Pass(v.layers, pre.events + v.events, pre.checked + [v.checked], v.outcome)
  }

  /** The pass over one more name: that name's visit follows the pass so
      far, unless the pass has already failed. */
  lemma {:induction false} LayerPassSnoc(ls: map<string, Layer>, order: seq<string>, fallback: Option<SortKey>,
                                         checks: seq<seq<(nat, nat)>>, name: string, pairs: seq<(nat, nat)>)
    requires |checks| == |order|
    ensures var pre := LayerPass(ls, order, fallback, checks);
      var v := VisitLayer(pre.layers, name, fallback, pairs);
      LayerPass(ls, order + [name], fallback, checks + [pairs]) ==
        if pre.outcome.Fail? then pre.(checked := pre.checked + [[]])
        else Pass(v.layers, pre.events + v.events, pre.checked + [v.checked], v.outcome)
  {
    assert (order + [name])[..|order|] == order;
    assert (checks + [pairs])[..|order|] == checks;
  }

  /** One more visit of a pass that has not failed: the visit's layers,
      calls and outcome extend the pass's, and so do its reported pairs. */
  lemma {:induction false} LayerPassStep(ls: map<string, Layer>, order: seq<string>, fallback: Option<SortKey>,
                                         checks: seq<seq<(nat, nat)>>, name: string, pairs: seq<(nat, nat)>)
    requires |checks| == |order|
    requires var p := LayerPass(ls, order, fallback, checks);
      p.outcome.Ok? && AllReport(p.checked, checks) &&
      Reports(VisitLayer(p.layers, name, fallback, pairs).checked, pairs)
    ensures var p := LayerPass(ls, order, fallback, checks);
      var v := VisitLayer(p.layers, name, fallback, pairs);
      LayerPass(ls, order + [name], fallback, checks + [pairs]) ==
        Pass(v.layers, p.events + v.events, p.checked + [v.checked], v.outcome)
    ensures AllReport(LayerPass(ls, order + [name], fallback, checks + [pairs]).checked, checks + [pairs])
  {
    var p := LayerPass(ls, order, fallback, checks);
    LayerPassSnoc(ls, order, fallback, checks, name, pairs);
    AllReportSnoc(p.checked, checks, VisitLayer(p.layers, name, fallback, pairs).checked, pairs);
  }

  /** A skipped layer (`noUpdate` or `mapLayer`) is neither called, sorted nor checked. */
  lemma {:induction false} VisitSkips(ls: map<string, Layer>, name: string, fallback: Option<SortKey>, pairs: seq<(nat, nat)>)
    requires name in ls && (ls[name].flags.noUpdate || ls[name].flags.mapLayer)
    ensures VisitLayer(ls, name, fallback, pairs) == Step(ls, [], [], Ok)
  {
  }

  /** A visited layer has `update` called on every item, killed or not, in
      order; it is sorted (a permutation, ordered by the comparator when there
      is one) and its request flag cleared exactly when it sorts on update;
      every other layer stays as it was. */
  lemma {:induction false} VisitUpdates(ls: map<string, Layer>, name: string, fallback: Option<SortKey>, pairs: seq<(nat, nat)>)
    requires name in ls && Selected(ls[name].flags, UpdateWalk)
    ensures var v := VisitLayer(ls, name, fallback, pairs);
      var l := ls[name];
      v.outcome.Ok? && v.layers.Keys == ls.Keys &&
      (forall n :: n in ls && n != name ==> v.layers[n] == ls[n]) &&
      |l.items| <= |v.events| && v.events[..|l.items|] == Calls(l.items, UpdateWalk) &&
      (SortsOnUpdate(l.flags) ==>
         v.layers[name].flags == l.flags.(doSortEntities := false) &&
         multiset(v.layers[name].items) == multiset(l.items) &&
         (Comparator(l.flags, fallback).Some? ==> SortedBy(v.layers[name].items, Comparator(l.flags, fallback).value))) &&
      (!SortsOnUpdate(l.flags) ==> v.layers[name] == l)
  {
    var l := ls[name];
    SortItemsSpec(l.items, Comparator(l.flags, fallback));
    CallsAt(l.items, UpdateWalk);
  }

  /** An entity layer's visit scans the layer after its sort, and a layer
      that is no entity layer scans nothing. */
  lemma {:induction false} VisitChecks(ls: map<string, Layer>, name: string, fallback: Option<SortKey>, pairs: seq<(nat, nat)>)
    requires name in ls && Selected(ls[name].flags, UpdateWalk)
    ensures var v := VisitLayer(ls, name, fallback, pairs);
      (ls[name].flags.entityLayer && name != "" ==> v.checked == v.layers[name].items) &&
      (ls[name].flags.entityLayer && name == "" ==> v.checked == CheckedItems(v.layers, Some("entities"))) &&
      (!ls[name].flags.entityLayer ==> v.checked == [])
  {
  }

  /** Every visit keeps the set of layer names. */
  lemma {:induction false} VisitKeys(ls: map<string, Layer>, name: string, fallback: Option<SortKey>, pairs: seq<(nat, nat)>)
    ensures VisitLayer(ls, name, fallback, pairs).layers.Keys == ls.Keys
  {
  }

  /** The pass completes exactly when every listed name has a layer. */
  lemma {:induction false} LayerPassOk(ls: map<string, Layer>, order: seq<string>, fallback: Option<SortKey>, checks: seq<seq<(nat, nat)>>)
    requires |checks| == |order|
    ensures LayerPass(ls, order, fallback, checks).layers.Keys == ls.Keys
    ensures LayerPass(ls, order, fallback, checks).outcome.Ok? <==> forall k :: 0 <= k < |order| ==> order[k] in ls
  {
    if order != [] {
      var m := |order| - 1;
      var init := order[..m];
      LayerPassOk(ls, init, fallback, checks[..m]);
      assert forall k :: 0 <= k < m ==> init[k] == order[k];
      var pre := LayerPass(ls, init, fallback, checks[..m]);
      VisitKeys(pre.layers, order[m], fallback, checks[m]);
    }
  }

  /** A visit only sorts a layer, so it keeps the registry consistent. */
  lemma {:induction false} ConsistentVisit(ls: map<string, Layer>, name: string, fallback: Option<SortKey>, pairs: seq<(nat, nat)>)
    requires Consistent(ls)
    ensures Consistent(VisitLayer(ls, name, fallback, pairs).layers)
  {
    var r := VisitLayer(ls, name, fallback, pairs).layers;
    if name in ls && Selected(ls[name].flags, UpdateWalk) {
      forall n, it | n in r && it in r[n].items ensures n in ls && it in ls[n].items {
        assert it in multiset(r[n].items);
      }
      ConsistentWithin(ls, r);
    }
  }

  /** The update pass keeps the registry consistent. */
  lemma {:induction false} ConsistentLayerPass(ls: map<string, Layer>, order: seq<string>, fallback: Option<SortKey>, checks: seq<seq<(nat, nat)>>)
    requires |checks| == |order|
    requires Consistent(ls)
    ensures Consistent(LayerPass(ls, order, fallback, checks).layers)
  {
    if order != [] {
      var m := |order| - 1;
      ConsistentLayerPass(ls, order[..m], fallback, checks[..m]);
      var pre := LayerPass(ls, order[..m], fallback, checks[..m]);
      if pre.outcome.Ok? {
        ConsistentVisit(pre.layers, order[m], fallback, checks[m]);
      }
    }
  }

  /** Reported pairs index nothing in an empty scan. */
  lemma {:induction false} PairEventsNone(pairs: seq<(nat, nat)>)
    ensures PairEvents([], pairs) == []
  {
    if pairs != [] {
      PairEventsNone(pairs[1..]);
    }
  }

  /** The order is not de-duplicated: whatever the pass did so far, listing an
      updated layer once more updates each of its items once more, in order,
      right after the earlier calls (followed only by its `checkPair` calls,
      none for a layer that is no entity layer); the layer stays selected and
      keeps its items as a multiset, so every further listing does the same. */
  lemma {:induction false} ListedAgainUpdatedAgain(ls: map<string, Layer>, order: seq<string>, fallback: Option<SortKey>,
                                                   checks: seq<seq<(nat, nat)>>, n: string, pairs: seq<(nat, nat)>)
    requires |checks| == |order|
    requires LayerPass(ls, order, fallback, checks).outcome.Ok?
    requires n in LayerPass(ls, order, fallback, checks).layers
    requires Selected(LayerPass(ls, order, fallback, checks).layers[n].flags, UpdateWalk)
    ensures var p := LayerPass(ls, order, fallback, checks);
      var r := LayerPass(ls, order + [n], fallback, checks + [pairs]);
      var items := p.layers[n].items;
      r.outcome.Ok? && |p.events| + |items| <= |r.events| &&
      r.events[..|p.events| + |items|] == p.events + Calls(items, UpdateWalk) &&
      (!p.layers[n].flags.entityLayer ==> r.events == p.events + Calls(items, UpdateWalk)) &&
      n in r.layers && Selected(r.layers[n].flags, UpdateWalk) &&
      multiset(r.layers[n].items) == multiset(items)
  {
    var p := LayerPass(ls, order, fallback, checks);
    var items := p.layers[n].items;
    LayerPassSnoc(ls, order, fallback, checks, n, pairs);
    VisitUnfold(p.layers, n, fallback, pairs);
    CallsAt(items, UpdateWalk);
    var v := VisitLayer(p.layers, n, fallback, pairs);
    var pe := PairEvents(v.checked, pairs);
    assert v.events == Calls(items, UpdateWalk) + pe;
    assert p.events + v.events == (p.events + Calls(items, UpdateWalk)) + pe;
    if !p.layers[n].flags.entityLayer {
      PairEventsNone(pairs);
    }
  }

  /** The order is not de-duplicated: a plain layer listed twice is updated twice. */
  lemma {:induction false} ListedTwiceUpdatedTwice(ls: map<string, Layer>, n: string, fallback: Option<SortKey>)
    requires n in ls && Selected(ls[n].flags, UpdateWalk) && !ls[n].flags.entityLayer
    ensures LayerPass(ls, [n, n], fallback, [[], []]).events == Calls(ls[n].items, UpdateWalk) + Calls(ls[n].items, UpdateWalk)
  {
    var none: seq<seq<(nat, nat)>> := [[], []];
    var one: seq<seq<(nat, nat)>> := [[]];
    var l := ls[n];
    assert ls[n := AfterSort(l, fallback)] == ls;
    var v := VisitLayer(ls, n, fallback, []);
    assert v.layers == ls && v.events == Calls(l.items, UpdateWalk);
    assert [n][..0] == [] && one[..0] == [];
    assert LayerPass(ls, [], fallback, []) == Pass(ls, [], [], Ok);
    var once := LayerPass(ls, [n], fallback, one);
    assert once.layers == ls && once.outcome == Ok && once.events == Calls(l.items, UpdateWalk);
    assert [n, n][..1] == [n] && none[..1] == one;
  }
}
