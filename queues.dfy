/** The deferred-mutation queues of the layer manager and what draining each
    of them at the top of `update` does to the layer map. */
module LayerQueues {
  import opened Outcomes
  import opened LayerFlags
  import opened LayerItems

  // ---------------------------------------------------------------- requests

  /** `removeLayer`: queue `name` unless it is queued already (layers.js:79-83). */
  function EnqueueOnce(q: seq<string>, name: string): seq<string>
  {
    if name in q then q else q + [name]
  }

  /** Asking for the same removal twice queues it once. */
  lemma {:induction false} EnqueueOnceIdempotent(q: seq<string>, name: string)
    ensures EnqueueOnce(EnqueueOnce(q, name), name) == EnqueueOnce(q, name)
  {
  }

  /** The queue afterwards holds the old names plus `name`, keeps its old
      entries in place, and stays free of duplicates. */
  lemma {:induction false} EnqueueOnceContents(q: seq<string>, name: string)
    ensures var r := EnqueueOnce(q, name);
      (forall n :: n in r <==> n in q || n == name) && r[..|q|] == q &&
      ((forall i, j :: 0 <= i < j < |q| ==> q[i] != q[j]) ==> (forall i, j :: 0 <= i < j < |r| ==> r[i] != r[j]))
  {
  }

  // ---------------------------------------------------------------- properties

  /** What draining `_layerProperties` leaves: the layers, the queue's rest, and
      how it ended. */
  datatype Merged = Merged(layers: map<string, Layer>, left: seq<(string, Patch)>, outcome: Outcome)

  /** `ig.merge(this.layers[name], properties)` for each queued pair in turn
      (layers.js:255-258). Merging a non-empty object into a missing layer writes
      a property of `undefined`: a TypeError that leaves the rest of the queue. */
  function MergeAll(ls: map<string, Layer>, q: seq<(string, Patch)>): Merged
    decreases |q|
  {
    if q == [] then Merged(ls, [], Ok)
    else
      var name := q[0].0;
      var p := q[0].1;
      if name !in ls then
        if IsEmpty(p) then MergeAll(ls, q[1..]) else Merged(ls, q[1..], Fail(MissingLayer(name)))
      else
        MergeAll(ls[name := ls[name].(flags := Merge(ls[name].flags, p))], q[1..])
  }

  /** The merge never adds, removes or re-fills a layer. */
  lemma {:induction false} MergeAllKeeps(ls: map<string, Layer>, q: seq<(string, Patch)>)
    ensures var r := MergeAll(ls, q);
      r.layers.Keys == ls.Keys && forall n :: n in ls ==> r.layers[n].items == ls[n].items
    decreases |q|
  {
    if q != [] {
      var name := q[0].0;
      if name !in ls {
        MergeAllKeeps(ls, q[1..]);
      } else {
        MergeAllKeeps(ls[name := ls[name].(flags := Merge(ls[name].flags, q[0].1))], q[1..]);
      }
    }
  }

  /** The drain succeeds exactly when every queued pair names a present layer
      or carries no key; then the queue is empty afterwards. */
  lemma {:induction false} MergeAllOk(ls: map<string, Layer>, q: seq<(string, Patch)>)
    ensures var r := MergeAll(ls, q);
      (r.outcome.Ok? <==> forall k :: 0 <= k < |q| ==> q[k].0 in ls || IsEmpty(q[k].1)) &&
      (r.outcome.Ok? ==> r.left == [])
    decreases |q|
  {
    if q != [] {
      var name := q[0].0;
      var rest := q[1..];
      assert forall k :: 1 <= k < |q| ==> q[k] == rest[k - 1];
      if name !in ls {
        MergeAllOk(ls, rest);
      } else {
        var ls' := ls[name := ls[name].(flags := Merge(ls[name].flags, q[0].1))];
        MergeAllOk(ls', rest);
        assert ls'.Keys == ls.Keys;
      }
    }
  }

  /** A queued pair for a present layer that is the only one naming it sets
      exactly the flags it names, as one direct merge would. */
  lemma {:induction false} MergeAllSingle(ls: map<string, Layer>, name: string, p: Patch)
    requires name in ls
    ensures MergeAll(ls, [(name, p)]).layers == ls[name := ls[name].(flags := Merge(ls[name].flags, p))]
  {
    var ls' := ls[name := ls[name].(flags := Merge(ls[name].flags, p))];
    assert [(name, p)][1..] == [];
    assert MergeAll(ls', []).layers == ls';
  }

  /** Two queued pairs for the same present layer act as their union, the
      later one winning on shared keys. */
  lemma {:induction false} MergeAllTwice(ls: map<string, Layer>, name: string, p: Patch, q: Patch)
    requires name in ls
    ensures MergeAll(ls, [(name, p), (name, q)]).layers == MergeAll(ls, [(name, Then(p, q))]).layers
  {
    var ls1 := ls[name := ls[name].(flags := Merge(ls[name].flags, p))];
    var ls2 := ls1[name := ls1[name].(flags := Merge(ls1[name].flags, q))];
    assert [(name, p), (name, q)][1..] == [(name, q)];
    assert [(name, q)][1..] == [];
    assert [(name, Then(p, q))][1..] == [];
    MergeThen(ls[name].flags, p, q);
    assert MergeAll(ls2, []).layers == ls2;
    assert MergeAll(ls1, [(name, q)]) == MergeAll(ls2, []);
    assert MergeAll(ls, [(name, p), (name, q)]) == MergeAll(ls1, [(name, q)]);
  }

  /** The patches of `q` queued for layer `n`, in queue order. */
  function PatchesFor(q: seq<(string, Patch)>, n: string): seq<Patch>
    decreases |q|
  {
    if q == [] then []
    else (if q[0].0 == n then [q[0].1] else []) + PatchesFor(q[1..], n)
  }

  /** Merging a sequence of patches one after another. */
  function MergeEach(f: Flags, ps: seq<Patch>): Flags
    decreases |ps|
  {
    if ps == [] then f else MergeEach(Merge(f, ps[0]), ps[1..])
  }

  /** A successful drain of any queue leaves each layer's flags as the
      merge, in queue order, of exactly the patches queued for that layer:
      pairs naming other layers do not touch it. */
  lemma {:induction false} MergeAllFlags(ls: map<string, Layer>, q: seq<(string, Patch)>)
    requires MergeAll(ls, q).outcome.Ok?
    ensures forall n :: n in ls ==>
      n in MergeAll(ls, q).layers && MergeAll(ls, q).layers[n].flags == MergeEach(ls[n].flags, PatchesFor(q, n))
    decreases |q|
  {
    if q != [] {
      var name := q[0].0;
      var p := q[0].1;
      var rest := q[1..];
      if name !in ls {
        MergeAllFlags(ls, rest);
        forall n | n in ls
          ensures PatchesFor(q, n) == PatchesFor(rest, n)
        {
        }
      } else {
        var ls' := ls[name := ls[name].(flags := Merge(ls[name].flags, p))];
        assert MergeAll(ls, q) == MergeAll(ls', rest);
        MergeAllFlags(ls', rest);
        forall n | n in ls
          ensures MergeAll(ls, q).layers[n].flags == MergeEach(ls[n].flags, PatchesFor(q, n))
        {
          if n == name {
            var ps := PatchesFor(rest, n);
            assert PatchesFor(q, n) == [p] + ps;
            assert ([p] + ps)[1..] == ps;
          } else {
            assert PatchesFor(q, n) == PatchesFor(rest, n);
          }
        }
      }
    }
  }

  // ---------------------------------------------------------------- items

  /** What draining an item-removal queue leaves: the layers, the `_cleanUp`
      calls made, the queue's rest, and how it ended. */
  datatype Drain = Drain(layers: map<string, Layer>, events: seq<Event>, left: seq<Item>, outcome: Outcome)

  function CleanUpCall(it: Item): seq<Event>
  {
    if it.hasCleanUp then [CleanedUp(it)] else []
  }

  /** The `_cleanUp` calls a queue makes when every lookup succeeds. */
  function CleanUps(q: seq<Item>): seq<Event>
  {
    if q == [] then [] else CleanUpCall(q[0]) + CleanUps(q[1..])
  }

  /** The layer a queued item is removed from: `this.layers[item._layer]`. */
  function Home(it: Item): string
    reads it
  {
    PropertyKey(it.layer)
  }

  /** The queued items that are removed from layer `n`. */
  function QueuedFor(q: seq<Item>, n: string): seq<Item>
    reads q
  {
    if q == [] then [] else (if Home(q[0]) == n then [q[0]] else []) + QueuedFor(q[1..], n)
  }

  /** An item is queued for `n` exactly when it is queued and its `_layer` names `n`. */
  lemma {:induction false} QueuedForMember(q: seq<Item>, n: string, it: Item)
    ensures it in QueuedFor(q, n) <==> it in q && Home(it) == n
  {
    if q != [] {
      QueuedForMember(q[1..], n, it);
      assert q == [q[0]] + q[1..];
    }
  }

  /** Queuing one more item adds it to its own layer's share only. */
  lemma {:induction false} QueuedForSnoc(q: seq<Item>, it: Item, n: string)
    ensures QueuedFor(q + [it], n) == QueuedFor(q, n) + (if Home(it) == n then [it] else [])
  {
    if q == [] {
      assert [it][1..] == [];
    } else {
      assert (q + [it])[1..] == q[1..] + [it];
      QueuedForSnoc(q[1..], it, n);
    }
  }

  /** Draining `_itemsToRemove` (layers.js:261-272) or `_deferredKill`
      (layers.js:324-335): each shifted item is spliced out of its layer at its
      first occurrence, `_cleanUp` runs whether or not it was found, and a
      missing layer is a TypeError that leaves the rest of the queue. */
  function RemoveAll(ls: map<string, Layer>, q: seq<Item>): Drain
    reads q
    decreases |q|
  {
    if q == [] then Drain(ls, [], [], Ok)
    else
      var key := Home(q[0]);
      if key !in ls then Drain(ls, [], q[1..], Fail(MissingLayer(key)))
      else
        var rest := RemoveAll(ls[key := ls[key].(items := Removed(ls[key].items, q[0]))], q[1..]);
        rest.(events := CleanUpCall(q[0]) + rest.events)
  }

  /** Removing the first queued item, spelt out. */
  lemma {:induction false} RemoveAllCons(ls: map<string, Layer>, it: Item, rest: seq<Item>)
    ensures var key := Home(it);
      RemoveAll(ls, [it] + rest) ==
        if key !in ls then Drain(ls, [], rest, Fail(MissingLayer(key)))
        else
          var d := RemoveAll(ls[key := ls[key].(items := Removed(ls[key].items, it))], rest);
          d.(events := CleanUpCall(it) + d.events)
  {
    assert ([it] + rest)[0] == it && ([it] + rest)[1..] == rest;
  }

  /** A drain that finds the first item's layer: the rest of the queue is
      drained from the layers with that item spliced out, after its `_cleanUp`. */
  lemma {:induction false} RemoveAllStep(ls: map<string, Layer>, it: Item, rest: seq<Item>, pre: seq<Event>)
    requires Home(it) in ls
    ensures var key := Home(it);
      var d := RemoveAll(ls[key := ls[key].(items := Removed(ls[key].items, it))], rest);
      var e := RemoveAll(ls, [it] + rest);
      e.layers == d.layers && e.left == d.left && e.outcome == d.outcome &&
      pre + e.events == (pre + CleanUpCall(it)) + d.events
  {
    RemoveAllCons(ls, it, rest);
  }

  /** Removal never adds or deletes a layer and never touches flags. */
  lemma {:induction false} RemoveAllKeeps(ls: map<string, Layer>, q: seq<Item>)
    ensures var r := RemoveAll(ls, q);
      r.layers.Keys == ls.Keys && forall n :: n in ls ==> r.layers[n].flags == ls[n].flags
    decreases |q|
  {
    if q != [] && Home(q[0]) in ls {
      var key := Home(q[0]);
      RemoveAllKeeps(ls[key := ls[key].(items := Removed(ls[key].items, q[0]))], q[1..]);
    }
  }

  /** The drain succeeds exactly when every queued item's layer is present;
      then it empties the queue, and `_cleanUp` ran once per queued item that
      has one, in queue order, found or not. */
  lemma {:induction false} RemoveAllOk(ls: map<string, Layer>, q: seq<Item>)
    ensures var r := RemoveAll(ls, q);
      (r.outcome.Ok? <==> forall k :: 0 <= k < |q| ==> Home(q[k]) in ls) &&
      (r.outcome.Ok? ==> r.left == [] && r.events == CleanUps(q))
    decreases |q|
  {
    if q != [] {
      var rest := q[1..];
      assert forall k :: 1 <= k < |q| ==> q[k] == rest[k - 1];
      var key := Home(q[0]);
      if key in ls {
        var ls' := ls[key := ls[key].(items := Removed(ls[key].items, q[0]))];
        RemoveAllOk(ls', rest);
        assert ls'.Keys == ls.Keys;
      }
    }
  }

  /** `(a - b) - c == a - (b + c)` for multisets. */
  lemma {:induction false} MinusMinus<T>(a: multiset<T>, b: multiset<T>, c: multiset<T>)
    ensures (a - b) - c == a - (b + c)
  {
    assert forall x :: ((a - b) - c)[x] == (a - (b + c))[x];
  }

  /** A successful drain takes one copy of every queued item out of its
      layer, as far as copies are there: each layer loses the multiset of the
      items queued for it (an item no longer present is skipped). */
  lemma {:induction false} RemoveAllCounts(ls: map<string, Layer>, q: seq<Item>, n: string)
    requires n in ls
    requires RemoveAll(ls, q).outcome.Ok?
    ensures var r := RemoveAll(ls, q);
      n in r.layers && multiset(r.layers[n].items) == multiset(ls[n].items) - multiset(QueuedFor(q, n))
    decreases |q|
  {
    RemoveAllKeeps(ls, q);
    if q != [] {
      var key := Home(q[0]);
      var ls' := ls[key := ls[key].(items := Removed(ls[key].items, q[0]))];
      RemoveAllCounts(ls', q[1..], n);
      if key == n {
        RemovedCount(ls[n].items, q[0]);
        MinusMinus(multiset(ls[n].items), multiset{q[0]}, multiset(QueuedFor(q[1..], n)));
        assert QueuedFor(q, n) == [q[0]] + QueuedFor(q[1..], n);
      } else {
        assert QueuedFor(q, n) == QueuedFor(q[1..], n);
      }
    }
  }

  /** Removal only takes items away, so it keeps every layer consistent. */
  lemma {:induction false} RemoveAllSubset(ls: map<string, Layer>, q: seq<Item>)
    ensures var r := RemoveAll(ls, q);
      forall n, it :: n in r.layers && it in r.layers[n].items ==> n in ls && it in ls[n].items
    decreases |q|
  {
    if q != [] && Home(q[0]) in ls {
      var key := Home(q[0]);
      var ls' := ls[key := ls[key].(items := Removed(ls[key].items, q[0]))];
      RemoveAllSubset(ls', q[1..]);
      RemovedCount(ls[key].items, q[0]);
      forall it | it in ls'[key].items ensures it in ls[key].items {
        assert it in multiset(ls'[key].items);
      }
    }
  }

  /** Draining item removals keeps the registry consistent. */
  lemma {:induction false} ConsistentRemoveAll(ls: map<string, Layer>, q: seq<Item>)
    requires Consistent(ls)
    ensures Consistent(RemoveAll(ls, q).layers)
  {
    RemoveAllSubset(ls, q);
    ConsistentWithin(ls, RemoveAll(ls, q).layers);
  }

  /** Draining property merges keeps the registry consistent. */
  lemma {:induction false} ConsistentMergeAll(ls: map<string, Layer>, q: seq<(string, Patch)>)
    requires Consistent(ls)
    ensures Consistent(MergeAll(ls, q).layers)
  {
    MergeAllKeeps(ls, q);
    ConsistentWithin(ls, MergeAll(ls, q).layers);
  }

  // ---------------------------------------------------------------- layers

  /** What draining `_layersToRemove` leaves: the layers and the item-removal queue. */
  datatype Dropped = Dropped(layers: map<string, Layer>, pending: seq<Item>)

  /** `delete this.layers[name]` for each queued name in turn; a name no
      longer present is skipped, and a `clean` layer's items are first appended
      to the item-removal queue (layers.js:275-285). */
  function DropAll(ls: map<string, Layer>, q: seq<string>, pending: seq<Item>): Dropped
    decreases |q|
  {
    if q == [] then Dropped(ls, pending)
    else
      var n := q[0];
      if n !in ls then DropAll(ls, q[1..], pending)
      else DropAll(ls - {n}, q[1..], if ls[n].flags.clean then pending + ls[n].items else pending)
  }

  /** Every queued layer is gone, every other one is left as it was. */
  lemma {:induction false} DropAllKeys(ls: map<string, Layer>, q: seq<string>, pending: seq<Item>)
    ensures var r := DropAll(ls, q, pending);
      (forall n :: n in r.layers <==> n in ls && n !in q) &&
      (forall n :: n in r.layers ==> r.layers[n] == ls[n])
    decreases |q|
  {
    if q != [] {
      if q[0] !in ls {
        DropAllKeys(ls, q[1..], pending);
      } else {
        var ls' := ls - {q[0]};
        DropAllKeys(ls', q[1..], if ls[q[0]].flags.clean then pending + ls[q[0]].items else pending);
      }
    }
  }

  /** `it` belongs to a present `clean` layer named in `q`. */
  predicate FromCleanLayer(ls: map<string, Layer>, q: seq<string>, it: Item)
  {
    exists n :: n in q && n in ls && ls[n].flags.clean && it in ls[n].items
  }

  /** The item-removal queue keeps what it held and gains items of `clean`
      queued layers only; every item of a present `clean` queued layer is
      gained. */
  lemma {:induction false} DropAllPending(ls: map<string, Layer>, q: seq<string>, pending: seq<Item>)
    ensures var r := DropAll(ls, q, pending);
      |pending| <= |r.pending| && r.pending[..|pending|] == pending &&
      (forall k :: |pending| <= k < |r.pending| ==> FromCleanLayer(ls, q, r.pending[k])) &&
      (forall n, it :: n in q && n in ls && ls[n].flags.clean && it in ls[n].items ==> it in r.pending)
    decreases |q|
  {
    if q != [] {
      var n0 := q[0];
      var rest := q[1..];
      if n0 !in ls {
        DropAllPending(ls, rest, pending);
        var r := DropAll(ls, rest, pending);
        assert DropAll(ls, q, pending) == r;
        forall k | |pending| <= k < |r.pending|
          ensures FromCleanLayer(ls, q, r.pending[k])
        {
          assert FromCleanLayer(ls, rest, r.pending[k]);
          var n :| n in rest && n in ls && ls[n].flags.clean && r.pending[k] in ls[n].items;
          assert n in q;
        }
        forall n, it | n in q && n in ls && ls[n].flags.clean && it in ls[n].items
          ensures it in r.pending
        {
          assert n in rest;
        }
      } else {
        var ls' := ls - {n0};
        var pending' := if ls[n0].flags.clean then pending + ls[n0].items else pending;
        DropAllPending(ls', rest, pending');
        var r := DropAll(ls', rest, pending');
        assert DropAll(ls, q, pending) == r;
        assert r.pending[..|pending'|] == pending';
        assert r.pending[..|pending|] == pending by {
          assert pending'[..|pending|] == pending;
        }
        forall k | |pending| <= k < |r.pending|
          ensures FromCleanLayer(ls, q, r.pending[k])
        {
          if k < |pending'| {
            assert r.pending[k] == pending'[k];
            assert r.pending[k] in ls[n0].items;
          } else {
            assert FromCleanLayer(ls', rest, r.pending[k]);
            var n :| n in rest && n in ls' && ls'[n].flags.clean && r.pending[k] in ls'[n].items;
            assert n in q;
          }
        }
        forall n, it | n in q && n in ls && ls[n].flags.clean && it in ls[n].items
          ensures it in r.pending
        {
          if n == n0 {
            var i :| 0 <= i < |ls[n0].items| && ls[n0].items[i] == it;
            assert pending'[|pending| + i] == it;
            assert r.pending[|pending| + i] == it;
          } else {
            assert n in rest;
          }
        }
      }
    }
  }

  /** Dropping layers keeps the registry consistent: the layers that stay
      are untouched. */
  lemma {:induction false} ConsistentDropAll(ls: map<string, Layer>, q: seq<string>, pending: seq<Item>)
    requires Consistent(ls)
    ensures Consistent(DropAll(ls, q, pending).layers)
  {
    DropAllKeys(ls, q, pending);
    ConsistentWithin(ls, DropAll(ls, q, pending).layers);
  }

  /** Items drained before the layers are dropped: a removed `clean` layer
      that still holds an item whose `_layer` names it (a consistent registry)
      re-queues that item, and the next item drain then looks the deleted
      layer up and fails with a TypeError instead of removing it. */
  lemma {:induction false} CleanRemovalBreaksNextDrain(ls: map<string, Layer>, q: seq<string>, n: string)
    requires Consistent(ls)
    requires n in q && n in ls && ls[n].flags.clean && ls[n].items != []
    ensures var d := DropAll(ls, q, []);
      RemoveAll(d.layers, d.pending).outcome.Fail? && RemoveAll(d.layers, d.pending).events == []
  {
    var d := DropAll(ls, q, []);
    DropAllPending(ls, q, []);
    DropAllKeys(ls, q, []);
    assert ls[n].items[0] in d.pending;
    var first := d.pending[0];
    assert FromCleanLayer(ls, q, first);
    var m :| m in q && m in ls && ls[m].flags.clean && first in ls[m].items;
    assert Home(first) == m;
    assert m !in d.layers;
  }
}
