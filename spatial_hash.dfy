/** The broad phase of `checkEntities`: a spatial hash rebuilt on every pass.
    Entities are given by value, in the layer's item order, as `Body`s. */
module SpatialHash {
  /** An entity as the broad phase sees it: id, box and whether it is inert
      (type NONE, checkAgainst NONE and collides NEVER). */
  datatype Body = Body(id: nat, x: int, y: int, w: int, h: int, inert: bool)

  type Cell = (int, int)

  /** Cell -> indices of the bodies inserted into it, in insertion order. */
  type Hash = map<Cell, seq<nat>>

  /** The occupants of a cell; a cell never created has none. */
  function Cells(hash: Hash, c: Cell): seq<nat>
  {
    if c in hash then hash[c] else []
  }

  /** The cell range of a body: columns [x / S, (x + w) / S + 1) and rows
      [y / S, (y + h) / S + 1). With S > 0, Dafny's `/` is floor division. */
  predicate Covers(b: Body, size: int, c: Cell)
    requires size > 0
  {
    b.x / size <= c.0 < (b.x + b.w) / size + 1 && b.y / size <= c.1 < (b.y + b.h) / size + 1
  }

  /** `ig.Entity.touches`: the open boxes overlap. */
  predicate Touches(a: Body, b: Body)
  {
    !(a.x >= b.x + b.w || a.x + a.w <= b.x || a.y >= b.y + b.h || a.y + a.h <= b.y)
  }

  predicate NonNegative(b: Body)
  {
    b.w >= 0 && b.h >= 0
  }

  /** The occupants of cell `c` once the first `n` bodies were inserted: the
      non-inert ones among them whose range covers `c`, in order. */
  function Occupants(bs: seq<Body>, size: int, n: nat, c: Cell): (r: seq<nat>)
    requires size > 0 && n <= |bs|
    ensures forall j :: j in r ==> j < n
  {
    if n == 0 then []
    else Occupants(bs, size, n - 1, c) + (if !bs[n - 1].inert && Covers(bs[n - 1], size, c) then [n - 1] else [])
  }

  lemma {:induction false} OccupantsMember(bs: seq<Body>, size: int, n: nat, c: Cell, j: nat)
    requires size > 0 && n <= |bs|
    ensures j in Occupants(bs, size, n, c) <==> j < n && !bs[j].inert && Covers(bs[j], size, c)
  {
    if n > 0 {
      OccupantsMember(bs, size, n - 1, c, j);
    }
  }

  /** A cell holds each body at most once, in increasing order of position. */
  lemma {:induction false} OccupantsIncreasing(bs: seq<Body>, size: int, n: nat, c: Cell)
    requires size > 0 && n <= |bs|
    ensures forall k, l :: 0 <= k < l < |Occupants(bs, size, n, c)| ==>
              Occupants(bs, size, n, c)[k] < Occupants(bs, size, n, c)[l] < n
  {
    if n > 0 {
      OccupantsIncreasing(bs, size, n - 1, c);
      var prev := Occupants(bs, size, n - 1, c);
      forall k | 0 <= k < |prev| ensures prev[k] < n - 1 {
        OccupantsMember(bs, size, n - 1, c, prev[k]);
      }
    }
  }

  lemma {:induction false} DivMonotone(a: int, b: int, size: int)
    requires size > 0 && a <= b
    ensures a / size <= b / size
  {
    var qa, qb := a / size, b / size;
    assert size * qa <= a by {
      assert a == size * qa + a % size;
    }
    assert b < size * qb + size by {
      assert b == size * qb + b % size;
    }
    assert size * (qa - qb) < size;
    if qa - qb >= 1 {
      MulAtLeast(size, qa - qb);
    }
  }

  lemma {:induction false} MulAtLeast(s: int, k: int)
    requires s > 0 && k >= 1
    ensures s * k >= s
  {
    assert s * k == s + s * (k - 1);
    assert s * (k - 1) >= 0;
  }

  /** Two touching bodies of non-negative size have a cell in common. */
  lemma {:induction false} SharedCell(a: Body, b: Body, size: int) returns (c: Cell)
    requires size > 0 && Touches(a, b) && NonNegative(a) && NonNegative(b)
    ensures Covers(a, size, c) && Covers(b, size, c)
  {
    var mx := if a.x <= b.x then b.x else a.x;
    var my := if a.y <= b.y then b.y else a.y;
    DivMonotone(a.x, mx, size);
    DivMonotone(b.x, mx, size);
    DivMonotone(mx, a.x + a.w, size);
    DivMonotone(mx, b.x + b.w, size);
    DivMonotone(a.y, my, size);
    DivMonotone(b.y, my, size);
    DivMonotone(my, a.y + a.h, size);
    DivMonotone(my, b.y + b.h, size);
    c := (mx / size, my / size);
  }

  /** The ids of the occupants `found` names. */
  function IdsOf(bs: seq<Body>, found: seq<nat>): set<nat>
    requires forall k :: 0 <= k < |found| ==> found[k] < |bs|
  {
    set k | 0 <= k < |found| :: bs[found[k]].id
  }

  /** Scan one occupied cell for the body `i` (layers.js:193-201): every occupant
      it touches whose id is not yet `checked` is reported once and its id
      recorded. Returns the occupants reported, in cell order. */
  method ScanCell(bs: seq<Body>, i: nat, cell: seq<nat>, checked: set<nat>)
    returns (found: seq<nat>, checkedOut: set<nat>)
    requires i < |bs|
    requires forall k :: 0 <= k < |cell| ==> cell[k] < |bs|
    ensures forall k :: 0 <= k < |found| ==> found[k] in cell
    ensures forall k :: 0 <= k < |found| ==> Touches(bs[i], bs[found[k]]) && bs[found[k]].id !in checked
    ensures forall k, l :: 0 <= k < l < |found| ==> bs[found[k]].id != bs[found[l]].id
    ensures checkedOut == checked + IdsOf(bs, found)
    ensures forall o :: o in cell && Touches(bs[i], bs[o]) ==> bs[o].id in checkedOut
  {
    found, checkedOut := [], checked;
    var c := 0;
    while c < |cell|
      invariant 0 <= c <= |cell|
      invariant forall k :: 0 <= k < |found| ==> found[k] in cell[..c]
      invariant forall k :: 0 <= k < |found| ==> Touches(bs[i], bs[found[k]]) && bs[found[k]].id !in checked
      invariant forall k, l :: 0 <= k < l < |found| ==> bs[found[k]].id != bs[found[l]].id
      invariant checkedOut == checked + IdsOf(bs, found)
      invariant forall k :: 0 <= k < c && Touches(bs[i], bs[cell[k]]) ==> bs[cell[k]].id in checkedOut
    {
      var o := cell[c];
      if Touches(bs[i], bs[o]) && bs[o].id !in checkedOut {
        assert IdsOf(bs, found + [o]) == IdsOf(bs, found) + {bs[o].id} by {
          var f := found + [o];
          assert forall k :: 0 <= k < |found| ==> f[k] == found[k];
          assert f[|found|] == o;
        }
        found := found + [o];
        checkedOut := checkedOut + {bs[o].id};
      }
      c := c + 1;
    }
    assert cell[..c] == cell;
  }

  /** The cells of the range the column/row loops have already visited. */
  predicate Visited(c: Cell, x: int, y: int)
  {
    c.0 < x || (c.0 == x && c.1 < y)
  }

  /** The state of body `i`'s scan once the loops reach cell (x, y): the visited
      cells of its range hold it after their earlier occupants, every other cell
      is as before; `found` holds touching earlier non-inert occupants with
      distinct ids, `checked` their ids, and every touching occupant of a visited
      cell has its id in `checked`. */
  ghost predicate Progress(bs: seq<Body>, size: int, i: nat, hash: Hash, found: seq<nat>, checked: set<nat>, x: int, y: int)
    requires size > 0 && i < |bs|
  {
    (forall c :: Cells(hash, c) ==
      if Covers(bs[i], size, c) && Visited(c, x, y) then Occupants(bs, size, i, c) + [i] else Occupants(bs, size, i, c)) &&
    (forall k :: 0 <= k < |found| ==> found[k] < i && !bs[found[k]].inert && Touches(bs[i], bs[found[k]])) &&
    (forall k, l :: 0 <= k < l < |found| ==> bs[found[k]].id != bs[found[l]].id) &&
    checked == IdsOf(bs, found) &&
    (forall c, o ::
      (Covers(bs[i], size, c) && Visited(c, x, y) && o in Occupants(bs, size, i, c) && Touches(bs[i], bs[o]))
      ==> bs[o].id in checked)
  }

  lemma {:induction false} IdsOfAppend(bs: seq<Body>, f: seq<nat>, g: seq<nat>)
    requires forall k :: 0 <= k < |f| ==> f[k] < |bs|
    requires forall k :: 0 <= k < |g| ==> g[k] < |bs|
    ensures IdsOf(bs, f + g) == IdsOf(bs, f) + IdsOf(bs, g)
  {
    var fg := f + g;
    forall id | id in IdsOf(bs, fg) ensures id in IdsOf(bs, f) + IdsOf(bs, g) {
      var k :| 0 <= k < |fg| && bs[fg[k]].id == id;
      if k >= |f| {
        assert fg[k] == g[k - |f|];
      } else {
        assert fg[k] == f[k];
      }
    }
    forall id | id in IdsOf(bs, f) + IdsOf(bs, g) ensures id in IdsOf(bs, fg) {
      if id in IdsOf(bs, f) {
        var k :| 0 <= k < |f| && bs[f[k]].id == id;
        assert fg[k] == f[k];
      } else {
        var k :| 0 <= k < |g| && bs[g[k]].id == id;
        assert fg[|f| + k] == g[k];
      }
    }
  }

  /** Visiting the covered cell (x, y) moves the scan one row on. */
  lemma {:induction false} ProgressStep(bs: seq<Body>, size: int, i: nat, hash: Hash, found: seq<nat>,
                                        checked: set<nat>, x: int, y: int,
                                        more: seq<nat>, checkedOut: set<nat>)
    requires size > 0 && i < |bs| && Covers(bs[i], size, (x, y))
    requires Progress(bs, size, i, hash, found, checked, x, y)
    requires forall k :: 0 <= k < |more| ==> more[k] < |bs|
    requires forall k :: 0 <= k < |more| ==> more[k] in Cells(hash, (x, y))
    requires forall k :: 0 <= k < |more| ==> Touches(bs[i], bs[more[k]]) && bs[more[k]].id !in checked
    requires forall k, l :: 0 <= k < l < |more| ==> bs[more[k]].id != bs[more[l]].id
    requires checkedOut == checked + IdsOf(bs, more)
    requires forall o :: o in Cells(hash, (x, y)) && o < |bs| && Touches(bs[i], bs[o]) ==> bs[o].id in checkedOut
    ensures Progress(bs, size, i, hash[(x, y) := Cells(hash, (x, y)) + [i]], found + more, checkedOut, x, y + 1)
  {
    var cell := Cells(hash, (x, y));
    var h2 := hash[(x, y) := cell + [i]];
    assert cell == Occupants(bs, size, i, (x, y));
    forall k | 0 <= k < |more| ensures more[k] < i && !bs[more[k]].inert {
      OccupantsMember(bs, size, i, (x, y), more[k]);
    }
    var f2 := found + more;
    forall k | 0 <= k < |f2| ensures f2[k] < i && !bs[f2[k]].inert && Touches(bs[i], bs[f2[k]]) {
      if k >= |found| {
        assert f2[k] == more[k - |found|];
      } else {
        assert f2[k] == found[k];
      }
    }
    forall k, l | 0 <= k < l < |f2| ensures bs[f2[k]].id != bs[f2[l]].id {
      if l >= |found| && k < |found| {
        assert f2[l] == more[l - |found|] && f2[k] == found[k];
        assert bs[f2[k]].id in IdsOf(bs, found);
      } else if k >= |found| {
        assert f2[l] == more[l - |found|] && f2[k] == more[k - |found|];
      } else {
        assert f2[l] == found[l] && f2[k] == found[k];
      }
    }
    IdsOfAppend(bs, found, more);
    forall c ensures Cells(h2, c) ==
      if Covers(bs[i], size, c) && Visited(c, x, y + 1) then Occupants(bs, size, i, c) + [i] else Occupants(bs, size, i, c)
    {
      if c != (x, y) {
        assert Cells(h2, c) == Cells(hash, c);
      }
    }
  }

  /** Insert the non-inert body `i` into every cell of its range and check it
      against the earlier occupants of those cells (layers.js:177-204). */
  method ScanEntity(bs: seq<Body>, size: int, i: nat, hash: Hash)
    returns (hashOut: Hash, found: seq<nat>)
    requires size > 0 && i < |bs| && !bs[i].inert
    requires forall c :: Cells(hash, c) == Occupants(bs, size, i, c)
    ensures forall c :: Cells(hashOut, c) == if Covers(bs[i], size, c) then Cells(hash, c) + [i] else Cells(hash, c)
    ensures forall k :: 0 <= k < |found| ==> found[k] < i && !bs[found[k]].inert
    ensures forall k :: 0 <= k < |found| ==> Touches(bs[i], bs[found[k]])
    ensures forall k, l :: 0 <= k < l < |found| ==> bs[found[k]].id != bs[found[l]].id
    ensures forall j ::
              (0 <= j < i && !bs[j].inert && Touches(bs[i], bs[j]) && NonNegative(bs[i]) && NonNegative(bs[j]))
              ==> bs[j].id in IdsOf(bs, found)
  {
    var b := bs[i];
    var xmin, ymin := b.x / size, b.y / size;
    var xmax, ymax := (b.x + b.w) / size + 1, (b.y + b.h) / size + 1;
    var checked: set<nat> := {};
    hashOut, found := hash, [];
    ProgressStart(bs, size, i, hash);
    var x := xmin;
    while x < xmax
      invariant x >= xmin
      invariant Progress(bs, size, i, hashOut, found, checked, x, ymin)
    {
      hashOut, found, checked := ScanColumn(bs, size, i, x, hashOut, found, checked);
      x := x + 1;
    }
    ProgressEnd(bs, size, i, hash, hashOut, found, checked, x);
  }

  /** The row loop of one column x of body `i`'s range (layers.js:184-203). */
  method ScanColumn(bs: seq<Body>, size: int, i: nat, x: int, hash: Hash, found: seq<nat>, checked: set<nat>)
    returns (hashOut: Hash, foundOut: seq<nat>, checkedOut: set<nat>)
    requires size > 0 && i < |bs| && bs[i].x / size <= x < (bs[i].x + bs[i].w) / size + 1
    requires Progress(bs, size, i, hash, found, checked, x, bs[i].y / size)
    ensures Progress(bs, size, i, hashOut, foundOut, checkedOut, x + 1, bs[i].y / size)
  {
    var ymin, ymax := bs[i].y / size, (bs[i].y + bs[i].h) / size + 1;
    hashOut, foundOut, checkedOut := hash, found, checked;
    var y := ymin;
    while y < ymax
      invariant y >= ymin
      invariant Progress(bs, size, i, hashOut, foundOut, checkedOut, x, y)
    {
      hashOut, foundOut, checkedOut := VisitCell(bs, size, i, x, y, hashOut, foundOut, checkedOut);
      y := y + 1;
    }
    RowDone(bs, size, i, hashOut, foundOut, checkedOut, x, y);
  }

  /** One cell (x, y) of body `i`'s range (layers.js:185-202): an empty cell gets
      the body as sole occupant; otherwise the body is checked against the
      occupants and then appended. */
  method VisitCell(bs: seq<Body>, size: int, i: nat, x: int, y: int, hash: Hash, found: seq<nat>, checked: set<nat>)
    returns (hashOut: Hash, foundOut: seq<nat>, checkedOut: set<nat>)
    requires size > 0 && i < |bs| && Covers(bs[i], size, (x, y))
    requires Progress(bs, size, i, hash, found, checked, x, y)
    ensures hashOut == hash[(x, y) := Cells(hash, (x, y)) + [i]]
    ensures Progress(bs, size, i, hashOut, foundOut, checkedOut, x, y + 1)
  {
    var c := (x, y);
    var cell := Cells(hash, c);
    CellBounds(bs, size, i, hash, found, checked, x, y);
    var more, checkedNext := [], checked;
    if cell == [] {
      hashOut := hash[c := [i]];
      assert cell + [i] == [i];
    } else {
      more, checkedNext := ScanCell(bs, i, cell, checked);
      hashOut := hash[c := cell + [i]];
    }
    ProgressStep(bs, size, i, hash, found, checked, x, y, more, checkedNext);
    foundOut, checkedOut := found + more, checkedNext;
  }

  lemma {:induction false} ProgressStart(bs: seq<Body>, size: int, i: nat, hash: Hash)
    requires size > 0 && i < |bs|
    requires forall c :: Cells(hash, c) == Occupants(bs, size, i, c)
    ensures Progress(bs, size, i, hash, [], {}, bs[i].x / size, bs[i].y / size)
  {
    assert forall c :: Covers(bs[i], size, c) ==> !Visited(c, bs[i].x / size, bs[i].y / size);
  }

  lemma {:induction false} CellBounds(bs: seq<Body>, size: int, i: nat, hash: Hash, found: seq<nat>,
                                      checked: set<nat>, x: int, y: int)
    requires size > 0 && i < |bs|
    requires Progress(bs, size, i, hash, found, checked, x, y)
    ensures Cells(hash, (x, y)) == Occupants(bs, size, i, (x, y))
    ensures forall k :: 0 <= k < |Cells(hash, (x, y))| ==> Cells(hash, (x, y))[k] < i
  {
    assert !Visited((x, y), x, y);
    var cs := Cells(hash, (x, y));
    assert forall k :: 0 <= k < |cs| ==> cs[k] in cs;
  }

  lemma {:induction false} ProgressEnd(bs: seq<Body>, size: int, i: nat, hash: Hash, hashOut: Hash,
                                       found: seq<nat>, checked: set<nat>, x: int)
    requires size > 0 && i < |bs| && x >= (bs[i].x + bs[i].w) / size + 1
    requires forall c :: Cells(hash, c) == Occupants(bs, size, i, c)
    requires Progress(bs, size, i, hashOut, found, checked, x, bs[i].y / size)
    ensures forall c :: Cells(hashOut, c) == if Covers(bs[i], size, c) then Cells(hash, c) + [i] else Cells(hash, c)
    ensures forall j ::
              (0 <= j < i && !bs[j].inert && Touches(bs[i], bs[j]) && NonNegative(bs[i]) && NonNegative(bs[j]))
              ==> bs[j].id in IdsOf(bs, found)
  {
    var b := bs[i];
    forall c ensures Cells(hashOut, c) == if Covers(b, size, c) then Cells(hash, c) + [i] else Cells(hash, c) {
      assert Covers(b, size, c) ==> Visited(c, x, b.y / size);
    }
    forall j | 0 <= j < i && !bs[j].inert && Touches(b, bs[j]) && NonNegative(b) && NonNegative(bs[j])
      ensures bs[j].id in IdsOf(bs, found)
    {
      var c := SharedCell(b, bs[j], size);
      OccupantsMember(bs, size, i, c, j);
      assert Visited(c, x, b.y / size);
    }
  }

  /** Once a column's rows are all visited, the scan moves to the next column. */
  lemma {:induction false} RowDone(bs: seq<Body>, size: int, i: nat, hash: Hash, found: seq<nat>,
                                   checked: set<nat>, x: int, y: int)
    requires size > 0 && i < |bs| && y >= (bs[i].y + bs[i].h) / size + 1
    requires Progress(bs, size, i, hash, found, checked, x, y)
    ensures Progress(bs, size, i, hash, found, checked, x + 1, bs[i].y / size)
  {
    forall c | Covers(bs[i], size, c) ensures Visited(c, x, y) == Visited(c, x + 1, bs[i].y / size) {
    }
  }

  // ---------------------------------------------------------------- the pass

  /** Each reported pair (i, j) has j before i, both non-inert, and touching. */
  predicate Sound(bs: seq<Body>, pairs: seq<(nat, nat)>)
  {
    forall k :: 0 <= k < |pairs| ==>
      pairs[k].1 < pairs[k].0 < |bs| && !bs[pairs[k].0].inert && !bs[pairs[k].1].inert &&
      Touches(bs[pairs[k].0], bs[pairs[k].1])
  }

  /** Pairs come out scan by scan, in item order. */
  predicate ScanOrdered(pairs: seq<(nat, nat)>)
  {
    forall k, l :: 0 <= k < l < |pairs| ==> pairs[k].0 <= pairs[l].0
  }

  /** Within one body's scan, no occupant id is reported twice. */
  predicate DistinctPerScan(bs: seq<Body>, pairs: seq<(nat, nat)>)
  {
    forall k, l ::
      (0 <= k < l < |pairs| && pairs[k].0 == pairs[l].0 && pairs[k].1 < |bs| && pairs[l].1 < |bs|)
      ==> bs[pairs[k].1].id != bs[pairs[l].1].id
  }

  /** Every touching pair of non-inert bodies with non-negative sizes among the
      first `n` is reported from the later body's scan, under the earlier body's id. */
  predicate CompleteUpTo(bs: seq<Body>, pairs: seq<(nat, nat)>, n: nat)
    requires n <= |bs|
  {
    forall i, j {:trigger Candidate(bs, i, j)} :: 0 <= j < i < n && Candidate(bs, i, j) ==>
      exists k :: 0 <= k < |pairs| && pairs[k].0 == i && pairs[k].1 < |bs| && bs[pairs[k].1].id == bs[j].id
  }

  /** Bodies i and j, j before i, both non-inert with non-negative sizes, touch:
      the pairs the pass must report. */
  predicate Candidate(bs: seq<Body>, i: int, j: int)
  {
    0 <= j < i < |bs| && !bs[i].inert && !bs[j].inert && Touches(bs[i], bs[j]) &&
    NonNegative(bs[i]) && NonNegative(bs[j])
  }

  predicate Complete(bs: seq<Body>, pairs: seq<(nat, nat)>)
  {
    CompleteUpTo(bs, pairs, |bs|)
  }

  /** The pass once the first `e` bodies were handled. */
  ghost predicate PassState(bs: seq<Body>, size: int, e: nat, hash: Hash, pairs: seq<(nat, nat)>)
    requires size > 0 && e <= |bs|
  {
    (forall c :: Cells(hash, c) == Occupants(bs, size, e, c)) &&
    Sound(bs, pairs) && ScanOrdered(pairs) &&
    (forall k :: 0 <= k < |pairs| ==> pairs[k].0 < e) &&
    DistinctPerScan(bs, pairs) && CompleteUpTo(bs, pairs, e)
  }

  /** The `checkPair(entity, occupant)` calls of body e's scan. */
  function ScanPairs(e: nat, found: seq<nat>): (r: seq<(nat, nat)>)
    ensures |r| == |found| && forall k :: 0 <= k < |found| ==> r[k] == (e, found[k])
  {
    if found == [] then [] else [(e, found[0])] + ScanPairs(e, found[1..])
  }

  /** Appending the pairs of body e's scan keeps the reported pairs sound,
      ordered, distinct per scan, and complete up to e + 1. */
  lemma {:induction false} AppendScan(bs: seq<Body>, e: nat, pairs: seq<(nat, nat)>, found: seq<nat>)
    requires e < |bs| && !bs[e].inert
    requires Sound(bs, pairs) && ScanOrdered(pairs) && DistinctPerScan(bs, pairs) && CompleteUpTo(bs, pairs, e)
    requires forall k :: 0 <= k < |pairs| ==> pairs[k].0 < e
    requires forall k :: 0 <= k < |found| ==> found[k] < e && !bs[found[k]].inert && Touches(bs[e], bs[found[k]])
    requires forall k, l :: 0 <= k < l < |found| ==> bs[found[k]].id != bs[found[l]].id
    requires forall j ::
               (0 <= j < e && !bs[j].inert && Touches(bs[e], bs[j]) && NonNegative(bs[e]) && NonNegative(bs[j]))
               ==> bs[j].id in IdsOf(bs, found)
    ensures var out := pairs + ScanPairs(e, found);
      Sound(bs, out) && ScanOrdered(out) && DistinctPerScan(bs, out) && CompleteUpTo(bs, out, e + 1) &&
      (forall k :: 0 <= k < |out| ==> out[k].0 < e + 1)
  {
    var out := pairs + ScanPairs(e, found);
    AppendSoundOrdered(bs, e, pairs, found);
    AppendDistinct(bs, e, pairs, found);
    AppendComplete(bs, e, pairs, found);
  }

  lemma {:induction false} AppendSoundOrdered(bs: seq<Body>, e: nat, pairs: seq<(nat, nat)>, found: seq<nat>)
    requires e < |bs| && !bs[e].inert
    requires Sound(bs, pairs) && ScanOrdered(pairs)
    requires forall k :: 0 <= k < |pairs| ==> pairs[k].0 < e
    requires forall k :: 0 <= k < |found| ==> found[k] < e && !bs[found[k]].inert && Touches(bs[e], bs[found[k]])
    ensures var out := pairs + ScanPairs(e, found);
      Sound(bs, out) && ScanOrdered(out) && (forall k :: 0 <= k < |out| ==> out[k].0 < e + 1)
  {
    var out := pairs + ScanPairs(e, found);
    assert forall k :: 0 <= k < |pairs| ==> out[k] == pairs[k];
    assert forall k :: |pairs| <= k < |out| ==> out[k] == (e, found[k - |pairs|]);
  }

  lemma {:induction false} AppendDistinct(bs: seq<Body>, e: nat, pairs: seq<(nat, nat)>, found: seq<nat>)
    requires DistinctPerScan(bs, pairs)
    requires forall k :: 0 <= k < |pairs| ==> pairs[k].0 < e
    requires forall k, l :: (0 <= k < l < |found| && found[k] < |bs| && found[l] < |bs|) ==> bs[found[k]].id != bs[found[l]].id
    ensures DistinctPerScan(bs, pairs + ScanPairs(e, found))
  {
    var out := pairs + ScanPairs(e, found);
    forall k, l | 0 <= k < l < |out| && out[k].0 == out[l].0 && out[k].1 < |bs| && out[l].1 < |bs|
      ensures bs[out[k].1].id != bs[out[l].1].id
    {
      if l < |pairs| {
        assert out[k] == pairs[k] && out[l] == pairs[l];
      } else {
        assert out[l] == (e, found[l - |pairs|]);
        assert forall m :: 0 <= m < |pairs| ==> out[m].0 < e;
        assert out[k] == (e, found[k - |pairs|]);
      }
    }
  }

  lemma {:induction false} AppendComplete(bs: seq<Body>, e: nat, pairs: seq<(nat, nat)>, found: seq<nat>)
    requires e < |bs| && CompleteUpTo(bs, pairs, e)
    requires forall k :: 0 <= k < |found| ==> found[k] < e
    requires forall j ::
               (0 <= j < e && !bs[j].inert && Touches(bs[e], bs[j]) && NonNegative(bs[e]) && NonNegative(bs[j]))
               ==> bs[j].id in IdsOf(bs, found)
    ensures CompleteUpTo(bs, pairs + ScanPairs(e, found), e + 1)
  {
    var out := pairs + ScanPairs(e, found);
    forall i, j | 0 <= j < i < e + 1 && Candidate(bs, i, j)
      ensures exists k :: 0 <= k < |out| && out[k].0 == i && out[k].1 < |bs| && bs[out[k].1].id == bs[j].id
    {
      if i < e {
        var k :| 0 <= k < |pairs| && pairs[k].0 == i && pairs[k].1 < |bs| && bs[pairs[k].1].id == bs[j].id;
        assert out[k] == pairs[k];
      } else {
        var m :| 0 <= m < |found| && bs[found[m]].id == bs[j].id;
        assert out[|pairs| + m] == (e, found[m]);
      }
    }
  }

  /** Handle body e of the pass (one iteration of layers.js:165-205). */
  method PassStep(bs: seq<Body>, size: int, e: nat, hash: Hash, pairs: seq<(nat, nat)>)
    returns (hashOut: Hash, pairsOut: seq<(nat, nat)>)
    requires size > 0 && e < |bs|
    requires PassState(bs, size, e, hash, pairs)
    ensures PassState(bs, size, e + 1, hashOut, pairsOut)
  {
    if bs[e].inert {
      // Skip entities that don't check, don't get checked and don't collide.
      hashOut, pairsOut := hash, pairs;
      assert forall c :: Occupants(bs, size, e + 1, c) == Occupants(bs, size, e, c);
    } else {
      var found;
      hashOut, found := ScanEntity(bs, size, e, hash);
      AppendScan(bs, e, pairs, found);
      pairsOut := pairs + ScanPairs(e, found);
    }
  }

  /** One pass of `checkEntities` over the bodies of a layer (layers.js:165-205):
      returns the (entity, occupant) index pairs handed to `checkPair`, in order. */
  method Detect(bs: seq<Body>, size: int) returns (pairs: seq<(nat, nat)>)
    requires size > 0
    ensures Sound(bs, pairs) && ScanOrdered(pairs)
    ensures DistinctPerScan(bs, pairs) && Complete(bs, pairs)
  {
    var hash: Hash := map[];
    pairs := [];
    PassStart(bs, size);
    var e := 0;
    while e < |bs|
      invariant 0 <= e <= |bs|
      invariant PassState(bs, size, e, hash, pairs)
    {
      hash, pairs := PassStep(bs, size, e, hash, pairs);
      e := e + 1;
    }
    PassDone(bs, size, hash, pairs);
  }

  lemma {:induction false} PassStart(bs: seq<Body>, size: int)
    requires size > 0
    ensures PassState(bs, size, 0, map[], [])
  {
  }

  lemma {:induction false} PassDone(bs: seq<Body>, size: int, hash: Hash, pairs: seq<(nat, nat)>)
    requires size > 0
    requires PassState(bs, size, |bs|, hash, pairs)
    ensures Sound(bs, pairs) && ScanOrdered(pairs)
    ensures DistinctPerScan(bs, pairs) && Complete(bs, pairs)
  {
  }

  predicate UniqueIds(bs: seq<Body>)
  {
    forall i, j :: 0 <= i < j < |bs| ==> bs[i].id != bs[j].id
  }

  /** With distinct ids, a pass that meets Detect's contract reports every
      touching unordered pair of non-inert bodies exactly once, as (later, earlier). */
  lemma {:induction false} PairReportedOnce(bs: seq<Body>, pairs: seq<(nat, nat)>, i: nat, j: nat)
    requires Sound(bs, pairs) && DistinctPerScan(bs, pairs) && Complete(bs, pairs) && UniqueIds(bs)
    requires j < i < |bs| && !bs[i].inert && !bs[j].inert && Touches(bs[i], bs[j])
    requires NonNegative(bs[i]) && NonNegative(bs[j])
    ensures exists k :: 0 <= k < |pairs| && pairs[k] == (i, j)
    ensures forall k, l ::
              (0 <= k < |pairs| && 0 <= l < |pairs| && pairs[k] in {(i, j), (j, i)} && pairs[l] in {(i, j), (j, i)})
              ==> k == l
  {
    assert Candidate(bs, i, j);
    var k :| 0 <= k < |pairs| && pairs[k].0 == i && pairs[k].1 < |bs| && bs[pairs[k].1].id == bs[j].id;
    assert pairs[k] == (i, j);
    forall k1, l1 | 0 <= k1 < |pairs| && 0 <= l1 < |pairs| && pairs[k1] in {(i, j), (j, i)} && pairs[l1] in {(i, j), (j, i)}
      ensures k1 == l1
    {
      assert pairs[k1] == (i, j) && pairs[l1] == (i, j);
    }
  }
}
