/**
 * What a flow field is, independently of how it is computed: the shortest
 * orthogonal-path distance to the nearest cell of a target kind through
 * non-Empty cells, and the direction each cell takes towards a strictly
 * closer neighbour (scan order N, E, S, W, first minimum wins).
 */
module FlowField {
  import opened Grid

  /**
   * Cell v reaches a cell of kind `target` in at most k orthogonal steps,
   * every cell it passes through before the last one being non-Empty.
   */
  predicate Within(b: Board, target: Tile, v: int, k: nat)
    requires b.Valid() && 0 <= v < b.Size()
    decreases k, 0
  {
    b.tiles[v] == target
    || (k > 0 && (Within(b, target, v, k - 1) || (b.tiles[v] != Empty && NbrWithin(b, target, v, k - 1))))
  }

  /** Some in-bounds orthogonal neighbour of v reaches the target within j steps. */
  predicate NbrWithin(b: Board, target: Tile, v: int, j: nat)
    requires b.Valid() && 0 <= v < b.Size()
    decreases j, 2
  {
    StepWithin(b, target, v, 1, j) || StepWithin(b, target, v, 3, j)
    || StepWithin(b, target, v, 5, j) || StepWithin(b, target, v, 7, j)
  }

  /** The neighbour of v in direction d exists and reaches the target within j steps. */
  predicate StepWithin(b: Board, target: Tile, v: int, d: int, j: nat)
    requires b.Valid() && 0 <= v < b.Size() && IsOrtho(d)
    decreases j, 1
  {
    var n := Neighbor(b.w, b.h, v, d);
    n >= 0 && Within(b, target, n, j)
  }

  /** The least k in [from, W*H] with Within(v, k), or UNREACHED when there is none. */
  function FirstWithin(b: Board, target: Tile, v: int, from: nat): (r: int)
    requires b.Valid() && 0 <= v < b.Size() && from <= b.Size() + 1
    ensures r == UNREACHED || (from <= r <= b.Size() && Within(b, target, v, r))
    ensures forall j: nat :: from <= j <= b.Size() && j < r ==> !Within(b, target, v, j)
    decreases b.Size() + 1 - from
  {
    if from > b.Size() then UNREACHED
    else if Within(b, target, v, from) then from
    else FirstWithin(b, target, v, from + 1)
  }

  /** The shortest-path distance from v to the target kind, UNREACHED when no path exists. */
  function ShortestDist(b: Board, target: Tile, v: int): int
    requires b.Valid() && 0 <= v < b.Size()
  {
    FirstWithin(b, target, v, 0)
  }

  function Distances(b: Board, target: Tile): (ds: seq<int>)
    requires b.Valid()
    ensures |ds| == b.Size()
  {
    seq(b.Size(), v requires 0 <= v < b.Size() => ShortestDist(b, target, v))
  }

  // ---------------------------------------------------------------------
  // Layers: the cells within k steps stop growing after W*H rounds.

  ghost function Layer(b: Board, target: Tile, k: nat): set<int>
    requires b.Valid()
  {
    set v | 0 <= v < b.Size() && Within(b, target, v, k)
  }

  ghost predicate Settled(b: Board, target: Tile, k: nat)
    requires b.Valid()
  {
    Layer(b, target, k) == Layer(b, target, k + 1)
  }

  lemma WithinGrows(b: Board, target: Tile, v: int, k: nat)
    requires b.Valid() && 0 <= v < b.Size() && Within(b, target, v, k)
    ensures Within(b, target, v, k + 1)
  {
  }

  lemma {:induction false} WithinMono(b: Board, target: Tile, v: int, k: nat, j: nat)
    requires b.Valid() && 0 <= v < b.Size() && Within(b, target, v, k) && k <= j
    ensures Within(b, target, v, j)
    decreases j - k
  {
    if k < j {
      WithinGrows(b, target, v, k);
      WithinMono(b, target, v, k + 1, j);
    }
  }

  lemma StepShrinks(b: Board, target: Tile, v: int, d: int, k: nat)
    requires b.Valid() && 0 <= v < b.Size() && IsOrtho(d) && Settled(b, target, k)
    requires StepWithin(b, target, v, d, k + 1)
    ensures StepWithin(b, target, v, d, k)
  {
    var n := Neighbor(b.w, b.h, v, d);
    assert n in Layer(b, target, k + 1);
  }

  /** A cell within k + 2 steps is within k + 1 steps when round k added nothing. */
  lemma SettledCell(b: Board, target: Tile, v: int, k: nat)
    requires b.Valid() && 0 <= v < b.Size() && Settled(b, target, k)
    requires Within(b, target, v, k + 2)
    ensures Within(b, target, v, k + 1)
  {
    if b.tiles[v] != target && !Within(b, target, v, k + 1) {
      if StepWithin(b, target, v, 1, k + 1) { StepShrinks(b, target, v, 1, k); }
      if StepWithin(b, target, v, 3, k + 1) { StepShrinks(b, target, v, 3, k); }
      if StepWithin(b, target, v, 5, k + 1) { StepShrinks(b, target, v, 5, k); }
      if StepWithin(b, target, v, 7, k + 1) { StepShrinks(b, target, v, 7, k); }
      assert NbrWithin(b, target, v, k);
    }
  }

  /** Once a round adds no cell, the next round adds none either. */
  lemma SettledStep(b: Board, target: Tile, k: nat)
    requires b.Valid() && Settled(b, target, k)
    ensures Settled(b, target, k + 1)
  {
    var k1, k2 := k + 1, k + 2;
    forall v | v in Layer(b, target, k2) ensures v in Layer(b, target, k1) {
      SettledCell(b, target, v, k);
    }
    forall v | v in Layer(b, target, k1) ensures v in Layer(b, target, k2) {
      WithinGrows(b, target, v, k1);
    }
  }

  lemma {:induction false} SettledStays(b: Board, target: Tile, k: nat, j: nat)
    requires b.Valid() && k <= j
    ensures Settled(b, target, k) ==> Settled(b, target, j) && Layer(b, target, j) == Layer(b, target, k)
    decreases j - k
  {
    if k < j && Settled(b, target, k) {
      SettledStep(b, target, k);
      SettledStays(b, target, k + 1, j);
    }
  }

  predicate IsCell(v: int, n: int) {
    0 <= v < n
  }

  /** The indices 0 .. n-1 as a set. */
  ghost function Cells(n: nat): set<int> {
    set v | 0 <= v < n && IsCell(v, n)
  }

  lemma {:induction false} CellsCard(n: nat)
    ensures |Cells(n)| == n
  {
    if n > 0 {
      CellsCard(n - 1);
      assert Cells(n) == Cells(n - 1) + {n - 1};
    }
  }

  lemma SubsetCard<T>(a: set<T>, c: set<T>)
    requires a <= c
    ensures |a| <= |c|
  {
    assert c == a + (c - a);
  }

  /** While no round has settled, every round adds at least one cell. */
  lemma {:induction false} LayerGrowth(b: Board, target: Tile, k: nat)
    requires b.Valid()
    requires forall j: nat :: j < k ==> !Settled(b, target, j)
    ensures |Layer(b, target, k)| >= k
  {
    if k > 0 {
      LayerGrowth(b, target, k - 1);
      assert !Settled(b, target, k - 1);
      var lo, hi := Layer(b, target, k - 1), Layer(b, target, k);
      forall v | v in lo ensures v in hi { WithinGrows(b, target, v, k - 1); }
      assert lo != hi;
      var extra := hi - lo;
      assert hi == lo + extra;
      assert extra != {};
    }
  }

  /** After W*H rounds the reachable set no longer grows. */
  lemma LayersSettle(b: Board, target: Tile)
    requires b.Valid()
    ensures Settled(b, target, b.Size())
  {
    var n := b.Size();
    if !Settled(b, target, n) {
      forall j: nat | j < n + 1 ensures !Settled(b, target, j) {
        SettledStays(b, target, j, n);
      }
      LayerGrowth(b, target, n + 1);
      CellsCard(n);
      assert Layer(b, target, n + 1) <= Cells(n);
      SubsetCard(Layer(b, target, n + 1), Cells(n));
      assert false;
    }
  }

  /** Whatever is reachable at all is reachable within W*H steps. */
  lemma WithinSettles(b: Board, target: Tile, v: int, k: nat)
    requires b.Valid() && 0 <= v < b.Size() && Within(b, target, v, k)
    ensures Within(b, target, v, b.Size())
  {
    if k <= b.Size() {
      WithinMono(b, target, v, k, b.Size());
    } else {
      LayersSettle(b, target);
      SettledStays(b, target, b.Size(), k);
      assert v in Layer(b, target, k);
    }
  }

  /** The shortest distance is a lower bound on every path length. */
  lemma DistLeast(b: Board, target: Tile, v: int, k: nat)
    requires b.Valid() && 0 <= v < b.Size() && Within(b, target, v, k)
    ensures ShortestDist(b, target, v) <= k
    ensures ShortestDist(b, target, v) <= b.Size()
  {
    WithinSettles(b, target, v, k);
    if k <= b.Size() {
      assert Within(b, target, v, k);
    }
  }

  /** A cell with no path gets UNREACHED; a cell with a path gets the length of a shortest one. */
  lemma DistanceIsShortest(b: Board, target: Tile, v: int)
    requires b.Valid() && 0 <= v < b.Size()
    ensures ShortestDist(b, target, v) != UNREACHED <==> exists k: nat :: Within(b, target, v, k)
    ensures ShortestDist(b, target, v) != UNREACHED ==>
              0 <= ShortestDist(b, target, v) <= b.Size()
              && Within(b, target, v, ShortestDist(b, target, v))
              && forall k: nat :: Within(b, target, v, k) ==> ShortestDist(b, target, v) <= k
  {
    var d := ShortestDist(b, target, v);
    forall k: nat | Within(b, target, v, k) ensures d <= k && d != UNREACHED {
      DistLeast(b, target, v, k);
    }
    if d != UNREACHED {
      var w: nat := d;
      assert Within(b, target, v, w);
      assert exists k: nat :: Within(b, target, v, k);
    }
  }

  /** The distance is 0 exactly on the cells of the target kind. */
  lemma DistZero(b: Board, target: Tile, v: int)
    requires b.Valid() && 0 <= v < b.Size()
    ensures ShortestDist(b, target, v) == 0 <==> b.tiles[v] == target
  {
    if b.tiles[v] == target {
      DistLeast(b, target, v, 0);
    }
  }

  /** A non-Empty cell is at most one step further than any neighbour that reaches the target. */
  lemma DistNeighbor(b: Board, target: Tile, v: int, d: int)
    requires b.Valid() && 0 <= v < b.Size() && IsOrtho(d) && b.tiles[v] != Empty
    requires Neighbor(b.w, b.h, v, d) >= 0
    requires ShortestDist(b, target, Neighbor(b.w, b.h, v, d)) != UNREACHED
    ensures ShortestDist(b, target, v) <= ShortestDist(b, target, Neighbor(b.w, b.h, v, d)) + 1
  {
    var m := Neighbor(b.w, b.h, v, d);
    var dm := ShortestDist(b, target, m);
    assert StepWithin(b, target, v, d, dm);
    assert Within(b, target, v, dm + 1);
    DistLeast(b, target, v, dm + 1);
  }

  lemma {:induction false} EmptyNeverReaches(b: Board, target: Tile, v: int, k: nat)
    requires b.Valid() && 0 <= v < b.Size() && b.tiles[v] == Empty && target != Empty
    ensures !Within(b, target, v, k)
  {
    if k > 0 {
      EmptyNeverReaches(b, target, v, k - 1);
    }
  }

  // ---------------------------------------------------------------------
  // Direction extraction.

  /** One comparison of the extraction scan: take d when its in-bounds neighbour is strictly closer. */
  function Consider(b: Board, dist: seq<int>, i: int, d: int, best: (int, int)): (int, int)
    requires b.Valid() && |dist| == b.Size() && 0 <= i < b.Size() && IsOrtho(d)
  {
    var n := Neighbor(b.w, b.h, i, d);
    if n >= 0 && dist[n] < best.0 then (dist[n], d) else best
  }

  /** The (best distance, best direction) pair after scanning the first k of N, E, S, W. */
  function Scan(b: Board, dist: seq<int>, i: int, k: nat): (s: (int, int))
    requires b.Valid() && |dist| == b.Size() && 0 <= i < b.Size() && k <= 4
    ensures s.1 == 0 ==> s.0 == dist[i]
    ensures s.1 != 0 ==> IsOrtho(s.1) && s.1 < 2 * k && Neighbor(b.w, b.h, i, s.1) >= 0
                         && s.0 == dist[Neighbor(b.w, b.h, i, s.1)] && s.0 < dist[i]
  {
    if k == 0 then (dist[i], 0)
    else
      var d := ORTHO[k - 1];
      assert d == 2 * k - 1;
      Consider(b, dist, i, d, Scan(b, dist, i, k - 1))
  }

  /** The scan keeps direction 0 exactly when none of the neighbours scanned so far is strictly closer. */
  lemma {:induction false} ScanNone(b: Board, dist: seq<int>, i: int, k: nat)
    requires b.Valid() && |dist| == b.Size() && 0 <= i < b.Size() && k <= 4
    ensures Scan(b, dist, i, k).1 == 0 <==> forall d :: IsOrtho(d) && d < 2 * k && Neighbor(b.w, b.h, i, d) >= 0 ==>
                                                       dist[Neighbor(b.w, b.h, i, d)] >= dist[i]
  {
    if k > 0 {
      ScanNone(b, dist, i, k - 1);
      var d := ORTHO[k - 1];
      assert d == 2 * k - 1;
      assert forall e :: IsOrtho(e) && e < 2 * k ==> e < 2 * (k - 1) || e == d;
    }
  }

  /** The distance the scan keeps is no larger than any neighbour scanned so far, once a direction is kept. */
  lemma {:induction false} ScanNearest(b: Board, dist: seq<int>, i: int, k: nat)
    requires b.Valid() && |dist| == b.Size() && 0 <= i < b.Size() && k <= 4
    ensures var s := Scan(b, dist, i, k);
            s.1 != 0 ==> forall d :: IsOrtho(d) && d < 2 * k && Neighbor(b.w, b.h, i, d) >= 0 ==>
                                       s.0 <= dist[Neighbor(b.w, b.h, i, d)]
  {
    if k > 0 {
      ScanNearest(b, dist, i, k - 1);
      ScanNone(b, dist, i, k - 1);
      var p, s := Scan(b, dist, i, k - 1), Scan(b, dist, i, k);
      var d := ORTHO[k - 1];
      assert d == 2 * k - 1;
      assert s.0 <= p.0;
      forall e | IsOrtho(e) && e < 2 * k && Neighbor(b.w, b.h, i, e) >= 0 && s.1 != 0
        ensures s.0 <= dist[Neighbor(b.w, b.h, i, e)]
      {
        if e < 2 * (k - 1) {
          assert p.0 <= dist[Neighbor(b.w, b.h, i, e)];
        }
      }
    }
  }

  /** The kept direction is strictly nearer than every neighbour scanned before it. */
  lemma {:induction false} ScanFirst(b: Board, dist: seq<int>, i: int, k: nat)
    requires b.Valid() && |dist| == b.Size() && 0 <= i < b.Size() && k <= 4
    ensures var s := Scan(b, dist, i, k);
            s.1 != 0 ==> forall d :: IsOrtho(d) && d < s.1 && Neighbor(b.w, b.h, i, d) >= 0 ==>
                                       s.0 < dist[Neighbor(b.w, b.h, i, d)]
  {
    if k > 0 {
      ScanFirst(b, dist, i, k - 1);
      ScanNearest(b, dist, i, k - 1);
      ScanNone(b, dist, i, k - 1);
      var p, s := Scan(b, dist, i, k - 1), Scan(b, dist, i, k);
      var d := ORTHO[k - 1];
      assert d == 2 * k - 1;
      if s != p {
        assert s.1 == d && s.0 < p.0;
        forall e | IsOrtho(e) && e < d && Neighbor(b.w, b.h, i, e) >= 0
          ensures s.0 < dist[Neighbor(b.w, b.h, i, e)]
        {
          assert e < 2 * (k - 1);
        }
      }
    }
  }

  /**
   * The direction the scan picks: 0 when no neighbour is strictly closer,
   * otherwise a direction to a nearest neighbour, ties going to the one
   * scanned first.
   */
  function BestDir(b: Board, dist: seq<int>, i: int): (r: int)
    requires b.Valid() && |dist| == b.Size() && 0 <= i < b.Size()
    ensures r == 0 || IsOrtho(r)
    ensures r == 0 <==> forall d :: IsOrtho(d) && Neighbor(b.w, b.h, i, d) >= 0 ==>
                                      dist[Neighbor(b.w, b.h, i, d)] >= dist[i]
    ensures r != 0 ==> Neighbor(b.w, b.h, i, r) >= 0 && dist[Neighbor(b.w, b.h, i, r)] < dist[i]
    ensures r != 0 ==> forall d :: IsOrtho(d) && Neighbor(b.w, b.h, i, d) >= 0 ==>
                                     dist[Neighbor(b.w, b.h, i, r)] <= dist[Neighbor(b.w, b.h, i, d)]
    ensures r != 0 ==> forall d :: IsOrtho(d) && d < r && Neighbor(b.w, b.h, i, d) >= 0 ==>
                                     dist[Neighbor(b.w, b.h, i, r)] < dist[Neighbor(b.w, b.h, i, d)]
  {
    ScanNone(b, dist, i, 4);
    ScanNearest(b, dist, i, 4);
    ScanFirst(b, dist, i, 4);
    Scan(b, dist, i, 4).1
  }

  /** The direction stored for cell i: 0 on unreached cells and on target cells, else the scan's pick. */
  function FieldAt(b: Board, target: Tile, dist: seq<int>, i: int): int
    requires b.Valid() && |dist| == b.Size() && 0 <= i < b.Size()
  {
    if dist[i] == UNREACHED then 0
    else if b.tiles[i] == target then 0
    else BestDir(b, dist, i)
  }

  function Directions(b: Board, target: Tile, dist: seq<int>): (f: seq<int>)
    requires b.Valid() && |dist| == b.Size()
    ensures |f| == b.Size()
  {
    seq(b.Size(), i requires 0 <= i < b.Size() => FieldAt(b, target, dist, i))
  }

  /** The flow field towards `target`: a function of the tiles alone. */
  function FlowFieldOf(b: Board, target: Tile): (f: seq<int>)
    requires b.Valid()
    ensures |f| == b.Size()
  {
    Directions(b, target, Distances(b, target))
  }

  // ---------------------------------------------------------------------
  // What the field promises.

  /**
   * Target cells, unreachable cells and Empty cells get direction 0; every
   * other cell gets an orthogonal direction to an in-bounds neighbour exactly
   * one step closer to the target.
   */
  lemma FieldShape(b: Board, target: Tile, i: int)
    requires b.Valid() && 0 <= i < b.Size()
    ensures b.tiles[i] == target ==> FlowFieldOf(b, target)[i] == 0
    ensures ShortestDist(b, target, i) == UNREACHED ==> FlowFieldOf(b, target)[i] == 0
    ensures b.tiles[i] == Empty ==> FlowFieldOf(b, target)[i] == 0
    ensures ShortestDist(b, target, i) != UNREACHED && b.tiles[i] != target ==>
              var r := FlowFieldOf(b, target)[i];
              IsOrtho(r) && Neighbor(b.w, b.h, i, r) >= 0
              && ShortestDist(b, target, Neighbor(b.w, b.h, i, r)) == ShortestDist(b, target, i) - 1
  {
    FieldZero(b, target, i);
    if ShortestDist(b, target, i) != UNREACHED && b.tiles[i] != target {
      FieldDownhill(b, target, i);
    }
  }

  /** Where the field holds 0: target cells, unreached cells, Empty cells. */
  lemma FieldZero(b: Board, target: Tile, i: int)
    requires b.Valid() && 0 <= i < b.Size()
    ensures b.tiles[i] == target || ShortestDist(b, target, i) == UNREACHED || b.tiles[i] == Empty ==>
              FlowFieldOf(b, target)[i] == 0
  {
    var di := ShortestDist(b, target, i);
    if b.tiles[i] == Empty && target != Empty {
      EmptyNeverReaches(b, target, i, if di == UNREACHED then 0 else di);
    }
  }

  /** A reachable cell that is not a target points to a neighbour one step closer. */
  lemma FieldDownhill(b: Board, target: Tile, i: int)
    requires b.Valid() && 0 <= i < b.Size()
    requires ShortestDist(b, target, i) != UNREACHED && b.tiles[i] != target
    ensures var r := FlowFieldOf(b, target)[i];
            IsOrtho(r) && Neighbor(b.w, b.h, i, r) >= 0
            && ShortestDist(b, target, Neighbor(b.w, b.h, i, r)) == ShortestDist(b, target, i) - 1
  {
    var ds := Distances(b, target);
    var di := ShortestDist(b, target, i);
    DistZero(b, target, i);
    assert di > 0 && !Within(b, target, i, di - 1);
    assert b.tiles[i] != Empty && NbrWithin(b, target, i, di - 1);
    var e := PickStep(b, target, i, di - 1);
    DistLeast(b, target, Neighbor(b.w, b.h, i, e), di - 1);
    assert ds[Neighbor(b.w, b.h, i, e)] < ds[i];
    var r := BestDir(b, ds, i);
    assert r != 0;
    DistNeighbor(b, target, i, r);
    assert FlowFieldOf(b, target)[i] == r;
  }

  lemma PickStep(b: Board, target: Tile, v: int, j: nat) returns (e: int)
    requires b.Valid() && 0 <= v < b.Size() && NbrWithin(b, target, v, j)
    ensures IsOrtho(e) && StepWithin(b, target, v, e, j)
  {
    if StepWithin(b, target, v, 1, j) { e := 1; }
    else if StepWithin(b, target, v, 3, j) { e := 3; }
    else if StepWithin(b, target, v, 5, j) { e := 5; }
    else { e := 7; }
  }

  /** The cell reached from v after following `field` for k steps (staying put where it gives no move). */
  function Follow(b: Board, field: seq<int>, v: int, k: nat): (c: int)
    requires b.Valid() && |field| == b.Size() && 0 <= v < b.Size()
    ensures 0 <= c < b.Size()
    decreases k
  {
    if k == 0 then v
    else
      var d := field[v];
      if 0 < d < 9 && Neighbor(b.w, b.h, v, d) >= 0 then Follow(b, field, Neighbor(b.w, b.h, v, d), k - 1)
      else v
  }

  /** From a cell that can reach the target, following the field arrives on the target in exactly `dist` steps. */
  lemma {:induction false} FollowReachesTarget(b: Board, target: Tile, v: int)
    requires b.Valid() && 0 <= v < b.Size() && ShortestDist(b, target, v) != UNREACHED
    ensures b.tiles[Follow(b, FlowFieldOf(b, target), v, ShortestDist(b, target, v))] == target
    decreases ShortestDist(b, target, v)
  {
    var d := ShortestDist(b, target, v);
    var f := FlowFieldOf(b, target);
    DistZero(b, target, v);
    if d > 0 {
      FieldDownhill(b, target, v);
      var m := Neighbor(b.w, b.h, v, f[v]);
      FollowReachesTarget(b, target, m);
      assert Follow(b, f, v, d) == Follow(b, f, m, d - 1);
    }
  }

  /** On a grid with no cell of the target kind every direction is 0. */
  lemma NoTargetNoField(b: Board, target: Tile)
    requires b.Valid() && forall i :: 0 <= i < b.Size() ==> b.tiles[i] != target
    ensures forall i :: 0 <= i < b.Size() ==> FlowFieldOf(b, target)[i] == 0
  {
    forall i | 0 <= i < b.Size() ensures FlowFieldOf(b, target)[i] == 0 {
      var di := ShortestDist(b, target, i);
      if di != UNREACHED {
        NoTargetUnreachable(b, target, i, di);
      }
      FieldZero(b, target, i);
    }
  }

  lemma {:induction false} NoTargetUnreachable(b: Board, target: Tile, v: int, k: nat)
    requires b.Valid() && 0 <= v < b.Size() && forall i :: 0 <= i < b.Size() ==> b.tiles[i] != target
    ensures !Within(b, target, v, k)
    decreases k, 0
  {
    if k > 0 {
      var j := k - 1;
      NoTargetUnreachable(b, target, v, j);
      NoTargetStep(b, target, v, 1, j);
      NoTargetStep(b, target, v, 3, j);
      NoTargetStep(b, target, v, 5, j);
      NoTargetStep(b, target, v, 7, j);
    }
  }

  lemma {:induction false} NoTargetStep(b: Board, target: Tile, v: int, d: int, j: nat)
    requires b.Valid() && 0 <= v < b.Size() && IsOrtho(d)
    requires forall i :: 0 <= i < b.Size() ==> b.tiles[i] != target
    ensures !StepWithin(b, target, v, d, j)
    decreases j, 1
  {
    var n := Neighbor(b.w, b.h, v, d);
    if n >= 0 {
      NoTargetUnreachable(b, target, n, j);
    }
  }
}
