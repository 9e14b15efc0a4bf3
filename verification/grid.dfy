/**
 * The tile grid: tile kinds, the grid dimensions, the flat index <-> (x, y)
 * conversions of the world state, and the compass direction tables shared by
 * the flow-field generator and the agent engine.
 */
module Grid {

  /** The width and height the city is built with; the model keeps both as parameters. */
  const GRID_WIDTH: int := 128
  const GRID_HEIGHT: int := 128

  /** The "not reached" distance the flow-field generator fills its buffer with. */
  const UNREACHED: int := 999999

  datatype Tile = Empty | Road | Residential | Industrial | Commercial

  /** Dimensions the model supports: a non-empty grid whose every path length stays below the sentinel. */
  predicate ValidDims(w: int, h: int) {
    0 < w && 0 < h && w * h < UNREACHED
  }

  /** A W x H grid of tiles stored row by row. */
  datatype Board = Board(w: int, h: int, tiles: seq<Tile>) {
    predicate Valid() {
      ValidDims(w, h) && |tiles| == w * h
    }

    function Size(): int {
      w * h
    }

    predicate InBounds(x: int, y: int) {
      0 <= x < w && 0 <= y < h
    }
  }

  lemma DefaultDimsValid()
    ensures ValidDims(GRID_WIDTH, GRID_HEIGHT)
  {
  }

  /**
   * `getIndex`: the flat index of cell (x, y), row by row. No bounds check:
   * for a column in [0, W) and a non-negative row the row and column are
   * recovered by division and remainder.
   */
  function GetIndex(w: int, x: int, y: int): (idx: int)
    ensures 0 < w && 0 <= x < w && 0 <= y ==> 0 <= idx && idx / w == y && idx % w == x
  {
    if 0 < w && 0 <= x < w && 0 <= y then
      MulNonNeg(y, w);
      DivModUnique(y * w + x, w, y, x);
      y * w + x
    else
      y * w + x
  }

  lemma MulNonNeg(a: int, b: int)
    requires 0 <= a && 0 <= b
    ensures 0 <= a * b
  {
  }

  /**
   * JavaScript's `%`: the remainder takes the sign of the dividend, so a
   * negative dividend gives a remainder in (-b, 0], not Dafny's Euclidean one.
   */
  function JsRem(a: int, b: int): (r: int)
    requires 0 < b
    ensures 0 <= a ==> r == a % b
    ensures a < 0 ==> -b < r <= 0 && (a - r) % b == 0
    ensures -b < r < b
  {
    if 0 <= a then a % b
    else
      var m := -a;
      DivModUnique(a + m % b, b, -(m / b), 0);
      -(m % b)
  }

  /**
   * `getXY`: x is `index % W` with JavaScript's truncating remainder, y is
   * `Math.floor(index / W)`, which for a positive W is Dafny's division. On a
   * non-negative index the pair rebuilds the index with x in [0, W).
   */
  function GetXY(w: int, index: int): (xy: (int, int))
    requires 0 < w
    ensures 0 <= index ==> 0 <= xy.0 < w && 0 <= xy.1 && xy.1 * w + xy.0 == index
  {
    if 0 <= index then
      DivSplit(index, w);
      (JsRem(index, w), index / w)
    else
      (JsRem(index, w), index / w)
  }

  lemma DivSplit(a: int, w: int)
    requires 0 <= a && 0 < w
    ensures 0 <= a / w && (a / w) * w + a % w == a
  {
  }

  /** Quotient and remainder are unique, which pins down `/` and `%` for a positive divisor. */
  lemma DivModUnique(a: int, w: int, q: int, r: int)
    requires 0 < w && a == q * w + r && 0 <= r < w
    ensures a / w == q && a % w == r
  {
    var q0, r0 := a / w, a % w;
    assert a == q0 * w + r0;
    if q0 > q {
      MulAtLeast(q0 - q, w);
      assert false;
    } else if q0 < q {
      MulAtLeast(q - q0, w);
      assert false;
    }
  }

  lemma MulAtLeast(k: int, w: int)
    requires 1 <= k && 0 < w
    ensures k * w >= w
  {
  }

  lemma RowBound(w: int, h: int, x: int, y: int)
    requires 0 < w && 0 <= x < w && 0 <= y < h
    ensures 0 <= y * w + x < w * h
  {
    assert y * w >= 0;
    assert (y + 1) * w <= h * w by { MulMono(y + 1, h, w); }
  }

  lemma MulMono(a: int, b: int, w: int)
    requires a <= b && 0 < w
    ensures a * w <= b * w
  {
  }

  /** `getXY` inverts `getIndex` on every in-bounds cell. */
  lemma XYOfIndex(w: int, h: int, x: int, y: int)
    requires 0 < w && 0 <= x < w && 0 <= y < h
    ensures 0 <= GetIndex(w, x, y) < w * h
    ensures GetXY(w, GetIndex(w, x, y)) == (x, y)
  {
    RowBound(w, h, x, y);
    DivModUnique(y * w + x, w, y, x);
  }

  /** `getIndex` inverts `getXY` on every index of the grid, and `getXY` lands in bounds. */
  lemma IndexOfXY(w: int, h: int, i: int)
    requires 0 < w && 0 < h && 0 <= i < w * h
    ensures 0 <= GetXY(w, i).0 < w && 0 <= GetXY(w, i).1 < h
    ensures GetIndex(w, GetXY(w, i).0, GetXY(w, i).1) == i
  {
    var x, y := i % w, i / w;
    assert i == y * w + x;
    if y >= h {
      assert y * w >= h * w by { MulMono(h, y, w); }
      assert false;
    }
  }

  /** Direction codes: 0 none, 1 N, 2 NE, 3 E, 4 SE, 5 S, 6 SW, 7 W, 8 NW. */
  const DX: seq<int> := [0, 0, 1, 1, 1, 0, -1, -1, -1]
  const DY: seq<int> := [0, -1, -1, 0, 1, 1, 1, 0, -1]

  /** The orthogonal directions N, E, S, W, in the order both the search and the extraction scan them. */
  const ORTHO: seq<int> := [1, 3, 5, 7]

  predicate IsOrtho(d: int) {
    d == 1 || d == 3 || d == 5 || d == 7
  }

  /** The orthogonal direction pointing back. */
  function Opposite(d: int): int {
    if d == 1 then 5 else if d == 3 then 7 else if d == 5 then 1 else 3
  }

  /** The index of the cell one step from cell `i` in direction `d`, or -1 when that step leaves the grid. */
  function Neighbor(w: int, h: int, i: int, d: int): (n: int)
    requires 0 < w && 0 < h && 0 <= i < w * h && 0 <= d < 9
    ensures n == -1 || 0 <= n < w * h
  {
    var x := i % w;
    var y := i / w;
    var nx := x + DX[d];
    var ny := y + DY[d];
    if 0 <= nx < w && 0 <= ny < h then
      RowBound(w, h, nx, ny);
      GetIndex(w, nx, ny)
    else
      -1
  }

  /**
   * The neighbour is on the grid exactly when the shifted coordinates are,
   * and then it is the cell at those coordinates: no step wraps around a row end.
   */
  lemma NeighborIsAdjacent(w: int, h: int, i: int, d: int)
    requires 0 < w && 0 < h && 0 <= i < w * h && 0 <= d < 9
    ensures Neighbor(w, h, i, d) >= 0 <==> 0 <= i % w + DX[d] < w && 0 <= i / w + DY[d] < h
    ensures Neighbor(w, h, i, d) >= 0 ==> GetXY(w, Neighbor(w, h, i, d)) == (i % w + DX[d], i / w + DY[d])
  {
    var nx, ny := i % w + DX[d], i / w + DY[d];
    if 0 <= nx < w && 0 <= ny < h {
      XYOfIndex(w, h, nx, ny);
    }
  }

  /** For a cell on the grid, the neighbour in direction d is the cell at the shifted coordinates. */
  lemma NeighborAt(w: int, h: int, x: int, y: int, d: int)
    requires 0 < w && 0 < h && 0 <= x < w && 0 <= y < h && 1 <= d <= 8
    requires 0 <= x + DX[d] < w && 0 <= y + DY[d] < h
    ensures 0 <= GetIndex(w, x, y) < w * h
    ensures Neighbor(w, h, GetIndex(w, x, y), d) == GetIndex(w, x + DX[d], y + DY[d])
  {
    RowBound(w, h, x, y);
  }

  /** Orthogonal adjacency is symmetric: stepping back from a neighbour returns to the cell. */
  lemma NeighborSymmetric(w: int, h: int, i: int, d: int)
    requires 0 < w && 0 < h && 0 <= i < w * h && IsOrtho(d)
    requires Neighbor(w, h, i, d) >= 0
    ensures Neighbor(w, h, Neighbor(w, h, i, d), Opposite(d)) == i
  {
    var x, y := i % w, i / w;
    IndexOfXY(w, h, i);
    var nx, ny := x + DX[d], y + DY[d];
    XYOfIndex(w, h, nx, ny);
    XYOfIndex(w, h, x, y);
  }
}
