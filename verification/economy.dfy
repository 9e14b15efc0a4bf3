/**
 * The economy: build prices, the affordability check, the deduction, and
 * the per-cycle maintenance charge on every non-Empty cell.
 */
module Economy {
  import opened Grid
  import opened World

  const BUILD_COST_ROAD: real := 10.0
  const BUILD_COST_RES: real := 50.0
  const BUILD_COST_IND: real := 100.0
  const BUILD_COST_COM: real := 75.0
  const MAINTENANCE_COST_PER_TILE: real := 0.05

  /** The price of building one cell of kind t; Empty (erasing) is free. */
  function Cost(t: Tile): (c: real)
    ensures c >= 0.0
    ensures c == 0.0 <==> t == Empty
  {
    match t
    case Road => BUILD_COST_ROAD
    case Residential => BUILD_COST_RES
    case Industrial => BUILD_COST_IND
    case Commercial => BUILD_COST_COM
    case Empty => 0.0
  }

  /** deduct: the price leaves the funds; nothing else changes, and no check is made. */
  function Deduct(w: World, t: Tile): (r: World)
    ensures r.funds <= w.funds
    ensures r == w.(funds := r.funds)
    ensures r.funds + Cost(t) == w.funds
  {
    w.(funds := w.funds - Cost(t))
  }

  /**
   * canAfford: the funds cover the price, which is exactly what keeps the
   * funds non-negative once the price is deducted.
   */
  function CanAfford(w: World, t: Tile): (ok: bool)
    ensures ok <==> Deduct(w, t).funds >= 0.0
    ensures w.funds >= 0.0 && t == Empty ==> ok
    ensures 0.0 <= w.funds < BUILD_COST_ROAD ==> (ok <==> t == Empty)
    ensures w.funds < 0.0 ==> !ok
  {
    w.funds >= Cost(t)
  }

  /** The number of non-Empty cells. */
  function CountBuilt(tiles: seq<Tile>): (n: nat)
    ensures n <= |tiles|
  {
    if |tiles| == 0 then 0 else CountBuilt(tiles[..|tiles| - 1]) + (if tiles[|tiles| - 1] != Empty then 1 else 0)
  }

  /** The count is zero exactly on an all-Empty grid, and the full size exactly on a fully built one. */
  lemma {:induction false} CountBuiltBounds(tiles: seq<Tile>)
    ensures CountBuilt(tiles) == 0 <==> forall i :: 0 <= i < |tiles| ==> tiles[i] == Empty
    ensures CountBuilt(tiles) == |tiles| <==> forall i :: 0 <= i < |tiles| ==> tiles[i] != Empty
  {
    if |tiles| > 0 {
      var pre := tiles[..|tiles| - 1];
      CountBuiltBounds(pre);
      assert forall i :: 0 <= i < |pre| ==> pre[i] == tiles[i];
    }
  }

  /** Changing one cell moves the count by at most one, in the direction of the change. */
  lemma {:induction false} CountBuiltUpdate(tiles: seq<Tile>, i: int, t: Tile)
    requires 0 <= i < |tiles|
    ensures CountBuilt(tiles[i := t]) == CountBuilt(tiles) - (if tiles[i] != Empty then 1 else 0)
                                                          + (if t != Empty then 1 else 0)
  {
    var s := tiles[i := t];
    if i < |tiles| - 1 {
      assert s[..|s| - 1] == tiles[..|tiles| - 1][i := t];
      CountBuiltUpdate(tiles[..|tiles| - 1], i, t);
    } else {
      assert s[..|s| - 1] == tiles[..|tiles| - 1];
    }
  }

  /**
   * processMaintenance: charge 0.05 for every non-Empty cell and return the
   * charge. Only the funds change.
   */
  method ProcessMaintenance(w: World) returns (r: World, maintenance: real)
    ensures maintenance == MAINTENANCE_COST_PER_TILE * CountBuilt(w.board.tiles) as real
    ensures 0.0 <= maintenance <= MAINTENANCE_COST_PER_TILE * |w.board.tiles| as real
    ensures r == w.(funds := w.funds - maintenance)
  {
    maintenance := 0.0;
    var tiles := w.board.tiles;
    var i := 0;
    while i < |tiles|
      invariant 0 <= i <= |tiles|
      invariant maintenance == MAINTENANCE_COST_PER_TILE * CountBuilt(tiles[..i]) as real
    {
      assert tiles[..i + 1][..i] == tiles[..i];
      if tiles[i] != Empty {
        maintenance := maintenance + MAINTENANCE_COST_PER_TILE;
      }
      i := i + 1;
    }
    assert tiles[..i] == tiles;
    r := w.(funds := w.funds - maintenance);
  }
}
