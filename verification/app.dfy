/**
 * The grid-side parts of the user interface: the paint edit rule (erase,
 * or an affordable build, then fresh direction fields), the movement
 * efficiency shown in the stats bar, and loading a saved city.
 */
module App {
  import opened Options
  import opened Grid
  import opened World
  import FlowField
  import FlowFieldSystem
  import opened Economy

  /** The selected tool: the eraser or one tile kind to build. */
  datatype Tool = Erase | Build(kind: Tile)

  /**
   * `updateFields` as a function: the three direction fields recomputed from
   * the tiles. Only the fields change, and fields that already match the
   * tiles stay as they are.
   */
  function Refresh(w: World): (r: World)
    requires w.WellFormed()
    ensures r.WellFormed() && FieldsCurrent(r)
    ensures r == w.(toWork := r.toWork, toHome := r.toHome, toShop := r.toShop)
    ensures FieldsCurrent(w) ==> r == w
  {
    w.(toWork := FlowField.FlowFieldOf(w.board, Industrial),
       toHome := FlowField.FlowFieldOf(w.board, Residential),
       toShop := FlowField.FlowFieldOf(w.board, Commercial))
  }

  /** The tile kind the tool writes. */
  function Written(tool: Tool): Tile {
    if tool.Erase? then Empty else tool.kind
  }

  /** Cell (x, y) of the board is kind t. */
  predicate CellIs(w: World, x: int, y: int, t: Tile)
    requires w.WellFormed()
  {
    w.board.InBounds(x, y) && 0 <= GetIndex(w.board.w, x, y) < w.board.Size()
    && w.board.tiles[GetIndex(w.board.w, x, y)] == t
  }

  /**
   * `paint` at grid cell (x, y): nothing outside the grid; the eraser
   * clears a built cell for free; a build tool writes a different kind
   * when the funds cover its price, which is then deducted. Every write is
   * followed by regenerating the fields.
   */
  function Paint(w: World, x: int, y: int, tool: Tool): (r: World)
    requires w.WellFormed()
    ensures r.WellFormed()
    ensures r == w.(board := r.board, funds := r.funds, toWork := r.toWork, toHome := r.toHome, toShop := r.toShop)
    ensures r.board.w == w.board.w && r.board.h == w.board.h && |r.board.tiles| == |w.board.tiles|
    ensures !w.board.InBounds(x, y) ==> r == w
    ensures r == w <==> !w.board.InBounds(x, y) || CellIs(w, x, y, Written(tool))
                        || (tool.Build? && w.funds < Cost(tool.kind))
    ensures r != w ==> FieldsCurrent(r) && CellIs(r, x, y, Written(tool))
    ensures forall c :: 0 <= c < |w.board.tiles| && c != GetIndex(w.board.w, x, y) ==>
              r.board.tiles[c] == w.board.tiles[c]
    ensures tool.Erase? ==> r.funds == w.funds
    ensures tool.Build? && r != w ==> r.funds == w.funds - Cost(tool.kind)
    ensures w.funds >= 0.0 ==> r.funds >= 0.0
    ensures Consistent(w) ==> Consistent(r)
    ensures PositionsInBounds(w) ==> PositionsInBounds(r)
  {
    if !w.board.InBounds(x, y) then w
    else
      RowBound(w.board.w, w.board.h, x, y);
      var i := GetIndex(w.board.w, x, y);
      var t := Written(tool);
      if w.board.tiles[i] == t then w
      else if tool.Build? && !CanAfford(w, t) then w
      else
        var paid := if tool.Build? then Deduct(w, t) else w;
        var e := paid.(board := w.board.(tiles := w.board.tiles[i := t]));
        assert e.board.tiles[i] == t;
        Refresh(e)
  }

  /** `paint` with the fields regenerated by the breadth-first search itself. */
  method PaintCell(w: World, x: int, y: int, tool: Tool) returns (r: World)
    requires w.WellFormed()
    ensures r == Paint(w, x, y, tool)
  {
    if !w.board.InBounds(x, y) {
      return w;
    }
    RowBound(w.board.w, w.board.h, x, y);
    var i := GetIndex(w.board.w, x, y);
    var t := Written(tool);
    if w.board.tiles[i] == t || (tool.Build? && !CanAfford(w, t)) {
      return w;
    }
    var paid := if tool.Build? then Deduct(w, t) else w;
    var e := paid.(board := w.board.(tiles := w.board.tiles[i := t]));
    r := FlowFieldSystem.UpdateFields(e);
  }

  /** Painting the same cell with the same tool twice is painting it once. */
  lemma PaintIdempotent(w: World, x: int, y: int, tool: Tool)
    requires w.WellFormed()
    ensures Paint(Paint(w, x, y, tool), x, y, tool) == Paint(w, x, y, tool)
  {
    var r := Paint(w, x, y, tool);
    if r != w {
      assert CellIs(r, x, y, Written(tool));
    }
  }

  /**
   * Building on an empty cell and erasing it again restores the city
   * exactly, fields included, except that the price is not refunded.
   */
  lemma BuildThenErase(w: World, x: int, y: int, k: Tile)
    requires Consistent(w) && CellIs(w, x, y, Empty)
    requires k != Empty && w.funds >= Cost(k)
    ensures Paint(Paint(w, x, y, Build(k)), x, y, Erase) == w.(funds := w.funds - Cost(k))
  {
    var i := GetIndex(w.board.w, x, y);
    var r1 := Paint(w, x, y, Build(k));
    var r2 := Paint(r1, x, y, Erase);
    assert r1.board.tiles == w.board.tiles[i := k];
    assert r2.board.tiles == r1.board.tiles[i := Empty];
    assert r2.board.tiles == w.board.tiles;
    assert r2.board == w.board;
  }

  /** A sequence of paint edits, applied in order. */
  function PaintAll(w: World, edits: seq<(int, int, Tool)>): (r: World)
    requires w.WellFormed()
    ensures r.WellFormed()
    ensures r.board.w == w.board.w && r.board.h == w.board.h
    decreases |edits|
  {
    if |edits| == 0 then w
    else PaintAll(Paint(w, edits[0].0, edits[0].1, edits[0].2), edits[1..])
  }

  /**
   * Construction never drives the funds below zero, and the engine's
   * invariants survive any run of edits: the price check comes before
   * every deduction and every write is followed by fresh fields.
   */
  lemma {:induction false} EditsKeepInvariants(w: World, edits: seq<(int, int, Tool)>)
    requires w.WellFormed()
    ensures w.funds >= 0.0 ==> PaintAll(w, edits).funds >= 0.0
    ensures PaintAll(w, edits).funds <= w.funds
    ensures Consistent(w) ==> Consistent(PaintAll(w, edits))
    ensures PaintAll(w, edits).agents == w.agents && PaintAll(w, edits).levels == w.levels
    decreases |edits|
  {
    if |edits| > 0 {
      var p := Paint(w, edits[0].0, edits[0].1, edits[0].2);
      assert p.funds <= w.funds by {
        if edits[0].2.Build? && p != w {
          assert Cost(edits[0].2.kind) >= 0.0;
        }
      }
      EditsKeepInvariants(p, edits[1..]);
    }
  }

  // ---------------------------------------------------------------------
  // The efficiency figure.

  /**
   * The efficiency shown after each economy cycle: 100 with no attempts,
   * otherwise `Math.round(successes / attempts * 100)`, that is the
   * nearest integer to the percentage with halves rounded up: the e with
   * e <= 100 * successes / attempts + 1/2 < e + 1, stated below with both
   * sides multiplied by 2 * attempts.
   */
  function Efficiency(successes: int, attempts: int): (e: int)
    ensures attempts <= 0 ==> e == 100
    ensures attempts > 0 ==> 2 * attempts * e <= 200 * successes + attempts < 2 * attempts * (e + 1)
    ensures 0 <= successes <= attempts ==> 0 <= e <= 100
  {
    if attempts > 0 then
      var e := (200 * successes + attempts) / (2 * attempts);
      EfficiencyBounds(successes, attempts, e);
      e
    else 100
  }

  /** The floor quotient lies between its bounds, and in [0, 100] when successes do not exceed attempts. */
  lemma EfficiencyBounds(successes: int, attempts: int, e: int)
    requires attempts > 0 && e == (200 * successes + attempts) / (2 * attempts)
    ensures 2 * attempts * e <= 200 * successes + attempts < 2 * attempts * (e + 1)
    ensures 0 <= successes <= attempts ==> 0 <= e <= 100
  {
    var n, d := 200 * successes + attempts, 2 * attempts;
    assert n == d * e + n % d;
    assert d * (e + 1) == d * e + d;
    if 0 <= successes <= attempts {
      if e > 100 {
        assert d * e >= d * 101 by { MulMono(101, e, d); }
        assert false;
      }
    }
  }

  /** More successes never lower the figure. */
  lemma EfficiencyMonotone(s1: int, s2: int, attempts: int)
    requires s1 <= s2
    ensures Efficiency(s1, attempts) <= Efficiency(s2, attempts)
  {
    if attempts > 0 {
      var e1, e2 := Efficiency(s1, attempts), Efficiency(s2, attempts);
      var d := 2 * attempts;
      if e1 > e2 {
        MulMono(e2 + 1, e1, d);
        assert false;
      }
    }
  }

  /** Every attempt succeeding gives 100, none succeeding gives 0. */
  lemma EfficiencyExtremes(attempts: int)
    requires attempts > 0
    ensures Efficiency(attempts, attempts) == 100 && Efficiency(0, attempts) == 0
  {
    DivModUnique(200 * attempts + attempts, 2 * attempts, 100, attempts);
    DivModUnique(attempts, 2 * attempts, 0, attempts);
  }

  // ---------------------------------------------------------------------
  // Loading a saved city.

  /** What the browser storage held: nothing, text that is not JSON, or a parsed record (`null` parses to None). */
  datatype Stored = Missing | Unparsable | Parsed(data: Option<Snapshot>)

  /** The alert the load ends with. */
  datatype Notice = NoSavedCity | CityLoaded | CorruptSave

  /**
   * `handleLoad`: with a parsed record, load it and regenerate the fields;
   * a load that fails reports a corrupt save. The load used here checks the
   * record before writing, so a failure leaves the city as it was.
   */
  function HandleLoad(w: World, stored: Stored): (r: (World, Notice))
    requires w.WellFormed()
    ensures stored.Missing? ==> r == (w, NoSavedCity)
    ensures r.1 == CorruptSave ==> r.0 == w
    ensures r.1 == CorruptSave <==> stored.Unparsable? || (stored.Parsed? && LoadChecked(w, stored.data).failed)
    ensures r.0.WellFormed()
    ensures r.1 == CityLoaded ==> FieldsCurrent(r.0) && r.0.board.w == w.board.w && r.0.board.h == w.board.h
    ensures r.1 == CityLoaded && stored.data.Some? && stored.data.value.agents.Some? ==>
              r.0.funds == stored.data.value.funds && CountConsistent(r.0)
    ensures Consistent(w) ==> Consistent(r.0)
  {
    match stored
    case Missing => (w, NoSavedCity)
    case Unparsable => (w, CorruptSave)
    case Parsed(data) =>
      var l := LoadChecked(w, data);
      if l.failed then (w, CorruptSave)
      else
        LoadedShape(w, data);
        (Refresh(l.world), CityLoaded)
  }

  /** A load that succeeds keeps the grid's shape, the levels and the goods, and with them the invariants. */
  lemma LoadedShape(w: World, data: Option<Snapshot>)
    requires w.WellFormed() && !LoadChecked(w, data).failed
    ensures var l := LoadChecked(w, data).world;
            && l.WellFormed() && l.board.w == w.board.w && l.board.h == w.board.h
            && l.levels == w.levels && l.activity == w.activity && l.goods == w.goods
            && (CountConsistent(w) ==> CountConsistent(l))
  {
  }

  /** Loading what was just saved gives back the city with its transient agent fields reset. */
  lemma SaveThenLoad(w: World)
    requires Consistent(w)
    ensures HandleLoad(w, Parsed(Some(Save(w)))) == (FinishLoad(w), CityLoaded)
  {
    LoadSaveRoundTrip(w);
    var f := FinishLoad(w);
    assert f.board == w.board;
    assert Refresh(f) == f;
  }

  /**
   * Loading a city's save into another city of the same size reports success
   * and gives the saved tiles, funds and agents (transient fields reset),
   * with the fields regenerated for the saved tiles.
   */
  lemma SaveThenLoadElsewhere(v: World, w: World)
    requires v.WellFormed() && |v.board.tiles| == |w.board.tiles| && |v.agents| == |w.agents|
    ensures var r := HandleLoad(v, Parsed(Some(Save(w))));
            && r.1 == CityLoaded && r.0.board.tiles == w.board.tiles && r.0.funds == w.funds
            && r.0.agents == ClearTransient(w.agents) && CountConsistent(r.0) && FieldsCurrent(r.0)
  {
    LoadSaveElsewhere(v, w);
  }

  /**
   * `handleLoad` with the load as written: a `set` that throws after the
   * earlier writes skips the field regeneration, yet funds and tiles have
   * already changed.
   */
  function HandleLoadAsWritten(w: World, stored: Stored): (r: (World, Notice))
    requires w.WellFormed()
    ensures stored.Missing? ==> r == (w, NoSavedCity)
    ensures r.1 == CorruptSave <==> stored.Unparsable? || (stored.Parsed? && LoadAsWritten(w, stored.data).failed)
    ensures r.1 == CorruptSave && stored.Parsed? ==> r.0 == LoadAsWritten(w, stored.data).world
  {
    match stored
    case Missing => (w, NoSavedCity)
    case Unparsable => (w, CorruptSave)
    case Parsed(data) =>
      var l := LoadAsWritten(w, data);
      if l.failed then (l.world, CorruptSave)
      else if l.world.WellFormed() then (Refresh(l.world), CityLoaded)
      else (l.world, CityLoaded)
  }

  /**
   * With the load as written, a corrupt save reported to the player still
   * leaves a city whose fields no longer match its tiles; with the checked
   * load the same record leaves the city untouched.
   */
  lemma CorruptSaveLeavesStaleFields(w: World, d: Snapshot)
    requires w == NewWorld(2, 1, 1)
    requires d == Snapshot([Industrial, Road], 5.0, Some(SavedAgents([true, true], [], [], [], [], [], None)))
    ensures Consistent(w)
    ensures HandleLoadAsWritten(w, Parsed(Some(d))).1 == CorruptSave
    ensures HandleLoadAsWritten(w, Parsed(Some(d))).0.WellFormed()
            && !FieldsCurrent(HandleLoadAsWritten(w, Parsed(Some(d))).0)
    ensures HandleLoad(w, Parsed(Some(d))) == (w, CorruptSave)
  {
    LoadAsWrittenPartialWrite(w, d);
  }
}
