/**
 * The world state: the tile grid, building levels and activity counters, the
 * three flow fields, the agent slots, and the economy ledger; the fresh
 * state, and the save/load transform.
 */
module World {
  import opened Options
  import opened Grid
  import FlowField

  /** Capacity of the agent store. */
  const MAX_AGENTS: int := 15000
  const START_FUNDS: real := 1000.0

  datatype AgentState = IdleAtHome | WalkingToWork | Working | WalkingToShop | Shopping | WalkingToHome

  /**
   * One agent slot. `dx`, `dy` and `timer` are transient: they are not saved.
   * `work` is -1 when no workplace is recorded.
   */
  datatype Agent = Agent(active: bool, state: AgentState, x: int, y: int, dx: int, dy: int,
                         timer: int, home: int, work: int, color: int)

  /** A never-used slot: every typed-array entry starts at zero. */
  const BLANK: Agent := Agent(false, IdleAtHome, 0, 0, 0, 0, 0, 0, 0, 0)

  /**
   * Everything the simulation shares. `toWork`, `toHome` and `toShop` are the
   * direction fields towards Industrial, Residential and Commercial cells;
   * `moveAttempts`/`moveSuccesses` are the last tick's movement counts and
   * `tick` is the agent engine's tick counter.
   */
  datatype World = World(
    board: Board,
    levels: seq<int>,
    activity: seq<int>,
    toWork: seq<int>,
    toHome: seq<int>,
    toShop: seq<int>,
    agents: seq<Agent>,
    funds: real,
    goods: int,
    activeCount: int,
    moveSuccesses: int,
    moveAttempts: int,
    tick: nat)
  {
    /** Every per-cell array has one entry per cell. */
    predicate WellFormed() {
      board.Valid()
      && |levels| == board.Size() && |activity| == board.Size()
      && |toWork| == board.Size() && |toHome| == board.Size() && |toShop| == board.Size()
    }
  }

  function B2I(b: bool): nat {
    if b then 1 else 0
  }

  /** The number of active slots. */
  function ActiveCount(s: seq<Agent>): (n: nat)
    ensures n <= |s|
  {
    if |s| == 0 then 0 else ActiveCount(s[..|s| - 1]) + B2I(s[|s| - 1].active)
  }

  lemma {:induction false} ActiveCountUpdate(s: seq<Agent>, i: int, a: Agent)
    requires 0 <= i < |s|
    ensures ActiveCount(s[i := a]) == ActiveCount(s) - B2I(s[i].active) + B2I(a.active)
  {
    var t := s[i := a];
    if i < |s| - 1 {
      assert t[..|t| - 1] == s[..|s| - 1][i := a];
      ActiveCountUpdate(s[..|s| - 1], i, a);
    } else {
      assert t[..|t| - 1] == s[..|s| - 1];
    }
  }

  /** The count is zero exactly when no slot is active. */
  lemma {:induction false} ActiveCountZero(s: seq<Agent>)
    ensures ActiveCount(s) == 0 <==> forall i :: 0 <= i < |s| ==> !s[i].active
  {
    if |s| > 0 {
      ActiveCountZero(s[..|s| - 1]);
      assert forall i :: 0 <= i < |s| - 1 ==> s[..|s| - 1][i] == s[i];
    }
  }

  /** The count equals the capacity exactly when every slot is active. */
  lemma {:induction false} ActiveCountFull(s: seq<Agent>)
    ensures ActiveCount(s) == |s| <==> forall i :: 0 <= i < |s| ==> s[i].active
  {
    if |s| > 0 {
      ActiveCountFull(s[..|s| - 1]);
      assert forall i :: 0 <= i < |s| - 1 ==> s[..|s| - 1][i] == s[i];
    }
  }

  /** The stored active-agent count agrees with the slots. */
  predicate CountConsistent(w: World) {
    w.activeCount == ActiveCount(w.agents)
  }

  /** The three direction fields are the ones the current tiles determine. */
  predicate FieldsCurrent(w: World)
    requires w.WellFormed()
  {
    w.toWork == FlowField.FlowFieldOf(w.board, Industrial)
    && w.toHome == FlowField.FlowFieldOf(w.board, Residential)
    && w.toShop == FlowField.FlowFieldOf(w.board, Commercial)
  }

  predicate LevelsBounded(w: World) {
    (forall c :: 0 <= c < |w.levels| ==> 0 <= w.levels[c] <= 3)
    && (forall c :: 0 <= c < |w.activity| ==> 0 <= w.activity[c])
  }

  /** Every active agent stands on a cell of the grid. */
  predicate PositionsInBounds(w: World) {
    forall i :: 0 <= i < |w.agents| && w.agents[i].active ==> w.board.InBounds(w.agents[i].x, w.agents[i].y)
  }

  /** The invariants the engine keeps between operations. */
  predicate Consistent(w: World) {
    w.WellFormed() && CountConsistent(w) && FieldsCurrent(w) && w.goods >= 0 && LevelsBounded(w)
  }

  /** The constructor: an all-Empty grid, zeroed fields and slots, 1000 in funds. */
  function NewWorld(width: int, height: int, capacity: nat): (w: World)
    requires ValidDims(width, height)
    ensures Consistent(w) && PositionsInBounds(w) && w.board.w == width && w.board.h == height
    ensures forall c :: 0 <= c < w.board.Size() ==> w.board.tiles[c] == Empty
    ensures w.funds == START_FUNDS && w.activeCount == 0 && |w.agents| == capacity
    ensures forall i :: 0 <= i < |w.agents| ==> !w.agents[i].active
  {
    var n := width * height;
    var b := Board(width, height, seq(n, _ => Empty));
    var zeros := seq(n, _ => 0);
    var w := World(b, zeros, zeros, zeros, zeros, zeros, seq(capacity, _ => BLANK),
                   START_FUNDS, 0, 0, 0, 0, 0);
    FlowField.NoTargetNoField(b, Industrial);
    FlowField.NoTargetNoField(b, Residential);
    FlowField.NoTargetNoField(b, Commercial);
    ActiveCountZero(w.agents);
    w
  }

  // ---------------------------------------------------------------------
  // Persistence.

  /**
   * The saved form: the tiles, the funds and seven per-slot columns. `agents`
   * is None when the record has no agent part; `color` is None when the
   * colour column is missing.
   */
  datatype SavedAgents = SavedAgents(active: seq<bool>, state: seq<AgentState>, x: seq<int>, y: seq<int>,
                                     home: seq<int>, work: seq<int>, color: Option<seq<int>>)
  datatype Snapshot = Snapshot(tiles: seq<Tile>, funds: real, agents: Option<SavedAgents>)

  function Column<T>(s: seq<Agent>, f: Agent -> T): (c: seq<T>)
    ensures |c| == |s| && forall i :: 0 <= i < |s| ==> c[i] == f(s[i])
  {
    seq(|s|, i requires 0 <= i < |s| => f(s[i]))
  }

  /**
   * `toJSON`: tiles, funds and the persisted agent columns, one entry per
   * slot; no transient field, level or goods. The record fits the world it
   * came from, and its columns give back every slot's persisted fields.
   */
  function Save(w: World): (r: Snapshot)
    ensures r.tiles == w.board.tiles && r.funds == w.funds
    ensures r.agents.Some? && r.agents.value.color.Some?
    ensures Fits(w, r, r.agents.value)
    ensures var c := r.agents.value;
            && |c.active| == |c.state| == |c.x| == |c.y| == |c.home| == |c.work| == |c.color.value| == |w.agents|
            && forall i :: 0 <= i < |w.agents| ==>
                 var g := w.agents[i];
                 && c.active[i] == g.active && c.state[i] == g.state && c.x[i] == g.x && c.y[i] == g.y
                 && c.home[i] == g.home && c.work[i] == g.work && c.color.value[i] == g.color
  {
    Snapshot(w.board.tiles, w.funds, Some(SavedAgents(
      Column(w.agents, (a: Agent) => a.active),
      Column(w.agents, (a: Agent) => a.state),
      Column(w.agents, (a: Agent) => a.x),
      Column(w.agents, (a: Agent) => a.y),
      Column(w.agents, (a: Agent) => a.home),
      Column(w.agents, (a: Agent) => a.work),
      Some(Column(w.agents, (a: Agent) => a.color)))))
  }

  /** The outcome of a load: the resulting world and whether an error was thrown. */
  datatype Loaded = Loaded(world: World, failed: bool)

  /** A typed array's `set`: `src` overwrites the front of `dst`; a longer `src` throws (None). */
  function SetPrefix<T>(dst: seq<T>, src: seq<T>): (r: Option<seq<T>>)
    ensures r.Some? <==> |src| <= |dst|
    ensures r.Some? ==> |r.value| == |dst|
                        && forall i :: 0 <= i < |dst| ==> r.value[i] == (if i < |src| then src[i] else dst[i])
  {
    if |src| <= |dst| then Some(src + dst[|src|..]) else None
  }

  /** `set` on one agent column: `put` writes one entry of the column into a slot. */
  function SetColumn<T>(agents: seq<Agent>, src: seq<T>, put: (Agent, T) -> Agent): (r: Option<seq<Agent>>)
    ensures r.Some? <==> |src| <= |agents|
    ensures r.Some? ==> |r.value| == |agents|
                        && forall i :: 0 <= i < |agents| ==>
                             r.value[i] == (if i < |src| then put(agents[i], src[i]) else agents[i])
  {
    if |src| <= |agents| then
      Some(seq(|agents|, i requires 0 <= i < |agents| => if i < |src| then put(agents[i], src[i]) else agents[i]))
    else None
  }

  /** The colour column to restore: the saved one, or all zeros (one per slot) when it is missing. */
  function ColorSource(a: SavedAgents, capacity: nat): seq<int> {
    if a.color.Some? then a.color.value else seq(capacity, _ => 0)
  }

  /** The steps of `loadFromJSON`, in program order. */
  datatype LoadStep = SetFunds | SetTiles | SetActive | SetState | SetX | SetY | SetHome | SetWork | SetColor

  const LOAD_ORDER: seq<LoadStep> := [SetFunds, SetTiles, SetActive, SetState, SetX, SetY, SetHome, SetWork, SetColor]

  function WithAgents(w: World, r: Option<seq<Agent>>): Option<World> {
    if r.Some? then Some(w.(agents := r.value)) else None
  }

  /** Step `step` does not throw on a world with `tiles` cells and `cap` slots: what it writes fits. */
  predicate StepFits(tiles: nat, cap: nat, d: Snapshot, a: SavedAgents, step: LoadStep) {
    match step
    case SetFunds => true
    case SetTiles => |d.tiles| <= tiles
    case SetActive => |a.active| <= cap
    case SetState => |a.state| <= cap
    case SetX => |a.x| <= cap
    case SetY => |a.y| <= cap
    case SetHome => |a.home| <= cap
    case SetWork => |a.work| <= cap
    case SetColor => |ColorSource(a, cap)| <= cap
  }

  /** One step; None when its `set` throws. */
  function ApplyStep(w: World, d: Snapshot, a: SavedAgents, step: LoadStep): Option<World> {
    match step
    case SetFunds => Some(w.(funds := d.funds))
    case SetTiles =>
      var t := SetPrefix(w.board.tiles, d.tiles);
      if t.Some? then Some(w.(board := w.board.(tiles := t.value))) else None
    case SetActive => WithAgents(w, SetColumn(w.agents, a.active, (g: Agent, v: bool) => g.(active := v)))
    case SetState => WithAgents(w, SetColumn(w.agents, a.state, (g: Agent, v: AgentState) => g.(state := v)))
    case SetX => WithAgents(w, SetColumn(w.agents, a.x, (g: Agent, v: int) => g.(x := v)))
    case SetY => WithAgents(w, SetColumn(w.agents, a.y, (g: Agent, v: int) => g.(y := v)))
    case SetHome => WithAgents(w, SetColumn(w.agents, a.home, (g: Agent, v: int) => g.(home := v)))
    case SetWork => WithAgents(w, SetColumn(w.agents, a.work, (g: Agent, v: int) => g.(work := v)))
    case SetColor => WithAgents(w, SetColumn(w.agents, ColorSource(a, |w.agents|), (g: Agent, v: int) => g.(color := v)))
  }

  /** Runs the steps in order; the first one that throws stops the load, keeping what earlier steps wrote. */
  function RunSteps(w: World, d: Snapshot, a: SavedAgents, steps: seq<LoadStep>): Loaded
    decreases |steps|
  {
    if |steps| == 0 then Loaded(w, false)
    else
      var next := ApplyStep(w, d, a, steps[0]);
      if next.None? then Loaded(w, true) else RunSteps(next.value, d, a, steps[1..])
  }

  /**
   * A step throws exactly when what it writes does not fit. It writes only
   * the funds, the tiles or one agent column, and keeps every array's length.
   */
  lemma ApplyStepShape(w: World, d: Snapshot, a: SavedAgents, step: LoadStep)
    ensures var r := ApplyStep(w, d, a, step);
            && (r.Some? <==> StepFits(|w.board.tiles|, |w.agents|, d, a, step))
            && (r.Some? ==> r.value == w.(funds := r.value.funds, board := w.board.(tiles := r.value.board.tiles),
                                          agents := r.value.agents)
                            && |r.value.board.tiles| == |w.board.tiles| && |r.value.agents| == |w.agents|
                            && r.value.funds == (if step == SetFunds then d.funds else w.funds))
  {
  }

  /**
   * A run of steps fails exactly when some step does not fit; only the
   * funds, the tiles and the agents change, and the funds only through a
   * SetFunds step.
   */
  lemma {:induction false} RunStepsShape(w: World, d: Snapshot, a: SavedAgents, steps: seq<LoadStep>)
    ensures var r := RunSteps(w, d, a, steps);
            && (r.failed <==> exists j :: 0 <= j < |steps| && !StepFits(|w.board.tiles|, |w.agents|, d, a, steps[j]))
            && r.world == w.(funds := r.world.funds, board := w.board.(tiles := r.world.board.tiles),
                             agents := r.world.agents)
            && |r.world.board.tiles| == |w.board.tiles| && |r.world.agents| == |w.agents|
            && (SetFunds !in steps ==> r.world.funds == w.funds)
    decreases |steps|
  {
    if |steps| > 0 {
      ApplyStepShape(w, d, a, steps[0]);
      var next := ApplyStep(w, d, a, steps[0]);
      if next.Some? {
        RunStepsShape(next.value, d, a, steps[1..]);
        assert forall j :: 1 <= j < |steps| ==> steps[j] == steps[1..][j - 1];
        var r := RunSteps(next.value, d, a, steps[1..]);
        if r.failed {
          var j :| 0 <= j < |steps[1..]| && !StepFits(|w.board.tiles|, |w.agents|, d, a, steps[1..][j]);
          assert steps[1..][j] == steps[j + 1];
        }
      }
    }
  }

  /** Zeroes the movement deltas and timers of every slot. */
  function ClearTransient(s: seq<Agent>): (r: seq<Agent>)
    ensures |r| == |s|
  {
    seq(|s|, i requires 0 <= i < |s| => s[i].(dx := 0, dy := 0, timer := 0))
  }

  /** After the columns are restored: transient fields zeroed, the count recomputed from the flags. */
  function FinishLoad(w: World): World {
    var agents := ClearTransient(w.agents);
    w.(agents := agents, activeCount := ActiveCount(agents))
  }

  /**
   * `loadFromJSON` as written: no data or no agent part leaves the world
   * alone; otherwise funds, tiles and the columns are written one after
   * another, and an oversize column throws after the earlier writes.
   */
  function LoadAsWritten(w: World, data: Option<Snapshot>): (r: Loaded)
    ensures data.None? || data.value.agents.None? ==> r == Loaded(w, false)
    ensures data.Some? && data.value.agents.Some? ==>
              (r.failed <==> !Fits(w, data.value, data.value.agents.value)) && r.world.funds == data.value.funds
    ensures r.world == w.(funds := r.world.funds, board := w.board.(tiles := r.world.board.tiles),
                          agents := r.world.agents, activeCount := r.world.activeCount)
            && |r.world.board.tiles| == |w.board.tiles| && |r.world.agents| == |w.agents|
    ensures r.failed ==> r.world.activeCount == w.activeCount
    ensures !r.failed && data.Some? && data.value.agents.Some? ==> CountConsistent(r.world)
  {
    if data.None? || data.value.agents.None? then Loaded(w, false)
    else
      var d, a := data.value, data.value.agents.value;
      var w1 := w.(funds := d.funds);
      RunStepsCons(w, d, a, LOAD_ORDER, w1);
      RunStepsShape(w1, d, a, LOAD_ORDER[1..]);
      FitsSteps(w, d, a);
      assert forall j :: 1 <= j < |LOAD_ORDER| ==> LOAD_ORDER[j] == LOAD_ORDER[1..][j - 1];
      var r := RunSteps(w, d, a, LOAD_ORDER);
      if r.failed then r else Loaded(FinishLoad(r.world), false)
  }

  /** A record fits exactly when every step of the load after SetFunds fits. */
  lemma FitsSteps(w: World, d: Snapshot, a: SavedAgents)
    ensures Fits(w, d, a) <==>
              forall j :: 1 <= j < |LOAD_ORDER| ==> StepFits(|w.board.tiles|, |w.agents|, d, a, LOAD_ORDER[j])
  {
    var o := LOAD_ORDER;
    assert o[1] == SetTiles && o[2] == SetActive && o[3] == SetState && o[4] == SetX;
    assert o[5] == SetY && o[6] == SetHome && o[7] == SetWork && o[8] == SetColor;
  }

  /** Every array of the record fits the world's arrays, so no `set` can throw. */
  predicate Fits(w: World, d: Snapshot, a: SavedAgents) {
    var cap := |w.agents|;
    |d.tiles| <= |w.board.tiles|
    && |a.active| <= cap && |a.state| <= cap && |a.x| <= cap && |a.y| <= cap
    && |a.home| <= cap && |a.work| <= cap && |ColorSource(a, cap)| <= cap
  }

  /** The entry restored from column `c`, or `old` when the column is too short to reach slot i. */
  function Pick<T>(c: seq<T>, i: int, prev: T): T {
    if 0 <= i < |c| then c[i] else prev
  }

  /** The load with the record checked before anything is written: a record that does not fit changes nothing. */
  function LoadChecked(w: World, data: Option<Snapshot>): (r: Loaded)
    ensures data.None? || data.value.agents.None? ==> r == Loaded(w, false)
    ensures r.failed ==> r.world == w
    ensures data.Some? && data.value.agents.Some? ==>
              (r.failed <==> !Fits(w, data.value, data.value.agents.value))
    ensures CountConsistent(w) ==> CountConsistent(r.world)
    ensures !r.failed ==> CountConsistent(r.world) || r.world == w
    ensures |r.world.agents| == |w.agents|
    ensures !r.failed && data.Some? && data.value.agents.Some? ==>
              var d, a := data.value, data.value.agents.value;
              && CountConsistent(r.world)
              && r.world.funds == d.funds
              && r.world.board.w == w.board.w && r.world.board.h == w.board.h
              && |r.world.board.tiles| == |w.board.tiles|
              && (forall c :: 0 <= c < |w.board.tiles| ==> r.world.board.tiles[c] == Pick(d.tiles, c, w.board.tiles[c]))
              && (forall i :: 0 <= i < |w.agents| ==>
                    var g, o := r.world.agents[i], w.agents[i];
                    && g.active == Pick(a.active, i, o.active) && g.state == Pick(a.state, i, o.state)
                    && g.x == Pick(a.x, i, o.x) && g.y == Pick(a.y, i, o.y)
                    && g.home == Pick(a.home, i, o.home) && g.work == Pick(a.work, i, o.work)
                    && g.color == (if a.color.Some? then Pick(a.color.value, i, o.color) else 0)
                    && g.dx == 0 && g.dy == 0 && g.timer == 0)
              && r.world.levels == w.levels && r.world.activity == w.activity
              && r.world.toWork == w.toWork && r.world.toHome == w.toHome && r.world.toShop == w.toShop
              && r.world.goods == w.goods && r.world.tick == w.tick
              && r.world.moveAttempts == w.moveAttempts && r.world.moveSuccesses == w.moveSuccesses
  {
    if data.None? || data.value.agents.None? then Loaded(w, false)
    else if !Fits(w, data.value, data.value.agents.value) then Loaded(w, true)
    else
      LoadFitsSucceeds(w, data.value, data.value.agents.value);
      LoadAsWritten(w, data)
  }

  /** The tiles after `set`: the record's entries over the front, the old ones after. */
  function Overlay<T>(dst: seq<T>, src: seq<T>): (r: seq<T>)
    ensures |r| == |dst|
  {
    seq(|dst|, c requires 0 <= c < |dst| => Pick(src, c, dst[c]))
  }

  /** Slot i after the columns are written (before the transient fields are zeroed). */
  function RestoredSlot(o: Agent, a: SavedAgents, i: int): Agent {
    o.(active := Pick(a.active, i, o.active), state := Pick(a.state, i, o.state),
       x := Pick(a.x, i, o.x), y := Pick(a.y, i, o.y),
       home := Pick(a.home, i, o.home), work := Pick(a.work, i, o.work),
       color := if a.color.Some? then Pick(a.color.value, i, o.color) else 0)
  }

  function RestoreSlots(s: seq<Agent>, a: SavedAgents): (r: seq<Agent>)
    ensures |r| == |s|
  {
    seq(|s|, i requires 0 <= i < |s| => RestoredSlot(s[i], a, i))
  }

  /** The seven column writes together restore every slot from the record. */
  lemma ColumnsRestore(s0: seq<Agent>, a: SavedAgents)
    requires var cap := |s0|;
      |a.active| <= cap && |a.state| <= cap && |a.x| <= cap && |a.y| <= cap
      && |a.home| <= cap && |a.work| <= cap && |ColorSource(a, cap)| <= cap
    ensures var s1 := SetColumn(s0, a.active, (g: Agent, v: bool) => g.(active := v)).value;
            var s2 := SetColumn(s1, a.state, (g: Agent, v: AgentState) => g.(state := v)).value;
            var s3 := SetColumn(s2, a.x, (g: Agent, v: int) => g.(x := v)).value;
            var s4 := SetColumn(s3, a.y, (g: Agent, v: int) => g.(y := v)).value;
            var s5 := SetColumn(s4, a.home, (g: Agent, v: int) => g.(home := v)).value;
            var s6 := SetColumn(s5, a.work, (g: Agent, v: int) => g.(work := v)).value;
            SetColumn(s6, ColorSource(a, |s6|), (g: Agent, v: int) => g.(color := v)).value == RestoreSlots(s0, a)
  {
    var s1 := SetColumn(s0, a.active, (g: Agent, v: bool) => g.(active := v)).value;
    var s2 := SetColumn(s1, a.state, (g: Agent, v: AgentState) => g.(state := v)).value;
    var s3 := SetColumn(s2, a.x, (g: Agent, v: int) => g.(x := v)).value;
    var s4 := SetColumn(s3, a.y, (g: Agent, v: int) => g.(y := v)).value;
    var s5 := SetColumn(s4, a.home, (g: Agent, v: int) => g.(home := v)).value;
    var s6 := SetColumn(s5, a.work, (g: Agent, v: int) => g.(work := v)).value;
    var s7 := SetColumn(s6, ColorSource(a, |s6|), (g: Agent, v: int) => g.(color := v)).value;
    forall i | 0 <= i < |s0| ensures s7[i] == RestoreSlots(s0, a)[i] {
    }
  }

  /** Unfolds one successful step of the load. */
  lemma RunStepsCons(w: World, d: Snapshot, a: SavedAgents, steps: seq<LoadStep>, next: World)
    requires |steps| > 0 && ApplyStep(w, d, a, steps[0]) == Some(next)
    ensures RunSteps(w, d, a, steps) == RunSteps(next, d, a, steps[1..])
  {
  }

  /** The seven column writes all succeed when the columns fit. */
  lemma ColumnStepsSucceed(w: World, d: Snapshot, a: SavedAgents)
    requires var cap := |w.agents|;
      |a.active| <= cap && |a.state| <= cap && |a.x| <= cap && |a.y| <= cap
      && |a.home| <= cap && |a.work| <= cap && |ColorSource(a, cap)| <= cap
    ensures RunSteps(w, d, a, LOAD_ORDER[2..]) == Loaded(w.(agents := RestoreSlots(w.agents, a)), false)
  {
    var cap := |w.agents|;
    var s0 := w.agents;
    var s1 := SetColumn(s0, a.active, (g: Agent, v: bool) => g.(active := v)).value;
    var s2 := SetColumn(s1, a.state, (g: Agent, v: AgentState) => g.(state := v)).value;
    var s3 := SetColumn(s2, a.x, (g: Agent, v: int) => g.(x := v)).value;
    var s4 := SetColumn(s3, a.y, (g: Agent, v: int) => g.(y := v)).value;
    var s5 := SetColumn(s4, a.home, (g: Agent, v: int) => g.(home := v)).value;
    var s6 := SetColumn(s5, a.work, (g: Agent, v: int) => g.(work := v)).value;
    var s7 := SetColumn(s6, ColorSource(a, cap), (g: Agent, v: int) => g.(color := v)).value;
    ColumnsRestore(s0, a);
    var o := LOAD_ORDER[2..];
    assert o == [SetActive, SetState, SetX, SetY, SetHome, SetWork, SetColor];
    RunStepsCons(w, d, a, o, w.(agents := s1));
    RunStepsCons(w.(agents := s1), d, a, o[1..], w.(agents := s2));
    RunStepsCons(w.(agents := s2), d, a, o[2..], w.(agents := s3));
    RunStepsCons(w.(agents := s3), d, a, o[3..], w.(agents := s4));
    RunStepsCons(w.(agents := s4), d, a, o[4..], w.(agents := s5));
    RunStepsCons(w.(agents := s5), d, a, o[5..], w.(agents := s6));
    RunStepsCons(w.(agents := s6), d, a, o[6..], w.(agents := s7));
    assert o[7..] == [];
  }

  /** With a record that fits, every step of the as-written load succeeds and writes its column. */
  lemma LoadFitsSucceeds(w: World, d: Snapshot, a: SavedAgents)
    requires Fits(w, d, a)
    ensures var r := RunSteps(w, d, a, LOAD_ORDER);
      && !r.failed
      && r.world == w.(funds := d.funds, board := w.board.(tiles := Overlay(w.board.tiles, d.tiles)),
                       agents := RestoreSlots(w.agents, a))
  {
    var w1 := w.(funds := d.funds);
    var t := SetPrefix(w.board.tiles, d.tiles).value;
    assert t == Overlay(w.board.tiles, d.tiles);
    var w2 := w1.(board := w.board.(tiles := t));
    RunStepsCons(w, d, a, LOAD_ORDER, w1);
    RunStepsCons(w1, d, a, LOAD_ORDER[1..], w2);
    assert LOAD_ORDER[1..][1..] == LOAD_ORDER[2..];
    ColumnStepsSucceed(w2, d, a);
  }

  /** The count depends on the active flags alone. */
  lemma {:induction false} ActiveCountFlags(s: seq<Agent>, t: seq<Agent>)
    requires |s| == |t| && forall i :: 0 <= i < |s| ==> s[i].active == t[i].active
    ensures ActiveCount(s) == ActiveCount(t)
  {
    if |s| > 0 {
      ActiveCountFlags(s[..|s| - 1], t[..|t| - 1]);
    }
  }

  /**
   * Loading what was saved restores tiles, funds and every persisted column
   * exactly, zeroes the transient fields, recomputes the count from the
   * flags, and leaves everything else (levels, fields, goods) alone.
   */
  lemma LoadSaveRoundTrip(w: World)
    ensures LoadChecked(w, Some(Save(w))) == Loaded(FinishLoad(w), false)
    ensures CountConsistent(LoadChecked(w, Some(Save(w))).world)
  {
    var d := Save(w);
    var a := d.agents.value;
    assert Fits(w, d, a);
    LoadFitsSucceeds(w, d, a);
    assert Overlay(w.board.tiles, d.tiles) == w.board.tiles;
    assert RestoreSlots(w.agents, a) == w.agents;
    ActiveCountFlags(ClearTransient(w.agents), w.agents);
  }

  /**
   * Loading a save onto any world with as many cells and slots, not only the
   * one that produced it, succeeds and gives back the saved tiles, funds and
   * every persisted agent field; only the transient fields are reset.
   */
  lemma LoadSaveElsewhere(v: World, w: World)
    requires |v.board.tiles| == |w.board.tiles| && |v.agents| == |w.agents|
    ensures var l := LoadChecked(v, Some(Save(w)));
            && !l.failed && l.world.board.tiles == w.board.tiles && l.world.funds == w.funds
            && l.world.agents == ClearTransient(w.agents) && CountConsistent(l.world)
  {
    var d := Save(w);
    var a := d.agents.value;
    LoadFitsSucceeds(v, d, a);
    assert Overlay(v.board.tiles, d.tiles) == w.board.tiles;
    assert ClearTransient(RestoreSlots(v.agents, a)) == ClearTransient(w.agents);
  }

  /** Saving after a load of a save gives the same record: save, load, save is save. */
  lemma SaveLoadSave(w: World)
    ensures Save(LoadChecked(w, Some(Save(w))).world) == Save(w)
  {
    LoadSaveRoundTrip(w);
    var t := ClearTransient(w.agents);
    assert Column(t, (a: Agent) => a.active) == Column(w.agents, (a: Agent) => a.active);
    assert Column(t, (a: Agent) => a.state) == Column(w.agents, (a: Agent) => a.state);
    assert Column(t, (a: Agent) => a.x) == Column(w.agents, (a: Agent) => a.x);
    assert Column(t, (a: Agent) => a.y) == Column(w.agents, (a: Agent) => a.y);
    assert Column(t, (a: Agent) => a.home) == Column(w.agents, (a: Agent) => a.home);
    assert Column(t, (a: Agent) => a.work) == Column(w.agents, (a: Agent) => a.work);
    assert Column(t, (a: Agent) => a.color) == Column(w.agents, (a: Agent) => a.color);
  }

  /**
   * The as-written load writes funds and tiles before the active column's
   * `set` throws: on a 2 x 1 grid with one slot, a record whose active
   * column has two entries fails, yet funds and tiles have changed and the
   * direction fields no longer match the tiles.
   */
  lemma LoadAsWrittenPartialWrite(w: World, d: Snapshot)
    requires w == NewWorld(2, 1, 1)
    requires d == Snapshot([Industrial, Road], 5.0, Some(SavedAgents([true, true], [], [], [], [], [], None)))
    ensures FieldsCurrent(w)
    ensures var r := LoadAsWritten(w, Some(d));
            && r.failed
            && r.world.funds == 5.0 && r.world.board.tiles == [Industrial, Road]
            && r.world.WellFormed() && !FieldsCurrent(r.world)
  {
    var a := d.agents.value;
    assert |w.board.tiles| == 2 && |w.agents| == 1;
    var w1 := w.(funds := 5.0);
    var w2 := w1.(board := w.board.(tiles := [Industrial, Road]));
    var t := SetPrefix(w.board.tiles, d.tiles);
    assert t.Some? && |t.value| == 2 && t.value[0] == Industrial && t.value[1] == Road;
    assert t.value == [Industrial, Road];
    RunStepsCons(w, d, a, LOAD_ORDER, w1);
    RunStepsCons(w1, d, a, LOAD_ORDER[1..], w2);
    assert LOAD_ORDER[1..][1..][0] == SetActive;
    assert ApplyStep(w2, d, a, SetActive).None?;
    var r := LoadAsWritten(w, Some(d));
    assert r == Loaded(w2, true);
    RoadBesideIndustry(w2.board);
    assert w2.toWork[1] == 0;
  }

  /** On the 2 x 1 grid [Industrial, Road] the road cell's field towards Industrial is not 0. */
  lemma RoadBesideIndustry(b: Board)
    requires b.w == 2 && b.h == 1 && |b.tiles| == 2 && b.tiles[0] == Industrial && b.tiles[1] == Road
    ensures b.Valid() && FlowField.FlowFieldOf(b, Industrial)[1] != 0
  {
    RoadReachesIndustry(b);
    FlowField.FieldDownhill(b, Industrial, 1);
  }

  /** On the same grid the road cell is one step from the Industrial cell. */
  lemma RoadReachesIndustry(b: Board)
    requires b.w == 2 && b.h == 1 && |b.tiles| == 2 && b.tiles[0] == Industrial && b.tiles[1] == Road
    ensures b.Valid() && FlowField.ShortestDist(b, Industrial, 1) <= b.Size()
  {
    assert Neighbor(2, 1, 1, 7) == 0;
    assert FlowField.StepWithin(b, Industrial, 1, 7, 0);
    assert FlowField.Within(b, Industrial, 1, 1);
    FlowField.DistLeast(b, Industrial, 1, 1);
  }
}
