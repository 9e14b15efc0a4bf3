/**
 * The agent system: spawning into the first free slot, the debug spawner and
 * clearer, building level-up, and one simulation tick — timers for agents
 * that stay put, flow-field walking, arrival and its income for the rest.
 * Particles and the time of day are not part of this model.
 */
module Agents {
  import opened Options
  import opened Grid
  import opened World
  import FlowField

  const WORK_DURATION: int := 200
  const SHOP_DURATION: int := 150
  const HOME_DURATION: int := 200
  const INCOME_PER_CYCLE: real := 20.0
  const COMMERCE_INCOME: real := 30.0
  const MAX_LEVEL: int := 3

  /** spawnAgent's two draws: the initial timer, in [0, 200), and the colour variant, in [0, 5). */
  datatype SpawnRoll = SpawnRoll(timer: int, color: int)

  predicate SpawnRollOk(r: SpawnRoll) {
    0 <= r.timer < 200 && 0 <= r.color < 5
  }

  /**
   * The draws one agent may make in a tick: the coin that sends a worker
   * shopping (a draw above one half) and the jitter, in [0, 50), added to a
   * stay's duration on arrival.
   */
  datatype Roll = Roll(coin: bool, jitter: int)

  predicate RollOk(r: Roll) {
    0 <= r.jitter < 50
  }

  function Lookup<T>(s: seq<T>, idx: int): Option<T> {
    if 0 <= idx < |s| then Some(s[idx]) else None
  }

  // ---------------------------------------------------------------------
  // Spawning and clearing.

  /** The scan for the first inactive slot. */
  method FindFreeSlot(agents: seq<Agent>) returns (slot: int)
    ensures -1 <= slot < |agents|
    ensures slot == -1 <==> forall j :: 0 <= j < |agents| ==> agents[j].active
    ensures slot >= 0 ==> !agents[slot].active && forall j :: 0 <= j < slot ==> agents[j].active
  {
    slot := -1;
    var i := 0;
    while i < |agents|
      invariant 0 <= i <= |agents|
      invariant forall j :: 0 <= j < i ==> agents[j].active
    {
      if !agents[i].active {
        slot := i;
        return;
      }
      i := i + 1;
    }
  }

  /**
   * spawnAgent: the first inactive slot becomes an agent idle at its home
   * cell with no workplace; with every slot taken nothing happens. Only that
   * slot and the count change; the count goes up by one exactly when a slot
   * was free, so a consistent count stays consistent.
   */
  method SpawnAgent(w: World, homeIdx: int, roll: SpawnRoll) returns (r: World, slot: int)
    requires w.board.Valid() && SpawnRollOk(roll)
    ensures slot >= -1
    ensures slot == -1 <==> forall j :: 0 <= j < |w.agents| ==> w.agents[j].active
    ensures slot == -1 <==> ActiveCount(w.agents) == |w.agents|
    ensures slot == -1 ==> r == w
    ensures slot >= 0 ==> 0 <= slot < |w.agents| && !w.agents[slot].active
                          && forall j :: 0 <= j < slot ==> w.agents[j].active
    ensures r == w.(agents := r.agents, activeCount := r.activeCount)
    ensures |r.agents| == |w.agents|
    ensures forall j :: 0 <= j < |w.agents| && j != slot ==> r.agents[j] == w.agents[j]
    ensures slot >= 0 ==> var a := r.agents[slot];
                          a.active && a.state == IdleAtHome && a.home == homeIdx && a.work == -1
                          && a.timer == roll.timer && a.color == roll.color
                          && a.dx == w.agents[slot].dx && a.dy == w.agents[slot].dy
                          && (0 <= homeIdx < w.board.Size() ==>
                                w.board.InBounds(a.x, a.y) && GetIndex(w.board.w, a.x, a.y) == homeIdx)
    ensures r.activeCount == w.activeCount + (if slot >= 0 then 1 else 0)
    ensures ActiveCount(r.agents) == ActiveCount(w.agents) + (if slot >= 0 then 1 else 0)
    ensures CountConsistent(w) ==> CountConsistent(r)
    ensures PositionsInBounds(w) && 0 <= homeIdx < w.board.Size() ==> PositionsInBounds(r)
  {
    slot := FindFreeSlot(w.agents);
    ActiveCountFull(w.agents);
    if slot == -1 {
      r := w;
      return;
    }
    var xy := GetXY(w.board.w, homeIdx);
    if 0 <= homeIdx < w.board.Size() {
      IndexOfXY(w.board.w, w.board.h, homeIdx);
    }
    var prev := w.agents[slot];
    var a := prev.(active := true, state := IdleAtHome, x := xy.0, y := xy.1,
                   home := homeIdx, work := -1, timer := roll.timer, color := roll.color);
    ActiveCountUpdate(w.agents, slot, a);
    r := w.(agents := w.agents[slot := a], activeCount := w.activeCount + 1);
  }

  /** The number of cells of kind k. */
  function CountKind(tiles: seq<Tile>, k: Tile): (n: nat)
    ensures n <= |tiles|
  {
    if |tiles| == 0 then 0 else CountKind(tiles[..|tiles| - 1], k) + (if tiles[|tiles| - 1] == k then 1 else 0)
  }

  function Min(a: int, b: int): int {
    if a <= b then a else b
  }

  /**
   * How many spawn calls debugSpawn makes on a grid with `homes` Residential
   * cells: it stops after the call that brings the tally to `amount`, so an
   * amount of 1 or less still makes one call when there is a home at all.
   */
  function SpawnCalls(homes: nat, amount: int): (n: nat)
    ensures n <= homes
    ensures homes > 0 ==> n >= 1
  {
    if homes == 0 then 0 else Min(homes, if amount < 1 then 1 else amount)
  }

  /** The agents a spawn loop has placed since `w`: fresh, idle, at home on a Residential cell. */
  predicate SpawnedAtHome(w: World, r: World)
    requires w.board.Valid() && |r.agents| == |w.agents|
  {
    forall j :: 0 <= j < |w.agents| && !w.agents[j].active && r.agents[j].active ==>
      var a := r.agents[j];
      a.state == IdleAtHome && 0 <= a.home < w.board.Size() && w.board.tiles[a.home] == Residential
      && w.board.InBounds(a.x, a.y) && GetIndex(w.board.w, a.x, a.y) == a.home && a.work == -1
  }

  /**
   * The agents placed since `w` live in distinct homes, each among the first
   * n Residential cells: fewer than n Residential cells come before it.
   */
  predicate FirstHomes(w: World, r: World, n: int)
    requires |r.agents| == |w.agents|
  {
    (forall j :: 0 <= j < |w.agents| && !w.agents[j].active && r.agents[j].active ==>
       0 <= r.agents[j].home < |w.board.tiles| && CountKind(w.board.tiles[..r.agents[j].home], Residential) < n)
    && (forall j, k ::
          0 <= j < k < |w.agents| && !w.agents[j].active && r.agents[j].active && !w.agents[k].active && r.agents[k].active
          ==> r.agents[j].home != r.agents[k].home)
  }

  /**
   * What the debugSpawn loop keeps after `calls` spawn calls starting from
   * `w` with `free` inactive slots: only the agents and the count moved, one
   * agent was added per call while slots lasted, the live agents are
   * untouched and every new agent stands at its Residential home; the new
   * agents' homes are distinct and among the first min(calls, free)
   * Residential cells, so they are exactly those cells.
   */
  predicate SpawnProgress(w: World, r: World, calls: nat, free: int)
    requires w.board.Valid()
  {
    r == w.(agents := r.agents, activeCount := r.activeCount) && |r.agents| == |w.agents|
    && free == |w.agents| - ActiveCount(w.agents)
    && ActiveCount(r.agents) == ActiveCount(w.agents) + Min(calls, free)
    && r.activeCount - ActiveCount(r.agents) == w.activeCount - ActiveCount(w.agents)
    && (forall j :: 0 <= j < |w.agents| && w.agents[j].active ==> r.agents[j] == w.agents[j])
    && SpawnedAtHome(w, r)
    && FirstHomes(w, r, Min(calls, free))
    && (PositionsInBounds(w) ==> PositionsInBounds(r))
  }

  /** One spawn call of the debugSpawn loop, at the Residential cell i. */
  method SpawnHome(w: World, prev: World, i: int, roll: SpawnRoll, calls: nat, free: int)
      returns (r: World)
    requires w.board.Valid() && SpawnRollOk(roll)
    requires 0 <= i < w.board.Size() && w.board.tiles[i] == Residential
    requires CountKind(w.board.tiles[..i], Residential) == calls
    requires SpawnProgress(w, prev, calls, free)
    ensures SpawnProgress(w, r, calls + 1, free)
  {
    var slot;
    r, slot := SpawnAgent(prev, i, roll);
    SpawnCountStep(w, prev, r, slot, calls, free);
    SpawnKeepsLive(w, prev, r, slot);
    SpawnFirstHomes(w, prev, r, slot, i, calls, free);
  }

  /**
   * A spawn call at the home with `calls` Residential cells before it keeps
   * the new agents' homes distinct and among the first min(calls + 1, free):
   * a slot is found only while fewer than `free` agents were added.
   */
  lemma SpawnFirstHomes(w: World, prev: World, r: World, slot: int, i: int, calls: nat, free: int)
    requires |prev.agents| == |w.agents| && |r.agents| == |w.agents|
    requires 0 <= i < |w.board.tiles| && CountKind(w.board.tiles[..i], Residential) == calls
    requires free == |w.agents| - ActiveCount(w.agents)
    requires ActiveCount(prev.agents) == ActiveCount(w.agents) + Min(calls, free)
    requires forall j :: 0 <= j < |w.agents| && w.agents[j].active ==> prev.agents[j] == w.agents[j]
    requires FirstHomes(w, prev, Min(calls, free))
    requires slot >= -1 && (slot == -1 <==> ActiveCount(prev.agents) == |prev.agents|)
    requires slot >= 0 ==> 0 <= slot < |prev.agents| && !prev.agents[slot].active
                           && r.agents[slot].active && r.agents[slot].home == i
    requires forall j :: 0 <= j < |w.agents| && j != slot ==> r.agents[j] == prev.agents[j]
    ensures FirstHomes(w, r, Min(calls + 1, free))
  {
    if slot >= 0 {
      assert calls < free;
      assert !w.agents[slot].active;
      forall j, k | 0 <= j < k < |w.agents| && !w.agents[j].active && r.agents[j].active
                    && !w.agents[k].active && r.agents[k].active
        ensures r.agents[j].home != r.agents[k].home
      {
        if j == slot {
          assert CountKind(w.board.tiles[..r.agents[k].home], Residential) < calls;
        } else if k == slot {
          assert CountKind(w.board.tiles[..r.agents[j].home], Residential) < calls;
        }
      }
    }
  }

  /**
   * debugSpawn: one spawn at each Residential cell in index order until the
   * tally reaches `amount`. The live agents are untouched; the number of new
   * agents is the number of calls, capped by the free slots.
   */
  method DebugSpawn(w: World, amount: int, rolls: seq<SpawnRoll>) returns (r: World, calls: nat)
    requires w.board.Valid() && |rolls| == w.board.Size()
    requires forall c :: 0 <= c < |rolls| ==> SpawnRollOk(rolls[c])
    ensures calls == SpawnCalls(CountKind(w.board.tiles, Residential), amount)
    ensures SpawnProgress(w, r, calls, |w.agents| - ActiveCount(w.agents))
  {
    var free := |w.agents| - ActiveCount(w.agents);
    r := w;
    calls := 0;
    SpawnStart(w, amount);
    var i := 0;
    while i < |w.board.tiles|
      invariant SpawnLoop(w, amount, free, r, calls, i)
      decreases |w.board.tiles| - i
    {
      var stop;
      r, calls, stop := SpawnAt(w, amount, rolls[i], free, r, calls, i);
      if stop {
        return;
      }
      i := i + 1;
    }
    SpawnLoopDone(w, amount, free, r, calls, i);
  }

  /** The state of the debugSpawn loop before cell i. */
  predicate SpawnLoop(w: World, amount: int, free: int, r: World, calls: nat, i: int)
    requires w.board.Valid()
  {
    0 <= i <= |w.board.tiles|
    && calls == CountKind(w.board.tiles[..i], Residential)
    && (calls == 0 || calls < amount)
    && SpawnProgress(w, r, calls, free)
  }

  /** One iteration of the debugSpawn loop at cell i; `stop` when the tally has reached `amount`. */
  method SpawnAt(w: World, amount: int, roll: SpawnRoll, free: int, r0: World, calls0: nat, i: int)
      returns (r: World, calls: nat, stop: bool)
    requires w.board.Valid() && SpawnRollOk(roll) && i < |w.board.tiles|
    requires SpawnLoop(w, amount, free, r0, calls0, i)
    ensures stop ==> calls == SpawnCalls(CountKind(w.board.tiles, Residential), amount)
                     && SpawnProgress(w, r, calls, free)
    ensures !stop ==> SpawnLoop(w, amount, free, r, calls, i + 1)
  {
    var tiles := w.board.tiles;
    CountKindNext(tiles, i);
    r, calls, stop := r0, calls0, false;
    if tiles[i] == Residential {
      r := SpawnHome(w, r0, i, roll, calls, free);
      calls := calls + 1;
      if calls >= amount {
        CountKindPrefix(tiles, i + 1);
        SpawnCallsSettle(CountKind(tiles, Residential), calls, amount);
        stop := true;
        return;
      }
    }
    SpawnLoopNext(w, amount, free, r, calls, i);
  }

  /** The loop state one cell further on, from its parts. */
  lemma SpawnLoopNext(w: World, amount: int, free: int, r: World, calls: nat, i: int)
    requires w.board.Valid() && 0 <= i < |w.board.tiles|
    requires calls == CountKind(w.board.tiles[..i + 1], Residential) && (calls == 0 || calls < amount)
    requires SpawnProgress(w, r, calls, free)
    ensures SpawnLoop(w, amount, free, r, calls, i + 1)
  {
  }

  /** After the last cell the loop has made one call per home. */
  lemma SpawnLoopDone(w: World, amount: int, free: int, r: World, calls: nat, i: int)
    requires w.board.Valid() && SpawnLoop(w, amount, free, r, calls, i) && i >= |w.board.tiles|
    ensures calls == SpawnCalls(CountKind(w.board.tiles, Residential), amount)
  {
    assert w.board.tiles[..i] == w.board.tiles;
    SpawnCallsSettle(CountKind(w.board.tiles, Residential), calls, amount);
  }

  /** Before any call, nothing has moved. */
  lemma SpawnStart(w: World, amount: int)
    requires w.board.Valid()
    ensures SpawnLoop(w, amount, |w.agents| - ActiveCount(w.agents), w, 0, 0)
  {
    assert w.board.tiles[..0] == [];
  }

  /**
   * The loop stops either at the call that reaches `amount` or after the
   * last home; either way it has made SpawnCalls calls.
   */
  lemma SpawnCallsSettle(homes: nat, calls: nat, amount: int)
    requires calls <= homes
    requires (calls >= 1 && calls >= amount && (calls == 1 || calls - 1 < amount))
             || (calls == homes && (calls == 0 || calls < amount))
    ensures calls == SpawnCalls(homes, amount)
  {
  }

  /** One spawn call adds one agent exactly while the free slots last. */
  lemma SpawnCountStep(w: World, prev: World, r: World, slot: int, calls: nat, free: int)
    requires free == |w.agents| - ActiveCount(w.agents) && |prev.agents| == |w.agents|
    requires ActiveCount(prev.agents) == ActiveCount(w.agents) + Min(calls, free)
    requires slot >= -1 && (slot == -1 <==> ActiveCount(prev.agents) == |prev.agents|)
    requires ActiveCount(r.agents) == ActiveCount(prev.agents) + (if slot >= 0 then 1 else 0)
    ensures ActiveCount(r.agents) == ActiveCount(w.agents) + Min(calls + 1, free)
  {
  }

  /** A spawn call writes only an inactive slot, so the agents live before the loop stay as they were. */
  lemma SpawnKeepsLive(w: World, prev: World, r: World, slot: int)
    requires |prev.agents| == |w.agents| && |r.agents| == |w.agents|
    requires forall j :: 0 <= j < |w.agents| && w.agents[j].active ==> prev.agents[j] == w.agents[j]
    requires slot == -1 || (0 <= slot < |prev.agents| && !prev.agents[slot].active)
    requires forall j :: 0 <= j < |prev.agents| && j != slot ==> r.agents[j] == prev.agents[j]
    ensures forall j :: 0 <= j < |w.agents| && w.agents[j].active ==> r.agents[j] == w.agents[j]
  {
  }

  /** One more cell of the prefix adds one to the count exactly when it is a home. */
  lemma CountKindNext(tiles: seq<Tile>, i: int)
    requires 0 <= i < |tiles|
    ensures CountKind(tiles[..i + 1], Residential) == CountKind(tiles[..i], Residential) + (if tiles[i] == Residential then 1 else 0)
  {
    assert tiles[..i + 1][..i] == tiles[..i];
  }

  /** Counting a prefix never gives more than counting the whole. */
  lemma {:induction false} CountKindPrefix(tiles: seq<Tile>, i: int)
    requires 0 <= i <= |tiles|
    ensures CountKind(tiles[..i], Residential) <= CountKind(tiles, Residential)
    decreases |tiles| - i
  {
    if i < |tiles| {
      CountKindPrefix(tiles, i + 1);
      assert tiles[..i + 1][..i] == tiles[..i];
    } else {
      assert tiles[..i] == tiles;
    }
  }

  /** debugClearAgents: every slot inactive and the count zero; slots keep their other fields. */
  function ClearAgents(w: World): (r: World)
    ensures r == w.(agents := r.agents, activeCount := 0) && |r.agents| == |w.agents|
    ensures forall j :: 0 <= j < |w.agents| ==> r.agents[j] == w.agents[j].(active := false)
    ensures CountConsistent(r)
    ensures PositionsInBounds(r)
  {
    var agents := seq(|w.agents|, j requires 0 <= j < |w.agents| => w.agents[j].(active := false));
    ActiveCountZero(agents);
    w.(agents := agents, activeCount := 0)
  }

  // ---------------------------------------------------------------------
  // Building levels.

  /** Visits a building needs beyond its current count to leave `level`. */
  function Threshold(level: int): int {
    if level == 0 then 10 else if level == 1 then 50 else 150
  }

  /**
   * levelUpBuilding on one cell's (level, activity): count the visit; below
   * the top level, a count past the threshold raises the level by one and
   * restarts the count.
   */
  function VisitCell(level: int, activity: int): (r: (int, int))
    ensures 0 <= level <= MAX_LEVEL ==> 0 <= r.0 <= MAX_LEVEL
    ensures 0 <= activity ==> 0 <= r.1
    ensures r.0 == level || r.0 == level + 1
    ensures r.0 == level + 1 <==> level < MAX_LEVEL && activity >= Threshold(level)
    ensures r.0 == level + 1 ==> r.1 == 0
    ensures r.0 == level ==> r.1 == activity + 1
  {
    var a := activity + 1;
    if level < MAX_LEVEL && a > Threshold(level) then (level + 1, 0) else (level, a)
  }

  /** n visits in a row. */
  function Visits(level: int, activity: int, n: nat): (int, int)
    decreases n
  {
    if n == 0 then (level, activity) else var r := VisitCell(level, activity); Visits(r.0, r.1, n - 1)
  }

  lemma {:induction false} VisitsSplit(level: int, activity: int, m: nat, n: nat)
    ensures Visits(level, activity, m + n) == Visits(Visits(level, activity, m).0, Visits(level, activity, m).1, n)
    decreases m
  {
    if m > 0 {
      var r := VisitCell(level, activity);
      VisitsSplit(r.0, r.1, m - 1, n);
    }
  }

  /** Below the threshold, visits only add to the count. */
  lemma {:induction false} VisitsAccumulate(level: int, activity: int, n: nat)
    requires 0 <= level < MAX_LEVEL && 0 <= activity && activity + n <= Threshold(level)
    ensures Visits(level, activity, n) == (level, activity + n)
    decreases n
  {
    if n > 0 {
      VisitsAccumulate(level, activity + 1, n - 1);
    }
  }

  /** At the top level the level stays and the count keeps growing. */
  lemma {:induction false} VisitsAtTop(activity: int, n: nat)
    ensures Visits(MAX_LEVEL, activity, n) == (MAX_LEVEL, activity + n)
    decreases n
  {
    if n > 0 {
      VisitsAtTop(activity + 1, n - 1);
    }
  }

  /** From count a at a level below the top, exactly Threshold + 1 - a visits raise the level. */
  lemma NextLevel(level: int, activity: int)
    requires 0 <= level < MAX_LEVEL && 0 <= activity <= Threshold(level)
    ensures Visits(level, activity, Threshold(level) + 1 - activity) == (level + 1, 0)
  {
    var m := Threshold(level) - activity;
    VisitsAccumulate(level, activity, m);
    VisitsSplit(level, activity, m, 1);
  }

  /**
   * A new building reaches level 1 on its 11th visit, level 2 on its 62nd
   * and level 3 on its 213th, and stays at level 3 from then on.
   */
  lemma FreshBuildingLevels(n: nat)
    ensures Visits(0, 0, 10) == (0, 10)
    ensures Visits(0, 0, 11) == (1, 0)
    ensures Visits(0, 0, 62) == (2, 0)
    ensures Visits(0, 0, 213) == (3, 0)
    ensures Visits(0, 0, 213 + n) == (3, n)
  {
    VisitsAccumulate(0, 0, 10);
    NextLevel(0, 0);
    NextLevel(1, 0);
    VisitsSplit(0, 0, 11, 51);
    NextLevel(2, 0);
    VisitsSplit(0, 0, 62, 151);
    VisitsAtTop(0, n);
    VisitsSplit(0, 0, 213, n);
  }

  /** levelUpBuilding on the world: only the visited cell's level and count change. */
  function LevelUp(w: World, idx: int): (r: World)
    requires 0 <= idx < |w.levels| && |w.activity| == |w.levels|
    ensures r == w.(levels := r.levels, activity := r.activity)
    ensures |r.levels| == |w.levels| && |r.activity| == |w.activity|
    ensures (r.levels[idx], r.activity[idx]) == VisitCell(w.levels[idx], w.activity[idx])
    ensures forall c :: 0 <= c < |w.levels| && c != idx ==> r.levels[c] == w.levels[c] && r.activity[c] == w.activity[c]
    ensures LevelsBounded(w) ==> LevelsBounded(r)
  {
    var v := VisitCell(w.levels[idx], w.activity[idx]);
    w.(levels := w.levels[idx := v.0], activity := w.activity[idx := v.1])
  }

  // ---------------------------------------------------------------------
  // One tick.

  /** The state cycle: home, to work, work, optionally to the shop and shopping, back home. */
  predicate Allowed(s: AgentState, t: AgentState) {
    s == t
    || (s == IdleAtHome && t == WalkingToWork)
    || (s == WalkingToWork && t == Working)
    || (s == Working && (t == WalkingToShop || t == WalkingToHome))
    || (s == WalkingToShop && t == Shopping)
    || (s == Shopping && t == WalkingToHome)
    || (s == WalkingToHome && t == IdleAtHome)
  }

  predicate IsWalking(s: AgentState) {
    s == WalkingToWork || s == WalkingToShop || s == WalkingToHome
  }

  /** The kind of cell a walking agent heads for. */
  function Target(s: AgentState): Tile {
    match s
    case WalkingToWork => Industrial
    case WalkingToShop => Commercial
    case _ => Residential
  }

  /** The field a walking agent follows. */
  function FieldFor(w: World, s: AgentState): seq<int> {
    match s
    case WalkingToWork => w.toWork
    case WalkingToShop => w.toShop
    case _ => w.toHome
  }

  /** A stay counting down: one tick off the timer, or, at zero, on to the next state. */
  function Countdown(a: Agent, next: AgentState): Agent {
    if a.timer > 0 then a.(timer := a.timer - 1) else a.(state := next)
  }

  /** What no agent's step changes. */
  predicate StepFrame(w: World, r: World, i: int)
    requires 0 <= i < |w.agents|
  {
    r.board == w.board && r.toWork == w.toWork && r.toHome == w.toHome && r.toShop == w.toShop
    && r.tick == w.tick && r.activeCount == w.activeCount
    && |r.levels| == |w.levels| && |r.activity| == |w.activity| && |r.agents| == |w.agents|
    && (forall j :: 0 <= j < |w.agents| && j != i ==> r.agents[j] == w.agents[j])
    && r.agents[i].active == w.agents[i].active && r.agents[i].home == w.agents[i].home
    && r.agents[i].work == w.agents[i].work && r.agents[i].color == w.agents[i].color
  }

  /**
   * The ledger of one step: funds grow by nothing, a wage of 20 or a sale of
   * 30; a sale takes one unit of goods and needs one; goods grow by one only
   * when a shift ends.
   */
  predicate Ledger(w: World, r: World, i: int)
    requires 0 <= i < |w.agents| && |r.agents| == |w.agents|
  {
    (r.funds == w.funds || r.funds == w.funds + INCOME_PER_CYCLE || r.funds == w.funds + COMMERCE_INCOME)
    && (r.funds == w.funds + COMMERCE_INCOME <==> r.goods == w.goods - 1)
    && (r.goods == w.goods - 1 ==> w.goods > 0)
    && (r.goods == w.goods + 1 ==> w.agents[i].state == Working && r.agents[i].state != Working)
    && (r.goods == w.goods || r.goods == w.goods - 1 || r.goods == w.goods + 1)
  }

  /** Arrival on the target cell: start the stay, collect the income, and count the visit. */
  function Arrive(w: World, i: int, idx: int, target: Tile, jitter: int): (r: World)
    requires 0 <= i < |w.agents| && 0 <= idx < |w.levels| && |w.activity| == |w.levels|
    requires IsWalking(w.agents[i].state) && target == Target(w.agents[i].state)
    ensures StepFrame(w, r, i) && Ledger(w, r, i)
    ensures Allowed(w.agents[i].state, r.agents[i].state) && r.agents[i].state != w.agents[i].state
    ensures r.agents[i].x == w.agents[i].x && r.agents[i].y == w.agents[i].y
    ensures r.moveSuccesses == w.moveSuccesses && r.moveAttempts == w.moveAttempts
    ensures LevelsBounded(w) ==> LevelsBounded(r)
    ensures r.agents[i].timer == jitter + (if target == Industrial then WORK_DURATION
                                           else if target == Commercial then SHOP_DURATION else HOME_DURATION)
    ensures (r.levels[idx], r.activity[idx]) == VisitCell(w.levels[idx], w.activity[idx])
    ensures forall c :: 0 <= c < |w.levels| && c != idx ==> r.levels[c] == w.levels[c] && r.activity[c] == w.activity[c]
    ensures target == Industrial ==> r.funds == w.funds && r.goods == w.goods
    ensures target == Commercial ==> (r.goods == w.goods - 1 <==> w.goods > 0)
                                     && r.funds == w.funds + (if w.goods > 0 then COMMERCE_INCOME else 0.0)
    ensures target == Residential ==> r.funds == w.funds + INCOME_PER_CYCLE && r.goods == w.goods
  {
    var a := w.agents[i];
    if target == Industrial then
      LevelUp(w.(agents := w.agents[i := a.(state := Working, timer := WORK_DURATION + jitter)]), idx)
    else if target == Commercial then
      var sale := w.goods > 0;
      var w1 := w.(goods := if sale then w.goods - 1 else w.goods,
                   funds := if sale then w.funds + COMMERCE_INCOME else w.funds);
      LevelUp(w1.(agents := w.agents[i := a.(state := Shopping, timer := SHOP_DURATION + jitter)]), idx)
    else
      LevelUp(w.(funds := w.funds + INCOME_PER_CYCLE,
                 agents := w.agents[i := a.(state := IdleAtHome, timer := HOME_DURATION + jitter)]), idx)
  }

  /** Agent a shifted one cell in direction d, facing that way. */
  function Shifted(a: Agent, d: int): Agent
    requires 1 <= d <= 8
  {
    a.(x := a.x + DX[d], y := a.y + DY[d], dx := DX[d], dy := DY[d])
  }

  /** The entry of agent i's field at its cell, missing when the index is off the field. */
  function FieldDir(w: World, i: int): Option<int>
    requires 0 <= i < |w.agents|
  {
    Lookup(FieldFor(w, w.agents[i].state), GetIndex(w.board.w, w.agents[i].x, w.agents[i].y))
  }

  /** The direction d names a neighbour (not 0, the field's "stay") that is on the grid. */
  predicate StepsOnGrid(w: World, i: int, d: Option<int>)
    requires 0 <= i < |w.agents|
  {
    d.Some? && 1 <= d.value <= 8 && w.board.InBounds(w.agents[i].x + DX[d.value], w.agents[i].y + DY[d.value])
  }

  /** Agent i stands on a cell of its walk's target kind. */
  predicate OnTarget(w: World, i: int)
    requires 0 <= i < |w.agents|
  {
    Lookup(w.board.tiles, GetIndex(w.board.w, w.agents[i].x, w.agents[i].y)) == Some(Target(w.agents[i].state))
  }

  /** One step along direction `dir` when it is a direction and the step stays on the grid. */
  function Move(w: World, i: int, dir: Option<int>): (r: World)
    requires 0 <= i < |w.agents|
    ensures StepsOnGrid(w, i, dir) ==>
              r == w.(agents := w.agents[i := Shifted(w.agents[i], dir.value)], moveSuccesses := w.moveSuccesses + 1)
    ensures !StepsOnGrid(w, i, dir) ==> r == w
    ensures StepFrame(w, r, i)
    ensures r == w.(agents := r.agents, moveSuccesses := r.moveSuccesses)
    ensures r.agents[i].state == w.agents[i].state
    ensures r.moveSuccesses == w.moveSuccesses || r.moveSuccesses == w.moveSuccesses + 1
    ensures r.moveSuccesses == w.moveSuccesses + 1 <==> r.agents[i] != w.agents[i]
    ensures r.agents[i] != w.agents[i] ==>
              dir.Some? && 1 <= dir.value <= 8 && w.board.InBounds(r.agents[i].x, r.agents[i].y)
              && r.agents[i].x == w.agents[i].x + DX[dir.value] && r.agents[i].y == w.agents[i].y + DY[dir.value]
  {
    var a := w.agents[i];
    if dir.Some? && 1 <= dir.value <= 8 then
      var nx := a.x + DX[dir.value];
      var ny := a.y + DY[dir.value];
      if w.board.InBounds(nx, ny) then
        w.(agents := w.agents[i := a.(x := nx, y := ny, dx := DX[dir.value], dy := DY[dir.value])],
           moveSuccesses := w.moveSuccesses + 1)
      else w
    else w
  }

  /**
   * A walking agent: off a road it moves only on every other tick; when it
   * moves it counts an attempt, then either arrives (standing on its target
   * kind) or takes the field's direction. The cell under the agent and the
   * field entry are looked up by index and may be missing.
   */
  function Walk(w: World, i: int, roll: Roll): (r: World)
    requires w.WellFormed() && 0 <= i < |w.agents| && IsWalking(w.agents[i].state)
    ensures StepFrame(w, r, i) && Ledger(w, r, i)
    ensures Allowed(w.agents[i].state, r.agents[i].state)
    ensures LevelsBounded(w) ==> LevelsBounded(r)
    ensures 0 <= r.moveSuccesses - w.moveSuccesses <= r.moveAttempts - w.moveAttempts <= 1
    ensures r.agents[i].x != w.agents[i].x || r.agents[i].y != w.agents[i].y ==>
              WalkedByField(w, r, i)
    ensures var tile := Lookup(w.board.tiles, GetIndex(w.board.w, w.agents[i].x, w.agents[i].y));
            if tile != Some(Road) && (w.tick + i) % 2 != 0 then r == w
            else r.moveAttempts == w.moveAttempts + 1
                 && (tile == Some(Target(w.agents[i].state)) ==>
                       r.moveSuccesses == w.moveSuccesses && r.agents[i].state != w.agents[i].state
                       && r.agents[i].x == w.agents[i].x && r.agents[i].y == w.agents[i].y)
                 && (!OnTarget(w, i) && StepsOnGrid(w, i, FieldDir(w, i)) ==>
                       r == w.(agents := w.agents[i := Shifted(w.agents[i], FieldDir(w, i).value)],
                               moveAttempts := w.moveAttempts + 1, moveSuccesses := w.moveSuccesses + 1))
                 && (!OnTarget(w, i) && !StepsOnGrid(w, i, FieldDir(w, i)) ==>
                       r == w.(moveAttempts := w.moveAttempts + 1))
  {
    var a := w.agents[i];
    var tile := Lookup(w.board.tiles, GetIndex(w.board.w, a.x, a.y));
    if tile != Some(Road) && (w.tick + i) % 2 != 0 then w
    else Attempt(w, i, roll)
  }

  /** A walker's counted move attempt: arrival when it stands on its target kind, else a step along its field. */
  function Attempt(w: World, i: int, roll: Roll): (r: World)
    requires w.WellFormed() && 0 <= i < |w.agents| && IsWalking(w.agents[i].state)
    ensures StepFrame(w, r, i) && Ledger(w, r, i)
    ensures Allowed(w.agents[i].state, r.agents[i].state)
    ensures LevelsBounded(w) ==> LevelsBounded(r)
    ensures r.moveAttempts == w.moveAttempts + 1
    ensures r.moveSuccesses == w.moveSuccesses || r.moveSuccesses == w.moveSuccesses + 1
    ensures r.agents[i].x != w.agents[i].x || r.agents[i].y != w.agents[i].y ==> WalkedByField(w, r, i)
    ensures Lookup(w.board.tiles, GetIndex(w.board.w, w.agents[i].x, w.agents[i].y)) == Some(Target(w.agents[i].state)) ==>
              r.moveSuccesses == w.moveSuccesses && r.agents[i].state != w.agents[i].state
              && r.agents[i].x == w.agents[i].x && r.agents[i].y == w.agents[i].y
    ensures !OnTarget(w, i) && StepsOnGrid(w, i, FieldDir(w, i)) ==>
              r == w.(agents := w.agents[i := Shifted(w.agents[i], FieldDir(w, i).value)],
                      moveAttempts := w.moveAttempts + 1, moveSuccesses := w.moveSuccesses + 1)
    ensures !OnTarget(w, i) && !StepsOnGrid(w, i, FieldDir(w, i)) ==> r == w.(moveAttempts := w.moveAttempts + 1)
  {
    var a := w.agents[i];
    var idx := GetIndex(w.board.w, a.x, a.y);
    var target := Target(a.state);
    var w1 := w.(moveAttempts := w.moveAttempts + 1);
    if Lookup(w.board.tiles, idx) == Some(target) then Arrive(w1, i, idx, target, roll.jitter)
    else
      var r := Move(w1, i, Lookup(FieldFor(w, a.state), idx));
      MoveByField(w, w1, i, r);
      r
  }

  /** A walker not on its target kind that changes place did so by its field's direction. */
  lemma MoveByField(w: World, w1: World, i: int, r: World)
    requires w.WellFormed() && 0 <= i < |w.agents| && IsWalking(w.agents[i].state)
    requires w1 == w.(moveAttempts := w1.moveAttempts)
    requires Lookup(w.board.tiles, GetIndex(w.board.w, w.agents[i].x, w.agents[i].y)) != Some(Target(w.agents[i].state))
    requires r == Move(w1, i, Lookup(FieldFor(w, w.agents[i].state), GetIndex(w.board.w, w.agents[i].x, w.agents[i].y)))
    ensures r.agents[i].x != w.agents[i].x || r.agents[i].y != w.agents[i].y ==> WalkedByField(w, r, i)
  {
  }

  /**
   * Agent i went from its cell to the grid cell one step along the direction
   * its field holds there, and was not standing on its target kind.
   */
  predicate WalkedByField(w: World, r: World, i: int)
    requires 0 <= i < |w.agents| && |r.agents| == |w.agents| && w.board.Valid()
  {
    var a := w.agents[i];
    var idx := GetIndex(w.board.w, a.x, a.y);
    IsWalking(a.state)
    && (0 <= idx < w.board.Size() ==> w.board.tiles[idx] != Target(a.state))
    && Lookup(FieldFor(w, a.state), idx).Some?
    && var d := Lookup(FieldFor(w, a.state), idx).value;
       1 <= d <= 8 && w.board.InBounds(r.agents[i].x, r.agents[i].y)
       && r.agents[i].x == a.x + DX[d] && r.agents[i].y == a.y + DY[d]
  }

  /**
   * One agent's turn in update(). Only that agent, the goods, the funds,
   * the visited cell's level and the move counters change. Its state follows
   * the cycle; funds only grow, by a wage of 20 or a sale of 30, and a sale
   * takes one unit of goods, which is never taken below zero; a shift's end
   * adds one unit. At most one move is attempted, and an agent on the grid
   * stays on it. A walker changes place only by the direction its field
   * holds for its cell, and never while standing on its target kind.
   */
  function StepAgent(w: World, i: int, roll: Roll): (r: World)
    requires w.WellFormed() && 0 <= i < |w.agents|
    ensures StepFrame(w, r, i) && Ledger(w, r, i)
    ensures !w.agents[i].active ==> r == w
    ensures Allowed(w.agents[i].state, r.agents[i].state)
    ensures LevelsBounded(w) ==> LevelsBounded(r)
    ensures 0 <= r.moveSuccesses - w.moveSuccesses <= r.moveAttempts - w.moveAttempts <= B2I(w.agents[i].active)
    ensures w.board.InBounds(w.agents[i].x, w.agents[i].y) ==> w.board.InBounds(r.agents[i].x, r.agents[i].y)
    ensures r.agents[i].x != w.agents[i].x || r.agents[i].y != w.agents[i].y ==> WalkedByField(w, r, i)
    ensures w.agents[i].active && IsWalking(w.agents[i].state) ==> r == Walk(w, i, roll)
    ensures w.agents[i].active && !IsWalking(w.agents[i].state) ==> r == Stay(w, i, roll)
  {
    var a := w.agents[i];
    if !a.active then w
    else if IsWalking(a.state) then Walk(w, i, roll)
    else Stay(w, i, roll)
  }

  /**
   * An agent at home, at work or at a shop: the timer counts down, and at
   * zero the agent sets off; a shift's end first adds one unit of goods and
   * then heads for a shop (when the coin says so and there are goods) or home.
   */
  function Stay(w: World, i: int, roll: Roll): (r: World)
    requires w.WellFormed() && 0 <= i < |w.agents| && !IsWalking(w.agents[i].state)
    ensures StepFrame(w, r, i) && Ledger(w, r, i)
    ensures r == w.(agents := r.agents, goods := r.goods)
    ensures Allowed(w.agents[i].state, r.agents[i].state)
    ensures r.agents[i].x == w.agents[i].x && r.agents[i].y == w.agents[i].y
    ensures w.agents[i].timer > 0 ==> r.agents[i] == w.agents[i].(timer := w.agents[i].timer - 1) && r.goods == w.goods
    ensures w.agents[i].timer <= 0 ==> r.agents[i] == w.agents[i].(state := r.agents[i].state)
                                       && r.agents[i].state != w.agents[i].state
    ensures w.agents[i].timer <= 0 && w.agents[i].state == Working ==>
              r.goods == w.goods + 1 && (r.agents[i].state == WalkingToShop <==> roll.coin && w.goods + 1 > 0)
    ensures w.agents[i].state != Working ==> r.goods == w.goods
  {
    var a := w.agents[i];
    match a.state
    case IdleAtHome => w.(agents := w.agents[i := Countdown(a, WalkingToWork)])
    case Shopping => w.(agents := w.agents[i := Countdown(a, WalkingToHome)])
    case Working =>
      if a.timer > 0 then w.(agents := w.agents[i := a.(timer := a.timer - 1)])
      else
        var g := w.goods + 1;
        w.(goods := g, agents := w.agents[i := a.(state := if g > 0 && roll.coin then WalkingToShop else WalkingToHome)])
  }

  /**
   * update() without particles and the time of day: advance the tick counter,
   * then give every slot its turn in index order. The grid, the fields, the
   * slots' identities and the count are kept; goods stay non-negative, funds
   * never fall, levels stay within 0..3, agents on the grid stay on it, and
   * successful moves never exceed attempts, which never exceed live agents.
   */
  method Tick(w: World, rolls: seq<Roll>) returns (r: World)
    requires w.WellFormed() && |rolls| == |w.agents|
    requires forall j :: 0 <= j < |rolls| ==> RollOk(rolls[j])
    ensures r.WellFormed() && r.board == w.board && r.tick == w.tick + 1
    ensures r.toWork == w.toWork && r.toHome == w.toHome && r.toShop == w.toShop
    ensures r.activeCount == w.activeCount && |r.agents| == |w.agents|
    ensures forall j :: 0 <= j < |w.agents| ==>
              r.agents[j].active == w.agents[j].active && r.agents[j].home == w.agents[j].home
              && r.agents[j].work == w.agents[j].work && r.agents[j].color == w.agents[j].color
    ensures forall j :: 0 <= j < |w.agents| && !w.agents[j].active ==> r.agents[j] == w.agents[j]
    ensures forall j :: 0 <= j < |w.agents| ==> Allowed(w.agents[j].state, r.agents[j].state)
    ensures r.funds >= w.funds
    ensures w.goods >= 0 ==> r.goods >= 0
    ensures 0 <= r.moveSuccesses <= r.moveAttempts <= ActiveCount(w.agents)
    ensures PositionsInBounds(w) ==> PositionsInBounds(r)
    ensures Consistent(w) ==> Consistent(r)
    ensures r == TickFrom(w.(tick := w.tick + 1, moveAttempts := 0, moveSuccesses := 0), rolls, 0)
  {
    var start := w.(tick := w.tick + 1, moveAttempts := 0, moveSuccesses := 0);
    r := start;
    assert w.agents[..0] == [];
    var i := 0;
    while i < |w.agents|
      invariant 0 <= i <= |w.agents|
      invariant TickLoop(w, r, i)
      invariant TickFrom(r, rolls, i) == TickFrom(start, rolls, 0)
    {
      r := TickTurn(w, start, rolls, r, i);
      i := i + 1;
    }
    TickDone(w, r);
  }

  /** Slot i's turn within the pass: the pass's state and the fold both move one slot along. */
  method TickTurn(w: World, start: World, rolls: seq<Roll>, r0: World, i: int) returns (r: World)
    requires w.WellFormed() && 0 <= i < |w.agents| && |rolls| == |w.agents|
    requires TickLoop(w, r0, i) && start.WellFormed() && |start.agents| == |w.agents|
    requires TickFrom(r0, rolls, i) == TickFrom(start, rolls, 0)
    ensures TickLoop(w, r, i + 1)
    ensures TickFrom(r, rolls, i + 1) == TickFrom(start, rolls, 0)
  {
    TickStep(w, r0, i, rolls[i]);
    TickFromStep(r0, rolls, i);
    r := StepAgent(r0, i, rolls[i]);
  }

  /** One more slot's turn moves the fold one slot along. */
  lemma TickFromStep(w: World, rolls: seq<Roll>, i: int)
    requires w.WellFormed() && |rolls| == |w.agents| && 0 <= i < |w.agents|
    ensures StepAgent(w, i, rolls[i]).WellFormed() && |StepAgent(w, i, rolls[i]).agents| == |w.agents|
    ensures TickFrom(w, rolls, i) == TickFrom(StepAgent(w, i, rolls[i]), rolls, i + 1)
  {
  }

  /**
   * The agent pass as a fold: slots i, i+1, ... take their turns in index
   * order, each on the world its predecessor left.
   */
  function TickFrom(w: World, rolls: seq<Roll>, i: int): World
    requires w.WellFormed() && |rolls| == |w.agents| && 0 <= i <= |w.agents|
    decreases |w.agents| - i
  {
    if i == |w.agents| then w
    else TickFrom(StepAgent(w, i, rolls[i]), rolls, i + 1)
  }

  /** The agent pass before slot i: slots below i have had their turn, the rest are as they were. */
  predicate TickLoop(w: World, r: World, i: int)
    requires w.WellFormed()
  {
    0 <= i <= |w.agents|
    && r.WellFormed() && r.board == w.board && r.tick == w.tick + 1
    && r.toWork == w.toWork && r.toHome == w.toHome && r.toShop == w.toShop
    && r.activeCount == w.activeCount && |r.agents| == |w.agents|
    && (forall j :: 0 <= j < |w.agents| ==>
          r.agents[j].active == w.agents[j].active && r.agents[j].home == w.agents[j].home
          && r.agents[j].work == w.agents[j].work && r.agents[j].color == w.agents[j].color)
    && (forall j :: 0 <= j < |w.agents| && !w.agents[j].active ==> r.agents[j] == w.agents[j])
    && (forall j :: i <= j < |w.agents| ==> r.agents[j] == w.agents[j])
    && (forall j :: 0 <= j < i ==> Allowed(w.agents[j].state, r.agents[j].state))
    && r.funds >= w.funds
    && (w.goods >= 0 ==> r.goods >= 0)
    && (LevelsBounded(w) ==> LevelsBounded(r))
    && 0 <= r.moveSuccesses <= r.moveAttempts <= ActiveCount(w.agents[..i])
    && (PositionsInBounds(w) ==> PositionsInBounds(r))
  }

  /** Slot i's turn keeps the pass's state, one slot further on. */
  lemma TickStep(w: World, r: World, i: int, roll: Roll)
    requires w.WellFormed() && 0 <= i < |w.agents| && TickLoop(w, r, i)
    ensures TickLoop(w, StepAgent(r, i, roll), i + 1)
  {
    assert w.agents[..i + 1][..i] == w.agents[..i];
  }

  /** After the last slot the pass has given every slot its turn; the count still matches when it did before. */
  lemma TickDone(w: World, r: World)
    requires w.WellFormed() && TickLoop(w, r, |w.agents|)
    ensures forall j :: 0 <= j < |w.agents| ==> Allowed(w.agents[j].state, r.agents[j].state)
    ensures 0 <= r.moveSuccesses <= r.moveAttempts <= ActiveCount(w.agents)
    ensures Consistent(w) ==> Consistent(r)
  {
    assert w.agents[..|w.agents|] == w.agents;
    ActiveCountFlags(r.agents, w.agents);
  }

  // ---------------------------------------------------------------------
  // Walking along a current field.

  /**
   * On the board: from a cell on the grid, the step the reference field
   * gives lands on a cell exactly one step nearer the target kind.
   */
  lemma BoardStep(bd: Board, t: Tile, x: int, y: int, dir: int)
    requires bd.Valid() && bd.InBounds(x, y) && 1 <= dir <= 8 && bd.InBounds(x + DX[dir], y + DY[dir])
    requires 0 <= GetIndex(bd.w, x, y) < bd.Size()
    requires FlowField.FlowFieldOf(bd, t)[GetIndex(bd.w, x, y)] == dir
    ensures 0 <= GetIndex(bd.w, x + DX[dir], y + DY[dir]) < bd.Size()
    ensures FlowField.ShortestDist(bd, t, GetIndex(bd.w, x, y)) != UNREACHED
    ensures FlowField.ShortestDist(bd, t, GetIndex(bd.w, x + DX[dir], y + DY[dir]))
            == FlowField.ShortestDist(bd, t, GetIndex(bd.w, x, y)) - 1
  {
    var idx := GetIndex(bd.w, x, y);
    FlowField.FieldDownhill(bd, t, idx);
    NeighborAt(bd.w, bd.h, x, y, dir);
  }

  /** The direction a field step used: the field's entry at the walker's cell. */
  lemma WalkedDir(w: World, r: World, i: int) returns (dir: int)
    requires w.WellFormed() && 0 <= i < |w.agents| && |r.agents| == |w.agents|
    requires w.board.InBounds(w.agents[i].x, w.agents[i].y) && WalkedByField(w, r, i)
    ensures 0 <= GetIndex(w.board.w, w.agents[i].x, w.agents[i].y) < w.board.Size()
    ensures dir == FieldFor(w, w.agents[i].state)[GetIndex(w.board.w, w.agents[i].x, w.agents[i].y)]
    ensures 1 <= dir <= 8 && w.board.InBounds(w.agents[i].x + DX[dir], w.agents[i].y + DY[dir])
    ensures r.agents[i].x == w.agents[i].x + DX[dir] && r.agents[i].y == w.agents[i].y + DY[dir]
  {
    var a := w.agents[i];
    RowBound(w.board.w, w.board.h, a.x, a.y);
    dir := FieldFor(w, a.state)[GetIndex(w.board.w, a.x, a.y)];
  }

  /** A step taken by the field, when the fields are current, lands one cell nearer the target kind. */
  lemma FieldStepProgress(w: World, r: World, i: int)
    requires w.WellFormed() && 0 <= i < |w.agents| && |r.agents| == |w.agents|
    requires FieldFor(w, w.agents[i].state) == FlowField.FlowFieldOf(w.board, Target(w.agents[i].state))
    requires w.board.InBounds(w.agents[i].x, w.agents[i].y) && WalkedByField(w, r, i)
    ensures w.board.InBounds(r.agents[i].x, r.agents[i].y)
    ensures 0 <= GetIndex(w.board.w, w.agents[i].x, w.agents[i].y) < w.board.Size()
    ensures 0 <= GetIndex(w.board.w, r.agents[i].x, r.agents[i].y) < w.board.Size()
    ensures FlowField.ShortestDist(w.board, Target(w.agents[i].state), GetIndex(w.board.w, r.agents[i].x, r.agents[i].y))
            == FlowField.ShortestDist(w.board, Target(w.agents[i].state), GetIndex(w.board.w, w.agents[i].x, w.agents[i].y)) - 1
  {
    var a, b := w.agents[i], r.agents[i];
    var t := Target(a.state);
    var dir := WalkedDir(w, r, i);
    BoardStep(w.board, t, a.x, a.y, dir);
    assert GetIndex(w.board.w, b.x, b.y) == GetIndex(w.board.w, a.x + DX[dir], a.y + DY[dir]);
  }

  /** With current fields, the field a walker follows is the reference field towards its target kind. */
  lemma FieldForCurrent(w: World, s: AgentState)
    requires w.WellFormed() && FieldsCurrent(w)
    ensures FieldFor(w, s) == FlowField.FlowFieldOf(w.board, Target(s))
  {
  }

  /**
   * When the fields are current, a walking agent on the grid that moves
   * lands on the grid one step nearer its target kind: the path length to
   * the nearest target cell drops by exactly one.
   */
  lemma WalkProgress(w: World, i: int, roll: Roll)
    requires Consistent(w) && 0 <= i < |w.agents|
    requires w.board.InBounds(w.agents[i].x, w.agents[i].y)
    requires StepAgent(w, i, roll).agents[i].x != w.agents[i].x || StepAgent(w, i, roll).agents[i].y != w.agents[i].y
    ensures var a := w.agents[i];
            var b := StepAgent(w, i, roll).agents[i];
            var t := Target(a.state);
            IsWalking(a.state) && w.board.InBounds(b.x, b.y)
            && 0 <= GetIndex(w.board.w, a.x, a.y) < w.board.Size()
            && 0 <= GetIndex(w.board.w, b.x, b.y) < w.board.Size()
            && FlowField.ShortestDist(w.board, t, GetIndex(w.board.w, b.x, b.y))
               == FlowField.ShortestDist(w.board, t, GetIndex(w.board.w, a.x, a.y)) - 1
  {
    FieldForCurrent(w, w.agents[i].state);
    FieldStepProgress(w, StepAgent(w, i, roll), i);
  }
}
