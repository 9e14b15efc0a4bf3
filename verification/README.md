# Grid city simulation core in Dafny

This project models the simulation core of a browser city builder played on a
W x H tile grid. Each cell is Empty, Road, Residential, Industrial or
Commercial. Agents live in a fixed pool of slots. On every tick an agent:

- waits at home, at work or at a shop on a countdown timer;
- or walks one cell along a *flow field* towards the nearest cell of the kind it
  is heading for.

A flow field is a per-cell direction computed by a breadth-first search from
every cell of the target kind. The search runs through non-Empty cells only.

The player paints cells. A build is paid from a fund, and every change to the
tiles is followed by recomputing the three flow fields. The city can be saved
to a record and loaded back from it.

Modules follow the program's structure:

| file | module | models |
|---|---|---|
| grid.dfy | `Grid` | tile kinds, the board, `getIndex`/`getXY`, direction tables, neighbours |
| option.dfy | `Options` | `Option`, standing for `undefined`/`null` |
| flowfield.dfy | `FlowField` | the reference meaning of a flow field: shortest path distances through non-Empty cells, and the direction each cell takes |
| bfs.dfy | `FlowFieldSystem` | `generateField` (seeding loop, BFS queue loop, direction extraction loop) and `updateFields`, proved equal to the reference |
| world.dfy | `World` | the world state, the constructor, `toJSON` (`Save`) and `loadFromJSON`, both as written and with the record checked first |
| economy.dfy | `Economy` | the cost table, `canAfford`, `deduct`, `processMaintenance` |
| agents.dfy | `Agents` | `spawnAgent`, `debugSpawn`, `debugClearAgents`, `levelUpBuilding`, and `update` without particles and the time of day |
| app.dfy | `App` | the grid side of `paint`, the efficiency figure, and `handleLoad` |

Modelling choices:

- **Grid size.** W and H are parameters (`Board.w`, `Board.h`). The game uses
  128 x 128 (`Grid.GRID_WIDTH`, `Grid.GRID_HEIGHT`). `ValidDims` requires
  W * H below the search's sentinel 999999, so every real distance stays
  below it.
- **Agent pool.** The pool capacity is `|agents|`; the game uses 15000. The
  slots are kept as records. The saved form keeps the game's column-per-field
  layout.
- **Randomness.** Every `Math.random` draw is an explicit input:
  - `SpawnRoll` is a spawn's timer in [0, 200) and its colour in [0, 5);
  - `Roll` is a tick's shop/home coin and its jitter in [0, 50).
- **Funds** are exact `real`s. Tile kinds and agent states are datatypes, and
  the active flag is a `bool`.
- **Fields missing from `WorldState.ts`.** The other services read and write
  `flowToShop`, `goods`, `tileLevels` and `tileActivity`, but the state class
  does not declare them. They are fields of `World.World` here and start at 0.
- **Out-of-range lookups.** An agent's tile and field entry are read at the
  flat index y * W + x, with no check of x or y. Only an index outside
  0..W*H-1 reads `undefined`, which is `None` here (`Agents.Lookup`); a `None`
  direction never moves the agent. A loaded position whose x lies outside
  [0, W) but whose index is in range reads the cell of another row, as in
  `AgentSystem.ts`.
- **The tick counter.** `update` increments its tick counter before the agent
  loop. `Tick` does the same, so the off-road "every other tick" rule reads the
  incremented counter.

## Model

| member | source | states |
|---|---|---|
| Grid.GetIndex | services/WorldState.ts:71-73 | For a column in [0, W) and a non-negative row, the index is non-negative, and division and remainder by W give back the row and the column. |
| Grid.GetXY | services/WorldState.ts:75-80 | For a non-negative index, x lies in [0, W), y is non-negative, and y * W + x is the index again. |
| Grid.XYOfIndex | services/WorldState.ts:71-80 | For an in-bounds (x, y), `getIndex` lands in [0, W*H), and `getXY` of that index gives back (x, y). |
| Grid.IndexOfXY | services/WorldState.ts:71-80 | For every index of the grid, `getXY` gives an in-bounds cell, and `getIndex` of that cell is the index again. |
| Grid.JsRem | services/WorldState.ts:77 | JavaScript's `%` agrees with the mathematical remainder on non-negative indices. On a negative index it truncates: the result lies in (-W, 0] and differs from the index by a multiple of W. It always lies strictly between -W and W. |
| Grid.Neighbor | services/FlowFieldSystem.ts:46-56 | The neighbour in a direction is either off the grid (-1) or a valid cell index. |
| Grid.NeighborIsAdjacent | services/FlowFieldSystem.ts:46-56 | The neighbour exists exactly when the shifted column and row are both on the grid, and it is then the cell at those coordinates, so a step never wraps around a row end. |
| Grid.NeighborAt | services/FlowFieldSystem.ts:52-56 | From an on-grid (x, y), a step in direction d to an on-grid cell gives the index of (x + DX[d], y + DY[d]). |
| Grid.NeighborSymmetric | services/FlowFieldSystem.ts:49-56 | Orthogonal adjacency is symmetric: stepping back in the opposite direction returns to the starting cell. |
| World.NewWorld | services/WorldState.ts:37-69 | A fresh world has every tile Empty and 1000 in funds. No slot is active and the count is 0, so count and slots agree. The fields match the tiles, and all invariants hold. |
| World.Save | services/WorldState.ts:84-98 | The record holds the tiles and the funds, and an agent part. Each of the seven columns (active, state, x, y, home, work, colour) has one entry per slot, equal to that slot's field. The record always fits the world it came from, so loading it back cannot throw. |
| World.SetPrefix | services/WorldState.ts:104 | A typed array's `set` succeeds exactly when the written array is no longer than the typed array. It then overwrites the front and keeps the rest. |
| World.ApplyStepShape | services/WorldState.ts:103-113 | One assignment or `set` of the load throws exactly when what it writes is longer than its array. It writes only the funds, the tiles or one agent column, and keeps every length. |
| World.RunStepsShape | services/WorldState.ts:103-113 | The sequence of writes fails exactly when some write does not fit. Only the funds, the tiles and the agents change, and the funds only through the funds assignment. |
| World.LoadAsWritten | services/WorldState.ts:100-125 | The load as written changes nothing when there is no data or no agent part. Otherwise the funds come from the record, and the load throws exactly when the record does not fit. Only funds, tiles, agents and the count change. After a throw the count is the old one; after success it matches the slots. |
| World.LoadChecked | services/WorldState.ts:100-125 | The corrected half of the finding below. Load changes nothing when there is no data or no agent part. Otherwise:<br>- Funds come from the record.<br>- Each tile and each of the seven persisted columns takes the record's entry where the record has one, and keeps the old value beyond it.<br>- A missing colour column gives zeros.<br>- `dx`, `dy` and `timer` become 0.<br>- The count is recomputed from the flags, whatever it was.<br>- Fields, levels, goods and tick are untouched.<br>- A record that does not fit fails and changes nothing. |
| World.LoadFitsSucceeds | services/WorldState.ts:103-113 | When every column of the record fits, the as-written sequence of `set` calls never throws. It writes funds, tiles and every slot from the record. |
| World.LoadSaveRoundTrip | services/WorldState.ts:84-125 | Loading the record `toJSON` produced back into the same world gives that world with only the transient fields zeroed, and the count matches the slots. |
| World.LoadSaveElsewhere | services/WorldState.ts:84-125 | Loading a save into any world with as many cells and slots succeeds and gives exactly the saved tiles, the saved funds and every slot's persisted fields from the saved world, with the transient fields zeroed and a matching count. |
| World.SaveLoadSave | services/WorldState.ts:84-125 | Saving after loading a save gives the same record again. |
| World.LoadAsWrittenPartialWrite | services/WorldState.ts:103-113 | On a 2 x 1 grid with one slot, a record with a two-entry active column makes the load throw. Funds and tiles have already changed by then, and the stale fields no longer match the tiles. |
| FlowField.DistanceIsShortest | services/FlowFieldSystem.ts:36-67 | The reference distance is the sentinel exactly when no path exists. Otherwise it is the length of a shortest orthogonal path through non-Empty cells to a target cell, and at most W*H. |
| FlowField.DistZero | services/FlowFieldSystem.ts:36-41 | The distance is 0 exactly on cells of the target kind. |
| FlowField.DistNeighbor | services/FlowFieldSystem.ts:55-64 | A non-Empty cell is at most one step further than any reachable neighbour. |
| FlowField.EmptyNeverReaches | services/FlowFieldSystem.ts:59 | An Empty cell that is not itself a target never reaches one, because the search does not enter Empty cells. |
| FlowField.BestDir | services/FlowFieldSystem.ts:81-99 | The direction scan returns 0 exactly when no neighbour is strictly closer than the cell. Otherwise it returns an orthogonal direction to an in-bounds neighbour that is strictly closer and nearest of all, with ties going to the first in N, E, S, W order. |
| FlowField.FieldShape | services/FlowFieldSystem.ts:69-102 | Target, unreached and Empty cells get direction 0. Every other cell gets an orthogonal direction to an in-bounds neighbour exactly one step nearer. |
| FlowField.FollowReachesTarget | services/FlowFieldSystem.ts:43-102 | Following the field from any reachable cell stands on a target cell after exactly as many steps as the cell's distance. |
| FlowField.NoTargetNoField | services/FlowFieldSystem.ts:30-74 | On a grid with no cell of the target kind, every direction is 0. |
| FlowFieldSystem.Seed | services/FlowFieldSystem.ts:30-41 | After seeding, exactly the target cells are queued, at distance 0, and the search invariant holds. |
| FlowFieldSystem.Settle | services/FlowFieldSystem.ts:30-67 | The search computes exactly the reference shortest distances. The queue:<br>- holds every reachable cell once and nothing else;<br>- is ordered by distance;<br>- never needs more than W*H slots, so `tail` stays within the buffer. |
| FlowFieldSystem.ScanCell | services/FlowFieldSystem.ts:81-99 | The four-direction scan loop returns the reference direction choice. |
| FlowFieldSystem.Extract | services/FlowFieldSystem.ts:69-102 | The extraction loop produces exactly the reference direction for every cell. |
| FlowFieldSystem.GenerateField | services/FlowFieldSystem.ts:25-103 | The generated field equals the reference field, which depends on the tiles alone. |
| FlowFieldSystem.UpdateFields | services/FlowFieldSystem.ts:19-23 | Afterwards all three fields match the tiles, and nothing else changes. Regenerating already-current fields changes nothing. When the count, the goods and the levels are sound, all engine invariants hold afterwards. |
| Economy.Cost | services/EconomySystem.ts:24-31 | A price is never negative, and only Empty is free. |
| Economy.Deduct | services/EconomySystem.ts:33-40 | Exactly the price leaves the funds, and nothing else changes. |
| Economy.CanAfford | services/EconomySystem.ts:24-31 | A build is affordable exactly when deducting its price leaves the funds non-negative. With non-negative funds below a road's price (10), only Empty is affordable; with negative funds nothing is. |
| Economy.CountBuiltBounds | services/EconomySystem.ts:12-22 | The built-cell count is 0 exactly on an all-Empty grid, and equals the size exactly on a fully built one. |
| Economy.CountBuiltUpdate | services/EconomySystem.ts:15-19 | Changing one cell moves the built count by at most one, in the direction of the change. |
| Economy.ProcessMaintenance | services/EconomySystem.ts:12-22 | The charge is 0.05 times the number of non-Empty cells, at most 0.05 * W*H. Exactly that leaves the funds, and nothing else changes. |
| Agents.FindFreeSlot | services/AgentSystem.ts:27-33 | The scan returns the lowest inactive slot, or -1 exactly when every slot is active. |
| Agents.SpawnAgent | services/AgentSystem.ts:26-50 | The spawn takes the lowest inactive slot; with every slot active nothing changes. The new agent is active, idle at its home cell, with no workplace and the drawn timer and colour. Only that slot and the count change, and the count rises by one exactly when a slot was free, so a matching count stays matching. |
| Agents.SpawnCalls | services/AgentSystem.ts:56-62 | The number of spawn calls is at most the number of homes, and at least one whenever there is a home. |
| Agents.DebugSpawn | services/AgentSystem.ts:53-63 | The loop makes one call per Residential cell in index order until the tally reaches the amount. An amount below 1 still makes one call. The live agents are untouched, and the new agents number the calls capped by the free slots. Each new agent stands on its Residential home. The new agents' homes are distinct and lie among the first min(calls, free) Residential cells, so they are exactly those cells. |
| Agents.SpawnFirstHomes | services/AgentSystem.ts:56-62 | A spawn call at the home with `calls` Residential cells before it keeps the new agents' homes distinct and among the first min(calls + 1, free) homes. |
| Agents.ClearAgents | services/AgentSystem.ts:65-68 | Every slot becomes inactive, the count becomes 0, and the slots keep their other fields. |
| Agents.VisitCell | services/AgentSystem.ts:70-82 | A visit counts one more activity. Below level 3, a count past 10/50/150 raises the level by one and restarts the count at 0. Levels never fall and stay within 0..3. |
| Agents.NextLevel | services/AgentSystem.ts:74-80 | From count a below the top level, exactly threshold + 1 - a visits raise the level. |
| Agents.FreshBuildingLevels | services/AgentSystem.ts:70-82 | A new building reaches level 1 on its 11th visit, level 2 on its 62nd and level 3 on its 213th, and stays at 3 from then on. |
| Agents.LevelUp | services/AgentSystem.ts:70-82 | Only the visited cell's level and count change, and levels stay within 0..3. |
| Agents.Stay | services/AgentSystem.ts:117-141 | A positive timer counts down and nothing else changes. At zero:<br>- Idle sets off to work;<br>- Shopping sets off home;<br>- Working first adds one unit of goods, then heads for a shop exactly when the coin says so and there are goods, else home.<br>The agent does not move. |
| Agents.Arrive | services/AgentSystem.ts:168-191 | Arriving changes state along the cycle without moving, and the timer becomes duration + jitter (200/150/200). The visited cell is levelled up. At work, funds and goods are kept. At a shop, one unit of goods is sold for 30 exactly when goods > 0. At home, funds gain 20. |
| Agents.Move | services/AgentSystem.ts:193-206 | For a direction 1..8 whose target cell is on the grid, the agent moves to that cell, its `dx`/`dy` become the direction's, and one success is counted. For a missing direction, direction 0 or an off-grid target, nothing changes. |
| Agents.Walk | services/AgentSystem.ts:143-206 | An off-road walker on an odd (tick + slot) skips the tick without counting an attempt. Otherwise exactly one attempt is counted. An arrival counts no success. A walker not on its target kind takes its field's step exactly when that step is a direction 1..8 to an on-grid cell, and counts a success; otherwise only the attempt is counted. |
| Agents.Attempt | services/AgentSystem.ts:153-206 | A counted attempt either arrives, with the state changing and the agent not moving, or, off its target kind, takes the field's step exactly as `Move` states, counting a success; when the step is missing, 0 or off the grid, only the attempt is counted. |
| Agents.StepAgent | services/AgentSystem.ts:109-207 | One slot's turn:<br>- Only that slot, the funds, the goods, the visited cell's level and the move counters change.<br>- The state follows the cycle.<br>- Funds only grow, by 20 or 30.<br>- A sale needs goods > 0, and goods grow only when a shift ends.<br>- At most one attempt is counted, and successes never exceed attempts.<br>- An agent on the grid stays on it.<br>- An inactive slot is untouched.<br>- An active walker takes a `Walk`, and any other active agent a `Stay`. |
| Agents.Tick | services/AgentSystem.ts:84-211 | One tick resets the move counters, advances the tick, and gives every slot its turn in index order, each on the world its predecessor left (the fold `TickFrom`). The grid, the fields, the flags and the count are kept. Every state change follows the cycle. Funds never fall and goods stay non-negative. Successes ≤ attempts ≤ active agents. Positions stay in bounds, and all engine invariants are kept. |
| Agents.WalkProgress | services/AgentSystem.ts:153-206 | With current fields, a walker on the grid that moves lands on the grid exactly one step nearer its target kind. |
| App.Refresh | services/FlowFieldSystem.ts:19-23 | Afterwards the three fields match the tiles and nothing else changes. Fields that already match stay as they are. |
| App.Paint | App.tsx:177-202 | An edit changes the city exactly when all of these hold:<br>- (x, y) is on the grid;<br>- the cell is not already the tool's kind;<br>- for a build, the funds cover the price.<br>A change writes only that cell, regenerates the fields, and charges exactly the price for a build and nothing for an erase. Funds never go negative, and all invariants are kept. |
| App.PaintCell | App.tsx:177-202 | The edit with the fields regenerated by the search itself gives exactly the same result as `Paint`. |
| App.PaintIdempotent | App.tsx:185-199 | Painting a cell twice with the same tool is the same as painting it once, so the second edit charges nothing. |
| App.BuildThenErase | App.tsx:185-198 | Building on an Empty cell and erasing it again gives back the same city, fields included, minus the price. |
| App.EditsKeepInvariants | App.tsx:192-198 | Over any run of edits, funds never rise, and funds that start non-negative stay non-negative. Engine invariants that hold at the start hold at the end. Agents and levels are untouched. |
| App.Efficiency | App.tsx:103-105 | With no attempts the figure is 100. Otherwise it is the nearest integer to 100 * successes / attempts, with halves rounded up. It lies in [0, 100] when successes ≤ attempts. |
| App.EfficiencyMonotone | App.tsx:103-105 | More successes never lower the figure. |
| App.EfficiencyExtremes | App.tsx:103-105 | All attempts succeeding gives 100, and none gives 0. |
| App.HandleLoad | App.tsx:225-247 | The corrected half of the finding below, with the checked load. Load reports:<br>- "no saved city", changing nothing, when storage holds nothing;<br>- a corrupt save exactly when the text does not parse or the load fails, and then the city is untouched;<br>- otherwise "loaded", with funds from the record, a matching count and regenerated fields, all invariants kept. |
| App.SaveThenLoad | App.tsx:225-247 | Loading the city's own save reports success and gives back the city with only its transient agent fields reset. |
| App.SaveThenLoadElsewhere | App.tsx:225-247 | Loading one city's save into another of the same size reports success and gives the saved tiles, funds and agents (transient fields reset), with a matching count and fields regenerated for the saved tiles. |
| App.HandleLoadAsWritten | App.tsx:225-247 | The as-written half of the finding below. With the load as written, a throw is reported as a corrupt save, yet the city keeps whatever the load had already written. |
| App.CorruptSaveLeavesStaleFields | App.tsx:229-245 | On the oversized record, the as-written handler reports a corrupt save but leaves fields that no longer match the tiles. The checked load leaves the city untouched. |

## Left out

- Rendering, the React component tree, pointer and wheel handling, the camera and
  `getWorldCoords` are left out. The model's `paint` starts from grid coordinates.
- Browser storage, `alert` and `JSON.parse` are left out. `handleLoad` takes what
  storage held as `App.Stored`: missing, unparsable, or a parsed record.
- `handleSave` and the status-bar `setStats`/`Math.floor` display are left out:
  they are UI only. `toJSON` itself is `World.Save`.
- The particle update and the time-of-day cycle in `update` are left out. They
  are floating point and touch no modelled state.
- The frame loop, the 1000 ms economy timer and the random auto-spawn loop in
  `App.tsx` are left out. They are real-time and random drivers; the operations
  they call are modelled.
- Probabilities are not modelled. Random draws are inputs constrained to their
  ranges.
- Float rounding is not modelled: funds are exact reals.
- Economy.ProcessMaintenance: the charge is exact, with no accumulated
  floating-point error from adding 0.05 per cell.
- App.Efficiency: it rounds the exact rational 100 * successes / attempts,
  not the floating-point product that `Math.round` sees. A percentage whose
  float image falls just below a half would round differently.
- Typed-array coercion is not modelled: wrap-around of out-of-range numbers,
  `NaN` or fractional entries in a saved record.
- JSON shape validation is not modelled. A record is well-typed, and a missing
  `tiles` or agent column is not represented.
- Agent state bytes above 5, which a hand-edited save could hold, are not
  representable. `AgentState` has the six states only.
- `debugSpawn` with a fractional or `NaN` amount is not modelled. The amount
  is an integer.
- Agents.DebugSpawn: the calls, the number of new agents and their homes are
  stated exactly. Which slot each home goes to follows from `Agents.SpawnAgent`
  per call, and is not restated for the whole loop.
- `goods`, `tileLevels`, `tileActivity` and `flowToShop` start at 0.
  `WorldState.ts` never initialises them, so in that file as it stands `goods`
  starts `undefined` and `goods++` makes it `NaN`.
- `spatialLookup` is declared but never used by the modelled code, so lane
  discipline and occupancy are not modelled.
- Performance (typed-array layout, reuse of the distance and queue buffers) is not
  modelled. The model's search allocates fresh sequences.

## Findings

| source | as written | input that shows it | evidently intended | confidence | as-written member | corrected member |
|---|---|---|---|---|---|---|
| services/WorldState.ts:103-113 | `loadFromJSON` assigns the funds and `set`s the tiles before it `set`s the agent columns. A column longer than its typed array makes `set` throw a RangeError after those writes. `handleLoad` then skips `updateFields` and reports a corrupt save. | 2 x 1 grid, one agent slot; record with tiles [Industrial, Road], funds 5 and an active column of two entries | A rejected save leaves the city as it was, with fields that match its tiles | not executed | World.LoadAsWritten and App.HandleLoadAsWritten, exhibited by World.LoadAsWrittenPartialWrite and App.CorruptSaveLeavesStaleFields | World.LoadChecked and App.HandleLoad |
