# Wa-Tor in Dafny

A model of the tick engine of `wator.go`, a Wa-Tor predator–prey simulation on a toroidal
grid. Each cell is empty (0), a fish (1) or a shark (2). Each agent carries a breed timer,
and a shark also carries a starve timer. One call of `update` does four things:

- It clears the next-state buffers and clamps the worker count to the grid width.
- It splits the grid into `tileCols × tileRows` tiles.
- It gives every agent in the current grid one turn, tile by tile and column by column.
  - A fish moves to the first free neighbour in a shuffled direction order, breeding when
    its timer has run out, or stays put.
  - A shark first tries to eat a neighbouring fish, then tries to move, then stays or
    starves.
  - Every write into the buffers is guarded by the mutexes of the two tiles involved. They
    are taken in one global tile order and released in reverse.
- It swaps the grid and its timers with the buffers.

`countFish` counts the fish. `initWorld` clears the grid and places `numFish` fish and
`numShark` sharks on random empty cells, redrawing on collisions.

The model is one sequential worker running the tiles in the order the loops launch them.

| module (file) | models |
|---|---|
| `Planes` (`planes.dfy`) | the `[width][height]` arrays as planes of integers, and cell counting |
| `Geometry` (`geometry.dfy`) | toroidal wrap, Go's truncating division, `int(math.Sqrt(...))`, and the tile layout |
| `Locks` (`locks.dfy`) | `lockTwo` / `unlockTwo` as lock-event sequences, and the lock-order discipline |
| `Agents` (`agents.dfy`) | the fish and shark rules on the value-level world (grid plus buffers) |
| `AgentFacts` (`agent_facts.dfy`) | what one turn guarantees (claims, rules, timers, locks) |
| `Visit` (`visit.dfy`) | the order in which cells are visited, and the loops as a fold of one turn over that order |
| `Ticks` (`tick.dfy`) | one whole tick as a value, and its properties |
| `Seeding` (`seeding.dfy`) | `initWorld`'s placement loops with their retry-on-collision rule |
| `Simulation` (`world.dfy`) | class `Ocean`: the six arrays and the `update`, `countFish` and `initWorld` methods |

The source's own nondeterminism becomes input:
- `Update` takes `orders[x][y]`, the shuffled direction list of the agent at `(x, y)`.
- It returns the lock events it issued.
- `InitWorld` takes the sequence of random cell draws.

Two behaviours of the source are modelled as written, not corrected:
- **Eaten fish lose their turn.** A shark that eats a fish clears that fish from the grid
  being read, so the fish gets no turn if its cell comes later in the visit order
  (`AgentFacts.EatenFishLosesTurn`).
- **A fish can be moved and eaten.** A fish that has already moved is still a fish in the
  read grid, and its old cell is unclaimed in the buffer. A shark visited later can eat it
  there, and the moved copy survives (`AgentFacts.MovedFishStillEdible`).

The code comment at `wator.go:256` states the first behaviour as intended.

## Model

| member | source | states |
|---|---|---|
| Geometry.ShuffleSteps | wator.go:170-173 | any permutation of the four listed offsets contains only unit steps |
| Geometry.Wrap | wator.go:179-180 | the wrapped coordinate is in range; it is unchanged inside the grid, and stepping past either edge re-enters at the opposite edge |
| Geometry.Neighbor | wator.go:179-180 | the neighbour of a grid cell is a grid cell |
| Geometry.WrapEdges | wator.go:179-180 | each of the four edges wraps to the opposite edge, keeping the other coordinate |
| Geometry.Quot | wator.go:98-104 | Go's `/` on `int` truncates toward zero: for a non-negative numerator `q*b <= a < q*b + b`, for a negative one `q*b - b < a <= q*b` |
| Geometry.ISqrt | wator.go:94 | the integer floor square root: `r*r <= n < (r+1)*(r+1)`, and 0 for a non-positive count |
| Geometry.ClampThreads | wator.go:88-91 | the clamped count is at most the width and the original, and equals the original when that is at most the width |
| Geometry.TileCount | wator.go:93-101 | `tileCols >= 1`, `tileRows >= 1`, and `tileCols * tileRows >= threads` |
| Geometry.TileIndex | wator.go:182-185 | every grid cell maps to a `tileMutex` index in range |
| Geometry.TileSizing | wator.go:88-104 | after clamping: at least as many tiles as workers, the tiles span the grid, `tileW` and `tileH` are exact ceilings (one less would not cover the grid), every cell's tile index is in range |
| Geometry.TileInside | wator.go:147-160 | a tile that is not skipped lies inside the grid and has positive area |
| Geometry.TileMembership | wator.go:147-157 | a cell lies in tile `(tx, ty)` exactly when `(x / tileW, y / tileH) == (tx, ty)` |
| Geometry.TileLayout | wator.go:144-160 | tiles partition the grid: each kept tile is inside it, membership is iff the tile index, each cell's tile is in range and not skipped |
| Locks.TileIdInjective | wator.go:114-115 | `tx * tileRows + ty` is injective on tiles with in-range rows, so the lock order is total |
| Locks.LockTwoOrder | wator.go:113-127 | `lockTwo` issues only locks: one when the ids agree, else both tiles in increasing id order, and exactly `{a, b}` |
| Locks.UnlockTwoReverses | wator.go:128-142 | `unlockTwo` releases exactly what `lockTwo` took, in reverse order |
| Locks.DisciplinedAppend | wator.go:113-142 | sequences that each obey the lock discipline obey it when concatenated |
| Locks.SectionDisciplined | wator.go:186-207 | one neighbour attempt obeys the discipline, and while it is inside, both source and destination tiles are held |
| Locks.SoleSectionDisciplined | wator.go:214-226 | the lock/unlock around a stay-in-place write obeys the discipline |
| Agents.FirstOpen | wator.go:178-212 | the first direction index whose neighbour is `want` in the grid and free in the buffer, or 4 if none |
| AgentFacts.FirstOpenIs | wator.go:178-212 | the scan stops exactly at the first open direction |
| AgentFacts.FishMoves | wator.go:190-205 | a fish with a free neighbour goes to the first one; it arrives with the decremented timer, or when breeding with a reset timer plus a reset newborn at an unclaimed source; nothing else changes |
| AgentFacts.FishStays | wator.go:214-227 | a fish with no free neighbour stays with its timer decremented and clamped at 0, only if its source is unclaimed; nothing else changes |
| AgentFacts.SharkEats | wator.go:240-281 | a shark next to an unclaimed fish eats the first one: the fish leaves the read grid, the shark arrives with a reset starve timer, breeding as a fish does |
| AgentFacts.SharkMoves | wator.go:284-326 | with no fish beside it, a shark at a free neighbour dies when starved (nothing written); otherwise it moves there with the decremented starve timer, breeding as a fish does |
| AgentFacts.SharkStays | wator.go:328-346 | with no fish and no free cell, a shark dies when starved, or else stays with clamped timers if its source is unclaimed |
| AgentFacts.StepKeepsClaims | wator.go:190-342 | first claim wins: no turn changes a buffer cell (or its timers) that is already claimed |
| AgentFacts.RestingAfterChange | wator.go:190-342 | a turn that changes the buffer at most at two cells, and leaves both sane, keeps every buffer cell sane (0/1/2, non-negative timers, zero timers on empty cells, zero starve timer on fish) |
| AgentFacts.FishKeepsResting | wator.go:169-227 | with positive settings, a fish turn keeps every buffer cell sane, whatever timers it reads |
| AgentFacts.SharkKeepsResting | wator.go:230-346 | with positive settings, a shark turn keeps every buffer cell sane, whatever timers it reads |
| AgentFacts.StepKeepsResting | wator.go:169-346 | any turn with positive settings keeps the buffer sane and leaves the grid's cells in 0/1/2 |
| AgentFacts.AttemptsDisciplined | wator.go:178-212 | any prefix of the neighbour attempts obeys the lock discipline |
| AgentFacts.CellTraceDisciplined | wator.go:169-346 | the lock events of one turn obey the lock discipline |
| AgentFacts.EatenFishLosesTurn | wator.go:253-257 | after a shark eats the fish at `d`, the later visit of `d` changes nothing |
| AgentFacts.MovedFishStillEdible | wator.go:190-203 | after a non-breeding fish moves, its destination holds a fish and its old cell is still open for a shark to eat |
| Visit.TilesFromOccurrences | wator.go:145-167 | from tile `(tx, ty)` on, the tile loops visit a grid cell once when its own tile is still ahead and never otherwise |
| Visit.VisitOrderExactlyOnce | wator.go:144-167 | for every worker count, the tile and cell loops visit every grid cell exactly once |
| Visit.SkippedTileEmpty | wator.go:158-160 | a skipped tile contains no cells |
| Visit.StepsConcat | wator.go:166-167 | the turns and events of a concatenated visit order compose |
| Visit.ColumnRunSteps | wator.go:167 | the `y` loop takes the turns of its column's cells in order |
| Visit.RectRunSteps | wator.go:166-167 | the `x` loop takes the turns of the tile's columns in order |
| Visit.TilesRunSteps | wator.go:145-160 | the tile loops, skipping empty tiles, take the turns of the visit order in order |
| Ticks.BuiltSteps | wator.go:145-354 | the buffers a tick builds are the turns applied one after another in visit order |
| Ticks.TickLayout | wator.go:93-104 | the layout `update` computes spans the grid with positive tile sizes |
| Ticks.StepsKeepClaims | wator.go:190-342 | across any run of turns, a buffer cell claimed when the run began is never touched |
| Ticks.StepsKeepResting | wator.go:169-346 | any run of turns keeps the buffer sane and the grid in 0/1/2 |
| Ticks.EventsDisciplined | wator.go:106-142 | the lock events of any run of turns obey the lock discipline |
| Ticks.TickVisitsEachCellOnce | wator.go:144-350 | the tile loops equal the turns over the visit order, and that order contains every grid cell exactly once |
| Ticks.TurnIsStep | wator.go:166-170 | within the grid, each turn of the fold is that cell's agent turn with its own shuffled order, and its events are that turn's lock events |
| Ticks.TickClaimsStick | wator.go:190-342 | once the first `n` turns of a tick have claimed a buffer cell, the rest of the tick leaves it alone |
| Ticks.TickResting | wator.go:76-370 | with positive settings and a grid of 0/1/2, the new grid holds only 0/1/2 with non-negative timers and zero timers on empty cells |
| Ticks.TickDisciplined | wator.go:106-350 | all lock events of a tick obey the global-order, last-in-first-out discipline |
| Seeding.Populate | wator.go:428-439 | a placement loop places at most `n` agents, and fewer only when the draws ran out |
| Seeding.PopulateCounts | wator.go:428-452 | a placement loop adds exactly `placed` cells of its kind, removes `placed` empty cells, and leaves the other counts unchanged |
| Seeding.PopulateSeeds | wator.go:428-452 | a placement loop fills only empty cells, leaves occupied cells and their timers alone, and gives each new agent its kind's timers |
| Seeding.InitialGrid | wator.go:418-452 | at most `numFish` fish and `numShark` sharks are placed |
| Seeding.InitialGridCounts | wator.go:418-452 | the seeded grid has exactly the placed fish and sharks and every other cell empty; with enough draws, that is `numFish` and `numShark` |
| Seeding.InitialGridCells | wator.go:418-452 | every cell is empty with zero timers, a fish with `fishBreed`, or a shark with `sharkBreed` and `sharkStarve`; so cells are 0/1/2 and timers are sane |
| Simulation.ZeroPlanes | wator.go:77-84 | the nested loop leaves all three arrays filled with zeros |
| Simulation.Ocean.constructor | wator.go:24-45 | six distinct fresh zero arrays of the given size, with the given settings |
| Simulation.Ocean.ClearBuffers | wator.go:77-84 | the buffers become zero and the grid is unchanged |
| Simulation.Ocean.ClearGrid | wator.go:420-426 | the grid and its timers become zero and the buffers are unchanged |
| Simulation.Ocean.WriteFish | wator.go:197-198 | writes one fish into the buffer and nothing else |
| Simulation.Ocean.WriteShark | wator.go:261-267 | writes one shark into the buffer and nothing else |
| Simulation.Ocean.IsOpen | wator.go:190 | the check under the two locks is exactly `Open` on the state |
| Simulation.Ocean.FishArrive | wator.go:191-203 | the writes of a fish move are `FishMove` on the state |
| Simulation.Ocean.FishAttempt | wator.go:179-207 | one neighbour attempt moves exactly when that neighbour is open, and is then `FishMove`; its events are `lockTwo` then `unlockTwo` of the source and destination tiles |
| Simulation.Ocean.FishScan | wator.go:178-212 | the neighbour loop moves the fish to the first open neighbour and stops there; with none open the state is unchanged and all four attempts are issued |
| Simulation.Ocean.FishRemain | wator.go:214-227 | the stay-in-place write is `FishStay` on the state |
| Simulation.Ocean.FishTurn | wator.go:169-227 | a fish turn on the arrays is `FishStep` on the state, with lock events `FishTrace` |
| Simulation.Ocean.SharkFeed | wator.go:254-273 | the writes of eating are `SharkEat`: the fish is cleared from the grid and the shark written into the buffer |
| Simulation.Ocean.SharkEatAttempt | wator.go:242-276 | one eat attempt eats exactly when the neighbour is an unclaimed fish, and is then `SharkEat`; its events are `lockTwo` then `unlockTwo` of the two tiles |
| Simulation.Ocean.EatPass | wator.go:240-281 | the eat pass eats at the first open fish, and reports no meal and leaves the state unchanged when there is none |
| Simulation.Ocean.SharkMoveAttempt | wator.go:286-320 | one move attempt is handled exactly when the neighbour is free, and is then `SharkMove`; its events are `lockTwo` then `unlockTwo` of the two tiles |
| Simulation.Ocean.MovePass | wator.go:284-326 | the move pass handles the first free neighbour, and leaves the state unchanged when there is none |
| Simulation.Ocean.SharkRemain | wator.go:334-345 | the stay-in-place write of a surviving shark is `SharkStay` |
| Simulation.Ocean.SharkTurn | wator.go:230-346 | a shark turn on the arrays is `SharkStep` on the state, with lock events `SharkTrace` |
| Simulation.Ocean.Turn | wator.go:169-347 | the turn at a cell is `StepCell` on the state, with lock events `CellTrace` |
| Simulation.Ocean.RunColumn | wator.go:167-348 | the `y` loop is `ColumnRun` of the turns, with its events |
| Simulation.Ocean.RunTile | wator.go:166-349 | the `x` loop is `RectRun` of the turns, with its events |
| Simulation.Ocean.TileNext | wator.go:147-350 | one round of the `ty` loop: the tile clipped to the grid (`TileRect`) is run, or skipped when empty, which advances the tile walk `TilesRun` and its events by exactly one tile |
| Simulation.Ocean.RunTileColumn | wator.go:146-351 | the `ty` loop runs the tiles of column `tx` top to bottom, leaving the tile walk to resume at column `tx + 1` |
| Simulation.Ocean.RunTiles | wator.go:145-352 | the tile loops are `TilesRun` of the turns, with events `TilesEvents` |
| Simulation.Ocean.ComputeLayout | wator.go:93-104 | the tile grid `update` computes is `LayoutFor` the clamped worker count (square root with fallback 1, ceiling divisions) |
| Simulation.Ocean.SwapBuffers | wator.go:356-367 | the built buffers become the grid and its timers, and the old grid and timers become the buffers |
| Simulation.Ocean.Update | wator.go:76-370 | `update`: threads is clamped; the new state is `Tick` (grid = built buffers, buffers = old grid with eaten fish cleared); events are `TickTrace` |
| Simulation.Ocean.CountFish | wator.go:56-66 | `countFish` returns the number of grid cells holding a fish |
| Simulation.Ocean.Seed | wator.go:432-435 | places one agent of the given kind with its initial timers in the grid, and nothing else |
| Simulation.Ocean.Draw | wator.go:430-438 | a drawn cell takes the agent exactly when it is empty, and otherwise nothing changes |
| Simulation.Ocean.PlaceAgents | wator.go:428-439 | one placement loop with the `i--` retry is `Populate` of the draws; returns the unused draws and the count placed |
| Simulation.Ocean.InitWorld | wator.go:418-452 | `initWorld`: the grid becomes `InitialGrid` of the draws, buffers unchanged; `ok` says that all agents were placed |

Properties of `update` that follow from these, spelled out:
- **Visits every cell once.** Every grid cell is visited exactly once per tick
  (`Ticks.TickVisitsEachCellOnce`, `Visit.VisitOrderExactlyOnce`).
- **First claim wins.** A claimed buffer cell is never overwritten for the rest of the tick
  (`Ticks.TickClaimsStick`).
- **Timers stay sane.**
  - Timers never go negative, and empty cells carry zero timers (`Ticks.TickResting`).
  - `initWorld` produces such a grid (`Seeding.InitialGridCells`).
- **Deadlock-free locking.** Every lock sequence follows one global lock order and releases
  last-in first-out (`Ticks.TickDisciplined`).
- **The swap.** After the swap, the grid is the built buffer (`Simulation.Ocean.Update`
  with `Ticks.Tick`).

## Left out

- Goroutines, the `sync.WaitGroup` and real mutexes are not modelled.
  - Tiles run one after another in launch order, by one worker.
  - Mutex operations are recorded as lock events.
  - Interleavings of parallel workers are not modelled. With more than one worker, the
    source's outcome depends on scheduling.
- `rand.Shuffle` and `rand.Intn` are not modelled; their results are inputs. The per-cell
  direction orders are any permutation of the four offsets. The draws are any sequence of
  in-grid cells.
- `Simulation.Ocean.InitWorld`: when the draws run out, it returns `ok == false`. Go would
  keep drawing until every agent is placed, and loops forever when the agents do not fit.
- `Geometry.ISqrt`: `int(math.Sqrt(float64(threads)))` is modelled as the exact integer
  floor square root. For non-positive worker counts the model uses 0, which the code's
  guard turns into 1. Floating-point rounding is not modelled.
- `width` and `height` are constructor parameters; in the source they are the constant 400.
  The settings `numFish`, `numShark`, `fishBreed`, `sharkBreed`, `sharkStarve` and `threads`
  are constructor parameters too. In the source they are globals with the defaults 10000,
  4000, 3, 8, 3 and 4.
- The grid is modelled as `int`, where the source uses `uint8`. It only ever holds 0, 1 and
  2 (`Ticks.TickResting`, `Seeding.InitialGridCells`), so no truncation arises.
- The buffer swap copies whole Go arrays; the model swaps array references. The resulting
  contents are the same (`Simulation.Ocean.Update`).
- `update`'s `error` result is not modelled; it is always `nil`.
- Display, `frame`, the ebiten game loop, `main`, the benchmarks and `count` are not modelled.
  They are I/O and timing outside the simulation core.
