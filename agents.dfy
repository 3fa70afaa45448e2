/** The per-cell decision rules of one tick: how a fish and a shark read the current
    generation and claim cells of the next one. */
module Agents {
  import opened Planes
  import opened Geometry
  import opened Locks

  /** Grid values: 0 empty, 1 fish, 2 shark. */
  const EmptyCell := 0
  const FishCell := 1
  const SharkCell := 2

  /** One generation: `grid`, `breedTimer`, `starveTimer` (or the three buffers). */
  datatype Generation = Generation(cells: Plane, breed: Plane, starve: Plane)

  /** The state a tick works on: the current generation it reads (and, when a shark
      eats, changes) and the next generation it builds in the buffers. */
  datatype World = World(current: Generation, next: Generation)

  /** The grid size and the simulation's timer settings. */
  datatype Params = Params(width: int, height: int, fishBreed: int, sharkBreed: int, sharkStarve: int)

  predicate GenShaped(g: Generation, w: int, h: int) {
    Shaped(g.cells, w, h) && Shaped(g.breed, w, h) && Shaped(g.starve, w, h)
  }

  predicate Sized(s: World, p: Params) {
    p.width > 0 && p.height > 0 && GenShaped(s.current, p.width, p.height) && GenShaped(s.next, p.width, p.height)
  }

  /** Four unit steps, as every shuffled direction list is (see `ShuffleSteps`). */
  predicate UnitSteps(order: seq<Offset>) {
    |order| == 4 && forall k :: 0 <= k < 4 ==> -1 <= order[k].0 <= 1 && -1 <= order[k].1 <= 1
  }

  function Nb(x: int, y: int, order: seq<Offset>, k: int, p: Params): (c: (int, int))
    requires 0 <= x < p.width && 0 <= y < p.height && UnitSteps(order) && 0 <= k < 4
    ensures 0 <= c.0 < p.width && 0 <= c.1 < p.height
  {
    Neighbor(x, y, order[k], p.width, p.height)
  }

  /** The cell is `want` in the current generation and still unclaimed in the next. */
  predicate Open(s: World, p: Params, c: (int, int), want: int)
    requires Sized(s, p) && 0 <= c.0 < p.width && 0 <= c.1 < p.height
  {
    s.current.cells[c.0][c.1] == want && s.next.cells[c.0][c.1] == EmptyCell
  }

  /** The first position from `from` on whose neighbour is open for `want`, or 4. */
  function FirstOpen(s: World, p: Params, x: int, y: int, order: seq<Offset>, want: int, from: int): (k: int)
    requires Sized(s, p) && 0 <= x < p.width && 0 <= y < p.height && UnitSteps(order) && 0 <= from <= 4
    ensures from <= k <= 4
    ensures k < 4 ==> Open(s, p, Nb(x, y, order, k, p), want)
    ensures forall j :: from <= j < k ==> !Open(s, p, Nb(x, y, order, j, p), want)
    decreases 4 - from
  {
    if from == 4 then 4
    else if Open(s, p, Nb(x, y, order, from, p), want) then from
    else FirstOpen(s, p, x, y, order, want, from + 1)
  }

  function PutFish(g: Generation, x: int, y: int, breed: int, w: int, h: int): (r: Generation)
    requires GenShaped(g, w, h) && 0 <= x < w && 0 <= y < h
    ensures GenShaped(r, w, h)
  {
    g.(cells := Put(g.cells, x, y, FishCell), breed := Put(g.breed, x, y, breed))
  }

  function PutShark(g: Generation, x: int, y: int, breed: int, starve: int, w: int, h: int): (r: Generation)
    requires GenShaped(g, w, h) && 0 <= x < w && 0 <= y < h
    ensures GenShaped(r, w, h)
  {
    Generation(Put(g.cells, x, y, SharkCell), Put(g.breed, x, y, breed), Put(g.starve, x, y, starve))
  }

  /** `if v < 0 { v = 0 }`. */
  function NonNeg(v: int): int {
    if v < 0 then 0 else v
  }

  /** A fish from `(x, y)` arriving at the free cell `d` with decremented breed timer `b`:
      it breeds when `b` has run out, leaving a newborn at an unclaimed source. */
  function FishMove(s: World, p: Params, x: int, y: int, d: (int, int), b: int): (r: World)
    requires Sized(s, p) && 0 <= x < p.width && 0 <= y < p.height && 0 <= d.0 < p.width && 0 <= d.1 < p.height
    ensures Sized(r, p)
  {
    var w, h := p.width, p.height;
    if b <= 0 then
      var n1 := if s.next.cells[x][y] == EmptyCell then PutFish(s.next, x, y, p.fishBreed, w, h) else s.next;
      s.(next := PutFish(n1, d.0, d.1, p.fishBreed, w, h))
    else
      s.(next := PutFish(s.next, d.0, d.1, b, w, h))
  }

  /** A fish that found no free neighbour stays, if its source cell is still unclaimed. */
  function FishStay(s: World, p: Params, x: int, y: int, b: int): (r: World)
    requires Sized(s, p) && 0 <= x < p.width && 0 <= y < p.height
    ensures Sized(r, p)
  {
    if s.next.cells[x][y] == EmptyCell then s.(next := PutFish(s.next, x, y, NonNeg(b), p.width, p.height))
    else s
  }

  /** One fish turn at `(x, y)` with direction order `order`. */
  function FishStep(s: World, p: Params, x: int, y: int, order: seq<Offset>): (r: World)
    requires Sized(s, p) && 0 <= x < p.width && 0 <= y < p.height && UnitSteps(order)
    ensures Sized(r, p)
  {
    var newBreed := s.current.breed[x][y] - 1;
    var k := FirstOpen(s, p, x, y, order, EmptyCell, 0);
    if k < 4 then FishMove(s, p, x, y, Nb(x, y, order, k, p), newBreed)
    else FishStay(s, p, x, y, newBreed)
  }

  /** A shark from `(x, y)` eating the fish at `d`: the fish leaves the current grid and the
      shark arrives with a reset starve timer, breeding as a fish does. */
  function SharkEat(s: World, p: Params, x: int, y: int, d: (int, int), b: int): (r: World)
    requires Sized(s, p) && 0 <= x < p.width && 0 <= y < p.height && 0 <= d.0 < p.width && 0 <= d.1 < p.height
    ensures Sized(r, p)
  {
    var w, h := p.width, p.height;
    var eaten := s.current.(cells := Put(s.current.cells, d.0, d.1, EmptyCell));
    if b <= 0 then
      var n1 := if s.next.cells[x][y] == EmptyCell then PutShark(s.next, x, y, p.sharkBreed, p.sharkStarve, w, h) else s.next;
      World(eaten, PutShark(n1, d.0, d.1, p.sharkBreed, p.sharkStarve, w, h))
    else
      World(eaten, PutShark(s.next, d.0, d.1, b, p.sharkStarve, w, h))
  }

  /** A shark from `(x, y)` at the first free cell `d` with decremented timers `b` and `st`:
      it dies there when `st` has run out, and otherwise moves, breeding as a fish does. */
  function SharkMove(s: World, p: Params, x: int, y: int, d: (int, int), b: int, st: int): (r: World)
    requires Sized(s, p) && 0 <= x < p.width && 0 <= y < p.height && 0 <= d.0 < p.width && 0 <= d.1 < p.height
    ensures Sized(r, p)
  {
    var w, h := p.width, p.height;
    if st <= 0 then s
    else if b <= 0 then
      var n1 := if s.next.cells[x][y] == EmptyCell then PutShark(s.next, x, y, p.sharkBreed, p.sharkStarve, w, h) else s.next;
      s.(next := PutShark(n1, d.0, d.1, p.sharkBreed, st, w, h))
    else
      s.(next := PutShark(s.next, d.0, d.1, b, st, w, h))
  }

  /** A shark with neither a fish nor a free cell beside it: it dies when `st` has run out,
      and otherwise stays, if its source cell is still unclaimed. */
  function SharkStay(s: World, p: Params, x: int, y: int, b: int, st: int): (r: World)
    requires Sized(s, p) && 0 <= x < p.width && 0 <= y < p.height
    ensures Sized(r, p)
  {
    if st <= 0 then s
    else if s.next.cells[x][y] == EmptyCell then s.(next := PutShark(s.next, x, y, NonNeg(b), st, p.width, p.height))
    else s
  }

  /** One shark turn at `(x, y)`: the eat pass, then the move pass, then stay or starve. */
  function SharkStep(s: World, p: Params, x: int, y: int, order: seq<Offset>): (r: World)
    requires Sized(s, p) && 0 <= x < p.width && 0 <= y < p.height && UnitSteps(order)
    ensures Sized(r, p)
  {
    var newBreed := s.current.breed[x][y] - 1;
    var newStarve := s.current.starve[x][y] - 1;
    var e := FirstOpen(s, p, x, y, order, FishCell, 0);
    if e < 4 then SharkEat(s, p, x, y, Nb(x, y, order, e, p), newBreed)
    else
      var k := FirstOpen(s, p, x, y, order, EmptyCell, 0);
      if k < 4 then SharkMove(s, p, x, y, Nb(x, y, order, k, p), newBreed, newStarve)
      else SharkStay(s, p, x, y, newBreed, newStarve)
  }

  /** The turn of whatever the current generation holds at `(x, y)` when it is visited. */
  function StepCell(s: World, p: Params, x: int, y: int, order: seq<Offset>): (r: World)
    requires Sized(s, p) && 0 <= x < p.width && 0 <= y < p.height && UnitSteps(order)
    ensures Sized(r, p)
  {
    if s.current.cells[x][y] == FishCell then FishStep(s, p, x, y, order)
    else if s.current.cells[x][y] == SharkCell then SharkStep(s, p, x, y, order)
    else s
  }

  /** Lock events of the first `n` neighbour attempts of the agent at `(x, y)`. */
  function Attempts(x: int, y: int, order: seq<Offset>, p: Params, L: Layout, n: int): seq<LockEvent>
    requires p.width > 0 && p.height > 0 && Spans(L, p.width, p.height)
    requires 0 <= x < p.width && 0 <= y < p.height && UnitSteps(order) && 0 <= n <= 4
  {
    if n == 0 then []
    else
      var d := Nb(x, y, order, n - 1, p);
      Attempts(x, y, order, p, L, n - 1) + Section(TileOf(x, y, L), TileOf(d.0, d.1, L), L.rows)
  }

  function FishTrace(s: World, p: Params, L: Layout, x: int, y: int, order: seq<Offset>): seq<LockEvent>
    requires Sized(s, p) && Spans(L, p.width, p.height)
    requires 0 <= x < p.width && 0 <= y < p.height && UnitSteps(order)
  {
    var k := FirstOpen(s, p, x, y, order, EmptyCell, 0);
    if k < 4 then Attempts(x, y, order, p, L, k + 1)
    else Attempts(x, y, order, p, L, 4) + SoleSection(TileOf(x, y, L))
  }

  function SharkTrace(s: World, p: Params, L: Layout, x: int, y: int, order: seq<Offset>): seq<LockEvent>
    requires Sized(s, p) && Spans(L, p.width, p.height)
    requires 0 <= x < p.width && 0 <= y < p.height && UnitSteps(order)
  {
    var e := FirstOpen(s, p, x, y, order, FishCell, 0);
    if e < 4 then Attempts(x, y, order, p, L, e + 1)
    else
      var k := FirstOpen(s, p, x, y, order, EmptyCell, 0);
      var eatPass := Attempts(x, y, order, p, L, 4);
      if k < 4 then eatPass + Attempts(x, y, order, p, L, k + 1)
      else if s.current.starve[x][y] - 1 <= 0 then eatPass + Attempts(x, y, order, p, L, 4)
      else eatPass + Attempts(x, y, order, p, L, 4) + SoleSection(TileOf(x, y, L))
  }

  /** The lock events of the turn taken at `(x, y)`. */
  function CellTrace(s: World, p: Params, L: Layout, x: int, y: int, order: seq<Offset>): seq<LockEvent>
    requires Sized(s, p) && Spans(L, p.width, p.height)
    requires 0 <= x < p.width && 0 <= y < p.height && UnitSteps(order)
  {
    if s.current.cells[x][y] == FishCell then FishTrace(s, p, L, x, y, order)
    else if s.current.cells[x][y] == SharkCell then SharkTrace(s, p, L, x, y, order)
    else []
  }
}
