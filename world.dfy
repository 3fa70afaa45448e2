/** The simulation state of `wator.go` as an object: the six `[width][height]` arrays,
    the settings, and the operations `update`, `countFish` and `initWorld` as methods
    that change the arrays in place. */
module Simulation {
  import opened Planes
  import opened Geometry
  import opened Locks
  import opened Agents
  import opened AgentFacts
  import opened Visit
  import opened Ticks
  import opened Seeding

  /** A fresh `w` by `h` array of zeros, as a Go array starts. */
  method Zeros(w: int, h: int) returns (a: array2<int>)
    requires w > 0 && h > 0
    ensures fresh(a) && a.Length0 == w && a.Length1 == h
    ensures PlaneOf(a) == Filled(w, h, 0)
  {
    a := new int[w, h]((_, _) => 0);
    Extensional(PlaneOf(a), Filled(w, h, 0), w, h);
  }

  /** `for x { for y { a[x][y] = 0; b[x][y] = 0; c[x][y] = 0 } }` over three distinct
      arrays of one size. */
  method ZeroPlanes(a: array2<int>, b: array2<int>, c: array2<int>)
    requires a != b && a != c && b != c
    requires b.Length0 == a.Length0 && c.Length0 == a.Length0
    requires b.Length1 == a.Length1 && c.Length1 == a.Length1
    modifies a, b, c
    ensures PlaneOf(a) == Filled(a.Length0, a.Length1, 0)
    ensures PlaneOf(b) == Filled(a.Length0, a.Length1, 0)
    ensures PlaneOf(c) == Filled(a.Length0, a.Length1, 0)
  {
    var w, h := a.Length0, a.Length1;
    var x := 0;
    while x < w
      invariant 0 <= x <= w
      invariant forall i, j :: 0 <= i < x && 0 <= j < h ==> a[i, j] == 0 && b[i, j] == 0 && c[i, j] == 0
    {
      var y := 0;
      while y < h
        invariant 0 <= y <= h
        invariant forall i, j :: 0 <= i < x && 0 <= j < h ==> a[i, j] == 0 && b[i, j] == 0 && c[i, j] == 0
        invariant forall j :: 0 <= j < y ==> a[x, j] == 0 && b[x, j] == 0 && c[x, j] == 0
      {
        a[x, y] := 0;
        b[x, y] := 0;
        c[x, y] := 0;
        y := y + 1;
      }
      x := x + 1;
    }
    Extensional(PlaneOf(a), Filled(w, h, 0), w, h);
    Extensional(PlaneOf(b), Filled(w, h, 0), w, h);
    Extensional(PlaneOf(c), Filled(w, h, 0), w, h);
  }

  class Ocean {
    const width: int
    const height: int
    const numFish: int
    const numShark: int
    const fishBreed: int
    const sharkBreed: int
    const sharkStarve: int
    /** The worker count; `update` clamps it to `width`. */
    var threads: int

    var grid: array2<int>
    var breedTimer: array2<int>
    var starveTimer: array2<int>
    var buffer: array2<int>
    var bufferBreed: array2<int>
    var bufferStarve: array2<int>

    /** Six distinct `width` by `height` arrays. */
    ghost predicate Valid()
      reads this
    {
      Shapes() && Apart()
    }

    /** Every array is `width` by `height`. */
    ghost predicate Shapes()
      reads this
    {
      && width > 0 && height > 0
      && grid.Length0 == width && grid.Length1 == height
      && breedTimer.Length0 == width && breedTimer.Length1 == height
      && starveTimer.Length0 == width && starveTimer.Length1 == height
      && buffer.Length0 == width && buffer.Length1 == height
      && bufferBreed.Length0 == width && bufferBreed.Length1 == height
      && bufferStarve.Length0 == width && bufferStarve.Length1 == height
    }

    /** The six arrays are six different objects. */
    ghost predicate Apart()
      reads this
    {
      && grid != breedTimer && grid != starveTimer && grid != buffer && grid != bufferBreed && grid != bufferStarve
      && breedTimer != starveTimer && breedTimer != buffer && breedTimer != bufferBreed && breedTimer != bufferStarve
      && starveTimer != buffer && starveTimer != bufferBreed && starveTimer != bufferStarve
      && buffer != bufferBreed && buffer != bufferStarve
      && bufferBreed != bufferStarve
    }

    function Config(): Params
      reads this
    {
      Params(width, height, fishBreed, sharkBreed, sharkStarve)
    }

    /** The arrays as a value: the grid and its timers, then the buffers. */
    ghost function State(): (s: World)
      reads this, grid, breedTimer, starveTimer, buffer, bufferBreed, bufferStarve
      ensures Valid() ==> Sized(s, Config())
    {
      World(Generation(PlaneOf(grid), PlaneOf(breedTimer), PlaneOf(starveTimer)),
            Generation(PlaneOf(buffer), PlaneOf(bufferBreed), PlaneOf(bufferStarve)))
    }

    /** The globals' zero values, with the given size and settings. */
    constructor (width: int, height: int, numFish: int, numShark: int,
                 fishBreed: int, sharkBreed: int, sharkStarve: int, threads: int)
      requires width > 0 && height > 0
      ensures Valid() && fresh(grid) && fresh(breedTimer) && fresh(starveTimer)
      ensures fresh(buffer) && fresh(bufferBreed) && fresh(bufferStarve)
      ensures Config() == Params(width, height, fishBreed, sharkBreed, sharkStarve)
      ensures this.numFish == numFish && this.numShark == numShark && this.threads == threads
      ensures State() == World(Cleared(width, height), Cleared(width, height))
    {
      this.width, this.height := width, height;
      this.numFish, this.numShark := numFish, numShark;
      this.fishBreed, this.sharkBreed, this.sharkStarve := fishBreed, sharkBreed, sharkStarve;
      this.threads := threads;
      var g := Zeros(width, height);
      var gb := Zeros(width, height);
      var gs := Zeros(width, height);
      var b := Zeros(width, height);
      var bb := Zeros(width, height);
      var bs := Zeros(width, height);
      grid, breedTimer, starveTimer := g, gb, gs;
      buffer, bufferBreed, bufferStarve := b, bb, bs;
    }

    /** The nested loop of `update` that zeroes `buffer`, `bufferBreed` and `bufferStarve`. */
    method ClearBuffers()
      requires Valid()
      modifies buffer, bufferBreed, bufferStarve
      ensures Valid()
      ensures State() == old(State()).(next := Cleared(width, height))
    {
      ZeroPlanes(buffer, bufferBreed, bufferStarve);
    }

    /** The nested loop of `initWorld` that zeroes `grid`, `breedTimer` and `starveTimer`. */
    method ClearGrid()
      requires Valid()
      modifies grid, breedTimer, starveTimer
      ensures Valid()
      ensures State() == old(State()).(current := Cleared(width, height))
    {
      ZeroPlanes(grid, breedTimer, starveTimer);
    }

    /** `buffer[x][y] = 1; bufferBreed[x][y] = breed`. */
    method WriteFish(x: int, y: int, breed: int)
      requires Valid() && 0 <= x < width && 0 <= y < height
      modifies buffer, bufferBreed
      ensures Valid()
      ensures State() == old(State()).(next := PutFish(old(State()).next, x, y, breed, width, height))
    {
      SetCell(buffer, x, y, FishCell);
      SetCell(bufferBreed, x, y, breed);
    }

    /** `buffer[x][y] = 2; bufferBreed[x][y] = breed; bufferStarve[x][y] = starve`. */
    method WriteShark(x: int, y: int, breed: int, starve: int)
      requires Valid() && 0 <= x < width && 0 <= y < height
      modifies buffer, bufferBreed, bufferStarve
      ensures Valid()
      ensures State() == old(State()).(next := PutShark(old(State()).next, x, y, breed, starve, width, height))
    {
      SetCell(buffer, x, y, SharkCell);
      SetCell(bufferBreed, x, y, breed);
      SetCell(bufferStarve, x, y, starve);
    }

    /** `grid[c] == want && buffer[c] == 0`, the check made under the two tile locks. */
    function IsOpen(c: (int, int), want: int): (b: bool)
      requires Valid() && 0 <= c.0 < width && 0 <= c.1 < height
      reads this, grid, breedTimer, starveTimer, buffer, bufferBreed, bufferStarve
      ensures b == Open(State(), Config(), c, want)
    {
      grid[c.0, c.1] == want && buffer[c.0, c.1] == EmptyCell
    }

    /** The writes of a fish moving from `(x, y)` to `d` with timer `newBreed`. */
    method FishArrive(x: int, y: int, d: (int, int), newBreed: int)
      requires Valid() && 0 <= x < width && 0 <= y < height && 0 <= d.0 < width && 0 <= d.1 < height
      modifies buffer, bufferBreed
      ensures Valid()
      ensures State() == FishMove(old(State()), Config(), x, y, d, newBreed)
    {
      if newBreed <= 0 {
        // a newborn takes the source if no one has claimed it; the mover restarts its timer
        if buffer[x, y] == EmptyCell {
          WriteFish(x, y, fishBreed);
        }
        WriteFish(d.0, d.1, fishBreed);
      } else {
        WriteFish(d.0, d.1, newBreed);
      }
    }

    /** One neighbour check of the fish at `(x, y)`: when `d` is free, the fish moves
        there, and `moved` says whether it did. */
    method FishAttempt(x: int, y: int, order: seq<Offset>, k: int, L: Layout, newBreed: int) returns (moved: bool, more: seq<LockEvent>)
      requires Valid() && 0 <= x < width && 0 <= y < height && UnitSteps(order) && 0 <= k < 4
      requires Spans(L, width, height)
      modifies buffer, bufferBreed
      ensures Valid()
      ensures var d := Nb(x, y, order, k, Config());
              && moved == Open(old(State()), Config(), d, EmptyCell)
              && State() == (if moved then FishMove(old(State()), Config(), x, y, d, newBreed) else old(State()))
              && more == Section(TileOf(x, y, L), TileOf(d.0, d.1, L), L.rows)
    {
      var d := Neighbor(x, y, order[k], width, height);
      var src := TileOf(x, y, L);
      var dst := TileOf(d.0, d.1, L);
      more := LockTwo(src, dst, L.rows);
      moved := false;
      if IsOpen(d, EmptyCell) {
        FishArrive(x, y, d, newBreed);
        moved := true;
      }
      more := more + UnlockTwo(src, dst, L.rows);
    }

    /** The neighbour loop of the fish at `(x, y)`: the neighbours in `order`, each
        checked under `lockTwo`, until the fish has moved into a free one. */
    method FishScan(x: int, y: int, order: seq<Offset>, L: Layout, newBreed: int) returns (moved: bool, events: seq<LockEvent>)
      requires Valid() && 0 <= x < width && 0 <= y < height && UnitSteps(order) && Spans(L, width, height)
      modifies buffer, bufferBreed
      ensures Valid()
      ensures var k := FirstOpen(old(State()), Config(), x, y, order, EmptyCell, 0);
              && moved == (k < 4)
              && State() == (if moved then FishMove(old(State()), Config(), x, y, Nb(x, y, order, k, Config()), newBreed) else old(State()))
              && events == Attempts(x, y, order, Config(), L, if moved then k + 1 else 4)
    {
      ghost var s0 := State();
      ghost var p := Config();
      moved := false;
      events := [];
      var k := 0;
      while k < 4
        invariant 0 <= k <= 4 && k <= FirstOpen(s0, p, x, y, order, EmptyCell, 0)
        invariant Valid() && State() == s0 && !moved
        invariant events == Attempts(x, y, order, p, L, k)
      {
        var more;
        moved, more := FishAttempt(x, y, order, k, L, newBreed);
        events := events + more;
        if moved {
          assert FirstOpen(s0, p, x, y, order, EmptyCell, 0) == k;
          break;
        }
        k := k + 1;
      }
    }

    /** The fish branch of the cell loop at `(x, y)`, with the shuffled `order`: move (or
        breed) into the first free neighbour, otherwise stay under the source tile's
        lock. */
    method FishTurn(x: int, y: int, order: seq<Offset>, L: Layout) returns (events: seq<LockEvent>)
      requires Valid() && 0 <= x < width && 0 <= y < height && UnitSteps(order) && Spans(L, width, height)
      modifies buffer, bufferBreed
      ensures Valid()
      ensures State() == FishStep(old(State()), Config(), x, y, order)
      ensures events == FishTrace(old(State()), Config(), L, x, y, order)
    {
      ghost var s0 := State();
      var src := TileOf(x, y, L);
      var newBreed := breedTimer[x, y] - 1;
      assert newBreed == s0.current.breed[x][y] - 1;
      var moved;
      moved, events := FishScan(x, y, order, L, newBreed);
      if !moved {
        ghost var scanned := events;
        events := events + [Lock(src)];
        FishRemain(x, y, newBreed);
        events := events + [Unlock(src)];
        assert events == scanned + SoleSection(src);
      }
    }

    /** A fish that found no free neighbour stays with its timer clamped at zero, if no
        one has claimed its cell. */
    method FishRemain(x: int, y: int, newBreed: int)
      requires Valid() && 0 <= x < width && 0 <= y < height
      modifies buffer, bufferBreed
      ensures Valid()
      ensures State() == FishStay(old(State()), Config(), x, y, newBreed)
    {
      var b := newBreed;
      if buffer[x, y] == EmptyCell {
        if b < 0 {
          b := 0;
        }
        WriteFish(x, y, b);
      }
    }

    /** The writes of a shark from `(x, y)` eating the fish at `d` with decremented breed
        timer `newBreed`: the fish is cleared from the grid that is being read. */
    method SharkFeed(x: int, y: int, d: (int, int), newBreed: int)
      requires Valid() && 0 <= x < width && 0 <= y < height && 0 <= d.0 < width && 0 <= d.1 < height
      modifies grid, buffer, bufferBreed, bufferStarve
      ensures Valid()
      ensures State() == SharkEat(old(State()), Config(), x, y, d, newBreed)
    {
      var newStarve := sharkStarve;
      SetCell(grid, d.0, d.1, EmptyCell);
      if newBreed <= 0 {
        if buffer[x, y] == EmptyCell {
          WriteShark(x, y, sharkBreed, sharkStarve);
        }
        WriteShark(d.0, d.1, sharkBreed, newStarve);
      } else {
        WriteShark(d.0, d.1, newBreed, newStarve);
      }
    }

    /** One check of the eat pass: when `d` holds an unclaimed fish, the shark eats it. */
    method SharkEatAttempt(x: int, y: int, order: seq<Offset>, k: int, L: Layout, newBreed: int) returns (moved: bool, more: seq<LockEvent>)
      requires Valid() && 0 <= x < width && 0 <= y < height && UnitSteps(order) && 0 <= k < 4
      requires Spans(L, width, height)
      modifies grid, buffer, bufferBreed, bufferStarve
      ensures Valid()
      ensures var d := Nb(x, y, order, k, Config());
              && moved == Open(old(State()), Config(), d, FishCell)
              && State() == (if moved then SharkEat(old(State()), Config(), x, y, d, newBreed) else old(State()))
              && more == Section(TileOf(x, y, L), TileOf(d.0, d.1, L), L.rows)
    {
      var d := Neighbor(x, y, order[k], width, height);
      var src := TileOf(x, y, L);
      var dst := TileOf(d.0, d.1, L);
      more := LockTwo(src, dst, L.rows);
      moved := false;
      if IsOpen(d, FishCell) {
        SharkFeed(x, y, d, newBreed);
        moved := true;
      }
      more := more + UnlockTwo(src, dst, L.rows);
    }

    /** One check of the move pass: when `d` is free, the shark dies there if starved and
        otherwise moves there. */
    method SharkMoveAttempt(x: int, y: int, order: seq<Offset>, k: int, L: Layout, newBreed: int, newStarve: int) returns (moved: bool, more: seq<LockEvent>)
      requires Valid() && 0 <= x < width && 0 <= y < height && UnitSteps(order) && 0 <= k < 4
      requires Spans(L, width, height)
      modifies buffer, bufferBreed, bufferStarve
      ensures Valid()
      ensures var d := Nb(x, y, order, k, Config());
              && moved == Open(old(State()), Config(), d, EmptyCell)
              && State() == (if moved then SharkMove(old(State()), Config(), x, y, d, newBreed, newStarve) else old(State()))
              && more == Section(TileOf(x, y, L), TileOf(d.0, d.1, L), L.rows)
    {
      var d := Neighbor(x, y, order[k], width, height);
      var src := TileOf(x, y, L);
      var dst := TileOf(d.0, d.1, L);
      more := LockTwo(src, dst, L.rows);
      moved := false;
      if IsOpen(d, EmptyCell) {
        if newStarve <= 0 {
          // starved: nothing is written
        } else if newBreed <= 0 {
          if buffer[x, y] == EmptyCell {
            WriteShark(x, y, sharkBreed, sharkStarve);
          }
          WriteShark(d.0, d.1, sharkBreed, newStarve);
        } else {
          WriteShark(d.0, d.1, newBreed, newStarve);
        }
        moved := true;
      }
      more := more + UnlockTwo(src, dst, L.rows);
    }

    /** A shark with nowhere to go stays with clamped timers, if no one has claimed its
        cell. */
    method SharkRemain(x: int, y: int, newBreed: int, newStarve: int)
      requires Valid() && 0 <= x < width && 0 <= y < height && newStarve > 0
      modifies buffer, bufferBreed, bufferStarve
      ensures Valid()
      ensures State() == SharkStay(old(State()), Config(), x, y, newBreed, newStarve)
    {
      var b := newBreed;
      if buffer[x, y] == EmptyCell {
        if b < 0 {
          b := 0;
        }
        WriteShark(x, y, b, newStarve);
      }
    }

    /** The eat pass of the shark at `(x, y)`: the neighbours in `order`, each checked
        under `lockTwo`, until one holds an unclaimed fish. */
    method EatPass(x: int, y: int, order: seq<Offset>, L: Layout, newBreed: int) returns (moved: bool, events: seq<LockEvent>)
      requires Valid() && 0 <= x < width && 0 <= y < height && UnitSteps(order) && Spans(L, width, height)
      modifies grid, buffer, bufferBreed, bufferStarve
      ensures Valid()
      ensures var e := FirstOpen(old(State()), Config(), x, y, order, FishCell, 0);
              && moved == (e < 4)
              && State() == (if moved then SharkEat(old(State()), Config(), x, y, Nb(x, y, order, e, Config()), newBreed) else old(State()))
              && events == Attempts(x, y, order, Config(), L, if moved then e + 1 else 4)
    {
      ghost var s0 := State();
      ghost var p := Config();
      moved := false;
      events := [];
      var k := 0;
      while k < 4
        invariant 0 <= k <= 4 && k <= FirstOpen(s0, p, x, y, order, FishCell, 0)
        invariant Valid() && State() == s0 && !moved
        invariant events == Attempts(x, y, order, p, L, k)
      {
        var more;
        moved, more := SharkEatAttempt(x, y, order, k, L, newBreed);
        events := events + more;
        if moved {
          assert FirstOpen(s0, p, x, y, order, FishCell, 0) == k;
          break;
        }
        k := k + 1;
      }
    }

    /** The move pass of the shark at `(x, y)`: the neighbours in `order` again, until one
        is free. */
    method MovePass(x: int, y: int, order: seq<Offset>, L: Layout, newBreed: int, newStarve: int) returns (moved: bool, events: seq<LockEvent>)
      requires Valid() && 0 <= x < width && 0 <= y < height && UnitSteps(order) && Spans(L, width, height)
      modifies buffer, bufferBreed, bufferStarve
      ensures Valid()
      ensures var k := FirstOpen(old(State()), Config(), x, y, order, EmptyCell, 0);
              && moved == (k < 4)
              && State() == (if moved then SharkMove(old(State()), Config(), x, y, Nb(x, y, order, k, Config()), newBreed, newStarve) else old(State()))
              && events == Attempts(x, y, order, Config(), L, if moved then k + 1 else 4)
    {
      ghost var s0 := State();
      ghost var p := Config();
      moved := false;
      events := [];
      var k := 0;
      while k < 4
        invariant 0 <= k <= 4 && k <= FirstOpen(s0, p, x, y, order, EmptyCell, 0)
        invariant Valid() && State() == s0 && !moved
        invariant events == Attempts(x, y, order, p, L, k)
      {
        var more;
        moved, more := SharkMoveAttempt(x, y, order, k, L, newBreed, newStarve);
        events := events + more;
        if moved {
          assert FirstOpen(s0, p, x, y, order, EmptyCell, 0) == k;
          break;
        }
        k := k + 1;
      }
    }

    /** The shark branch of the cell loop at `(x, y)`: the eat pass, then the move pass
        over the same order, then stay or starve. */
    method SharkTurn(x: int, y: int, order: seq<Offset>, L: Layout) returns (events: seq<LockEvent>)
      requires Valid() && 0 <= x < width && 0 <= y < height && UnitSteps(order) && Spans(L, width, height)
      modifies grid, buffer, bufferBreed, bufferStarve
      ensures Valid()
      ensures State() == SharkStep(old(State()), Config(), x, y, order)
      ensures events == SharkTrace(old(State()), Config(), L, x, y, order)
    {
      ghost var s0 := State();
      var src := TileOf(x, y, L);
      var newBreed := breedTimer[x, y] - 1;
      var newStarve := starveTimer[x, y] - 1;
      assert newBreed == s0.current.breed[x][y] - 1 && newStarve == s0.current.starve[x][y] - 1;
      var moved;
      moved, events := EatPass(x, y, order, L, newBreed);
      if !moved {
        assert State() == s0;
        ghost var eatPass := events;
        var more;
        moved, more := MovePass(x, y, order, L, newBreed, newStarve);
        events := events + more;
        if !moved {
          if newStarve <= 0 {
            // starved: the shark dies and nothing is written
          } else {
            ghost var scanned := events;
            events := events + [Lock(src)];
            SharkRemain(x, y, newBreed, newStarve);
            events := events + [Unlock(src)];
            assert events == scanned + SoleSection(src);
          }
        }
      }
    }

    /** The turn of whatever `grid` holds at `(x, y)` when the cell loop reaches it. */
    method Turn(x: int, y: int, order: seq<Offset>, L: Layout) returns (events: seq<LockEvent>)
      requires Valid() && 0 <= x < width && 0 <= y < height && UnitSteps(order) && Spans(L, width, height)
      modifies grid, buffer, bufferBreed, bufferStarve
      ensures Valid()
      ensures State() == StepCell(old(State()), Config(), x, y, order)
      ensures events == CellTrace(old(State()), Config(), L, x, y, order)
    {
      if grid[x, y] == FishCell {
        events := FishTurn(x, y, order, L);
      } else if grid[x, y] == SharkCell {
        events := SharkTurn(x, y, order, L);
      } else {
        events := [];
      }
    }

    /** The inner `y` loop over rows `sy .. ey - 1` of column `x` of a tile. */
    method RunColumn(orders: seq<seq<seq<Offset>>>, L: Layout, x: int, sy: int, ey: int) returns (events: seq<LockEvent>)
      requires Valid() && OrdersFit(orders, width, height) && Spans(L, width, height)
      requires 0 <= x < width && 0 <= sy <= ey <= height
      modifies grid, buffer, bufferBreed, bufferStarve
      ensures Valid()
      ensures State() == ColumnRun(Turns(Config(), orders), old(State()), x, sy, ey)
      ensures events == ColumnEvents(Turns(Config(), orders), TurnTraces(Config(), L, orders), old(State()), x, sy, ey, [])
    {
      ghost var s0 := State();
      ghost var p := Config();
      events := [];
      var y := sy;
      while y < ey
        invariant sy <= y <= ey && Valid() && Config() == p
        invariant ColumnRun(Turns(p, orders), State(), x, y, ey) == ColumnRun(Turns(p, orders), s0, x, sy, ey)
        invariant ColumnEvents(Turns(p, orders), TurnTraces(p, L, orders), State(), x, y, ey, events) ==
                  ColumnEvents(Turns(p, orders), TurnTraces(p, L, orders), s0, x, sy, ey, [])
      {
        TurnIsStep(State(), p, L, orders, (x, y));
        var more := Turn(x, y, orders[x][y], L);
        events := events + more;
        y := y + 1;
      }
    }

    /** The `x` loop over the columns of tile `r`. */
    method RunTile(orders: seq<seq<seq<Offset>>>, L: Layout, r: Rect) returns (events: seq<LockEvent>)
      requires Valid() && OrdersFit(orders, width, height) && Spans(L, width, height)
      requires 0 <= r.sx <= r.ex <= width && 0 <= r.sy <= r.ey <= height
      modifies grid, buffer, bufferBreed, bufferStarve
      ensures Valid()
      ensures State() == RectRun(Turns(Config(), orders), old(State()), r, r.sx)
      ensures events == RectEvents(Turns(Config(), orders), TurnTraces(Config(), L, orders), old(State()), r, r.sx, [])
    {
      ghost var s0 := State();
      ghost var p := Config();
      events := [];
      var x := r.sx;
      while x < r.ex
        invariant r.sx <= x <= r.ex && Valid() && Config() == p
        invariant RectRun(Turns(p, orders), State(), r, x) == RectRun(Turns(p, orders), s0, r, r.sx)
        invariant RectEvents(Turns(p, orders), TurnTraces(p, L, orders), State(), r, x, events) ==
                  RectEvents(Turns(p, orders), TurnTraces(p, L, orders), s0, r, r.sx, [])
      {
        ColumnEventsAcc(Turns(p, orders), TurnTraces(p, L, orders), State(), x, r.sy, r.ey, events);
        var more := RunColumn(orders, L, x, r.sy, r.ey);
        events := events + more;
        x := x + 1;
      }
    }

    /** Tile `(tx, ty)`, clipped to the grid, unless it is empty. */
    method TileNext(orders: seq<seq<seq<Offset>>>, L: Layout, tx: int, ty: int, ghost prior: seq<LockEvent>) returns (more: seq<LockEvent>)
      requires Valid() && OrdersFit(orders, width, height) && Spans(L, width, height)
      requires 0 <= tx < L.cols && 0 <= ty < L.rows
      modifies grid, buffer, bufferBreed, bufferStarve
      ensures Valid()
      ensures TilesRun(Turns(Config(), orders), State(), L, width, height, tx, ty + 1) ==
              TilesRun(Turns(Config(), orders), old(State()), L, width, height, tx, ty)
      ensures TilesEvents(Turns(Config(), orders), TurnTraces(Config(), L, orders), State(), L, width, height, tx, ty + 1, prior + more) ==
              TilesEvents(Turns(Config(), orders), TurnTraces(Config(), L, orders), old(State()), L, width, height, tx, ty, prior)
    {
      ghost var s0 := State();
      ghost var p := Config();
      var startX := tx * L.tileW;
      var endX := startX + L.tileW;
      if endX > width {
        endX := width;
      }
      var startY := ty * L.tileH;
      var endY := startY + L.tileH;
      if endY > height {
        endY := height;
      }
      var r := Rect(startX, endX, startY, endY);
      assert r == TileRect(L, tx, ty, width, height);
      if startX >= endX || startY >= endY {
        more := [];
        assert prior + more == prior;
      } else {
        TileInside(L, width, height, tx, ty);
        RectEventsAcc(Turns(p, orders), TurnTraces(p, L, orders), s0, r, r.sx, prior);
        more := RunTile(orders, L, r);
      }
    }

    /** One pass of the `ty` loop: the tiles of tile column `tx`, top to bottom. What is
        left of the tile walk afterwards starts at the next column, with the events so far
        (`prior`) extended by `more`. */
    method RunTileColumn(orders: seq<seq<seq<Offset>>>, L: Layout, tx: int, ghost prior: seq<LockEvent>) returns (more: seq<LockEvent>)
      requires Valid() && OrdersFit(orders, width, height) && Spans(L, width, height)
      requires 0 <= tx < L.cols
      modifies grid, buffer, bufferBreed, bufferStarve
      ensures Valid()
      ensures TilesRun(Turns(Config(), orders), State(), L, width, height, tx + 1, 0) ==
              TilesRun(Turns(Config(), orders), old(State()), L, width, height, tx, 0)
      ensures TilesEvents(Turns(Config(), orders), TurnTraces(Config(), L, orders), State(), L, width, height, tx + 1, 0, prior + more) ==
              TilesEvents(Turns(Config(), orders), TurnTraces(Config(), L, orders), old(State()), L, width, height, tx, 0, prior)
    {
      ghost var s0 := State();
      ghost var p := Config();
      more := [];
      assert prior + more == prior;
      var ty := 0;
      while ty < L.rows
        invariant 0 <= ty <= L.rows && Valid() && Config() == p
        invariant TilesRun(Turns(p, orders), State(), L, width, height, tx, ty) ==
                  TilesRun(Turns(p, orders), s0, L, width, height, tx, 0)
        invariant TilesEvents(Turns(p, orders), TurnTraces(p, L, orders), State(), L, width, height, tx, ty, prior + more) ==
                  TilesEvents(Turns(p, orders), TurnTraces(p, L, orders), s0, L, width, height, tx, 0, prior)
      {
        var next := TileNext(orders, L, tx, ty, prior + more);
        assert prior + more + next == prior + (more + next);
        more := more + next;
        ty := ty + 1;
      }
    }

    /** The `tx`, `ty` loops over the tile grid, run by a single worker. */
    method RunTiles(orders: seq<seq<seq<Offset>>>, L: Layout) returns (events: seq<LockEvent>)
      requires Valid() && OrdersFit(orders, width, height) && Spans(L, width, height)
      modifies grid, buffer, bufferBreed, bufferStarve
      ensures Valid()
      ensures State() == TilesRun(Turns(Config(), orders), old(State()), L, width, height, 0, 0)
      ensures events == TilesEvents(Turns(Config(), orders), TurnTraces(Config(), L, orders), old(State()), L, width, height, 0, 0, [])
    {
      ghost var s0 := State();
      ghost var p := Config();
      ghost var goal := TilesRun(Turns(p, orders), s0, L, width, height, 0, 0);
      ghost var goalEvents := TilesEvents(Turns(p, orders), TurnTraces(p, L, orders), s0, L, width, height, 0, 0, []);
      events := [];
      var tx := 0;
      while tx < L.cols
        invariant 0 <= tx <= L.cols && Valid() && Config() == p
        invariant TilesRun(Turns(p, orders), State(), L, width, height, tx, 0) == goal
        invariant TilesEvents(Turns(p, orders), TurnTraces(p, L, orders), State(), L, width, height, tx, 0, events) == goalEvents
      {
        var more := RunTileColumn(orders, L, tx, events);
        events := events + more;
        tx := tx + 1;
      }
    }

    /** The tile grid of `update` for the clamped worker count: `tileCols` from the
        square root (at least 1), `tileRows` by ceiling division (at least 1), and the
        tile sizes by ceiling division of the grid sides. */
    method ComputeLayout() returns (L: Layout)
      requires width > 0 && height > 0
      ensures L == LayoutFor(threads, width, height)
    {
      var tileCols := ISqrt(threads);
      if tileCols <= 0 {
        tileCols := 1;
      }
      var tileRows := Quot(threads + tileCols - 1, tileCols);
      if tileRows <= 0 {
        tileRows := 1;
      }
      var tileW := Quot(width + tileCols - 1, tileCols);
      var tileH := Quot(height + tileRows - 1, tileRows);
      L := Layout(tileCols, tileRows, tileW, tileH);
    }

    /** The three swaps at the end of `update`: the built buffers become the grid and
        its timers, and the old grid and timers become the buffers. */
    method SwapBuffers()
      requires Valid()
      modifies this
      ensures Valid() && threads == old(threads)
      ensures State() == World(old(State()).next, old(State()).current)
    {
      grid, buffer := buffer, grid;
      breedTimer, bufferBreed := bufferBreed, breedTimer;
      starveTimer, bufferStarve := bufferStarve, starveTimer;
    }

    /** `update`: clear the buffers, clamp the worker count to the width, lay out the
        tiles, give every cell its turn tile by tile, then swap the grid and its timers
        with the buffers. */
    method Update(orders: seq<seq<seq<Offset>>>) returns (events: seq<LockEvent>)
      requires Valid() && OrdersFit(orders, width, height)
      modifies this, grid, breedTimer, starveTimer, buffer, bufferBreed, bufferStarve
      ensures Valid()
      ensures threads == ClampThreads(old(threads), width)
      ensures State() == Tick(old(State()), Config(), old(threads), orders)
      ensures events == TickTrace(old(State()), Config(), old(threads), orders)
    {
      ghost var s := State();
      ghost var p := Config();
      ClearBuffers();
      if threads > width {
        threads := width;
      }
      var L := ComputeLayout();
      assert L == TickLayout(p, old(threads));
      ghost var start := State();
      assert start == World(s.current, Cleared(width, height));
      events := RunTiles(orders, L);
      ghost var built := State();
      assert built == Built(s.current, p, old(threads), orders);
      SwapBuffers();
    }

    /** `countFish`: the number of cells of the grid that hold a fish. */
    method CountFish() returns (cnt: int)
      requires Valid()
      ensures cnt == Count(PlaneOf(grid), FishCell)
    {
      ghost var g := PlaneOf(grid);
      cnt := 0;
      var x := 0;
      while x < width
        invariant 0 <= x <= width
        invariant cnt == CountColumns(g, x, FishCell)
      {
        var y := 0;
        while y < height
          invariant 0 <= y <= height
          invariant cnt == CountColumns(g, x, FishCell) + CountRow(g[x], y, FishCell)
        {
          if grid[x, y] == FishCell {
            cnt := cnt + 1;
          }
          y := y + 1;
        }
        x := x + 1;
      }
    }

    /** `grid[x][y] = 1; breedTimer[x][y] = fishBreed`, or the shark version with
        `sharkBreed` and `sharkStarve`. */
    method Seed(kind: int, x: int, y: int)
      requires Valid() && IsAgent(kind) && 0 <= x < width && 0 <= y < height
      modifies grid, breedTimer, starveTimer
      ensures Valid()
      ensures State() == old(State()).(current := Place(old(State()).current, Config(), kind, (x, y)))
    {
      if kind == FishCell {
        SetCell(grid, x, y, FishCell);
        SetCell(breedTimer, x, y, fishBreed);
      } else {
        SetCell(grid, x, y, SharkCell);
        SetCell(breedTimer, x, y, sharkBreed);
        SetCell(starveTimer, x, y, sharkStarve);
      }
    }

    /** One round of a placement loop: `if grid[x][y] == 0` place the agent at the drawn
        cell, else report the cell taken. */
    method Draw(kind: int, c: Cell) returns (took: bool)
      requires Valid() && IsAgent(kind) && 0 <= c.0 < width && 0 <= c.1 < height
      modifies grid, breedTimer, starveTimer
      ensures Valid()
      ensures took == (old(State()).current.cells[c.0][c.1] == EmptyCell)
      ensures took ==> State() == old(State()).(current := Place(old(State()).current, Config(), kind, c))
      ensures !took ==> State() == old(State())
    {
      took := grid[c.0, c.1] == EmptyCell;
      if took {
        Seed(kind, c.0, c.1);
      }
    }

    /** One placement loop of `initWorld`: `for i := 0; i < n; i++`, drawing a cell each
        round and repeating the round (`i--`) when the cell is taken. Returns the unused
        draws and the number placed, which falls short of `n` only if the draws ran out. */
    method PlaceAgents(kind: int, n: int, draws: seq<Cell>) returns (rest: seq<Cell>, placed: int)
      requires Valid() && IsAgent(kind) && Draws(draws, width, height)
      modifies grid, breedTimer, starveTimer
      ensures Valid()
      ensures var r := Populate(old(State()).current, Config(), kind, n, draws);
              State() == old(State()).(current := r.gen) && rest == r.rest && placed == r.placed
    {
      ghost var s0 := State();
      ghost var p := Config();
      ghost var goal := Populate(s0.current, p, kind, n, draws);
      ghost var cur := s0.current;
      ghost var left := n;
      rest := draws;
      var i := 0;
      while i < n
        invariant 0 <= i <= NonNeg(n) && left == n - i && Valid() && Draws(rest, width, height)
        invariant State() == s0.(current := cur) && GenShaped(cur, width, height)
        invariant var r := Populate(cur, p, kind, left, rest);
                  r.gen == goal.gen && r.rest == goal.rest && i + r.placed == goal.placed
        decreases |rest|
      {
        if rest == [] {
          break;
        }
        PopulateRound(cur, p, kind, left, rest);
        var c := rest[0];
        rest := rest[1..];
        var took := Draw(kind, c);
        if took {
          cur := Place(cur, p, kind, c);
          left := left - 1;
        } else {
          i := i - 1;
        }
        i := i + 1;
      }
      placed := i;
    }

    /** `initWorld`: clear the grid and its timers, place the fish, then the sharks.
        `ok` says whether the draws sufficed to place them all. */
    method InitWorld(draws: seq<Cell>) returns (ok: bool)
      requires Valid() && Draws(draws, width, height)
      modifies grid, breedTimer, starveTimer
      ensures Valid()
      ensures var r := InitialGrid(Config(), numFish, numShark, draws);
              State() == old(State()).(current := r.gen) && ok == Complete(r, numFish, numShark)
    {
      ClearGrid();
      var rest, fish := PlaceAgents(FishCell, numFish, draws);
      var unused, sharks := PlaceAgents(SharkCell, numShark, rest);
      ok := fish == NonNeg(numFish) && sharks == NonNeg(numShark);
    }
  }
}
