/** What one agent turn guarantees: first-claim-wins, the movement, breeding, eating and
    starvation rules stated against the neighbourhood, sane timers, and lock discipline. */
module AgentFacts {
  import opened Planes
  import opened Geometry
  import opened Locks
  import opened Agents

  /** The next generation agrees between `a` and `b` at `(i, j)`. */
  predicate SameNextAt(a: World, b: World, p: Params, i: int, j: int)
    requires Sized(a, p) && Sized(b, p) && 0 <= i < p.width && 0 <= j < p.height
  {
    a.next.cells[i][j] == b.next.cells[i][j] && a.next.breed[i][j] == b.next.breed[i][j]
    && a.next.starve[i][j] == b.next.starve[i][j]
  }

  /** First-claim-wins: every cell already claimed in `s.next` is untouched in `r.next`. */
  predicate KeepsClaims(s: World, r: World, p: Params)
    requires Sized(s, p) && Sized(r, p)
  {
    forall i, j :: 0 <= i < p.width && 0 <= j < p.height && s.next.cells[i][j] != EmptyCell ==>
      SameNextAt(s, r, p, i, j)
  }

  /** `r.next` differs from `s.next` at most at the cells `a` and `b`. */
  predicate NextChangedAtMost(s: World, r: World, p: Params, a: (int, int), b: (int, int))
    requires Sized(s, p) && Sized(r, p)
  {
    forall i, j :: 0 <= i < p.width && 0 <= j < p.height && (i, j) != a && (i, j) != b ==>
      SameNextAt(s, r, p, i, j)
  }

  /** `k` is the first position of `order` whose neighbour is open for `want`. */
  predicate FirstOpenAt(s: World, p: Params, x: int, y: int, order: seq<Offset>, want: int, k: int)
    requires Sized(s, p) && 0 <= x < p.width && 0 <= y < p.height && UnitSteps(order)
  {
    0 <= k < 4 && Open(s, p, Nb(x, y, order, k, p), want)
    && forall j :: 0 <= j < k ==> !Open(s, p, Nb(x, y, order, j, p), want)
  }

  /** No neighbour is open for `want`. */
  predicate NoneOpen(s: World, p: Params, x: int, y: int, order: seq<Offset>, want: int)
    requires Sized(s, p) && 0 <= x < p.width && 0 <= y < p.height && UnitSteps(order)
  {
    forall j :: 0 <= j < 4 ==> !Open(s, p, Nb(x, y, order, j, p), want)
  }

  lemma FirstOpenIs(s: World, p: Params, x: int, y: int, order: seq<Offset>, want: int, k: int)
    requires Sized(s, p) && 0 <= x < p.width && 0 <= y < p.height && UnitSteps(order)
    requires FirstOpenAt(s, p, x, y, order, want, k)
    ensures FirstOpen(s, p, x, y, order, want, 0) == k
  {
  }

  /** A fish with a free neighbour (empty in the grid and in the buffer) goes to the first
      one in its direction order. If its decremented breed timer has run out, it arrives
      with a reset timer and leaves a newborn with a reset timer at its source, provided
      the source is still unclaimed; otherwise it arrives with the decremented timer.
      Nothing else changes. */
  lemma FishMoves(s: World, p: Params, x: int, y: int, order: seq<Offset>, k: int)
    requires Sized(s, p) && 0 <= x < p.width && 0 <= y < p.height && UnitSteps(order)
    requires s.current.cells[x][y] == FishCell && FirstOpenAt(s, p, x, y, order, EmptyCell, k)
    ensures var r := FishStep(s, p, x, y, order);
            var d := Nb(x, y, order, k, p);
            var b := s.current.breed[x][y] - 1;
            && r.current == s.current && r.next.starve == s.next.starve
            && r.next.cells[d.0][d.1] == FishCell
            && r.next.breed[d.0][d.1] == (if b <= 0 then p.fishBreed else b)
            && (b <= 0 && s.next.cells[x][y] == EmptyCell ==>
                  r.next.cells[x][y] == FishCell && r.next.breed[x][y] == p.fishBreed)
            && (b > 0 || s.next.cells[x][y] != EmptyCell ==> SameNextAt(s, r, p, x, y))
            && NextChangedAtMost(s, r, p, (x, y), d)
  {
    FirstOpenIs(s, p, x, y, order, EmptyCell, k);
    var d := Nb(x, y, order, k, p);
    FishMoveWrites(s, p, x, y, d, s.current.breed[x][y] - 1);
  }

  /** What `FishMove` writes when the fish leaves `(x, y)` for another cell `d`. */
  lemma FishMoveWrites(s: World, p: Params, x: int, y: int, d: (int, int), b: int)
    requires Sized(s, p) && 0 <= x < p.width && 0 <= y < p.height && 0 <= d.0 < p.width && 0 <= d.1 < p.height
    requires d != (x, y)
    ensures var r := FishMove(s, p, x, y, d, b);
            && r.current == s.current && r.next.starve == s.next.starve
            && r.next.cells[d.0][d.1] == FishCell
            && r.next.breed[d.0][d.1] == (if b <= 0 then p.fishBreed else b)
            && (b <= 0 && s.next.cells[x][y] == EmptyCell ==>
                  r.next.cells[x][y] == FishCell && r.next.breed[x][y] == p.fishBreed)
            && (b > 0 || s.next.cells[x][y] != EmptyCell ==> SameNextAt(s, r, p, x, y))
            && NextChangedAtMost(s, r, p, (x, y), d)
  {
  }

  /** A fish with no free neighbour stays in place with its breed timer decremented and
      clamped at zero, provided its source cell is still unclaimed; otherwise nothing is
      written. */
  lemma FishStays(s: World, p: Params, x: int, y: int, order: seq<Offset>)
    requires Sized(s, p) && 0 <= x < p.width && 0 <= y < p.height && UnitSteps(order)
    requires NoneOpen(s, p, x, y, order, EmptyCell)
    ensures var r := FishStep(s, p, x, y, order);
            var b := s.current.breed[x][y] - 1;
            && r.current == s.current && r.next.starve == s.next.starve
            && (s.next.cells[x][y] == EmptyCell ==>
                  r.next.cells[x][y] == FishCell && r.next.breed[x][y] == (if b < 0 then 0 else b)
                  && r.next.breed[x][y] >= 0)
            && (s.next.cells[x][y] != EmptyCell ==> r == s)
            && NextChangedAtMost(s, r, p, (x, y), (x, y))
  {
  }

  /** A shark with a fish beside it (fish in the grid, unclaimed in the buffer) eats the
      first such fish in its direction order, whatever free cells there are: the fish is
      removed from the current grid, and the shark arrives with a reset starve timer and
      either a reset breed timer, leaving a fully reset newborn at an unclaimed source, or
      its decremented breed timer. Nothing else changes. */
  lemma SharkEats(s: World, p: Params, x: int, y: int, order: seq<Offset>, k: int)
    requires Sized(s, p) && 0 <= x < p.width && 0 <= y < p.height && UnitSteps(order)
    requires s.current.cells[x][y] == SharkCell && FirstOpenAt(s, p, x, y, order, FishCell, k)
    ensures var r := SharkStep(s, p, x, y, order);
            var d := Nb(x, y, order, k, p);
            var b := s.current.breed[x][y] - 1;
            && r.current == s.current.(cells := Put(s.current.cells, d.0, d.1, EmptyCell))
            && r.next.cells[d.0][d.1] == SharkCell
            && r.next.breed[d.0][d.1] == (if b <= 0 then p.sharkBreed else b)
            && r.next.starve[d.0][d.1] == p.sharkStarve
            && (b <= 0 && s.next.cells[x][y] == EmptyCell ==>
                  r.next.cells[x][y] == SharkCell && r.next.breed[x][y] == p.sharkBreed
                  && r.next.starve[x][y] == p.sharkStarve)
            && (b > 0 || s.next.cells[x][y] != EmptyCell ==> SameNextAt(s, r, p, x, y))
            && NextChangedAtMost(s, r, p, (x, y), d)
  {
    FirstOpenIs(s, p, x, y, order, FishCell, k);
    var d := Nb(x, y, order, k, p);
    SharkEatWrites(s, p, x, y, d, s.current.breed[x][y] - 1);
  }

  /** What `SharkEat` writes when the shark eats the fish at another cell `d`. */
  lemma SharkEatWrites(s: World, p: Params, x: int, y: int, d: (int, int), b: int)
    requires Sized(s, p) && 0 <= x < p.width && 0 <= y < p.height && 0 <= d.0 < p.width && 0 <= d.1 < p.height
    requires d != (x, y)
    ensures var r := SharkEat(s, p, x, y, d, b);
            && r.current == s.current.(cells := Put(s.current.cells, d.0, d.1, EmptyCell))
            && r.next.cells[d.0][d.1] == SharkCell
            && r.next.breed[d.0][d.1] == (if b <= 0 then p.sharkBreed else b)
            && r.next.starve[d.0][d.1] == p.sharkStarve
            && (b <= 0 && s.next.cells[x][y] == EmptyCell ==>
                  r.next.cells[x][y] == SharkCell && r.next.breed[x][y] == p.sharkBreed
                  && r.next.starve[x][y] == p.sharkStarve)
            && (b > 0 || s.next.cells[x][y] != EmptyCell ==> SameNextAt(s, r, p, x, y))
            && NextChangedAtMost(s, r, p, (x, y), d)
  {
  }

  /** A shark with no fish beside it but a free neighbour: if its decremented starve timer
      has run out it dies (nothing is written and the scan stops); otherwise it moves to
      the first free neighbour carrying the decremented starve timer, breeding as a fish
      does. The grid and every other cell are unchanged. */
  lemma SharkMoves(s: World, p: Params, x: int, y: int, order: seq<Offset>, k: int)
    requires Sized(s, p) && 0 <= x < p.width && 0 <= y < p.height && UnitSteps(order)
    requires s.current.cells[x][y] == SharkCell
    requires NoneOpen(s, p, x, y, order, FishCell) && FirstOpenAt(s, p, x, y, order, EmptyCell, k)
    ensures var r := SharkStep(s, p, x, y, order);
            var d := Nb(x, y, order, k, p);
            var b := s.current.breed[x][y] - 1;
            var st := s.current.starve[x][y] - 1;
            && r.current == s.current
            && (st <= 0 ==> r == s)
            && (st > 0 ==>
                  && r.next.cells[d.0][d.1] == SharkCell
                  && r.next.breed[d.0][d.1] == (if b <= 0 then p.sharkBreed else b)
                  && r.next.starve[d.0][d.1] == st
                  && (b <= 0 && s.next.cells[x][y] == EmptyCell ==>
                        r.next.cells[x][y] == SharkCell && r.next.breed[x][y] == p.sharkBreed
                        && r.next.starve[x][y] == p.sharkStarve)
                  && (b > 0 || s.next.cells[x][y] != EmptyCell ==> SameNextAt(s, r, p, x, y)))
            && NextChangedAtMost(s, r, p, (x, y), d)
  {
    FirstOpenIs(s, p, x, y, order, EmptyCell, k);
    assert FirstOpen(s, p, x, y, order, FishCell, 0) == 4;
    var d := Nb(x, y, order, k, p);
    var b, st := s.current.breed[x][y] - 1, s.current.starve[x][y] - 1;
    SharkMoveWrites(s, p, x, y, d, b, st);
  }

  /** What `SharkMove` writes when the shark leaves `(x, y)` for another cell `d`. */
  lemma SharkMoveWrites(s: World, p: Params, x: int, y: int, d: (int, int), b: int, st: int)
    requires Sized(s, p) && 0 <= x < p.width && 0 <= y < p.height && 0 <= d.0 < p.width && 0 <= d.1 < p.height
    requires d != (x, y)
    ensures var r := SharkMove(s, p, x, y, d, b, st);
            && r.current == s.current
            && (st <= 0 ==> r == s)
            && (st > 0 ==>
                  && r.next.cells[d.0][d.1] == SharkCell
                  && r.next.breed[d.0][d.1] == (if b <= 0 then p.sharkBreed else b)
                  && r.next.starve[d.0][d.1] == st
                  && (b <= 0 && s.next.cells[x][y] == EmptyCell ==>
                        r.next.cells[x][y] == SharkCell && r.next.breed[x][y] == p.sharkBreed
                        && r.next.starve[x][y] == p.sharkStarve)
                  && (b > 0 || s.next.cells[x][y] != EmptyCell ==> SameNextAt(s, r, p, x, y)))
            && NextChangedAtMost(s, r, p, (x, y), d)
  {
  }

  /** A shark with neither a fish nor a free cell beside it dies when its decremented
      starve timer has run out; otherwise it stays with both timers decremented (the
      breed timer clamped at zero), provided its source cell is still unclaimed. */
  lemma SharkStays(s: World, p: Params, x: int, y: int, order: seq<Offset>)
    requires Sized(s, p) && 0 <= x < p.width && 0 <= y < p.height && UnitSteps(order)
    requires NoneOpen(s, p, x, y, order, FishCell) && NoneOpen(s, p, x, y, order, EmptyCell)
    ensures var r := SharkStep(s, p, x, y, order);
            var b := s.current.breed[x][y] - 1;
            var st := s.current.starve[x][y] - 1;
            && r.current == s.current
            && (st <= 0 || s.next.cells[x][y] != EmptyCell ==> r == s)
            && (st > 0 && s.next.cells[x][y] == EmptyCell ==>
                  r.next.cells[x][y] == SharkCell && r.next.breed[x][y] == (if b < 0 then 0 else b)
                  && r.next.starve[x][y] == st)
            && NextChangedAtMost(s, r, p, (x, y), (x, y))
  {
  }

  /** Every turn respects first-claim-wins: a buffer cell that is already claimed is
      never written again, so destinations and sources are only written while free. */
  lemma StepKeepsClaims(s: World, p: Params, x: int, y: int, order: seq<Offset>)
    requires Sized(s, p) && 0 <= x < p.width && 0 <= y < p.height && UnitSteps(order)
    ensures KeepsClaims(s, StepCell(s, p, x, y, order), p)
  {
    var r := StepCell(s, p, x, y, order);
    if s.current.cells[x][y] == FishCell {
      var k := FirstOpen(s, p, x, y, order, EmptyCell, 0);
      if k < 4 {
        FishMoves(s, p, x, y, order, k);
      } else {
        FishStays(s, p, x, y, order);
      }
    } else if s.current.cells[x][y] == SharkCell {
      var e := FirstOpen(s, p, x, y, order, FishCell, 0);
      var k := FirstOpen(s, p, x, y, order, EmptyCell, 0);
      if e < 4 {
        SharkEats(s, p, x, y, order, e);
      } else if k < 4 {
        SharkMoves(s, p, x, y, order, k);
      } else {
        SharkStays(s, p, x, y, order);
      }
    }
  }

  predicate PositiveTimers(p: Params) {
    p.fishBreed > 0 && p.sharkBreed > 0 && p.sharkStarve > 0
  }

  /** A well-formed cell between ticks: it holds 0, 1 or 2, its timers are non-negative,
      an empty cell has zero timers and a fish has a zero starve timer. */
  predicate SaneCell(g: Generation, w: int, h: int, i: int, j: int)
    requires GenShaped(g, w, h) && 0 <= i < w && 0 <= j < h
  {
    && 0 <= g.cells[i][j] <= 2 && g.breed[i][j] >= 0 && g.starve[i][j] >= 0
    && (g.cells[i][j] == EmptyCell ==> g.breed[i][j] == 0 && g.starve[i][j] == 0)
    && (g.cells[i][j] == FishCell ==> g.starve[i][j] == 0)
  }

  predicate Resting(g: Generation, w: int, h: int)
    requires GenShaped(g, w, h)
  {
    forall i, j :: 0 <= i < w && 0 <= j < h ==> SaneCell(g, w, h, i, j)
  }

  /** Every cell holds 0, 1 or 2. */
  predicate Kinds(g: Generation, w: int, h: int)
    requires GenShaped(g, w, h)
  {
    forall i, j :: 0 <= i < w && 0 <= j < h ==> 0 <= g.cells[i][j] <= 2
  }

  lemma RestingAfterChange(s: World, r: World, p: Params, a: (int, int), b: (int, int))
    requires Sized(s, p) && Sized(r, p) && Resting(s.next, p.width, p.height)
    requires NextChangedAtMost(s, r, p, a, b)
    requires 0 <= a.0 < p.width && 0 <= a.1 < p.height && 0 <= b.0 < p.width && 0 <= b.1 < p.height
    requires SaneCell(r.next, p.width, p.height, a.0, a.1) && SaneCell(r.next, p.width, p.height, b.0, b.1)
    ensures Resting(r.next, p.width, p.height)
  {
    forall i, j | 0 <= i < p.width && 0 <= j < p.height
      ensures SaneCell(r.next, p.width, p.height, i, j)
    {
      if (i, j) != a && (i, j) != b {
        assert SameNextAt(s, r, p, i, j);
        assert SaneCell(s.next, p.width, p.height, i, j);
      }
    }
  }

  lemma FishKeepsResting(s: World, p: Params, x: int, y: int, order: seq<Offset>)
    requires Sized(s, p) && 0 <= x < p.width && 0 <= y < p.height && UnitSteps(order)
    requires s.current.cells[x][y] == FishCell
    requires PositiveTimers(p) && Resting(s.next, p.width, p.height)
    ensures Resting(FishStep(s, p, x, y, order).next, p.width, p.height)
  {
    var r := FishStep(s, p, x, y, order);
    var w, h := p.width, p.height;
    assert SaneCell(s.next, w, h, x, y);
    var k := FirstOpen(s, p, x, y, order, EmptyCell, 0);
    if k < 4 {
      FishMoves(s, p, x, y, order, k);
      var d := Nb(x, y, order, k, p);
      assert SaneCell(s.next, w, h, d.0, d.1);
      RestingAfterChange(s, r, p, (x, y), d);
    } else {
      FishStays(s, p, x, y, order);
      RestingAfterChange(s, r, p, (x, y), (x, y));
    }
  }

  lemma SharkKeepsResting(s: World, p: Params, x: int, y: int, order: seq<Offset>)
    requires Sized(s, p) && 0 <= x < p.width && 0 <= y < p.height && UnitSteps(order)
    requires s.current.cells[x][y] == SharkCell
    requires PositiveTimers(p) && Resting(s.next, p.width, p.height)
    ensures Resting(SharkStep(s, p, x, y, order).next, p.width, p.height)
  {
    var r := SharkStep(s, p, x, y, order);
    var w, h := p.width, p.height;
    assert SaneCell(s.next, w, h, x, y);
    var e := FirstOpen(s, p, x, y, order, FishCell, 0);
    var k := FirstOpen(s, p, x, y, order, EmptyCell, 0);
    if e < 4 {
      SharkEats(s, p, x, y, order, e);
      var d := Nb(x, y, order, e, p);
      assert SaneCell(s.next, w, h, d.0, d.1);
      RestingAfterChange(s, r, p, (x, y), d);
    } else if k < 4 {
      SharkMoves(s, p, x, y, order, k);
      var d := Nb(x, y, order, k, p);
      assert SaneCell(s.next, w, h, d.0, d.1);
      RestingAfterChange(s, r, p, (x, y), d);
    } else {
      SharkStays(s, p, x, y, order);
      RestingAfterChange(s, r, p, (x, y), (x, y));
    }
  }

  /** With positive timer settings every turn writes only non-negative timers into the
      buffers, whatever the timers it reads, and the current grid keeps holding 0, 1 or 2. */
  lemma StepKeepsResting(s: World, p: Params, x: int, y: int, order: seq<Offset>)
    requires Sized(s, p) && 0 <= x < p.width && 0 <= y < p.height && UnitSteps(order)
    requires PositiveTimers(p) && Resting(s.next, p.width, p.height) && Kinds(s.current, p.width, p.height)
    ensures var r := StepCell(s, p, x, y, order);
            Resting(r.next, p.width, p.height) && Kinds(r.current, p.width, p.height)
  {
    if s.current.cells[x][y] == FishCell {
      FishKeepsResting(s, p, x, y, order);
    } else if s.current.cells[x][y] == SharkCell {
      SharkKeepsResting(s, p, x, y, order);
    }
    StepKeepsKinds(s, p, x, y, order);
  }

  /** A turn changes the current grid at most by emptying an eaten fish's cell. */
  lemma StepKeepsKinds(s: World, p: Params, x: int, y: int, order: seq<Offset>)
    requires Sized(s, p) && 0 <= x < p.width && 0 <= y < p.height && UnitSteps(order)
    requires Kinds(s.current, p.width, p.height)
    ensures Kinds(StepCell(s, p, x, y, order).current, p.width, p.height)
  {
    if s.current.cells[x][y] == FishCell {
      var k := FirstOpen(s, p, x, y, order, EmptyCell, 0);
      if k < 4 {
        FishMoves(s, p, x, y, order, k);
      } else {
        FishStays(s, p, x, y, order);
      }
    } else if s.current.cells[x][y] == SharkCell {
      var e := FirstOpen(s, p, x, y, order, FishCell, 0);
      var k := FirstOpen(s, p, x, y, order, EmptyCell, 0);
      if e < 4 {
        SharkEats(s, p, x, y, order, e);
      } else if k < 4 {
        SharkMoves(s, p, x, y, order, k);
      } else {
        SharkStays(s, p, x, y, order);
      }
    }
  }

  lemma {:induction false} AttemptsDisciplined(x: int, y: int, order: seq<Offset>, p: Params, L: Layout, n: int)
    requires p.width > 0 && p.height > 0 && Spans(L, p.width, p.height)
    requires 0 <= x < p.width && 0 <= y < p.height && UnitSteps(order) && 0 <= n <= 4
    ensures Disciplined(Attempts(x, y, order, p, L, n), L.rows)
  {
    if n == 0 {
      assert Replay([], [], L.rows) == Holds([]);
    } else {
      var d := Nb(x, y, order, n - 1, p);
      AttemptsDisciplined(x, y, order, p, L, n - 1);
      SectionDisciplined(TileOf(x, y, L), TileOf(d.0, d.1, L), L.rows);
      DisciplinedAppend(Attempts(x, y, order, p, L, n - 1), Section(TileOf(x, y, L), TileOf(d.0, d.1, L), L.rows), L.rows);
    }
  }

  /** Every turn locks tiles in the global order, releases them last-in first-out and
      ends holding nothing. */
  lemma CellTraceDisciplined(s: World, p: Params, L: Layout, x: int, y: int, order: seq<Offset>)
    requires Sized(s, p) && Spans(L, p.width, p.height)
    requires 0 <= x < p.width && 0 <= y < p.height && UnitSteps(order)
    ensures Disciplined(CellTrace(s, p, L, x, y, order), L.rows)
  {
    var src := TileOf(x, y, L);
    SoleSectionDisciplined(src, L.rows);
    assert Replay([], [], L.rows) == Holds([]);
    forall n | 0 <= n <= 4
      ensures Disciplined(Attempts(x, y, order, p, L, n), L.rows)
    {
      AttemptsDisciplined(x, y, order, p, L, n);
    }
    var all := Attempts(x, y, order, p, L, 4);
    var e := FirstOpen(s, p, x, y, order, FishCell, 0);
    var k := FirstOpen(s, p, x, y, order, EmptyCell, 0);
    DisciplinedAppend(all, SoleSection(src), L.rows);
    if k < 4 {
      DisciplinedAppend(all, Attempts(x, y, order, p, L, k + 1), L.rows);
    }
    DisciplinedAppend(all, all, L.rows);
    DisciplinedAppend(all + all, SoleSection(src), L.rows);
  }

  /** A fish that a shark has eaten is gone from the current grid before its own cell is
      visited, so when that cell comes up, nothing happens there. */
  lemma EatenFishLosesTurn(s: World, p: Params, x: int, y: int, order: seq<Offset>, k: int,
                           order2: seq<Offset>)
    requires Sized(s, p) && 0 <= x < p.width && 0 <= y < p.height && UnitSteps(order) && UnitSteps(order2)
    requires s.current.cells[x][y] == SharkCell && FirstOpenAt(s, p, x, y, order, FishCell, k)
    ensures var r := StepCell(s, p, x, y, order);
            var d := Nb(x, y, order, k, p);
            s.current.cells[d.0][d.1] == FishCell && StepCell(r, p, d.0, d.1, order2) == r
  {
    SharkEats(s, p, x, y, order, k);
  }

  /** A fish that moved without breeding is still a fish in the current grid, and its old
      cell is still unclaimed in the buffer: a shark visited later can eat it there, while
      the fish it moved as stays in the buffer at its destination. */
  lemma MovedFishStillEdible(s: World, p: Params, x: int, y: int, order: seq<Offset>, k: int)
    requires Sized(s, p) && 0 <= x < p.width && 0 <= y < p.height && UnitSteps(order)
    requires s.current.cells[x][y] == FishCell && FirstOpenAt(s, p, x, y, order, EmptyCell, k)
    requires s.current.breed[x][y] - 1 > 0 && s.next.cells[x][y] == EmptyCell
    ensures var r := StepCell(s, p, x, y, order);
            var d := Nb(x, y, order, k, p);
            && r.next.cells[d.0][d.1] == FishCell
            && Open(r, p, (x, y), FishCell)
  {
    FishMoves(s, p, x, y, order, k);
  }
}
