/** `initWorld`: clear the grid, then drop `numFish` fish and `numShark` sharks on
    random cells, drawing again whenever a draw hits an occupied cell. The random
    coordinates are an input sequence of draws. */
module Seeding {
  import opened Planes
  import opened Agents
  import opened AgentFacts
  import opened Visit
  import opened Ticks

  /** Every draw is a cell of the grid, as `rand.Intn(width)`, `rand.Intn(height)` are. */
  predicate Draws(ds: seq<Cell>, w: int, h: int) {
    forall k :: 0 <= k < |ds| ==> InGrid(ds[k].0, ds[k].1, w, h)
  }

  predicate IsAgent(kind: int) {
    kind == FishCell || kind == SharkCell
  }

  /** A fish with `breedTimer = fishBreed`, or a shark with `breedTimer = sharkBreed` and
      `starveTimer = sharkStarve`, placed at `c`. */
  function Place(g: Generation, p: Params, kind: int, c: Cell): (r: Generation)
    requires GenShaped(g, p.width, p.height) && InGrid(c.0, c.1, p.width, p.height)
    ensures GenShaped(r, p.width, p.height)
  {
    if kind == FishCell then PutFish(g, c.0, c.1, p.fishBreed, p.width, p.height)
    else PutShark(g, c.0, c.1, p.sharkBreed, p.sharkStarve, p.width, p.height)
  }

  /** The generation after a placement loop, the draws it left unused, and how many
      agents it placed. */
  datatype Placement = Placement(gen: Generation, rest: seq<Cell>, placed: nat)

  /** One placement loop of `initWorld` for `n` agents of `kind`: a draw on an empty
      cell places an agent there, a draw on an occupied cell is repeated (`i--`). The
      loop ends once `n` agents are placed or the draws run out. */
  function Populate(g: Generation, p: Params, kind: int, n: int, draws: seq<Cell>): (r: Placement)
    requires GenShaped(g, p.width, p.height) && Draws(draws, p.width, p.height)
    ensures GenShaped(r.gen, p.width, p.height) && Draws(r.rest, p.width, p.height)
    ensures r.placed <= NonNeg(n)
    ensures r.placed == NonNeg(n) || r.rest == []
    decreases |draws|
  {
    if n <= 0 || draws == [] then Placement(g, draws, 0)
    else
      var c := draws[0];
      if g.cells[c.0][c.1] == EmptyCell then
        var r := Populate(Place(g, p, kind, c), p, kind, n - 1, draws[1..]);
        r.(placed := r.placed + 1)
      else Populate(g, p, kind, n, draws[1..])
  }

  /** One round of the placement loop: a draw on an empty cell places an agent and
      leaves one fewer to place, a draw on a taken cell only uses up the draw. */
  lemma PopulateRound(g: Generation, p: Params, kind: int, n: int, draws: seq<Cell>)
    requires GenShaped(g, p.width, p.height) && Draws(draws, p.width, p.height)
    requires n > 0 && draws != []
    ensures var c := draws[0];
            var r := Populate(g, p, kind, n, draws);
            if g.cells[c.0][c.1] == EmptyCell then
              var q := Populate(Place(g, p, kind, c), p, kind, n - 1, draws[1..]);
              r.gen == q.gen && r.rest == q.rest && r.placed == q.placed + 1
            else
              r == Populate(g, p, kind, n, draws[1..])
  {
  }

  /** Cell `(i, j)` of `r` is that of `g`, or it was empty in `g` and now holds a freshly
      seeded agent of `kind`. */
  predicate SeedsAt(g: Generation, r: Generation, p: Params, kind: int, i: int, j: int)
    requires GenShaped(g, p.width, p.height) && GenShaped(r, p.width, p.height)
    requires 0 <= i < p.width && 0 <= j < p.height
  {
    || (r.cells[i][j] == g.cells[i][j] && r.breed[i][j] == g.breed[i][j] && r.starve[i][j] == g.starve[i][j])
    || (&& g.cells[i][j] == EmptyCell && r.cells[i][j] == kind
        && r.breed[i][j] == (if kind == FishCell then p.fishBreed else p.sharkBreed)
        && r.starve[i][j] == (if kind == FishCell then g.starve[i][j] else p.sharkStarve))
  }

  predicate Seeds(g: Generation, r: Generation, p: Params, kind: int)
    requires GenShaped(g, p.width, p.height) && GenShaped(r, p.width, p.height)
  {
    forall i, j :: 0 <= i < p.width && 0 <= j < p.height ==> SeedsAt(g, r, p, kind, i, j)
  }

  /** A placement loop changes the counts by exactly the agents it placed: `placed` more
      cells hold `kind`, `placed` fewer are empty, and every other count stays. */
  lemma {:induction false} PopulateCounts(g: Generation, p: Params, kind: int, n: int, draws: seq<Cell>, v: int)
    requires GenShaped(g, p.width, p.height) && Draws(draws, p.width, p.height) && IsAgent(kind)
    ensures var r := Populate(g, p, kind, n, draws);
            Count(r.gen.cells, v) ==
            Count(g.cells, v) + (if v == kind then r.placed else 0) - (if v == EmptyCell then r.placed else 0)
    decreases |draws|
  {
    if n > 0 && draws != [] {
      var c := draws[0];
      if g.cells[c.0][c.1] == EmptyCell {
        var g1 := Place(g, p, kind, c);
        assert g1.cells == Put(g.cells, c.0, c.1, kind);
        CountPut(g.cells, c.0, c.1, kind, v);
        PopulateCounts(g1, p, kind, n - 1, draws[1..], v);
      } else {
        PopulateCounts(g, p, kind, n, draws[1..], v);
      }
    }
  }

  /** A placement loop only fills empty cells, leaves every occupied cell and its timers
      alone, and gives every agent it places its kind's initial timers. */
  lemma {:induction false} PopulateSeeds(g: Generation, p: Params, kind: int, n: int, draws: seq<Cell>)
    requires GenShaped(g, p.width, p.height) && Draws(draws, p.width, p.height) && IsAgent(kind)
    ensures Seeds(g, Populate(g, p, kind, n, draws).gen, p, kind)
    decreases |draws|
  {
    var r := Populate(g, p, kind, n, draws).gen;
    if n > 0 && draws != [] {
      var c := draws[0];
      if g.cells[c.0][c.1] == EmptyCell {
        var g1 := Place(g, p, kind, c);
        PopulateSeeds(g1, p, kind, n - 1, draws[1..]);
        forall i, j | 0 <= i < p.width && 0 <= j < p.height
          ensures SeedsAt(g, r, p, kind, i, j)
        {
          assert SeedsAt(g1, r, p, kind, i, j);
        }
      } else {
        PopulateSeeds(g, p, kind, n, draws[1..]);
      }
    } else {
      assert r == g;
    }
  }

  /** The state `initWorld` leaves cell `(i, j)` in: empty with zero timers, a fish with
      `breedTimer = fishBreed` and no starve timer, or a shark with `breedTimer =
      sharkBreed` and `starveTimer = sharkStarve`. */
  predicate FreshCell(g: Generation, p: Params, i: int, j: int)
    requires GenShaped(g, p.width, p.height) && 0 <= i < p.width && 0 <= j < p.height
  {
    || (g.cells[i][j] == EmptyCell && g.breed[i][j] == 0 && g.starve[i][j] == 0)
    || (g.cells[i][j] == FishCell && g.breed[i][j] == p.fishBreed && g.starve[i][j] == 0)
    || (g.cells[i][j] == SharkCell && g.breed[i][j] == p.sharkBreed && g.starve[i][j] == p.sharkStarve)
  }

  /** What `initWorld` produces: the seeded grid and the number of fish and sharks placed. */
  datatype Seeded = Seeded(gen: Generation, fish: nat, sharks: nat)

  function InitialGrid(p: Params, numFish: int, numShark: int, draws: seq<Cell>): (r: Seeded)
    requires p.width > 0 && p.height > 0 && Draws(draws, p.width, p.height)
    ensures GenShaped(r.gen, p.width, p.height)
    ensures r.fish <= NonNeg(numFish) && r.sharks <= NonNeg(numShark)
  {
    var f := Populate(Cleared(p.width, p.height), p, FishCell, numFish, draws);
    var s := Populate(f.gen, p, SharkCell, numShark, f.rest);
    Seeded(s.gen, f.placed, s.placed)
  }

  /** Enough draws place every agent. */
  predicate Complete(r: Seeded, numFish: int, numShark: int) {
    r.fish == NonNeg(numFish) && r.sharks == NonNeg(numShark)
  }

  /** After `initWorld` the grid holds exactly the fish and sharks it placed and every
      other cell is empty; when the draws sufficed, `countFish` sees `numFish` fish and
      there are `numShark` sharks. */
  lemma InitialGridCounts(p: Params, numFish: int, numShark: int, draws: seq<Cell>)
    requires p.width > 0 && p.height > 0 && Draws(draws, p.width, p.height)
    ensures var r := InitialGrid(p, numFish, numShark, draws);
            && Count(r.gen.cells, FishCell) == r.fish
            && Count(r.gen.cells, SharkCell) == r.sharks
            && Count(r.gen.cells, EmptyCell) == p.width * p.height - r.fish - r.sharks
            && (Complete(r, numFish, numShark) ==>
                  && Count(r.gen.cells, FishCell) == NonNeg(numFish)
                  && Count(r.gen.cells, SharkCell) == NonNeg(numShark)
                  && Count(r.gen.cells, EmptyCell) == p.width * p.height - NonNeg(numFish) - NonNeg(numShark))
  {
    var w, h := p.width, p.height;
    var g0 := Cleared(w, h);
    var f := Populate(g0, p, FishCell, numFish, draws);
    CountFilled(w, h, EmptyCell, FishCell);
    CountFilled(w, h, EmptyCell, SharkCell);
    CountFilled(w, h, EmptyCell, EmptyCell);
    PopulateCounts(g0, p, FishCell, numFish, draws, FishCell);
    PopulateCounts(g0, p, FishCell, numFish, draws, SharkCell);
    PopulateCounts(g0, p, FishCell, numFish, draws, EmptyCell);
    PopulateCounts(f.gen, p, SharkCell, numShark, f.rest, FishCell);
    PopulateCounts(f.gen, p, SharkCell, numShark, f.rest, SharkCell);
    PopulateCounts(f.gen, p, SharkCell, numShark, f.rest, EmptyCell);
  }

  /** After `initWorld` every cell is empty with zero timers, a new fish or a new shark
      with its initial timers; so it holds 0, 1 or 2, and with non-negative settings the
      grid is in the between-ticks shape a tick expects. */
  lemma InitialGridCells(p: Params, numFish: int, numShark: int, draws: seq<Cell>)
    requires p.width > 0 && p.height > 0 && Draws(draws, p.width, p.height)
    ensures var r := InitialGrid(p, numFish, numShark, draws);
            && (forall i, j :: 0 <= i < p.width && 0 <= j < p.height ==> FreshCell(r.gen, p, i, j))
            && Kinds(r.gen, p.width, p.height)
            && (p.fishBreed >= 0 && p.sharkBreed >= 0 && p.sharkStarve >= 0 ==> Resting(r.gen, p.width, p.height))
  {
    var w, h := p.width, p.height;
    var g0 := Cleared(w, h);
    var f := Populate(g0, p, FishCell, numFish, draws);
    var s := Populate(f.gen, p, SharkCell, numShark, f.rest);
    var r := InitialGrid(p, numFish, numShark, draws);
    PopulateSeeds(g0, p, FishCell, numFish, draws);
    PopulateSeeds(f.gen, p, SharkCell, numShark, f.rest);
    forall i, j | 0 <= i < w && 0 <= j < h
      ensures FreshCell(r.gen, p, i, j)
    {
      assert SeedsAt(g0, f.gen, p, FishCell, i, j);
      assert SeedsAt(f.gen, s.gen, p, SharkCell, i, j);
    }
    forall i, j | 0 <= i < w && 0 <= j < h
      ensures 0 <= r.gen.cells[i][j] <= 2
    {
      assert FreshCell(r.gen, p, i, j);
    }
    if p.fishBreed >= 0 && p.sharkBreed >= 0 && p.sharkStarve >= 0 {
      forall i, j | 0 <= i < w && 0 <= j < h
        ensures SaneCell(r.gen, w, h, i, j)
      {
        assert FreshCell(r.gen, p, i, j);
      }
    }
  }
}
