/** One whole tick with a single worker: clear the buffers, visit the tiles in `tx`,
    `ty` order and their cells column by column, then swap the generations. */
module Ticks {
  import opened Planes
  import opened Geometry
  import opened Locks
  import opened Agents
  import opened AgentFacts
  import opened Visit

  /** One shuffled direction list for every cell, `orders[x][y]`. */
  predicate OrdersFit(orders: seq<seq<seq<Offset>>>, w: int, h: int) {
    |orders| == w && forall i :: 0 <= i < w ==> |orders[i]| == h && forall j :: 0 <= j < h ==> IsShuffle(orders[i][j])
  }

  /** The turn at cell `c` with its own shuffled directions. The loops only visit grid
      cells of a well-shaped world; anywhere else it changes nothing. */
  function TurnAt(s: World, p: Params, orders: seq<seq<seq<Offset>>>, c: Cell): (r: World)
    ensures Sized(s, p) ==> Sized(r, p)
  {
    if Sized(s, p) && InGrid(c.0, c.1, p.width, p.height) && OrdersFit(orders, p.width, p.height) then
      ShuffleSteps(orders[c.0][c.1]);
      StepCell(s, p, c.0, c.1, orders[c.0][c.1])
    else s
  }

  /** The lock events of the turn at cell `c`. */
  function TurnEvents(s: World, p: Params, L: Layout, orders: seq<seq<seq<Offset>>>, c: Cell): seq<LockEvent> {
    if Sized(s, p) && Spans(L, p.width, p.height) && InGrid(c.0, c.1, p.width, p.height)
       && OrdersFit(orders, p.width, p.height) then
      ShuffleSteps(orders[c.0][c.1]);
      CellTrace(s, p, L, c.0, c.1, orders[c.0][c.1])
    else []
  }

  function Turns(p: Params, orders: seq<seq<seq<Offset>>>): (World, Cell) -> World {
    (s: World, c: Cell) => TurnAt(s, p, orders, c)
  }

  function TurnTraces(p: Params, L: Layout, orders: seq<seq<seq<Offset>>>): (World, Cell) -> seq<LockEvent> {
    (s: World, c: Cell) => TurnEvents(s, p, L, orders, c)
  }

  lemma {:induction false} StepsSized(s: World, p: Params, orders: seq<seq<seq<Offset>>>, cs: seq<Cell>)
    requires Sized(s, p)
    ensures Sized(Steps(Turns(p, orders), s, cs), p)
    decreases |cs|
  {
    if cs != [] {
      StepsSized(s, p, orders, cs[..|cs| - 1]);
    }
  }

  lemma {:induction false} ColumnRunSized(s: World, p: Params, orders: seq<seq<seq<Offset>>>, x: int, y: int, ey: int)
    requires Sized(s, p)
    ensures Sized(ColumnRun(Turns(p, orders), s, x, y, ey), p)
    decreases ey - y
  {
    if y < ey {
      ColumnRunSized(Turns(p, orders)(s, (x, y)), p, orders, x, y + 1, ey);
    }
  }

  lemma {:induction false} RectRunSized(s: World, p: Params, orders: seq<seq<seq<Offset>>>, r: Rect, x: int)
    requires Sized(s, p)
    ensures Sized(RectRun(Turns(p, orders), s, r, x), p)
    decreases r.ex - x
  {
    if x < r.ex {
      ColumnRunSized(s, p, orders, x, r.sy, r.ey);
      RectRunSized(ColumnRun(Turns(p, orders), s, x, r.sy, r.ey), p, orders, r, x + 1);
    }
  }

  lemma {:induction false} TilesRunSized(s: World, p: Params, orders: seq<seq<seq<Offset>>>, L: Layout, tx: nat, ty: nat)
    requires Sized(s, p)
    ensures Sized(TilesRun(Turns(p, orders), s, L, p.width, p.height, tx, ty), p)
    decreases L.cols - tx, L.rows - ty
  {
    if tx < L.cols {
      if ty >= L.rows {
        TilesRunSized(s, p, orders, L, tx + 1, 0);
      } else {
        var r := TileRect(L, tx, ty, p.width, p.height);
        if Skipped(r) {
          TilesRunSized(s, p, orders, L, tx, ty + 1);
        } else {
          RectRunSized(s, p, orders, r, r.sx);
          TilesRunSized(RectRun(Turns(p, orders), s, r, r.sx), p, orders, L, tx, ty + 1);
        }
      }
    }
  }

  /** No turn of a run overwrites a buffer cell that was already claimed when the run
      began. */
  lemma {:induction false} StepsKeepClaims(s: World, p: Params, orders: seq<seq<seq<Offset>>>, cs: seq<Cell>)
    requires Sized(s, p)
    ensures Sized(Steps(Turns(p, orders), s, cs), p)
    ensures KeepsClaims(s, Steps(Turns(p, orders), s, cs), p)
    decreases |cs|
  {
    StepsSized(s, p, orders, cs);
    if cs != [] {
      var c := cs[|cs| - 1];
      var m := Steps(Turns(p, orders), s, cs[..|cs| - 1]);
      StepsKeepClaims(s, p, orders, cs[..|cs| - 1]);
      var r := TurnAt(m, p, orders, c);
      if InGrid(c.0, c.1, p.width, p.height) && OrdersFit(orders, p.width, p.height) {
        ShuffleSteps(orders[c.0][c.1]);
        StepKeepsClaims(m, p, c.0, c.1, orders[c.0][c.1]);
      }
      forall i, j | 0 <= i < p.width && 0 <= j < p.height && s.next.cells[i][j] != EmptyCell
        ensures SameNextAt(s, r, p, i, j)
      {
        assert SameNextAt(s, m, p, i, j);
      }
    }
  }

  lemma {:induction false} StepsKeepResting(s: World, p: Params, orders: seq<seq<seq<Offset>>>, cs: seq<Cell>)
    requires Sized(s, p) && PositiveTimers(p)
    requires Resting(s.next, p.width, p.height) && Kinds(s.current, p.width, p.height)
    ensures Sized(Steps(Turns(p, orders), s, cs), p)
    ensures var r := Steps(Turns(p, orders), s, cs);
            Resting(r.next, p.width, p.height) && Kinds(r.current, p.width, p.height)
    decreases |cs|
  {
    StepsSized(s, p, orders, cs);
    if cs != [] {
      var c := cs[|cs| - 1];
      var m := Steps(Turns(p, orders), s, cs[..|cs| - 1]);
      StepsKeepResting(s, p, orders, cs[..|cs| - 1]);
      if InGrid(c.0, c.1, p.width, p.height) && OrdersFit(orders, p.width, p.height) {
        ShuffleSteps(orders[c.0][c.1]);
        StepKeepsResting(m, p, c.0, c.1, orders[c.0][c.1]);
      }
    }
  }

  /** The lock events of any run of turns follow the global lock order. */
  lemma {:induction false} EventsDisciplined(s: World, p: Params, L: Layout, orders: seq<seq<seq<Offset>>>, cs: seq<Cell>)
    requires Spans(L, p.width, p.height)
    ensures Disciplined(Events(Turns(p, orders), TurnTraces(p, L, orders), s, cs), L.rows)
    decreases |cs|
  {
    if cs == [] {
      assert Replay([], [], L.rows) == Holds([]);
    } else {
      var c := cs[|cs| - 1];
      var init := cs[..|cs| - 1];
      var m := Steps(Turns(p, orders), s, init);
      EventsDisciplined(s, p, L, orders, init);
      if Sized(m, p) && InGrid(c.0, c.1, p.width, p.height) && OrdersFit(orders, p.width, p.height) {
        ShuffleSteps(orders[c.0][c.1]);
        CellTraceDisciplined(m, p, L, c.0, c.1, orders[c.0][c.1]);
      } else {
        assert Replay([], [], L.rows) == Holds([]);
      }
      DisciplinedAppend(Events(Turns(p, orders), TurnTraces(p, L, orders), s, init), TurnEvents(m, p, L, orders, c), L.rows);
    }
  }

  /** The cleared buffers: a generation of zeros. */
  function Cleared(w: nat, h: nat): (g: Generation)
    ensures GenShaped(g, w, h) && Resting(g, w, h)
  {
    Generation(Filled(w, h, EmptyCell), Filled(w, h, 0), Filled(w, h, 0))
  }

  /** The tile grid `update` uses after clamping the worker count. */
  function TickLayout(p: Params, threads: int): (L: Layout)
    requires p.width > 0 && p.height > 0
    ensures Spans(L, p.width, p.height)
  {
    LayoutSpans(ClampThreads(threads, p.width), p.width, p.height);
    LayoutFor(ClampThreads(threads, p.width), p.width, p.height)
  }

  /** The world at the end of the tile loops: the (possibly eaten into) read grid and the
      built buffers. */
  function Built(g: Generation, p: Params, threads: int, orders: seq<seq<seq<Offset>>>): (r: World)
    requires p.width > 0 && p.height > 0 && GenShaped(g, p.width, p.height)
    ensures Sized(r, p)
  {
    var L := TickLayout(p, threads);
    var s := World(g, Cleared(p.width, p.height));
    TilesRunSized(s, p, orders, L, 0, 0);
    TilesRun(Turns(p, orders), s, L, p.width, p.height, 0, 0)
  }

  /** One call of `update`: the buffers built from the grid become the grid, and the old
      grid (with its eaten fish cleared) becomes the buffers. */
  function Tick(s: World, p: Params, threads: int, orders: seq<seq<seq<Offset>>>): (r: World)
    requires Sized(s, p)
    ensures Sized(r, p)
  {
    var b := Built(s.current, p, threads, orders);
    World(b.next, b.current)
  }

  /** The lock events of one call of `update`. */
  function TickTrace(s: World, p: Params, threads: int, orders: seq<seq<seq<Offset>>>): seq<LockEvent>
    requires Sized(s, p)
  {
    var L := TickLayout(p, threads);
    TilesEvents(Turns(p, orders), TurnTraces(p, L, orders), World(s.current, Cleared(p.width, p.height)),
                L, p.width, p.height, 0, 0, [])
  }

  /** The tile loops of a tick give every cell of the grid exactly one turn: the built
      world is the turns of `VisitOrder` taken in order, and every cell of the grid occurs
      in it exactly once. */
  lemma TickVisitsEachCellOnce(g: Generation, p: Params, threads: int, orders: seq<seq<seq<Offset>>>)
    requires p.width > 0 && p.height > 0 && GenShaped(g, p.width, p.height)
    requires OrdersFit(orders, p.width, p.height)
    ensures var L := TickLayout(p, threads);
            var cs := VisitOrder(L, p.width, p.height);
            && Built(g, p, threads, orders) == Steps(Turns(p, orders), World(g, Cleared(p.width, p.height)), cs)
            && (forall c: Cell :: 0 <= c.0 < p.width && 0 <= c.1 < p.height ==> Occurrences(cs, c) == 1)
  {
    var L := TickLayout(p, threads);
    TilesRunSteps(Turns(p, orders), TurnTraces(p, L, orders), World(g, Cleared(p.width, p.height)),
                  L, p.width, p.height, 0, 0, []);
    forall c: Cell | 0 <= c.0 < p.width && 0 <= c.1 < p.height
      ensures Occurrences(VisitOrder(L, p.width, p.height), c) == 1
    {
      VisitOrderExactlyOnce(threads, p.width, p.height, c);
    }
  }

  /** Inside the grid, each turn of the fold is the `StepCell` of its cell, and its events
      are that cell's `CellTrace`. */
  lemma TurnIsStep(s: World, p: Params, L: Layout, orders: seq<seq<seq<Offset>>>, c: Cell)
    requires Sized(s, p) && Spans(L, p.width, p.height) && OrdersFit(orders, p.width, p.height)
    requires 0 <= c.0 < p.width && 0 <= c.1 < p.height
    ensures UnitSteps(orders[c.0][c.1])
    ensures Turns(p, orders)(s, c) == StepCell(s, p, c.0, c.1, orders[c.0][c.1])
    ensures TurnTraces(p, L, orders)(s, c) == CellTrace(s, p, L, c.0, c.1, orders[c.0][c.1])
  {
    ShuffleSteps(orders[c.0][c.1]);
  }

  /** First claim wins across a tick: once the first `n` turns of the visit order have
      claimed a buffer cell, the rest of the tick leaves that cell and its timers alone. */
  lemma TickClaimsStick(g: Generation, p: Params, threads: int, orders: seq<seq<seq<Offset>>>, n: nat)
    requires p.width > 0 && p.height > 0 && GenShaped(g, p.width, p.height)
    requires n <= |VisitOrder(TickLayout(p, threads), p.width, p.height)|
    ensures var cs := VisitOrder(TickLayout(p, threads), p.width, p.height);
            var m := Steps(Turns(p, orders), World(g, Cleared(p.width, p.height)), cs[..n]);
            Sized(m, p) && KeepsClaims(m, Built(g, p, threads, orders), p)
  {
    var L := TickLayout(p, threads);
    var cs := VisitOrder(L, p.width, p.height);
    var s := World(g, Cleared(p.width, p.height));
    var T := Turns(p, orders);
    BuiltSteps(g, p, threads, orders);
    StepsSplit(T, s, cs, n);
    StepsSized(s, p, orders, cs[..n]);
    StepsKeepClaims(Steps(T, s, cs[..n]), p, orders, cs[n..]);
  }

  /** The buffers built in a tick are the turns applied in visit order. */
  lemma BuiltSteps(g: Generation, p: Params, threads: int, orders: seq<seq<seq<Offset>>>)
    requires p.width > 0 && p.height > 0 && GenShaped(g, p.width, p.height)
    ensures Built(g, p, threads, orders) ==
            Steps(Turns(p, orders), World(g, Cleared(p.width, p.height)), VisitOrder(TickLayout(p, threads), p.width, p.height))
  {
    var L := TickLayout(p, threads);
    TilesRunSteps(Turns(p, orders), TurnTraces(p, L, orders), World(g, Cleared(p.width, p.height)), L, p.width, p.height, 0, 0, []);
  }

  /** With positive timer settings and a grid of 0s, 1s and 2s, the grid after a tick holds
      only 0s, 1s and 2s with non-negative timers, empty cells with zero timers and fish
      with a zero starve timer, whatever timers the grid held before. */
  lemma TickResting(s: World, p: Params, threads: int, orders: seq<seq<seq<Offset>>>)
    requires Sized(s, p) && PositiveTimers(p) && Kinds(s.current, p.width, p.height)
    ensures var r := Tick(s, p, threads, orders);
            Resting(r.current, p.width, p.height) && Kinds(r.next, p.width, p.height)
  {
    var L := TickLayout(p, threads);
    var s0 := World(s.current, Cleared(p.width, p.height));
    TilesRunSteps(Turns(p, orders), TurnTraces(p, L, orders), s0, L, p.width, p.height, 0, 0, []);
    StepsKeepResting(s0, p, orders, VisitOrder(L, p.width, p.height));
  }

  /** The lock events of a tick follow the global lock order. */
  lemma TickDisciplined(s: World, p: Params, threads: int, orders: seq<seq<seq<Offset>>>)
    requires Sized(s, p)
    ensures Disciplined(TickTrace(s, p, threads, orders), TickLayout(p, threads).rows)
  {
    var L := TickLayout(p, threads);
    var s0 := World(s.current, Cleared(p.width, p.height));
    var cs := VisitOrder(L, p.width, p.height);
    TilesRunSteps(Turns(p, orders), TurnTraces(p, L, orders), s0, L, p.width, p.height, 0, 0, []);
    assert [] + Events(Turns(p, orders), TurnTraces(p, L, orders), s0, cs) == Events(Turns(p, orders), TurnTraces(p, L, orders), s0, cs);
    EventsDisciplined(s0, p, L, orders, cs);
  }
}
