/** The order in which one worker visits the cells in a tick: tile by tile in `tx`, `ty`
    order, and inside a tile column by column; the fact that it visits every cell
    exactly once; and the loops of a tick as a fold of one turn over that order, for any
    turn `step` and any per-turn event list `events`. */
module Visit {
  import opened Planes
  import opened Geometry

  type Cell = (int, int)

  /** The cells `(x, y) .. (x, ey - 1)`, in the order the inner `y` loop visits them. */
  function ColumnCells(x: int, y: int, ey: int): seq<Cell>
    decreases ey - y
  {
    if y >= ey then [] else [(x, y)] + ColumnCells(x, y + 1, ey)
  }

  /** The columns `x .. r.ex - 1` of tile `r`, one after the other. */
  function RectCells(r: Rect, x: int): seq<Cell>
    decreases r.ex - x
  {
    if x >= r.ex then [] else ColumnCells(x, r.sy, r.ey) + RectCells(r, x + 1)
  }

  function TileCells(r: Rect): seq<Cell> {
    RectCells(r, r.sx)
  }

  /** The cells of tile `(tx, ty)` and of every tile the tile loops reach after it. */
  function TilesFrom(L: Layout, w: int, h: int, tx: nat, ty: nat): seq<Cell>
    decreases L.cols - tx, L.rows - ty
  {
    if tx >= L.cols then []
    else if ty >= L.rows then TilesFrom(L, w, h, tx + 1, 0)
    else TileCells(TileRect(L, tx, ty, w, h)) + TilesFrom(L, w, h, tx, ty + 1)
  }

  /** All cells in the order one worker visits them. */
  function VisitOrder(L: Layout, w: int, h: int): seq<Cell> {
    TilesFrom(L, w, h, 0, 0)
  }

  /** Number of occurrences of `c` in `cs`. */
  function Occurrences(cs: seq<Cell>, c: Cell): nat {
    if cs == [] then 0 else Occurrences(cs[..|cs| - 1], c) + (if cs[|cs| - 1] == c then 1 else 0)
  }

  lemma {:induction false} OccurrencesAppend(a: seq<Cell>, b: seq<Cell>, c: Cell)
    ensures Occurrences(a + b, c) == Occurrences(a, c) + Occurrences(b, c)
    decreases |b|
  {
    if b == [] {
      assert a + b == a;
    } else {
      assert (a + b)[..|a + b| - 1] == a + b[..|b| - 1];
      OccurrencesAppend(a, b[..|b| - 1], c);
    }
  }

  lemma {:induction false} ColumnOccurrences(x: int, y: int, ey: int, c: Cell)
    ensures Occurrences(ColumnCells(x, y, ey), c) == if c.0 == x && y <= c.1 < ey then 1 else 0
    decreases ey - y
  {
    if y < ey {
      ColumnOccurrences(x, y + 1, ey, c);
      OccurrencesAppend([(x, y)], ColumnCells(x, y + 1, ey), c);
      assert [(x, y)][..0] == [];
    }
  }

  lemma {:induction false} RectOccurrences(r: Rect, x: int, c: Cell)
    ensures Occurrences(RectCells(r, x), c) == if x <= c.0 < r.ex && r.sy <= c.1 < r.ey then 1 else 0
    decreases r.ex - x
  {
    if x < r.ex {
      RectOccurrences(r, x + 1, c);
      ColumnOccurrences(x, r.sy, r.ey, c);
      OccurrencesAppend(ColumnCells(x, r.sy, r.ey), RectCells(r, x + 1), c);
    }
  }

  lemma TileOccurrences(r: Rect, c: Cell)
    ensures Occurrences(TileCells(r), c) == if InRect(r, c.0, c.1) then 1 else 0
  {
    RectOccurrences(r, r.sx, c);
  }

  lemma {:induction false} TilesFromOccurrences(L: Layout, w: int, h: int, tx: nat, ty: nat, c: Cell)
    requires Spans(L, w, h) && 0 <= c.0 < w && 0 <= c.1 < h
    ensures var o := TileOf(c.0, c.1, L);
            Occurrences(TilesFrom(L, w, h, tx, ty), c) == if tx < o.0 || (tx == o.0 && ty <= o.1) then 1 else 0
    decreases L.cols - tx, L.rows - ty
  {
    TileIndex(L, w, h, c.0, c.1);
    if tx < L.cols {
      if ty >= L.rows {
        TilesFromOccurrences(L, w, h, tx + 1, 0, c);
      } else {
        var r := TileRect(L, tx, ty, w, h);
        var rest := TilesFrom(L, w, h, tx, ty + 1);
        assert TilesFrom(L, w, h, tx, ty) == TileCells(r) + rest;
        TilesFromOccurrences(L, w, h, tx, ty + 1, c);
        TileOccurrences(r, c);
        TileMembership(L, w, h, c.0, c.1, tx, ty);
        OccurrencesAppend(TileCells(r), rest, c);
      }
    }
  }

  /** Every cell of the grid is visited exactly once in a tick, whatever the worker
      count: the tiles partition the grid and skipping empty tiles loses nothing. */
  lemma VisitOrderExactlyOnce(threads: int, w: int, h: int, c: Cell)
    requires w > 0 && h > 0 && 0 <= c.0 < w && 0 <= c.1 < h
    ensures Occurrences(VisitOrder(LayoutFor(ClampThreads(threads, w), w, h), w, h), c) == 1
  {
    var L := LayoutFor(ClampThreads(threads, w), w, h);
    TileSizing(threads, w, h);
    TileIndex(L, w, h, c.0, c.1);
    TilesFromOccurrences(L, w, h, 0, 0, c);
  }

  lemma {:induction false} RectEmpty(r: Rect, x: int)
    requires r.ey <= r.sy
    ensures RectCells(r, x) == []
    decreases r.ex - x
  {
    if x < r.ex {
      RectEmpty(r, x + 1);
    }
  }

  /** A tile the loops skip has no cells, so skipping it loses no turn. */
  lemma SkippedTileEmpty(r: Rect)
    requires Skipped(r)
    ensures TileCells(r) == []
  {
    if r.sy >= r.ey {
      RectEmpty(r, r.sx);
    }
  }

  /** The turns at `cs`, taken one after the other from `s`. */
  function Steps<S>(step: (S, Cell) -> S, s: S, cs: seq<Cell>): S
    decreases |cs|
  {
    if cs == [] then s else step(Steps(step, s, cs[..|cs| - 1]), cs[|cs| - 1])
  }

  /** The events of the turns at `cs`, each drawn from the state its turn starts in. */
  function Events<S, E>(step: (S, Cell) -> S, events: (S, Cell) -> seq<E>, s: S, cs: seq<Cell>): seq<E>
    decreases |cs|
  {
    if cs == [] then []
    else
      var init := cs[..|cs| - 1];
      Events(step, events, s, init) + events(Steps(step, s, init), cs[|cs| - 1])
  }

  /** Turns and events of `a + b` are those of `a`, then those of `b` from where `a` ends. */
  lemma {:induction false} StepsConcat<S, E>(step: (S, Cell) -> S, events: (S, Cell) -> seq<E>, s: S, a: seq<Cell>, b: seq<Cell>)
    ensures Steps(step, s, a + b) == Steps(step, Steps(step, s, a), b)
    ensures Events(step, events, s, a + b) == Events(step, events, s, a) + Events(step, events, Steps(step, s, a), b)
    decreases |b|
  {
    if b == [] {
      assert a + b == a;
    } else {
      var b' := b[..|b| - 1];
      assert (a + b)[..|a + b| - 1] == a + b';
      assert (a + b)[|a + b| - 1] == b[|b| - 1];
      StepsConcat(step, events, s, a, b');
    }
  }

  /** The turns over `cs` are those over its first `n` cells, then those over the rest. */
  lemma StepsSplit<S>(step: (S, Cell) -> S, s: S, cs: seq<Cell>, n: nat)
    requires n <= |cs|
    ensures Steps(step, s, cs) == Steps(step, Steps(step, s, cs[..n]), cs[n..])
  {
    assert cs == cs[..n] + cs[n..];
    StepsConcat(step, (t: S, c: Cell) => [0], s, cs[..n], cs[n..]);
  }

  /** The first turn of `[c] + cs` is the one at `c`. */
  lemma StepsCons<S, E>(step: (S, Cell) -> S, events: (S, Cell) -> seq<E>, s: S, c: Cell, cs: seq<Cell>)
    ensures Steps(step, s, [c] + cs) == Steps(step, step(s, c), cs)
    ensures Events(step, events, s, [c] + cs) == events(s, c) + Events(step, events, step(s, c), cs)
  {
    assert [c][..0] == [];
    assert Events(step, events, s, [c]) == [] + events(s, c);
    assert [] + events(s, c) == events(s, c);
    StepsConcat(step, events, s, [c], cs);
  }

  /** The rest of the inner `y` loop: the turns at rows `y .. ey - 1` of column `x`. */
  function ColumnRun<S>(step: (S, Cell) -> S, s: S, x: int, y: int, ey: int): S
    decreases ey - y
  {
    if y >= ey then s else ColumnRun(step, step(s, (x, y)), x, y + 1, ey)
  }

  /** The events `acc` so far, followed by those of the rest of the `y` loop. */
  function ColumnEvents<S, E>(step: (S, Cell) -> S, events: (S, Cell) -> seq<E>, s: S, x: int, y: int, ey: int, acc: seq<E>): seq<E>
    decreases ey - y
  {
    if y >= ey then acc else ColumnEvents(step, events, step(s, (x, y)), x, y + 1, ey, acc + events(s, (x, y)))
  }

  /** The rest of the `x` loop: the `y` loops over columns `x .. r.ex - 1` of tile `r`. */
  function RectRun<S>(step: (S, Cell) -> S, s: S, r: Rect, x: int): S
    decreases r.ex - x
  {
    if x >= r.ex then s else RectRun(step, ColumnRun(step, s, x, r.sy, r.ey), r, x + 1)
  }

  function RectEvents<S, E>(step: (S, Cell) -> S, events: (S, Cell) -> seq<E>, s: S, r: Rect, x: int, acc: seq<E>): seq<E>
    decreases r.ex - x
  {
    if x >= r.ex then acc
    else RectEvents(step, events, ColumnRun(step, s, x, r.sy, r.ey), r, x + 1, ColumnEvents(step, events, s, x, r.sy, r.ey, acc))
  }

  /** The rest of the tile loops from tile `(tx, ty)` on, skipping the tiles `update`
      skips. */
  function TilesRun<S>(step: (S, Cell) -> S, s: S, L: Layout, w: int, h: int, tx: nat, ty: nat): S
    decreases L.cols - tx, L.rows - ty
  {
    if tx >= L.cols then s
    else if ty >= L.rows then TilesRun(step, s, L, w, h, tx + 1, 0)
    else
      var r := TileRect(L, tx, ty, w, h);
      TilesRun(step, if Skipped(r) then s else RectRun(step, s, r, r.sx), L, w, h, tx, ty + 1)
  }

  function TilesEvents<S, E>(step: (S, Cell) -> S, events: (S, Cell) -> seq<E>, s: S, L: Layout, w: int, h: int, tx: nat, ty: nat, acc: seq<E>): seq<E>
    decreases L.cols - tx, L.rows - ty
  {
    if tx >= L.cols then acc
    else if ty >= L.rows then TilesEvents(step, events, s, L, w, h, tx + 1, 0, acc)
    else
      var r := TileRect(L, tx, ty, w, h);
      if Skipped(r) then TilesEvents(step, events, s, L, w, h, tx, ty + 1, acc)
      else TilesEvents(step, events, RectRun(step, s, r, r.sx), L, w, h, tx, ty + 1, RectEvents(step, events, s, r, r.sx, acc))
  }

  /** Starting the `y` loop's events from `acc` only puts `acc` in front. */
  lemma {:induction false} ColumnEventsAcc<S, E>(step: (S, Cell) -> S, events: (S, Cell) -> seq<E>, s: S, x: int, y: int, ey: int, acc: seq<E>)
    ensures ColumnEvents(step, events, s, x, y, ey, acc) == acc + ColumnEvents(step, events, s, x, y, ey, [])
    decreases ey - y
  {
    if y >= ey {
      assert acc + [] == acc;
    } else {
      var e := events(s, (x, y));
      var s' := step(s, (x, y));
      ColumnEventsAcc(step, events, s', x, y + 1, ey, acc + e);
      ColumnEventsAcc(step, events, s', x, y + 1, ey, [] + e);
      assert [] + e == e;
      assert (acc + e) + ColumnEvents(step, events, s', x, y + 1, ey, []) ==
             acc + (e + ColumnEvents(step, events, s', x, y + 1, ey, []));
    }
  }

  /** Starting the `x` loop's events from `acc` only puts `acc` in front. */
  lemma {:induction false} RectEventsAcc<S, E>(step: (S, Cell) -> S, events: (S, Cell) -> seq<E>, s: S, r: Rect, x: int, acc: seq<E>)
    ensures RectEvents(step, events, s, r, x, acc) == acc + RectEvents(step, events, s, r, x, [])
    decreases r.ex - x
  {
    if x >= r.ex {
      assert acc + [] == acc;
    } else {
      var m := ColumnRun(step, s, x, r.sy, r.ey);
      var col := ColumnEvents(step, events, s, x, r.sy, r.ey, []);
      ColumnEventsAcc(step, events, s, x, r.sy, r.ey, acc);
      RectEventsAcc(step, events, m, r, x + 1, acc + col);
      RectEventsAcc(step, events, m, r, x + 1, col);
      assert (acc + col) + RectEvents(step, events, m, r, x + 1, []) ==
             acc + (col + RectEvents(step, events, m, r, x + 1, []));
    }
  }

  /** The rest of the `y` loop takes the turns of `ColumnCells`, in order. */
  lemma {:induction false} ColumnRunSteps<S, E>(step: (S, Cell) -> S, events: (S, Cell) -> seq<E>, s: S, x: int, y: int, ey: int, acc: seq<E>)
    ensures ColumnRun(step, s, x, y, ey) == Steps(step, s, ColumnCells(x, y, ey))
    ensures ColumnEvents(step, events, s, x, y, ey, acc) == acc + Events(step, events, s, ColumnCells(x, y, ey))
    decreases ey - y
  {
    if y >= ey {
      assert acc + [] == acc;
    } else {
      var c := (x, y);
      var rest := ColumnCells(x, y + 1, ey);
      var e := events(s, c);
      ColumnRunSteps(step, events, step(s, c), x, y + 1, ey, acc + e);
      StepsCons(step, events, s, c, rest);
      assert (acc + e) + Events(step, events, step(s, c), rest) == acc + (e + Events(step, events, step(s, c), rest));
    }
  }

  /** The rest of the `x` loop takes the turns of `RectCells`, in order. */
  lemma {:induction false} RectRunSteps<S, E>(step: (S, Cell) -> S, events: (S, Cell) -> seq<E>, s: S, r: Rect, x: int, acc: seq<E>)
    ensures RectRun(step, s, r, x) == Steps(step, s, RectCells(r, x))
    ensures RectEvents(step, events, s, r, x, acc) == acc + Events(step, events, s, RectCells(r, x))
    decreases r.ex - x
  {
    if x >= r.ex {
      assert acc + [] == acc;
    } else {
      var col := ColumnCells(x, r.sy, r.ey);
      var rest := RectCells(r, x + 1);
      var m := ColumnRun(step, s, x, r.sy, r.ey);
      var ce := ColumnEvents(step, events, s, x, r.sy, r.ey, acc);
      ColumnRunSteps(step, events, s, x, r.sy, r.ey, acc);
      RectRunSteps(step, events, m, r, x + 1, ce);
      StepsConcat(step, events, s, col, rest);
      assert (acc + Events(step, events, s, col)) + Events(step, events, m, rest) ==
             acc + (Events(step, events, s, col) + Events(step, events, m, rest));
    }
  }

  /** The rest of the tile loops takes the turns of `TilesFrom`, in order. */
  lemma {:induction false} TilesRunSteps<S, E>(step: (S, Cell) -> S, events: (S, Cell) -> seq<E>, s: S, L: Layout, w: int, h: int, tx: nat, ty: nat, acc: seq<E>)
    ensures TilesRun(step, s, L, w, h, tx, ty) == Steps(step, s, TilesFrom(L, w, h, tx, ty))
    ensures TilesEvents(step, events, s, L, w, h, tx, ty, acc) == acc + Events(step, events, s, TilesFrom(L, w, h, tx, ty))
    decreases L.cols - tx, L.rows - ty
  {
    if tx >= L.cols {
      assert acc + [] == acc;
    } else if ty >= L.rows {
      TilesRunSteps(step, events, s, L, w, h, tx + 1, 0, acc);
    } else {
      var r := TileRect(L, tx, ty, w, h);
      var tile := TileCells(r);
      var rest := TilesFrom(L, w, h, tx, ty + 1);
      if Skipped(r) {
        SkippedTileEmpty(r);
        assert tile + rest == rest;
        TilesRunSteps(step, events, s, L, w, h, tx, ty + 1, acc);
      } else {
        var m := RectRun(step, s, r, r.sx);
        var re := RectEvents(step, events, s, r, r.sx, acc);
        RectRunSteps(step, events, s, r, r.sx, acc);
        TilesRunSteps(step, events, m, L, w, h, tx, ty + 1, re);
        StepsConcat(step, events, s, tile, rest);
        assert (acc + Events(step, events, s, tile)) + Events(step, events, m, rest) ==
               acc + (Events(step, events, s, tile) + Events(step, events, m, rest));
      }
    }
  }
}
