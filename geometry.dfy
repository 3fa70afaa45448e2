/** Toroidal neighbourhoods and the partition of the grid into worker tiles. */
module Geometry {

  /** A unit step `(dx, dy)` towards one of the four orthogonal neighbours. */
  type Offset = (int, int)

  /** The four offsets in the order `update` lists them before shuffling. */
  const Directions: seq<Offset> := [(-1, 0), (1, 0), (0, -1), (0, 1)]

  /** A direction order as `rand.Shuffle` leaves it: the four offsets, each once. */
  predicate IsShuffle(order: seq<Offset>) {
    |order| == 4 && multiset(order) == multiset(Directions)
  }

  lemma ShuffleSteps(order: seq<Offset>)
    requires IsShuffle(order)
    ensures forall k :: 0 <= k < 4 ==> -1 <= order[k].0 <= 1 && -1 <= order[k].1 <= 1
  {
    forall k | 0 <= k < 4
      ensures -1 <= order[k].0 <= 1 && -1 <= order[k].1 <= 1
    {
      assert order[k] in multiset(order);
      assert order[k] in multiset(Directions);
    }
  }

  /** `(x + dx + n) % n` with Go's truncating `%`; the operand is never negative here,
      so Dafny's `%` computes the same value. */
  function Wrap(x: int, dx: int, n: int): (r: int)
    requires 0 <= x < n && -1 <= dx <= 1
    ensures 0 <= r < n
    ensures 0 <= x + dx < n ==> r == x + dx
    ensures x + dx == -1 ==> r == n - 1
    ensures x + dx == n ==> r == 0
  {
    (x + dx + n) % n
  }

  /** The neighbour of `(x, y)` one step along `d` on the `w` by `h` torus. */
  function Neighbor(x: int, y: int, d: Offset, w: int, h: int): (c: (int, int))
    requires 0 <= x < w && 0 <= y < h
    requires -1 <= d.0 <= 1 && -1 <= d.1 <= 1
    ensures 0 <= c.0 < w && 0 <= c.1 < h
  {
    (Wrap(x, d.0, w), Wrap(y, d.1, h))
  }

  /** Leaving the grid westward at `x == 0` re-enters at the east edge, and so on for
      the other three edges. */
  lemma WrapEdges(w: int, h: int, x: int, y: int)
    requires 0 <= x < w && 0 <= y < h
    ensures x == 0 ==> Neighbor(x, y, (-1, 0), w, h) == (w - 1, y)
    ensures x == w - 1 ==> Neighbor(x, y, (1, 0), w, h) == (0, y)
    ensures y == 0 ==> Neighbor(x, y, (0, -1), w, h) == (x, h - 1)
    ensures y == h - 1 ==> Neighbor(x, y, (0, 1), w, h) == (x, 0)
  {
  }

  /** Go's integer division, which truncates towards zero, for a positive divisor. */
  function Quot(a: int, b: int): (q: int)
    requires b > 0
    ensures a >= 0 ==> q * b <= a < q * b + b
    ensures a < 0 ==> q * b - b < a <= q * b
  {
    if a >= 0 then a / b else -((-a) / b)
  }

  /** Integer floor square root; `int(math.Sqrt(float64(n)))` for the worker counts the
      simulation uses, and 0 for the non-positive ones (the caller corrects that to 1). */
  function ISqrt(n: int): (r: nat)
    ensures n <= 0 ==> r == 0
    ensures n > 0 ==> r * r <= n < (r + 1) * (r + 1)
  {
    if n <= 0 then 0
    else
      var r := ISqrt(n - 1);
      if (r + 1) * (r + 1) <= n then r + 1 else r
  }

  /** `if threads > width { threads = width }`. */
  function ClampThreads(threads: int, width: int): (t: int)
    ensures t <= width && t <= threads
    ensures threads <= width ==> t == threads
    ensures threads > width ==> t == width
  {
    if threads > width then width else threads
  }

  /** The tile grid: `cols` by `rows` tiles of `tileW` by `tileH` cells. */
  datatype Layout = Layout(cols: int, rows: int, tileW: int, tileH: int)

  function TileCols(threads: int): int {
    var c := ISqrt(threads);
    if c <= 0 then 1 else c
  }

  function TileRows(threads: int, cols: int): int
    requires cols > 0
  {
    var r := Quot(threads + cols - 1, cols);
    if r <= 0 then 1 else r
  }

  /** The tile layout `update` computes from an already clamped worker count. */
  function LayoutFor(threads: int, width: int, height: int): Layout {
    var cols := TileCols(threads);
    var rows := TileRows(threads, cols);
    Layout(cols, rows, Quot(width + cols - 1, cols), Quot(height + rows - 1, rows))
  }

  /** The facts about a layout that indexing `tileMutex` relies on. */
  predicate Spans(L: Layout, width: int, height: int) {
    && L.cols >= 1 && L.rows >= 1 && L.tileW >= 1 && L.tileH >= 1
    && width <= L.cols * L.tileW && height <= L.rows * L.tileH
  }

  /** The tile `(x / tileW, y / tileH)` that owns cell `(x, y)`. */
  function TileOf(x: int, y: int, L: Layout): (t: (int, int))
    requires 0 <= x && 0 <= y && L.tileW > 0 && L.tileH > 0
  {
    (x / L.tileW, y / L.tileH)
  }

  lemma CeilDiv(n: int, c: int)
    requires n > 0 && c > 0
    ensures (n + c - 1) / c >= 1
    ensures n <= c * ((n + c - 1) / c)
    ensures c * ((n + c - 1) / c - 1) < n
  {
    var q := (n + c - 1) / c;
    assert n + c - 1 == c * q + (n + c - 1) % c;
  }

  lemma DivBelow(x: int, k: int, c: int)
    requires 0 <= x && k > 0 && c > 0 && x < c * k
    ensures x / k < c
  {
    var q := x / k;
    assert x == k * q + x % k;
    if q >= c {
      MulMonotone(k, c, q);
    }
  }

  lemma MulMonotone(k: int, a: int, b: int)
    requires k >= 0 && a <= b
    ensures k * a <= k * b
  {
  }

  /** Enough tiles for the workers: `tileCols * tileRows >= threads`. */
  lemma TileCount(t: int)
    ensures TileCols(t) >= 1 && TileRows(t, TileCols(t)) >= 1
    ensures TileCols(t) * TileRows(t, TileCols(t)) >= t
  {
    var c := TileCols(t);
    if t > 0 {
      CeilDiv(t, c);
    }
  }

  lemma LayoutSpans(t: int, width: int, height: int)
    requires width > 0 && height > 0
    ensures Spans(LayoutFor(t, width, height), width, height)
  {
    var L := LayoutFor(t, width, height);
    TileCount(t);
    CeilDiv(width, L.cols);
    CeilDiv(height, L.rows);
  }

  /** Every cell of the grid maps to a valid tile index. */
  lemma TileIndex(L: Layout, width: int, height: int, x: int, y: int)
    requires Spans(L, width, height) && 0 <= x < width && 0 <= y < height
    ensures var o := TileOf(x, y, L); 0 <= o.0 < L.cols && 0 <= o.1 < L.rows
  {
    DivBelow(x, L.tileW, L.cols);
    DivBelow(y, L.tileH, L.rows);
  }

  /** After clamping, the layout has at least as many tiles as workers, the tile sizes
      are the ceilings of the grid sides over the tile counts (the smallest that cover the
      grid), and every cell of the grid maps to a valid `tileMutex` index. */
  lemma TileSizing(threads: int, width: int, height: int)
    requires width > 0 && height > 0
    ensures var t := ClampThreads(threads, width);
            var L := LayoutFor(t, width, height);
            && t <= width && (threads >= 1 ==> 1 <= t)
            && L.cols >= 1 && L.rows >= 1 && L.cols * L.rows >= t
            && Spans(L, width, height)
            && L.cols * (L.tileW - 1) < width && L.rows * (L.tileH - 1) < height
            && forall x, y :: 0 <= x < width && 0 <= y < height ==>
                 var o := TileOf(x, y, L); 0 <= o.0 < L.cols && 0 <= o.1 < L.rows
  {
    var t := ClampThreads(threads, width);
    var L := LayoutFor(t, width, height);
    TileCount(t);
    LayoutSpans(t, width, height);
    CeilDiv(width, L.cols);
    CeilDiv(height, L.rows);
    forall x, y | 0 <= x < width && 0 <= y < height
      ensures var o := TileOf(x, y, L); 0 <= o.0 < L.cols && 0 <= o.1 < L.rows
    {
      TileIndex(L, width, height, x, y);
    }
  }

  /** The cells `[sx, ex) x [sy, ey)` of one tile. */
  datatype Rect = Rect(sx: int, ex: int, sy: int, ey: int)

  /** Tile `(tx, ty)` clipped to the grid, as `update` computes `startX .. endY`. */
  function TileRect(L: Layout, tx: int, ty: int, width: int, height: int): Rect {
    var sx := tx * L.tileW;
    var sy := ty * L.tileH;
    Rect(sx, if sx + L.tileW > width then width else sx + L.tileW,
         sy, if sy + L.tileH > height then height else sy + L.tileH)
  }

  /** `update` skips a tile that covers no cell. */
  predicate Skipped(r: Rect) {
    r.sx >= r.ex || r.sy >= r.ey
  }

  predicate InRect(r: Rect, x: int, y: int) {
    r.sx <= x < r.ex && r.sy <= y < r.ey
  }

  lemma DivExact(x: int, k: int, q: int)
    requires 0 <= x && k > 0 && 0 <= q
    ensures (q * k <= x < q * k + k) <==> x / k == q
  {
    assert x == k * (x / k) + x % k;
    if x / k < q {
      assert k * (x / k) <= k * (q - 1);
    } else if x / k > q {
      assert k * (x / k) >= k * (q + 1);
    }
  }

  /** A tile that is not skipped lies inside the grid and has positive area. */
  lemma TileInside(L: Layout, width: int, height: int, tx: int, ty: int)
    requires Spans(L, width, height) && 0 <= tx && 0 <= ty
    requires !Skipped(TileRect(L, tx, ty, width, height))
    ensures var r := TileRect(L, tx, ty, width, height);
            0 <= r.sx < r.ex <= width && 0 <= r.sy < r.ey <= height
            && (r.ex - r.sx) * (r.ey - r.sy) > 0
  {
    var r := TileRect(L, tx, ty, width, height);
    MulMonotone(L.tileW, 0, tx);
    MulMonotone(L.tileH, 0, ty);
    assert tx * L.tileW == L.tileW * tx && ty * L.tileH == L.tileH * ty;
    MulPositive(r.ex - r.sx, r.ey - r.sy);
  }

  lemma MulPositive(a: int, b: int)
    requires a > 0 && b > 0
    ensures a * b > 0
  {
  }

  /** A grid cell lies in tile `(tx, ty)` exactly when `TileOf` names that tile. */
  lemma TileMembership(L: Layout, width: int, height: int, x: int, y: int, tx: int, ty: int)
    requires Spans(L, width, height) && 0 <= x < width && 0 <= y < height && 0 <= tx && 0 <= ty
    ensures InRect(TileRect(L, tx, ty, width, height), x, y) <==> TileOf(x, y, L) == (tx, ty)
  {
    DivExact(x, L.tileW, tx);
    DivExact(y, L.tileH, ty);
  }

  /** Tiles partition the grid: the non-skipped tiles lie inside the grid with positive
      area, a cell lies in tile `(tx, ty)` exactly when that is the tile `TileOf` names,
      and that tile is in range and not skipped, so every cell is in exactly one visited
      tile. */
  lemma TileLayout(threads: int, width: int, height: int)
    requires width > 0 && height > 0
    ensures var L := LayoutFor(ClampThreads(threads, width), width, height);
            && (forall tx, ty ::
                  (0 <= tx < L.cols && 0 <= ty < L.rows && !Skipped(TileRect(L, tx, ty, width, height))) ==>
                  var r := TileRect(L, tx, ty, width, height);
                  0 <= r.sx < r.ex <= width && 0 <= r.sy < r.ey <= height
                  && (r.ex - r.sx) * (r.ey - r.sy) > 0)
            && (forall x, y, tx, ty ::
                  (0 <= x < width && 0 <= y < height && 0 <= tx < L.cols && 0 <= ty < L.rows) ==>
                  (InRect(TileRect(L, tx, ty, width, height), x, y) <==> TileOf(x, y, L) == (tx, ty)))
            && (forall x, y :: 0 <= x < width && 0 <= y < height ==>
                  var o := TileOf(x, y, L);
                  0 <= o.0 < L.cols && 0 <= o.1 < L.rows
                  && !Skipped(TileRect(L, o.0, o.1, width, height))
                  && InRect(TileRect(L, o.0, o.1, width, height), x, y))
  {
    var L := LayoutFor(ClampThreads(threads, width), width, height);
    TileSizing(threads, width, height);
    forall tx, ty | 0 <= tx < L.cols && 0 <= ty < L.rows && !Skipped(TileRect(L, tx, ty, width, height))
      ensures var r := TileRect(L, tx, ty, width, height);
              0 <= r.sx < r.ex <= width && 0 <= r.sy < r.ey <= height
              && (r.ex - r.sx) * (r.ey - r.sy) > 0
    {
      TileInside(L, width, height, tx, ty);
    }
    forall x, y, tx, ty | 0 <= x < width && 0 <= y < height && 0 <= tx < L.cols && 0 <= ty < L.rows
      ensures InRect(TileRect(L, tx, ty, width, height), x, y) <==> TileOf(x, y, L) == (tx, ty)
    {
      TileMembership(L, width, height, x, y, tx, ty);
    }
    forall x, y | 0 <= x < width && 0 <= y < height
      ensures var o := TileOf(x, y, L);
              0 <= o.0 < L.cols && 0 <= o.1 < L.rows
              && !Skipped(TileRect(L, o.0, o.1, width, height))
              && InRect(TileRect(L, o.0, o.1, width, height), x, y)
    {
      var o := TileOf(x, y, L);
      TileIndex(L, width, height, x, y);
      TileMembership(L, width, height, x, y, o.0, o.1);
    }
  }
}
