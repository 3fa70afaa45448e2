/** Rectangular planes of integers indexed [x][y], the value view of one
    `[width][height]` array of the simulation, and the counting of cells. */
module Planes {

  /** A plane indexed `p[x][y]`, as the Go arrays `grid[x][y]` are. */
  type Plane = seq<seq<int>>

  /** `p` has `w` columns of `h` cells each. */
  predicate Shaped(p: Plane, w: int, h: int) {
    |p| == w && forall i :: 0 <= i < |p| ==> |p[i]| == h
  }

  predicate InGrid(x: int, y: int, w: int, h: int) {
    0 <= x < w && 0 <= y < h
  }

  /** A `w` by `h` plane whose every cell holds `v`. */
  function Filled(w: nat, h: nat, v: int): (p: Plane)
    ensures Shaped(p, w, h)
    ensures forall i, j :: 0 <= i < w && 0 <= j < h ==> p[i][j] == v
  {
    seq(w, _ => seq(h, _ => v))
  }

  /** The plane `p` with the single cell `(x, y)` changed to `v`. */
  function Put(p: Plane, x: int, y: int, v: int): Plane
    requires 0 <= x < |p| && 0 <= y < |p[x]|
  {
    p[x := p[x][y := v]]
  }

  /** `Put` keeps the shape, writes `(x, y)` and leaves every other cell alone. */
  lemma PutCells(p: Plane, x: int, y: int, v: int)
    requires 0 <= x < |p| && 0 <= y < |p[x]|
    ensures var r := Put(p, x, y, v);
            && |r| == |p| && (forall i :: 0 <= i < |p| ==> |r[i]| == |p[i]|)
            && r[x][y] == v
            && forall i, j :: 0 <= i < |p| && 0 <= j < |p[i]| && (i != x || j != y) ==> r[i][j] == p[i][j]
  {
  }

  /** Two planes of the same shape are equal when they agree cell by cell. */
  lemma Extensional(p: Plane, q: Plane, w: int, h: int)
    requires Shaped(p, w, h) && Shaped(q, w, h)
    requires forall i, j :: 0 <= i < w && 0 <= j < h ==> p[i][j] == q[i][j]
    ensures p == q
  {
    forall i | 0 <= i < w
      ensures p[i] == q[i]
    {
      assert |p[i]| == |q[i]| == h;
    }
  }

  /** Number of cells among the first `n` of `row` that hold `v`. */
  function CountRow(row: seq<int>, n: int, v: int): nat
    requires 0 <= n <= |row|
  {
    if n == 0 then 0 else CountRow(row, n - 1, v) + (if row[n - 1] == v then 1 else 0)
  }

  /** Number of cells holding `v` in the first `n` columns of `p`. */
  function CountColumns(p: Plane, n: int, v: int): nat
    requires 0 <= n <= |p|
  {
    if n == 0 then 0 else CountColumns(p, n - 1, v) + CountRow(p[n - 1], |p[n - 1]|, v)
  }

  /** Number of cells of `p` holding `v`. */
  function Count(p: Plane, v: int): nat {
    CountColumns(p, |p|, v)
  }

  /** A row of `n` copies of `u` holds `v` either `n` times or not at all. */
  lemma {:induction false} CountRowUniform(row: seq<int>, n: int, u: int, v: int)
    requires 0 <= n <= |row|
    requires forall j :: 0 <= j < n ==> row[j] == u
    ensures CountRow(row, n, v) == if u == v then n else 0
  {
    if n > 0 {
      CountRowUniform(row, n - 1, u, v);
    }
  }

  lemma {:induction false} CountColumnsFilled(w: nat, h: nat, u: int, v: int, n: nat)
    requires n <= w
    ensures CountColumns(Filled(w, h, u), n, v) == if u == v then n * h else 0
  {
    if n > 0 {
      CountColumnsFilled(w, h, u, v, n - 1);
      CountRowUniform(Filled(w, h, u)[n - 1], h, u, v);
    }
  }

  /** A plane filled with `u` has `w * h` cells holding `u` and none holding anything else. */
  lemma CountFilled(w: nat, h: nat, u: int, v: int)
    ensures Count(Filled(w, h, u), v) == if u == v then w * h else 0
  {
    CountColumnsFilled(w, h, u, v, w);
  }

  lemma {:induction false} CountRowPut(row: seq<int>, n: int, y: int, a: int, v: int)
    requires 0 <= n <= |row| && 0 <= y < |row|
    ensures CountRow(row[y := a], n, v) ==
            CountRow(row, n, v)
            + (if y < n && a == v then 1 else 0)
            - (if y < n && row[y] == v then 1 else 0)
  {
    if n > 0 {
      CountRowPut(row, n - 1, y, a, v);
    }
  }

  lemma {:induction false} CountColumnsPut(p: Plane, n: int, x: int, y: int, a: int, v: int)
    requires 0 <= n <= |p| && 0 <= x < |p| && 0 <= y < |p[x]|
    ensures CountColumns(Put(p, x, y, a), n, v) ==
            CountColumns(p, n, v)
            + (if x < n && a == v then 1 else 0)
            - (if x < n && p[x][y] == v then 1 else 0)
  {
    if n > 0 {
      CountColumnsPut(p, n - 1, x, y, a, v);
      if n - 1 == x {
        CountRowPut(p[x], |p[x]|, y, a, v);
      } else {
        assert Put(p, x, y, a)[n - 1] == p[n - 1];
      }
    }
  }

  /** Changing one cell from `p[x][y]` to `a` moves exactly one cell between the counts. */
  lemma CountPut(p: Plane, x: int, y: int, a: int, v: int)
    requires 0 <= x < |p| && 0 <= y < |p[x]|
    ensures Count(Put(p, x, y, a), v) ==
            Count(p, v) + (if a == v then 1 else 0) - (if p[x][y] == v then 1 else 0)
  {
    CountColumnsPut(p, |p|, x, y, a, v);
  }

  /** Row `i` of `a`, cells `0 .. n - 1`. */
  ghost function RowOf(a: array2<int>, i: int, n: int): (row: seq<int>)
    requires 0 <= i < a.Length0 && 0 <= n <= a.Length1
    reads a
    ensures |row| == n
    decreases n
  {
    if n == 0 then [] else RowOf(a, i, n - 1) + [a[i, n - 1]]
  }

  /** Rows `0 .. n - 1` of `a`. */
  ghost function RowsOf(a: array2<int>, n: int): (p: Plane)
    requires 0 <= n <= a.Length0
    reads a
    ensures Shaped(p, n, a.Length1)
    decreases n
  {
    if n == 0 then [] else RowsOf(a, n - 1) + [RowOf(a, n - 1, a.Length1)]
  }

  lemma {:induction false} RowOfCells(a: array2<int>, i: int, n: int)
    requires 0 <= i < a.Length0 && 0 <= n <= a.Length1
    ensures forall j :: 0 <= j < n ==> RowOf(a, i, n)[j] == a[i, j]
    decreases n
  {
    if n > 0 {
      RowOfCells(a, i, n - 1);
    }
  }

  lemma {:induction false} RowsOfCells(a: array2<int>, n: int)
    requires 0 <= n <= a.Length0
    ensures forall i, j :: 0 <= i < n && 0 <= j < a.Length1 ==> RowsOf(a, n)[i][j] == a[i, j]
    decreases n
  {
    if n > 0 {
      RowsOfCells(a, n - 1);
      RowOfCells(a, n - 1, a.Length1);
    }
  }

  /** A snapshot of a two-dimensional array as a plane. */
  ghost function PlaneOf(a: array2<int>): (p: Plane)
    reads a
    ensures Shaped(p, a.Length0, a.Length1)
    ensures forall i, j :: 0 <= i < a.Length0 && 0 <= j < a.Length1 ==> p[i][j] == a[i, j]
  {
    RowsOfCells(a, a.Length0);
    RowsOf(a, a.Length0)
  }

  /** `a[x, y] := v`, seen on the snapshot. */
  method SetCell(a: array2<int>, x: int, y: int, v: int)
    requires 0 <= x < a.Length0 && 0 <= y < a.Length1
    modifies a
    ensures PlaneOf(a) == Put(old(PlaneOf(a)), x, y, v)
  {
    a[x, y] := v;
    Extensional(PlaneOf(a), Put(old(PlaneOf(a)), x, y, v), a.Length0, a.Length1);
  }
}
