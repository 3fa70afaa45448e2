/** The per-tile mutexes of `update`, modelled as the sequence of lock and unlock
    events a worker issues, and the ordering discipline that keeps workers from
    deadlocking. */
module Locks {

  /** A tile `(tx, ty)` of the tile grid, i.e. the mutex `tileMutex[tx][ty]`. */
  type Tile = (int, int)

  datatype LockEvent = Lock(tile: Tile) | Unlock(tile: Tile)

  /** The global order on tiles: `tx * tileRows + ty`. */
  function TileId(t: Tile, rows: int): int {
    t.0 * rows + t.1
  }

  /** `lockTwo(ax, ay, bx, by)`: one lock when both ids agree, else the smaller id first. */
  function LockTwo(a: Tile, b: Tile, rows: int): seq<LockEvent> {
    var aId := TileId(a, rows);
    var bId := TileId(b, rows);
    if aId == bId then [Lock(a)]
    else if aId < bId then [Lock(a), Lock(b)]
    else [Lock(b), Lock(a)]
  }

  /** `unlockTwo(ax, ay, bx, by)`. */
  function UnlockTwo(a: Tile, b: Tile, rows: int): seq<LockEvent> {
    var aId := TileId(a, rows);
    var bId := TileId(b, rows);
    if aId == bId then [Unlock(a)]
    else if aId < bId then [Unlock(b), Unlock(a)]
    else [Unlock(a), Unlock(b)]
  }

  /** One neighbour attempt: `lockTwo` around the check and write, then `unlockTwo`. */
  function Section(a: Tile, b: Tile, rows: int): seq<LockEvent> {
    LockTwo(a, b, rows) + UnlockTwo(a, b, rows)
  }

  /** `tileMutex[sx][sy].Lock()` ... `Unlock()` around a stay-in-place write. */
  function SoleSection(a: Tile): seq<LockEvent> {
    [Lock(a), Unlock(a)]
  }

  function Reverse<T>(s: seq<T>): (r: seq<T>)
    ensures |r| == |s|
    ensures forall k :: 0 <= k < |s| ==> r[k] == s[|s| - 1 - k]
  {
    if s == [] then [] else Reverse(s[1..]) + [s[0]]
  }

  /** The unlock events that release what `locks` acquired, in the same order. */
  function Releases(locks: seq<LockEvent>): (r: seq<LockEvent>)
    ensures |r| == |locks|
    ensures forall k :: 0 <= k < |locks| ==> r[k] == Unlock(locks[k].tile)
  {
    if locks == [] then [] else [Unlock(locks[0].tile)] + Releases(locks[1..])
  }

  /** Every tile in `held` comes before `t` in the global order. */
  predicate AllBelow(held: seq<Tile>, t: Tile, rows: int) {
    forall k :: 0 <= k < |held| ==> TileId(held[k], rows) < TileId(t, rows)
  }

  datatype Holding = Stuck | Holds(held: seq<Tile>)

  /** Replays `trace` from the locks `held`, most recent last. A lock may only be taken
      when every held lock precedes it in the global order, and only the most recently
      taken lock may be released; anything else gets `Stuck`. */
  function Replay(held: seq<Tile>, trace: seq<LockEvent>, rows: int): Holding
    decreases |trace|
  {
    if trace == [] then Holds(held)
    else match trace[0]
      case Lock(t) =>
        if AllBelow(held, t, rows) then Replay(held + [t], trace[1..], rows) else Stuck
      case Unlock(t) =>
        if held != [] && held[|held| - 1] == t then Replay(held[..|held| - 1], trace[1..], rows)
        else Stuck
  }

  /** The discipline that rules out a circular wait: starting with no locks, tiles are
      locked in strictly increasing global order, released last-in first-out, and no lock
      is left held at the end. */
  predicate Disciplined(trace: seq<LockEvent>, rows: int) {
    Replay([], trace, rows) == Holds([])
  }

  /** Two tiles with in-range rows that share an id are the same tile, so the global
      order is total on the tile grid. */
  lemma TileIdInjective(a: Tile, b: Tile, rows: int)
    requires 0 <= a.1 < rows && 0 <= b.1 < rows
    requires TileId(a, rows) == TileId(b, rows)
    ensures a == b
  {
    if a.0 < b.0 {
      IdsApart(a, b, rows);
    } else if b.0 < a.0 {
      IdsApart(b, a, rows);
    }
  }

  lemma IdsApart(a: Tile, b: Tile, rows: int)
    requires 0 <= a.1 < rows && 0 <= b.1 < rows && a.0 < b.0
    ensures TileId(a, rows) < TileId(b, rows)
  {
    assert (a.0 + 1) * rows <= b.0 * rows;
  }

  /** `lockTwo` locks exactly one tile when the ids agree and otherwise both tiles,
      smaller id first; with in-range rows, the locked tiles are exactly `{a, b}`. */
  lemma LockTwoOrder(a: Tile, b: Tile, rows: int)
    ensures var ev := LockTwo(a, b, rows);
            && (forall k :: 0 <= k < |ev| ==> ev[k].Lock?)
            && (TileId(a, rows) == TileId(b, rows) ==> ev == [Lock(a)])
            && (TileId(a, rows) != TileId(b, rows) ==>
                  |ev| == 2 && {ev[0].tile, ev[1].tile} == {a, b}
                  && TileId(ev[0].tile, rows) < TileId(ev[1].tile, rows))
    ensures 0 <= a.1 < rows && 0 <= b.1 < rows ==>
            (set k | 0 <= k < |LockTwo(a, b, rows)| :: LockTwo(a, b, rows)[k].tile) == {a, b}
  {
    if 0 <= a.1 < rows && 0 <= b.1 < rows && TileId(a, rows) == TileId(b, rows) {
      TileIdInjective(a, b, rows);
    }
  }

  /** `unlockTwo` releases exactly the tiles `lockTwo` locked, in the reverse order. */
  lemma UnlockTwoReverses(a: Tile, b: Tile, rows: int)
    ensures UnlockTwo(a, b, rows) == Releases(Reverse(LockTwo(a, b, rows)))
  {
    var r := Releases(Reverse(LockTwo(a, b, rows)));
    assert |r| == |UnlockTwo(a, b, rows)|;
  }

  /** Replaying a concatenation replays the halves one after the other. */
  lemma {:induction false} ReplayAppend(held: seq<Tile>, p: seq<LockEvent>, q: seq<LockEvent>, rows: int)
    ensures Replay(held, p + q, rows) ==
            match Replay(held, p, rows)
            case Stuck => Stuck
            case Holds(h) => Replay(h, q, rows)
    decreases |p|
  {
    if p == [] {
      assert p + q == q;
    } else {
      assert (p + q)[0] == p[0] && (p + q)[1..] == p[1..] + q;
      match p[0]
      case Lock(t) =>
        if AllBelow(held, t, rows) {
          ReplayAppend(held + [t], p[1..], q, rows);
        }
      case Unlock(t) =>
        if held != [] && held[|held| - 1] == t {
          ReplayAppend(held[..|held| - 1], p[1..], q, rows);
        }
    }
  }

  /** Disciplined traces compose. */
  lemma DisciplinedAppend(p: seq<LockEvent>, q: seq<LockEvent>, rows: int)
    requires Disciplined(p, rows) && Disciplined(q, rows)
    ensures Disciplined(p + q, rows)
  {
    ReplayAppend([], p, q, rows);
  }

  /** Every neighbour attempt follows the discipline, and while its check and write run
      the worker holds both the source and the destination tile (given in-range rows). */
  lemma SectionDisciplined(a: Tile, b: Tile, rows: int)
    ensures Disciplined(Section(a, b, rows), rows)
    ensures 0 <= a.1 < rows && 0 <= b.1 < rows ==>
            match Replay([], LockTwo(a, b, rows), rows)
            case Stuck => false
            case Holds(h) => a in h && b in h
  {
    var aId, bId := TileId(a, rows), TileId(b, rows);
    ReplayAppend([], LockTwo(a, b, rows), UnlockTwo(a, b, rows), rows);
    if aId == bId {
      SoleSectionHolds(a, rows);
      if 0 <= a.1 < rows && 0 <= b.1 < rows {
        TileIdInjective(a, b, rows);
      }
    } else if aId < bId {
      OrderedPair(a, b, rows);
    } else {
      OrderedPair(b, a, rows);
    }
  }

  /** Locking one tile holds it, and releasing it again holds nothing. */
  lemma SoleSectionHolds(a: Tile, rows: int)
    ensures Replay([], [Lock(a)], rows) == Holds([a])
    ensures Replay([a], [Unlock(a)], rows) == Holds([])
  {
    assert Replay([], [Lock(a)], rows) == Replay([a], [], rows);
    assert Replay([a], [Unlock(a)], rows) == Replay([], [], rows);
  }

  /** Locking two tiles in increasing order holds both, and releasing them in reverse
      order holds nothing. */
  lemma OrderedPair(lo: Tile, hi: Tile, rows: int)
    requires TileId(lo, rows) < TileId(hi, rows)
    ensures Replay([], [Lock(lo), Lock(hi)], rows) == Holds([lo, hi])
    ensures Replay([lo, hi], [Unlock(hi), Unlock(lo)], rows) == Holds([])
  {
    assert AllBelow([lo], hi, rows);
    assert [Lock(lo), Lock(hi)][1..] == [Lock(hi)];
    assert [] + [lo] == [lo] && [lo] + [hi] == [lo, hi];
    assert Replay([], [Lock(lo), Lock(hi)], rows) == Replay([lo], [Lock(hi)], rows);
    assert Replay([lo], [Lock(hi)], rows) == Replay([lo, hi], [], rows);
    assert Replay([lo, hi], [Unlock(hi), Unlock(lo)], rows) == Replay([lo], [Unlock(lo)], rows);
    assert Replay([lo], [Unlock(lo)], rows) == Replay([], [], rows);
  }

  lemma SoleSectionDisciplined(a: Tile, rows: int)
    ensures Disciplined(SoleSection(a), rows)
  {
    assert Replay([], SoleSection(a), rows) == Replay([a], [Unlock(a)], rows);
    assert Replay([a], [Unlock(a)], rows) == Replay([], [], rows);
  }
}
