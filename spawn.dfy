// The spawn of `addRandomTile`: which free cell and which number. The two
// `Math.random()` results are parameters `u` and `v` in [0, 1); they are
// turned into an index and a number as the source does, but in exact real
// arithmetic rather than in doubles.
module Spawn {
  import opened Tiles
  import opened Events

  lemma ScaledDrawBelow(u: real, len: nat)
    requires 0.0 <= u < 1.0 && len > 0
    ensures 0.0 <= u * len as real < len as real
  {
    var l := len as real;
    assert u * l <= 1.0 * l - (1.0 - u) * l;
    assert (1.0 - u) * l > 0.0;
  }

  /** The draw scaled by `len` and rounded down: an index into a list of
      `len` positions. */
  function PickIndex(u: real, len: nat): (i: nat)
    requires 0.0 <= u < 1.0 && len > 0
    ensures i < len
  {
    ScaledDrawBelow(u, len);
    (u * len as real).Floor
  }

  /** A 2 unless the draw scaled by ten rounds down to zero, then a 4: a 4
      exactly for draws below 1/10. */
  function PickValue(v: real): (n: nat)
    requires 0.0 <= v < 1.0
    ensures n == 2 || n == 4
    ensures n == 4 <==> v < 0.1
  {
    if (v * 10.0).Floor != 0 then 2 else 4
  }

  /** The free cell the spawn writes to. */
  function SpawnPos(b: Board, u: real): (p: Pos)
    requires IsBoard(b) && HasRoom(b) && 0.0 <= u < 1.0
    ensures InBoard(p) && b[p.0][p.1] == Empty
    ensures p in AvailablePositions(b)
  {
    AvailablePositionsSpec(b);
    var available := AvailablePositions(b);
    available[PickIndex(u, |available|)]
  }

  /** The board after the spawn. */
  function Spawned(b: Board, u: real, v: real): Board
    requires IsBoard(b) && HasRoom(b) && 0.0 <= u < 1.0 && 0.0 <= v < 1.0
  {
    Put(b, SpawnPos(b, u), Tile(PickValue(v)))
  }

  /** The record `addTile` pushes for the spawn, with id serial `serial`. */
  function SpawnRecord(b: Board, u: real, v: real, serial: nat): (a: Animation)
    requires IsBoard(b) && HasRoom(b) && 0.0 <= u < 1.0 && 0.0 <= v < 1.0
    ensures a.AddAnim? && OnBoard(a) && Prefix(a) == ADD_PREFIX
  {
    var p := SpawnPos(b, u);
    AddAnim(ElementId(ADD_PREFIX, serial), p.0, p.1, PickValue(v))
  }

  /** A total of a board after one cell is replaced. */
  lemma PutTotal(b: Board, p: Pos, c: Cell, m: Measure)
    requires IsBoard(b) && InBoard(p)
    ensures BoardTotal(Put(b, p, c), m) + Weight(b[p.0][p.1], m) == BoardTotal(b, m) + Weight(c, m)
  {
    RowTotalUpdate(b[p.0], p.1, c, m);
  }

  /** The spawn writes a 2 or a 4 into a cell that was free, changes no other
      cell, and so adds one tile and its number to the board. */
  lemma SpawnEffect(b: Board, u: real, v: real)
    requires IsBoard(b) && HasRoom(b) && 0.0 <= u < 1.0 && 0.0 <= v < 1.0
    ensures var p := SpawnPos(b, u);
      IsBoard(Spawned(b, u, v)) && b[p.0][p.1] == Empty &&
      Spawned(b, u, v)[p.0][p.1] == Tile(PickValue(v)) &&
      (forall x, y :: 0 <= x < 4 && 0 <= y < 4 && (x, y) != p ==> Spawned(b, u, v)[x][y] == b[x][y])
    ensures TileCount(Spawned(b, u, v)) == TileCount(b) + 1
    ensures Sum(Spawned(b, u, v)) == Sum(b) + PickValue(v)
  {
    PutTotal(b, SpawnPos(b, u), Tile(PickValue(v)), Count);
    PutTotal(b, SpawnPos(b, u), Tile(PickValue(v)), Value);
  }

  /** The spawn keeps every tile a power of two that is at least 2. */
  lemma SpawnKeepsPowers(b: Board, u: real, v: real)
    requires IsBoard(b) && HasRoom(b) && 0.0 <= u < 1.0 && 0.0 <= v < 1.0 && ValidTiles(b)
    ensures IsBoard(Spawned(b, u, v)) && ValidTiles(Spawned(b, u, v))
  {
    SpawnEffect(b, u, v);
    SpawnNumbersValid();
  }

  /** The empty board has no tiles and a free cell. */
  lemma EmptyBoard()
    ensures TileCount(NewEmptyTiles()) == 0 && HasRoom(NewEmptyTiles())
  {
    var e := NewEmptyTiles();
    assert e[0][0] == Empty;
    RowTotal4(e[0], Count); RowTotal4(e[1], Count); RowTotal4(e[2], Count); RowTotal4(e[3], Count);
  }

  /** Two spawns on a board without tiles: both find a free cell, they use
      distinct cells, and two tiles result. */
  lemma TwoSpawns(e: Board, u1: real, v1: real, u2: real, v2: real)
    requires IsBoard(e) && TileCount(e) == 0 && HasRoom(e)
    requires 0.0 <= u1 < 1.0 && 0.0 <= v1 < 1.0 && 0.0 <= u2 < 1.0 && 0.0 <= v2 < 1.0
    ensures HasRoom(Spawned(e, u1, v1))
    ensures TileCount(Spawned(Spawned(e, u1, v1), u2, v2)) == 2
    ensures SpawnPos(e, u1) != SpawnPos(Spawned(e, u1, v1), u2)
  {
    SpawnEffect(e, u1, v1);
    var first := Spawned(e, u1, v1);
    RoomWhenNotFull(first);
    SpawnEffect(first, u2, v2);
    var p1 := SpawnPos(e, u1);
    assert first[p1.0][p1.1] != Empty;
  }

  /** Both spawns of the opening find a free cell, and leave two tiles. */
  lemma OpeningBoard(u1: real, v1: real, u2: real, v2: real)
    requires 0.0 <= u1 < 1.0 && 0.0 <= v1 < 1.0 && 0.0 <= u2 < 1.0 && 0.0 <= v2 < 1.0
    ensures HasRoom(NewEmptyTiles())
    ensures HasRoom(Spawned(NewEmptyTiles(), u1, v1))
    ensures TileCount(Spawned(Spawned(NewEmptyTiles(), u1, v1), u2, v2)) == 2
  {
    EmptyBoard();
    TwoSpawns(NewEmptyTiles(), u1, v1, u2, v2);
  }

  /** The board `newGameState` deals: two spawns on an empty board. */
  function OpeningTiles(u1: real, v1: real, u2: real, v2: real): Board
    requires 0.0 <= u1 < 1.0 && 0.0 <= v1 < 1.0 && 0.0 <= u2 < 1.0 && 0.0 <= v2 < 1.0
  {
    OpeningBoard(u1, v1, u2, v2);
    Spawned(Spawned(NewEmptyTiles(), u1, v1), u2, v2)
  }

  /** The two add records of the opening, with ids 1 and 2. */
  function OpeningRecords(u1: real, v1: real, u2: real, v2: real): seq<Animation>
    requires 0.0 <= u1 < 1.0 && 0.0 <= v1 < 1.0 && 0.0 <= u2 < 1.0 && 0.0 <= v2 < 1.0
  {
    OpeningBoard(u1, v1, u2, v2);
    [SpawnRecord(NewEmptyTiles(), u1, v1, 1), SpawnRecord(Spawned(NewEmptyTiles(), u1, v1), u2, v2, 2)]
  }

  /** Two spawns in a row from the empty board give the opening. */
  lemma OpeningFromSpawns(u1: real, v1: real, u2: real, v2: real,
                          first: Board, records: seq<Animation>, tiles: Board, anims: seq<Animation>)
    requires 0.0 <= u1 < 1.0 && 0.0 <= v1 < 1.0 && 0.0 <= u2 < 1.0 && 0.0 <= v2 < 1.0
    requires HasRoom(NewEmptyTiles()) && first == Spawned(NewEmptyTiles(), u1, v1)
    requires records == [SpawnRecord(NewEmptyTiles(), u1, v1, 1)]
    requires IsBoard(first) && HasRoom(first) && tiles == Spawned(first, u2, v2)
    requires anims == records + [SpawnRecord(first, u2, v2, 2)]
    ensures tiles == OpeningTiles(u1, v1, u2, v2) && anims == OpeningRecords(u1, v1, u2, v2)
    ensures TileCount(tiles) == 2
  {
    OpeningBoard(u1, v1, u2, v2);
  }

  /** The opening deals two tiles on distinct cells, and its two records are
      adds numbered 1 and 2 naming those cells. */
  lemma OpeningDeal(u1: real, v1: real, u2: real, v2: real)
    requires 0.0 <= u1 < 1.0 && 0.0 <= v1 < 1.0 && 0.0 <= u2 < 1.0 && 0.0 <= v2 < 1.0
    ensures var b, r := OpeningTiles(u1, v1, u2, v2), OpeningRecords(u1, v1, u2, v2);
      IsBoard(b) && TileCount(b) == 2 && |r| == 2 && r[0].AddAnim? && r[1].AddAnim? &&
      r[0].id == ElementId(ADD_PREFIX, 1) && r[1].id == ElementId(ADD_PREFIX, 2) &&
      (r[0].x, r[0].y) != (r[1].x, r[1].y)
  {
    EmptyBoard();
    TwoSpawns(NewEmptyTiles(), u1, v1, u2, v2);
  }

  /** The opening board's tiles are powers of two that are at least 2. */
  lemma OpeningValid(u1: real, v1: real, u2: real, v2: real)
    requires 0.0 <= u1 < 1.0 && 0.0 <= v1 < 1.0 && 0.0 <= u2 < 1.0 && 0.0 <= v2 < 1.0
    ensures IsBoard(OpeningTiles(u1, v1, u2, v2)) && ValidTiles(OpeningTiles(u1, v1, u2, v2))
  {
    OpeningBoard(u1, v1, u2, v2);
    SpawnKeepsPowers(NewEmptyTiles(), u1, v1);
    SpawnKeepsPowers(Spawned(NewEmptyTiles(), u1, v1), u2, v2);
  }
}
