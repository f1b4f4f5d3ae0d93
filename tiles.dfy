// The 4x4 board of the game: cells, directions, the scan-order remapping
// that turns every direction into "slide left along a row", tile totals and
// the list of free cells.
module Tiles {

  /** A board cell: `null` in the source, or a tile carrying a number. */
  datatype Cell = Empty | Tile(n: nat)

  /** A board position (x, y), as the source's `[x, y]` pairs. */
  type Pos = (nat, nat)

  /** The board is indexed `tiles[x][y]`. */
  type Board = seq<seq<Cell>>

  predicate IsBoard(b: Board) {
    |b| == 4 && forall x :: 0 <= x < 4 ==> |b[x]| == 4
  }

  predicate InBoard(p: Pos) {
    p.0 < 4 && p.1 < 4
  }

  /** A fresh board with every cell empty. */
  function NewEmptyTiles(): (b: Board)
    ensures IsBoard(b)
    ensures forall x, y :: 0 <= x < 4 && 0 <= y < 4 ==> b[x][y] == Empty
  {
    [
      [Empty, Empty, Empty, Empty],
      [Empty, Empty, Empty, Empty],
      [Empty, Empty, Empty, Empty],
      [Empty, Empty, Empty, Empty]
    ]
  }

  /** The board with the cell at `p` replaced by `c`. */
  function Put(b: Board, p: Pos, c: Cell): (r: Board)
    requires IsBoard(b) && InBoard(p)
    ensures IsBoard(r)
    ensures r[p.0][p.1] == c
    ensures forall x, y :: 0 <= x < 4 && 0 <= y < 4 && (x, y) != p ==> r[x][y] == b[x][y]
  {
    b[p.0 := b[p.0][p.1 := c]]
  }

  /** Two boards that agree on every cell are the same board. */
  lemma BoardEq(b: Board, c: Board)
    requires IsBoard(b) && IsBoard(c)
    requires forall x, y :: 0 <= x < 4 && 0 <= y < 4 ==> b[x][y] == c[x][y]
    ensures b == c
  {
    forall x | 0 <= x < 4 ensures b[x] == c[x] {
      assert forall y :: 0 <= y < 4 ==> b[x][y] == c[x][y];
    }
  }

  datatype Direction = Left | Up | Right | Down

  /** Board x of scan position `x` in row `y`. */
  function GetX(d: Direction, x: nat, y: nat): (r: nat)
    requires x < 4 && y < 4
    ensures r < 4
  {
    match d
    case Left => x
    case Up => y
    case Right => 3 - x
    case Down => 3 - y
  }

  /** Board y of scan position `x` in row `y`. */
  function GetY(d: Direction, x: nat, y: nat): (r: nat)
    requires x < 4 && y < 4
    ensures r < 4
  {
    match d
    case Left => y
    case Up => x
    case Right => 3 - y
    case Down => 3 - x
  }

  /** Scan position of board cell (px, py): the inverse of GetX/GetY. Each
      direction's remap is its own inverse, so ScanX and ScanY have the
      same cases as GetX and GetY; they are kept apart to say which way a
      position is converted. */
  function ScanX(d: Direction, px: nat, py: nat): (r: nat)
    requires px < 4 && py < 4
    ensures r < 4
    ensures GetX(d, r, ScanY(d, px, py)) == px && GetY(d, r, ScanY(d, px, py)) == py
  {
    match d
    case Left => px
    case Up => py
    case Right => 3 - px
    case Down => 3 - py
  }

  /** Row index whose scan visits board cell (px, py); the same cases as
      GetY, since the remap is its own inverse. */
  function ScanY(d: Direction, px: nat, py: nat): (r: nat)
    requires px < 4 && py < 4
    ensures r < 4
  {
    match d
    case Left => py
    case Up => px
    case Right => 3 - py
    case Down => 3 - px
  }

  /** The remapping is a bijection on {0..3}^2: ScanX/ScanY undo GetX/GetY
      and the other way round, so the four row scans visit every cell once. */
  lemma RemapBijective(d: Direction)
    ensures forall x, y :: x < 4 && y < 4 ==>
      ScanX(d, GetX(d, x, y), GetY(d, x, y)) == x && ScanY(d, GetX(d, x, y), GetY(d, x, y)) == y
    ensures forall px, py :: px < 4 && py < 4 ==>
      GetX(d, ScanX(d, px, py), ScanY(d, px, py)) == px && GetY(d, ScanX(d, px, py), ScanY(d, px, py)) == py
  {
  }

  /** Row `y` of the board in scan order for direction `d`. */
  function RowOf(b: Board, d: Direction, y: nat): (r: seq<Cell>)
    requires IsBoard(b) && y < 4
    ensures |r| == 4
    ensures forall x :: 0 <= x < 4 ==> r[x] == b[GetX(d, x, y)][GetY(d, x, y)]
  {
    seq(4, x requires 0 <= x < 4 => b[GetX(d, x, y)][GetY(d, x, y)])
  }

  /** Two boards whose rows agree, in one direction's scan order, are the same board. */
  lemma SameRowsSameBoard(b: Board, c: Board, d: Direction)
    requires IsBoard(b) && IsBoard(c)
    requires forall y :: 0 <= y < 4 ==> RowOf(b, d, y) == RowOf(c, d, y)
    ensures b == c
  {
    RemapBijective(d);
    forall px, py | 0 <= px < 4 && 0 <= py < 4 ensures b[px][py] == c[px][py] {
      var sx, sy := ScanX(d, px, py), ScanY(d, px, py);
      assert RowOf(b, d, sy)[sx] == RowOf(c, d, sy)[sx];
    }
    BoardEq(b, c);
  }

  /** What a total adds up: the tile numbers, or the number of tiles. */
  datatype Measure = Value | Count

  function Weight(c: Cell, m: Measure): nat {
    match c
    case Empty => 0
    case Tile(n) => if m == Value then n else 1
  }

  function RowTotal(s: seq<Cell>, m: Measure): nat {
    if s == [] then 0 else RowTotal(s[..|s| - 1], m) + Weight(s[|s| - 1], m)
  }

  function BoardTotal(b: Board, m: Measure): nat
    requires IsBoard(b)
  {
    RowTotal(b[0], m) + RowTotal(b[1], m) + RowTotal(b[2], m) + RowTotal(b[3], m)
  }

  /** Sum of all tile numbers on the board. */
  function Sum(b: Board): nat
    requires IsBoard(b)
  {
    BoardTotal(b, Value)
  }

  /** Number of non-empty cells on the board. */
  function TileCount(b: Board): nat
    requires IsBoard(b)
  {
    BoardTotal(b, Count)
  }

  /** `n` is one of 1, 2, 4, 8, ... */
  predicate PowerOfTwo(n: nat)
    decreases n
  {
    n == 1 || (n >= 2 && n % 2 == 0 && PowerOfTwo(n / 2))
  }

  /** A cell is free or holds a power of two that is at least 2. */
  predicate ValidCell(c: Cell) {
    c.Tile? ==> c.n >= 2 && PowerOfTwo(c.n)
  }

  predicate ValidRow(r: seq<Cell>) {
    forall i :: 0 <= i < |r| ==> ValidCell(r[i])
  }

  /** Every tile of the board holds a power of two that is at least 2. */
  predicate ValidTiles(b: Board)
    requires IsBoard(b)
  {
    forall x, y :: 0 <= x < 4 && 0 <= y < 4 ==> ValidCell(b[x][y])
  }

  /** Two equal tiles add up to a tile again. */
  lemma DoubleIsPowerOfTwo(n: nat)
    requires n >= 2 && PowerOfTwo(n)
    ensures n + n >= 2 && PowerOfTwo(n + n)
  {
    assert (n + n) / 2 == n;
  }

  /** The numbers a spawn writes are tiles. */
  lemma SpawnNumbersValid()
    ensures ValidCell(Tile(2)) && ValidCell(Tile(4))
  {
    assert PowerOfTwo(1);
    assert PowerOfTwo(2);
  }

  /** A board with an occupied cell holds at least one tile. */
  lemma OccupiedCounts(b: Board, x: nat, y: nat)
    requires IsBoard(b) && x < 4 && y < 4 && b[x][y] != Empty
    ensures TileCount(b) >= 1
  {
    RowTotal4(b[x], Count);
  }

  lemma RowTotal4(s: seq<Cell>, m: Measure)
    requires |s| == 4
    ensures RowTotal(s, m) == Weight(s[0], m) + Weight(s[1], m) + Weight(s[2], m) + Weight(s[3], m)
  {
    RowTotalSnoc(s, 0, m); RowTotalSnoc(s, 1, m); RowTotalSnoc(s, 2, m); RowTotalSnoc(s, 3, m);
    assert s[..4] == s;
  }

  /** A board total can be taken row by row in the scan order of any direction. */
  lemma BoardTotalByRows(b: Board, d: Direction, m: Measure)
    requires IsBoard(b)
    ensures BoardTotal(b, m) ==
      RowTotal(RowOf(b, d, 0), m) + RowTotal(RowOf(b, d, 1), m) +
      RowTotal(RowOf(b, d, 2), m) + RowTotal(RowOf(b, d, 3), m)
  {
    RowTotal4(b[0], m); RowTotal4(b[1], m); RowTotal4(b[2], m); RowTotal4(b[3], m);
    RowTotal4(RowOf(b, d, 0), m); RowTotal4(RowOf(b, d, 1), m);
    RowTotal4(RowOf(b, d, 2), m); RowTotal4(RowOf(b, d, 3), m);
  }

  /** Replacing one cell changes a total by the difference of the two weights. */
  lemma {:induction false} RowTotalUpdate(s: seq<Cell>, i: nat, c: Cell, m: Measure)
    requires i < |s|
    ensures RowTotal(s[i := c], m) + Weight(s[i], m) == RowTotal(s, m) + Weight(c, m)
  {
    var t := s[i := c];
    if i < |s| - 1 {
      assert t[..|t| - 1] == s[..|s| - 1][i := c];
      RowTotalUpdate(s[..|s| - 1], i, c, m);
    } else {
      assert t[..|t| - 1] == s[..|s| - 1];
    }
  }

  lemma RowTotalSnoc(s: seq<Cell>, k: nat, m: Measure)
    requires k < |s|
    ensures RowTotal(s[..k + 1], m) == RowTotal(s[..k], m) + Weight(s[k], m)
  {
    assert s[..k + 1][..k] == s[..k];
  }

  /** At most one tile per cell, and exactly |s| when no cell is empty. */
  lemma {:induction false} CountBound(s: seq<Cell>)
    ensures RowTotal(s, Count) <= |s|
    ensures RowTotal(s, Count) == |s| <==> forall i :: 0 <= i < |s| ==> s[i] != Empty
  {
    if s != [] {
      var p := s[..|s| - 1];
      CountBound(p);
      if RowTotal(s, Count) == |s| {
        forall i | 0 <= i < |s| ensures s[i] != Empty {
          if i < |s| - 1 { assert s[i] == p[i]; }
        }
      }
      if forall i :: 0 <= i < |s| ==> s[i] != Empty {
        assert forall i :: 0 <= i < |p| ==> p[i] == s[i];
      }
    }
  }

  /** Some cell of the board is free. */
  predicate HasRoom(b: Board)
    requires IsBoard(b)
  {
    exists x, y :: 0 <= x < 4 && 0 <= y < 4 && b[x][y] == Empty
  }

  /** A board with fewer than 16 tiles has a free cell. */
  lemma RoomWhenNotFull(b: Board)
    requires IsBoard(b) && TileCount(b) < 16
    ensures HasRoom(b)
  {
    CountBound(b[0]); CountBound(b[1]); CountBound(b[2]); CountBound(b[3]);
    var x :| 0 <= x < 4 && RowTotal(b[x], Count) < 4;
    var y :| 0 <= y < 4 && b[x][y] == Empty;
  }

  /** The free cells among the first `k` cells of the source's scan
      (x outer, y inner), in scan order. */
  function Available(b: Board, k: nat): (r: seq<Pos>)
    requires IsBoard(b) && k <= 16
    ensures |r| <= k
  {
    if k == 0 then []
    else
      var p := ((k - 1) / 4, (k - 1) % 4);
      Available(b, k - 1) + (if b[p.0][p.1] == Empty then [p] else [])
  }

  /** Cell `(x, y)` is the `4 * x + y`-th of the scan. */
  lemma AvailableStep(b: Board, x: nat, y: nat, k: nat)
    requires IsBoard(b) && x < 4 && y < 4 && k == 4 * x + y
    ensures Available(b, k + 1) == Available(b, k) + (if b[x][y] == Empty then [(x, y)] else [])
  {
    assert k / 4 == x && k % 4 == y;
  }

  /** The list of available positions that the spawn picks from. */
  function AvailablePositions(b: Board): seq<Pos>
    requires IsBoard(b)
  {
    Available(b, 16)
  }

  lemma {:induction false} AvailableMembers(b: Board, k: nat)
    requires IsBoard(b) && k <= 16
    ensures forall p: Pos :: p in Available(b, k) <==>
      InBoard(p) && 4 * p.0 + p.1 < k && b[p.0][p.1] == Empty
    ensures NoRepeats(Available(b, k))
  {
    if k > 0 {
      AvailableMembers(b, k - 1);
      var q: Pos := ((k - 1) / 4, (k - 1) % 4);
      var prev := Available(b, k - 1);
      forall p: Pos | InBoard(p) && 4 * p.0 + p.1 == k - 1 ensures p == q {
      }
      if b[q.0][q.1] == Empty {
        assert q !in prev;
        SnocDistinct(prev, q);
      }
    }
  }

  /** No element appears twice in `l`. */
  predicate NoRepeats<T(==)>(l: seq<T>) {
    forall i, j :: 0 <= i < j < |l| ==> l[i] != l[j]
  }

  /** A list without repeats stays so when an element it lacks is appended. */
  lemma SnocDistinct<T>(l: seq<T>, q: T)
    requires NoRepeats(l) && q !in l
    ensures NoRepeats(l + [q])
  {
  }

  /** The available positions are exactly the free cells, each listed once,
      and the list is empty exactly when the board is full. */
  lemma AvailablePositionsSpec(b: Board)
    requires IsBoard(b)
    ensures forall p: Pos :: p in AvailablePositions(b) <==> InBoard(p) && b[p.0][p.1] == Empty
    ensures forall i, j :: 0 <= i < j < |AvailablePositions(b)| ==>
      AvailablePositions(b)[i] != AvailablePositions(b)[j]
    ensures AvailablePositions(b) != [] <==> HasRoom(b)
  {
    AvailableMembers(b, 16);
    if HasRoom(b) {
      var x, y :| 0 <= x < 4 && 0 <= y < 4 && b[x][y] == Empty;
      assert (x, y) in AvailablePositions(b);
    }
    if AvailablePositions(b) != [] {
      var p := AvailablePositions(b)[0];
      assert p in AvailablePositions(b);
      assert b[p.0][p.1] == Empty;
    }
  }
}
