// The slide of a whole board (main.js `slide`, before its spawn): the four
// row scans of rows.dfy placed back through the direction's remapping, and
// the animation records they emit, numbered in emission order.
module Engine {
  import opened Tiles
  import opened Rows
  import opened Events

  /** The record the source emits for a scan event of row `y`, with id serial `serial`. */
  function LiftOp(o: RowOp, d: Direction, y: nat, serial: nat): Animation
    requires y < 4 && OpInRange(o)
  {
    match o
    case MoveOp(from, to, n) =>
      MoveAnim(ElementId(MOVE_PREFIX, serial), GetX(d, from, y), GetY(d, from, y), GetX(d, to, y), GetY(d, to, y), n)
    case MergeOp(at, n) =>
      MergeAnim(ElementId(MERGE_PREFIX, serial), GetX(d, at, y), GetY(d, at, y), n)
  }

  /** The records of a row's events, numbered from `base + 1`. */
  function Lift(ops: seq<RowOp>, d: Direction, y: nat, base: nat): seq<Animation>
    requires y < 4 && forall i :: 0 <= i < |ops| ==> OpInRange(ops[i])
  {
    seq(|ops|, i requires 0 <= i < |ops| => LiftOp(ops[i], d, y, base + i + 1))
  }

  lemma LiftAppend(ops: seq<RowOp>, more: seq<RowOp>, d: Direction, y: nat, base: nat)
    requires y < 4 && forall i :: 0 <= i < |ops| ==> OpInRange(ops[i])
    requires forall i :: 0 <= i < |more| ==> OpInRange(more[i])
    ensures forall i :: 0 <= i < |ops + more| ==> OpInRange((ops + more)[i])
    ensures Lift(ops + more, d, y, base) == Lift(ops, d, y, base) + Lift(more, d, y, base + |ops|)
  {
  }

  /** Records already lifted from `ops`, extended by those lifted from `more`,
      are the records lifted from `ops + more`. */
  lemma LiftExtend(base: seq<Animation>, ops: seq<RowOp>, more: seq<RowOp>, d: Direction, y: nat,
                   a1: seq<Animation>, a2: seq<Animation>)
    requires y < 4 && forall i :: 0 <= i < |ops| ==> OpInRange(ops[i])
    requires forall i :: 0 <= i < |more| ==> OpInRange(more[i])
    requires a1 == base + Lift(ops, d, y, |base|)
    requires a2 == a1 + Lift(more, d, y, |a1|)
    ensures forall i :: 0 <= i < |ops + more| ==> OpInRange((ops + more)[i])
    ensures a2 == base + Lift(ops + more, d, y, |base|)
  {
    LiftAppend(ops, more, d, y, |base|);
  }

  lemma LiftIndex(ops: seq<RowOp>, d: Direction, y: nat, base: nat, j: nat)
    requires y < 4 && forall i :: 0 <= i < |ops| ==> OpInRange(ops[i])
    requires j < |ops|
    ensures |Lift(ops, d, y, base)| == |ops| && Lift(ops, d, y, base)[j] == LiftOp(ops[j], d, y, base + j + 1)
  {
  }

  lemma LiftSmall(ops: seq<RowOp>, d: Direction, y: nat, base: nat)
    requires y < 4 && |ops| <= 2 && forall i :: 0 <= i < |ops| ==> OpInRange(ops[i])
    ensures |ops| == 0 ==> Lift(ops, d, y, base) == []
    ensures |ops| == 1 ==> Lift(ops, d, y, base) == [LiftOp(ops[0], d, y, base + 1)]
    ensures |ops| == 2 ==> Lift(ops, d, y, base) == [LiftOp(ops[0], d, y, base + 1), LiftOp(ops[1], d, y, base + 2)]
  {
  }

  /** The scan of row `y` of board `b` for direction `d`. */
  function RowResult(b: Board, d: Direction, y: nat): (s: Scan)
    requires IsBoard(b) && y < 4
    ensures WellFormed(s)
    ensures forall i :: 0 <= i < |s.ops| ==> OpInRange(s.ops[i])
  {
    RowOpsInRange(RowOf(b, d, y));
    SlideRow(RowOf(b, d, y))
  }

  /** The board `slide` builds in `newState.tiles` (before the spawn). */
  function Slid(b: Board, d: Direction): (r: Board)
    requires IsBoard(b)
    ensures IsBoard(r)
  {
    seq(4, px requires 0 <= px < 4 =>
      seq(4, py requires 0 <= py < 4 => RowResult(b, d, ScanY(d, px, py)).dst[ScanX(d, px, py)]))
  }

  /** The records emitted by the scans of rows 0..rows-1, in order. */
  function SlideAnimations(b: Board, d: Direction, rows: nat): seq<Animation>
    requires IsBoard(b) && rows <= 4
  {
    if rows == 0 then []
    else
      var prev := SlideAnimations(b, d, rows - 1);
      prev + Lift(RowResult(b, d, rows - 1).ops, d, rows - 1, |prev|)
  }

  /** The records of a whole slide. */
  function Animations(b: Board, d: Direction): seq<Animation>
    requires IsBoard(b)
  {
    SlideAnimations(b, d, 4)
  }

  /** Read in the direction's scan order, row `y` of the new board is the scan's result. */
  lemma SlidRow(b: Board, d: Direction, y: nat)
    requires IsBoard(b) && y < 4
    ensures RowOf(Slid(b, d), d, y) == RowResult(b, d, y).dst
  {
    RemapBijective(d);
  }

  /** Before the spawn, the slide conserves the sum of all tile numbers. */
  lemma SlideConservesSum(b: Board, d: Direction)
    requires IsBoard(b)
    ensures Sum(Slid(b, d)) == Sum(b)
  {
    SlidTotal(b, d, Value);
    BoardTotalByRows(b, d, Value);
    RowCompaction(RowOf(b, d, 0)); RowCompaction(RowOf(b, d, 1));
    RowCompaction(RowOf(b, d, 2)); RowCompaction(RowOf(b, d, 3));
  }

  lemma {:induction false} MergeCountLift(ops: seq<RowOp>, d: Direction, y: nat, base: nat)
    requires y < 4 && forall i :: 0 <= i < |ops| ==> OpInRange(ops[i])
    ensures MergeCount(Lift(ops, d, y, base)) == Merges(ops)
    decreases |ops|
  {
    if ops != [] {
      var l := Lift(ops, d, y, base);
      assert l[..|l| - 1] == Lift(ops[..|ops| - 1], d, y, base);
      MergeCountLift(ops[..|ops| - 1], d, y, base);
    }
  }

  /** Merges of the first `rows` rows. */
  function RowsMerges(b: Board, d: Direction, rows: nat): nat
    requires IsBoard(b) && rows <= 4
  {
    if rows == 0 then 0 else RowsMerges(b, d, rows - 1) + Merges(RowResult(b, d, rows - 1).ops)
  }

  lemma {:induction false} MergeCountRows(b: Board, d: Direction, rows: nat)
    requires IsBoard(b) && rows <= 4
    ensures MergeCount(SlideAnimations(b, d, rows)) == RowsMerges(b, d, rows)
  {
    if rows > 0 {
      var prev := SlideAnimations(b, d, rows - 1);
      MergeCountRows(b, d, rows - 1);
      MergeCountAppend(prev, Lift(RowResult(b, d, rows - 1).ops, d, rows - 1, |prev|));
      MergeCountLift(RowResult(b, d, rows - 1).ops, d, rows - 1, |prev|);
    }
  }

  /** A total of the new board, taken over the four scan results. */
  lemma SlidTotal(b: Board, d: Direction, m: Measure)
    requires IsBoard(b)
    ensures BoardTotal(Slid(b, d), m) ==
      RowTotal(RowResult(b, d, 0).dst, m) + RowTotal(RowResult(b, d, 1).dst, m) +
      RowTotal(RowResult(b, d, 2).dst, m) + RowTotal(RowResult(b, d, 3).dst, m)
  {
    BoardTotalByRows(Slid(b, d), d, m);
    SlidRow(b, d, 0); SlidRow(b, d, 1); SlidRow(b, d, 2); SlidRow(b, d, 3);
  }

  lemma RowResultCount(b: Board, d: Direction, y: nat)
    requires IsBoard(b) && y < 4
    ensures RowTotal(RowResult(b, d, y).dst, Count) + Merges(RowResult(b, d, y).ops) == RowTotal(RowOf(b, d, y), Count)
  {
    RowCountsMerges(RowOf(b, d, y));
    CountBound(RowOf(b, d, y));
  }

  /** Before the spawn, the new board has one tile fewer per merge record. */
  lemma SlideCountsMerges(b: Board, d: Direction)
    requires IsBoard(b)
    ensures TileCount(Slid(b, d)) == TileCount(b) - MergeCount(Animations(b, d))
  {
    SlidTotal(b, d, Count);
    BoardTotalByRows(b, d, Count);
    RowResultCount(b, d, 0); RowResultCount(b, d, 1); RowResultCount(b, d, 2); RowResultCount(b, d, 3);
    MergeCountRows(b, d, 4);
    assert RowsMerges(b, d, 1) == Merges(RowResult(b, d, 0).ops);
    assert RowsMerges(b, d, 2) == RowsMerges(b, d, 1) + Merges(RowResult(b, d, 1).ops);
    assert RowsMerges(b, d, 3) == RowsMerges(b, d, 2) + Merges(RowResult(b, d, 2).ops);
    assert RowsMerges(b, d, 4) ==
      Merges(RowResult(b, d, 0).ops) + Merges(RowResult(b, d, 1).ops) +
      Merges(RowResult(b, d, 2).ops) + Merges(RowResult(b, d, 3).ops);
  }

  lemma {:induction false} NoAnimationsNoOps(b: Board, d: Direction, rows: nat)
    requires IsBoard(b) && rows <= 4
    ensures SlideAnimations(b, d, rows) == [] <==> forall y :: 0 <= y < rows ==> RowResult(b, d, y).ops == []
  {
    if rows > 0 {
      NoAnimationsNoOps(b, d, rows - 1);
      SlideAnimationsStep(b, d, rows - 1);
      var ops := RowResult(b, d, rows - 1).ops;
      assert |Lift(ops, d, rows - 1, |SlideAnimations(b, d, rows - 1)|)| == |ops|;
    }
  }

  /** `slide` records nothing exactly when the board would stay as it is;
      this is when it returns null. */
  lemma SlideUnchangedIffNoAnimations(b: Board, d: Direction)
    requires IsBoard(b)
    ensures Animations(b, d) == [] <==> Slid(b, d) == b
  {
    var r := Slid(b, d);
    NoAnimationsNoOps(b, d, 4);
    forall y | 0 <= y < 4 ensures RowResult(b, d, y).ops == [] <==> RowOf(r, d, y) == RowOf(b, d, y) {
      SlidRow(b, d, y);
      RowUnchangedIffNoEvents(RowOf(b, d, y));
    }
    if forall y :: 0 <= y < 4 ==> RowOf(r, d, y) == RowOf(b, d, y) {
      SameRowsSameBoard(r, b, d);
    }
  }

  /** A slide that records anything leaves a free cell for the spawn, so the
      source's assertion that some position is available never fails. */
  lemma SlideLeavesRoom(b: Board, d: Direction)
    requires IsBoard(b) && Animations(b, d) != []
    ensures HasRoom(Slid(b, d))
  {
    NoAnimationsNoOps(b, d, 4);
    var y :| 0 <= y < 4 && RowResult(b, d, y).ops != [];
    RowRoomAfterChange(RowOf(b, d, y));
    var sx :| 0 <= sx < 4 && RowResult(b, d, y).dst[sx] == Empty;
    SlidRow(b, d, y);
    assert Slid(b, d)[GetX(d, sx, y)][GetY(d, sx, y)] == Empty;
  }

  /** A slide keeps every tile a power of two that is at least 2. */
  lemma SlideKeepsPowers(b: Board, d: Direction)
    requires IsBoard(b) && ValidTiles(b)
    ensures ValidTiles(Slid(b, d))
  {
    forall y | 0 <= y < 4 ensures ValidRow(RowResult(b, d, y).dst) {
      RowKeepsPowers(RowOf(b, d, y));
    }
  }

  /** A slide that records anything leaves at least one tile on the board. */
  lemma SlideKeepsTile(b: Board, d: Direction)
    requires IsBoard(b) && Animations(b, d) != []
    ensures TileCount(Slid(b, d)) >= 1
  {
    NoAnimationsNoOps(b, d, 4);
    var y :| 0 <= y < 4 && RowResult(b, d, y).ops != [];
    var sx := RowKeepsTile(RowOf(b, d, y));
    SlidCell(b, d, y, sx);
    OccupiedCounts(Slid(b, d), GetX(d, sx, y), GetY(d, sx, y));
  }

  /** Record `i` of the first `rows` rows comes from event `j` of some row `y`. */
  lemma {:induction false} AnimationOrigin(b: Board, d: Direction, rows: nat, i: nat) returns (y: nat, j: nat)
    requires IsBoard(b) && rows <= 4 && i < |SlideAnimations(b, d, rows)|
    ensures y < rows && j < |RowResult(b, d, y).ops|
    ensures i == |SlideAnimations(b, d, y)| + j
    ensures SlideAnimations(b, d, rows)[i] == LiftOp(RowResult(b, d, y).ops[j], d, y, i + 1)
  {
    var prev := SlideAnimations(b, d, rows - 1);
    SlideAnimationsStep(b, d, rows - 1);
    if i < |prev| {
      y, j := AnimationOrigin(b, d, rows - 1, i);
      assert SlideAnimations(b, d, rows)[i] == prev[i];
    } else {
      y, j := rows - 1, i - |prev|;
      var lifted := Lift(RowResult(b, d, y).ops, d, y, |prev|);
      LiftIndex(RowResult(b, d, y).ops, d, y, |prev|, j);
      assert SlideAnimations(b, d, rows) == prev + lifted;
      assert (prev + lifted)[i] == lifted[j];
    }
  }

  /** Record `i` of a slide is what its scan event promises, on the board:
      its id is the `i + 1`-th with its kind's prefix; a move starts from the
      tile it carries and ends on an occupied cell of the new board; a merge
      directly follows the move onto its cell, doubles the moved number, and
      that cell of the new board holds the merged number. */
  predicate AnimationFaithful(b: Board, d: Direction, anims: seq<Animation>, i: nat)
    requires IsBoard(b) && i < |anims|
  {
    var a := anims[i];
    a.id == ElementId(Prefix(a), i + 1) && OnBoard(a) &&
    (a.MoveAnim? ==> b[a.fromX][a.fromY] == Tile(a.n) && Slid(b, d)[a.x][a.y] != Empty) &&
    (a.MergeAnim? ==>
       0 < i && anims[i - 1].MoveAnim? && anims[i - 1].x == a.x && anims[i - 1].y == a.y &&
       a.n == 2 * anims[i - 1].n && Slid(b, d)[a.x][a.y] == Tile(a.n))
  }

  lemma AnimationAt(b: Board, d: Direction, i: nat)
    requires IsBoard(b) && i < |Animations(b, d)|
    ensures AnimationFaithful(b, d, Animations(b, d), i)
  {
    var anims := Animations(b, d);
    var y, j := AnimationOrigin(b, d, 4, i);
    var scan := RowResult(b, d, y);
    RowEventsFaithful(RowOf(b, d, y));
    assert OpFaithful(RowOf(b, d, y), scan, j);
    if scan.ops[j].MoveOp? {
      MoveAt(b, d, i, y, j);
    } else {
      MergeAt(b, d, i, y, j);
    }
  }

  lemma MoveAt(b: Board, d: Direction, i: nat, y: nat, j: nat)
    requires IsBoard(b) && i < |Animations(b, d)| && y < 4 && j < |RowResult(b, d, y).ops|
    requires Animations(b, d)[i] == LiftOp(RowResult(b, d, y).ops[j], d, y, i + 1)
    requires RowResult(b, d, y).ops[j].MoveOp? && OpFaithful(RowOf(b, d, y), RowResult(b, d, y), j)
    ensures AnimationFaithful(b, d, Animations(b, d), i)
  {
    SlidCell(b, d, y, RowResult(b, d, y).ops[j].to);
  }

  lemma MergeAt(b: Board, d: Direction, i: nat, y: nat, j: nat)
    requires IsBoard(b) && i < |Animations(b, d)| && y < 4 && j < |RowResult(b, d, y).ops|
    requires i == |SlideAnimations(b, d, y)| + j
    requires Animations(b, d)[i] == LiftOp(RowResult(b, d, y).ops[j], d, y, i + 1)
    requires RowResult(b, d, y).ops[j].MergeOp? && OpFaithful(RowOf(b, d, y), RowResult(b, d, y), j)
    ensures AnimationFaithful(b, d, Animations(b, d), i)
  {
    var scan := RowResult(b, d, y);
    var op := scan.ops[j];
    SlidCell(b, d, y, op.at);
    PrevRecord(b, d, y, j, i);
    assert Animations(b, d)[i] == MergeAnim(ElementId(MERGE_PREFIX, i + 1), GetX(d, op.at, y), GetY(d, op.at, y), op.n);
  }

  /** The record before the one of event `j > 0` of row `y` is the record of event `j - 1`. */
  lemma PrevRecord(b: Board, d: Direction, y: nat, j: nat, i: nat)
    requires IsBoard(b) && y < 4 && 0 < j < |RowResult(b, d, y).ops|
    requires i == |SlideAnimations(b, d, y)| + j
    ensures i - 1 < |Animations(b, d)|
    ensures Animations(b, d)[i - 1] == LiftOp(RowResult(b, d, y).ops[j - 1], d, y, i)
  {
    var k := i - 1;
    RowRecord(b, d, y, j - 1, k);
    SlideAnimationsPrefix(b, d, y + 1, 4);
    assert Animations(b, d)[k] == SlideAnimations(b, d, y + 1)[k];
  }

  /** Record `k` of the first `y + 1` rows, for `k` the position of event
      `j` of row `y`, is that event's record. */
  lemma RowRecord(b: Board, d: Direction, y: nat, j: nat, k: nat)
    requires IsBoard(b) && y < 4 && j < |RowResult(b, d, y).ops|
    requires k == |SlideAnimations(b, d, y)| + j
    ensures k < |SlideAnimations(b, d, y + 1)|
    ensures SlideAnimations(b, d, y + 1)[k] == LiftOp(RowResult(b, d, y).ops[j], d, y, k + 1)
  {
    var prev := SlideAnimations(b, d, y);
    var lifted := Lift(RowResult(b, d, y).ops, d, y, |prev|);
    SlideAnimationsStep(b, d, y);
    LiftIndex(RowResult(b, d, y).ops, d, y, |prev|, j);
    assert (prev + lifted)[k] == lifted[j];
  }

  lemma SlideAnimationsStep(b: Board, d: Direction, y: nat)
    requires IsBoard(b) && y < 4
    ensures SlideAnimations(b, d, y + 1) ==
      SlideAnimations(b, d, y) + Lift(RowResult(b, d, y).ops, d, y, |SlideAnimations(b, d, y)|)
  {
  }

  /** The records of the first rows are a prefix of the records of more rows. */
  lemma {:induction false} SlideAnimationsPrefix(b: Board, d: Direction, lo: nat, hi: nat)
    requires IsBoard(b) && lo <= hi <= 4
    ensures |SlideAnimations(b, d, lo)| <= |SlideAnimations(b, d, hi)|
    ensures forall k :: 0 <= k < |SlideAnimations(b, d, lo)| ==> SlideAnimations(b, d, hi)[k] == SlideAnimations(b, d, lo)[k]
    decreases hi - lo
  {
    if lo < hi {
      SlideAnimationsPrefix(b, d, lo, hi - 1);
      SlideAnimationsStep(b, d, hi - 1);
    }
  }

  /** The new board's cell at scan position `x` of row `y`. */
  lemma SlidCell(b: Board, d: Direction, y: nat, x: nat)
    requires IsBoard(b) && y < 4 && x < 4
    ensures Slid(b, d)[GetX(d, x, y)][GetY(d, x, y)] == RowResult(b, d, y).dst[x]
  {
    RemapBijective(d);
  }

  /** Every record of a slide is faithful, and the records are numbered. */
  lemma SlideAnimationsFaithful(b: Board, d: Direction)
    requires IsBoard(b)
    ensures Numbered(Animations(b, d))
    ensures forall i :: 0 <= i < |Animations(b, d)| ==> AnimationFaithful(b, d, Animations(b, d), i)
  {
    var anims := Animations(b, d);
    forall i | 0 <= i < |anims|
      ensures AnimationFaithful(b, d, anims, i)
      ensures anims[i].id == ElementId(Prefix(anims[i]), i + 1) && OnBoard(anims[i])
    {
      AnimationAt(b, d, i);
    }
  }

  /** No board cell receives two merge records in one slide. */
  lemma SlideMergesOnce(b: Board, d: Direction)
    requires IsBoard(b)
    ensures forall i, j ::
      (0 <= i < j < |Animations(b, d)| && Animations(b, d)[i].MergeAnim? && Animations(b, d)[j].MergeAnim?) ==>
      (Animations(b, d)[i].x, Animations(b, d)[i].y) != (Animations(b, d)[j].x, Animations(b, d)[j].y)
  {
    var anims := Animations(b, d);
    RemapBijective(d);
    forall i, j | 0 <= i < j < |anims| && anims[i].MergeAnim? && anims[j].MergeAnim?
      ensures (anims[i].x, anims[i].y) != (anims[j].x, anims[j].y)
    {
      var y1, k1 := AnimationOrigin(b, d, 4, i);
      var y2, k2 := AnimationOrigin(b, d, 4, j);
      if y1 == y2 {
        RowMergesOnce(RowOf(b, d, y1));
        assert k1 < k2;
      }
    }
  }
}
