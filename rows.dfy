// The scan that `slideRow` performs on one row, in scan positions 0..3
// (position 0 is the edge the tiles slide towards). The scan is written as a
// fold of one step per position; the board's in-place version in game.dfy is
// proved to follow it.
module Rows {
  import opened Tiles

  /** An event of one row scan, in scan positions: `MoveOp` is a move of the
      tile at `from` to `to` carrying its number `n`; `MergeOp` is a merge at
      `at` whose `n` is the merged number. */
  datatype RowOp = MoveOp(from: nat, to: nat, n: nat) | MergeOp(at: nat, n: nat)

  /** What the scan has built so far: the new row `dst`, the per-position
      merged flags, and the events in order. */
  datatype Scan = Scan(dst: seq<Cell>, merged: seq<bool>, ops: seq<RowOp>)

  predicate WellFormed(s: Scan) {
    |s.dst| == 4 && |s.merged| == 4
  }

  /** The backward search for a target: starting at `t`, step back while
      `t > 0` and the cell at `t` is empty. */
  function Target(dst: seq<Cell>, t: nat): (r: nat)
    requires t < |dst|
    ensures r <= t
    ensures r == 0 || dst[r] != Empty
    ensures forall i :: r < i <= t ==> dst[i] == Empty
  {
    if t > 0 && dst[t] == Empty then Target(dst, t - 1) else t
  }

  /** One iteration of slideRow's loop, at scan position `x` of source row `src`. */
  function Step(src: seq<Cell>, x: nat, s: Scan): (r: Scan)
    requires |src| == 4 && x < 4 && WellFormed(s)
    ensures WellFormed(r)
    ensures forall i :: x < i < 4 ==> r.dst[i] == s.dst[i]
    ensures |s.ops| <= |r.ops| && r.ops[..|s.ops|] == s.ops
  {
    if src[x] == Empty then s
    else if x == 0 then s.(dst := s.dst[0 := src[0]])
    else
      var t := Target(s.dst, x - 1);
      if s.dst[t] == Empty then
        Scan(s.dst[t := src[x]], s.merged, s.ops + [MoveOp(x, t, src[x].n)])
      else if s.dst[t] == src[x] && !s.merged[t] then
        Scan(s.dst[t := Tile(s.dst[t].n + src[x].n)], s.merged[t := true],
             s.ops + [MoveOp(x, t, src[x].n), MergeOp(t, src[x].n + s.dst[t].n)])
      else if t + 1 != x then
        Scan(s.dst[t + 1 := src[x]], s.merged, s.ops + [MoveOp(x, t + 1, src[x].n)])
      else
        s.(dst := s.dst[x := src[x]])
  }

  // The branches of Step, one lemma each, so that the in-place scan of
  // game.dfy can name the branch it took.

  lemma StepSkip(src: seq<Cell>, x: nat, s: Scan)
    requires |src| == 4 && x < 4 && WellFormed(s) && src[x] == Empty
    ensures Step(src, x, s) == s
  {
  }

  lemma StepCopy(src: seq<Cell>, x: nat, s: Scan)
    requires |src| == 4 && x < 4 && WellFormed(s) && src[x] != Empty
    requires x == 0 || (s.dst[Target(s.dst, x - 1)] != Empty && !(s.dst[Target(s.dst, x - 1)] == src[x] && !s.merged[Target(s.dst, x - 1)]) && Target(s.dst, x - 1) + 1 == x)
    ensures Step(src, x, s) == s.(dst := s.dst[x := src[x]])
  {
  }

  lemma StepMove(src: seq<Cell>, x: nat, s: Scan, w: nat)
    requires |src| == 4 && 0 < x < 4 && WellFormed(s) && src[x] != Empty
    requires var t := Target(s.dst, x - 1);
      (s.dst[t] == Empty && w == t) ||
      (s.dst[t] != Empty && !(s.dst[t] == src[x] && !s.merged[t]) && t + 1 != x && w == t + 1)
    ensures w < 4
    ensures Step(src, x, s) == Scan(s.dst[w := src[x]], s.merged, s.ops + [MoveOp(x, w, src[x].n)])
  {
  }

  lemma StepMerge(src: seq<Cell>, x: nat, s: Scan)
    requires |src| == 4 && 0 < x < 4 && WellFormed(s) && src[x] != Empty
    requires var t := Target(s.dst, x - 1); s.dst[t] != Empty && s.dst[t] == src[x] && !s.merged[t]
    ensures var t := Target(s.dst, x - 1);
      Step(src, x, s) == Scan(s.dst[t := Tile(s.dst[t].n + src[x].n)], s.merged[t := true],
        s.ops + [MoveOp(x, t, src[x].n), MergeOp(t, src[x].n + s.dst[t].n)])
  {
  }

  /** The scan after positions 0..k-1; positions k.. of the new row are still empty. */
  function ScanRow(src: seq<Cell>, k: nat): (s: Scan)
    requires |src| == 4 && k <= 4
    ensures WellFormed(s)
    ensures forall i :: k <= i < 4 ==> s.dst[i] == Empty
  {
    if k == 0 then Scan([Empty, Empty, Empty, Empty], [false, false, false, false], [])
    else Step(src, k - 1, ScanRow(src, k - 1))
  }

  /** The finished scan of a row. */
  function SlideRow(src: seq<Cell>): Scan
    requires |src| == 4
  {
    ScanRow(src, 4)
  }

  /** Number of merge events. */
  function Merges(ops: seq<RowOp>): nat {
    if ops == [] then 0 else Merges(ops[..|ops| - 1]) + (if ops[|ops| - 1].MergeOp? then 1 else 0)
  }

  lemma MergesAppend(ops: seq<RowOp>, more: seq<RowOp>)
    ensures Merges(ops + more) == Merges(ops) + Merges(more)
    decreases |more|
  {
    if more == [] {
      assert ops + more == ops;
    } else {
      assert (ops + more)[..|ops + more| - 1] == ops + more[..|more| - 1];
      MergesAppend(ops, more[..|more| - 1]);
    }
  }

  predicate MergedAt(ops: seq<RowOp>, t: nat) {
    exists i :: 0 <= i < |ops| && ops[i].MergeOp? && ops[i].at == t
  }

  /** Occupied cells form a prefix of the row. */
  predicate Compact(dst: seq<Cell>)
    requires |dst| == 4
  {
    forall i, j :: 0 <= i < j < 4 && dst[j] != Empty ==> dst[i] != Empty
  }

  /** What event `i` records, judged against the row built so far: a move
      goes backwards from an occupied source cell, carries that cell's number
      and lands on an occupied cell; a merge directly follows the move onto
      the same cell, doubles the moved number, and that cell holds it. */
  predicate OpFaithful(src: seq<Cell>, s: Scan, i: nat)
    requires |src| == 4 && WellFormed(s) && i < |s.ops|
  {
    match s.ops[i]
    case MoveOp(from, to, n) => to < from < 4 && src[from] == Tile(n) && s.dst[to] != Empty
    case MergeOp(at, n) =>
      0 < i && s.ops[i - 1].MoveOp? && s.ops[i - 1].to == at && n == 2 * s.ops[i - 1].n &&
      at < 4 && s.dst[at] == Tile(n)
  }

  predicate OpsFaithful(src: seq<Cell>, s: Scan)
    requires |src| == 4 && WellFormed(s)
  {
    forall i :: 0 <= i < |s.ops| ==> OpFaithful(src, s, i)
  }

  /** No position receives two merges. */
  predicate MergesDistinct(ops: seq<RowOp>) {
    forall i, j :: 0 <= i < j < |ops| && ops[i].MergeOp? && ops[j].MergeOp? ==> ops[i].at != ops[j].at
  }

  /** Everything the scan keeps true after positions 0..k-1. */
  predicate Inv(src: seq<Cell>, k: nat, s: Scan)
    requires |src| == 4 && k <= 4
  {
    WellFormed(s) &&
    (forall i :: k <= i < 4 ==> s.dst[i] == Empty) &&
    Compact(s.dst) &&
    RowTotal(s.dst, Value) == RowTotal(src[..k], Value) &&
    RowTotal(s.dst, Count) + Merges(s.ops) == RowTotal(src[..k], Count) &&
    OpsFaithful(src, s) &&
    MergesDistinct(s.ops) &&
    (forall t :: 0 <= t < 4 ==> (s.merged[t] <==> MergedAt(s.ops, t))) &&
    (s.ops == [] ==> forall i :: 0 <= i < k ==> s.dst[i] == src[i]) &&
    (s.ops != [] ==> Merges(s.ops) > 0 || exists i :: 0 <= i < 4 && src[i] == Empty && s.dst[i] != Empty)
  }

  lemma InvInit(src: seq<Cell>)
    requires |src| == 4
    ensures Inv(src, 0, ScanRow(src, 0))
  {
    assert src[..0] == [];
    RowTotal4(ScanRow(src, 0).dst, Value);
    RowTotal4(ScanRow(src, 0).dst, Count);
  }

  lemma StepInv(src: seq<Cell>, x: nat, s: Scan)
    requires |src| == 4 && x < 4 && Inv(src, x, s)
    ensures Inv(src, x + 1, Step(src, x, s))
  {
    if src[x] == Empty {
      SkipInv(src, x, s);
    } else if x == 0 {
      CopyInv(src, x, s);
    } else {
      var t := Target(s.dst, x - 1);
      if s.dst[t] == Empty {
        MoveInv(src, x, s, t);
      } else if s.dst[t] == src[x] && !s.merged[t] {
        MergeInv(src, x, s, t);
      } else if t + 1 != x {
        MoveInv(src, x, s, t + 1);
      } else {
        CopyInv(src, x, s);
      }
    }
  }

  /** Skipping an empty source cell keeps the invariant. */
  lemma SkipInv(src: seq<Cell>, x: nat, s: Scan)
    requires |src| == 4 && x < 4 && Inv(src, x, s) && src[x] == Empty
    ensures Inv(src, x + 1, s)
  {
    RowTotalSnoc(src, x, Value);
    RowTotalSnoc(src, x, Count);
  }

  /** Copying the tile at `x` in place, right behind the occupied prefix, keeps the invariant. */
  lemma CopyInv(src: seq<Cell>, x: nat, s: Scan)
    requires |src| == 4 && x < 4 && Inv(src, x, s) && src[x] != Empty
    requires x == 0 || s.dst[x - 1] != Empty
    ensures Inv(src, x + 1, s.(dst := s.dst[x := src[x]]))
  {
    var r := s.(dst := s.dst[x := src[x]]);
    RowTotalSnoc(src, x, Value);
    RowTotalSnoc(src, x, Count);
    RowTotalUpdate(s.dst, x, src[x], Value);
    RowTotalUpdate(s.dst, x, src[x], Count);
    KeepOld(src, s, r, x);
  }

  /** A move of the tile at `x` to the free cell `w < x` keeps the invariant. */
  lemma MoveInv(src: seq<Cell>, x: nat, s: Scan, w: nat)
    requires |src| == 4 && 0 < x < 4 && Inv(src, x, s) && src[x] != Empty
    requires w < x && s.dst[w] == Empty && (w == 0 || s.dst[w - 1] != Empty)
    ensures Inv(src, x + 1, Scan(s.dst[w := src[x]], s.merged, s.ops + [MoveOp(x, w, src[x].n)]))
  {
    var r := Scan(s.dst[w := src[x]], s.merged, s.ops + [MoveOp(x, w, src[x].n)]);
    RowTotalSnoc(src, x, Value);
    RowTotalSnoc(src, x, Count);
    RowTotalUpdate(s.dst, w, src[x], Value);
    RowTotalUpdate(s.dst, w, src[x], Count);
    MergesAppend(s.ops, [MoveOp(x, w, src[x].n)]);
    KeepOld(src, s, r, w);
    assert OpFaithful(src, r, |s.ops|);
    forall u | 0 <= u < 4 ensures r.merged[u] <==> MergedAt(r.ops, u) {
      if MergedAt(r.ops, u) {
        var i :| 0 <= i < |r.ops| && r.ops[i].MergeOp? && r.ops[i].at == u;
        assert i < |s.ops|;
      }
    }
    if s.ops == [] {
      assert src[w] == Empty && r.dst[w] != Empty;
    }
  }

  /** A merge of the tile at `x` onto the equal, not yet merged tile at `t`
      keeps the invariant. */
  lemma MergeInv(src: seq<Cell>, x: nat, s: Scan, t: nat)
    requires |src| == 4 && 0 < x < 4 && Inv(src, x, s) && src[x] != Empty
    requires t < x && s.dst[t] == src[x] && !s.merged[t]
    ensures Inv(src, x + 1, Scan(s.dst[t := Tile(s.dst[t].n + src[x].n)], s.merged[t := true],
                                 s.ops + [MoveOp(x, t, src[x].n), MergeOp(t, src[x].n + s.dst[t].n)]))
  {
    var pair := [MoveOp(x, t, src[x].n), MergeOp(t, src[x].n + s.dst[t].n)];
    var r := Scan(s.dst[t := Tile(s.dst[t].n + src[x].n)], s.merged[t := true], s.ops + pair);
    MergeTotals(src, x, s, t, pair);
    KeepOld(src, s, r, t);
    assert OpFaithful(src, r, |s.ops|);
    assert OpFaithful(src, r, |s.ops| + 1);
    MergeFlags(s, r, t, pair[0], src[x].n + s.dst[t].n);
  }

  /** The two totals of the invariant after a merge onto `t`. */
  lemma MergeTotals(src: seq<Cell>, x: nat, s: Scan, t: nat, pair: seq<RowOp>)
    requires |src| == 4 && 0 < x < 4 && Inv(src, x, s) && src[x] != Empty
    requires t < x && s.dst[t] == src[x]
    requires pair == [MoveOp(x, t, src[x].n), MergeOp(t, src[x].n + s.dst[t].n)]
    ensures var dst := s.dst[t := Tile(s.dst[t].n + src[x].n)];
      RowTotal(dst, Value) == RowTotal(src[..x + 1], Value) &&
      RowTotal(dst, Count) + Merges(s.ops + pair) == RowTotal(src[..x + 1], Count)
  {
    RowTotalSnoc(src, x, Value);
    RowTotalSnoc(src, x, Count);
    RowTotalUpdate(s.dst, t, Tile(s.dst[t].n + src[x].n), Value);
    RowTotalUpdate(s.dst, t, Tile(s.dst[t].n + src[x].n), Count);
    assert Merges(pair[..1]) == 0 by { assert pair[..1][..0] == []; }
    assert Merges(pair) == 1;
    MergesAppend(s.ops, pair);
  }

  /** After a merge at the not yet merged position `t`, the flags still mark
      exactly the merged positions, and no position has merged twice. */
  lemma MergeFlags(s: Scan, r: Scan, t: nat, shift: RowOp, n: nat)
    requires WellFormed(s) && WellFormed(r) && t < 4 && !s.merged[t] && shift.MoveOp?
    requires MergesDistinct(s.ops) && forall u :: 0 <= u < 4 ==> (s.merged[u] <==> MergedAt(s.ops, u))
    requires r.ops == s.ops + [shift, MergeOp(t, n)] && r.merged == s.merged[t := true]
    ensures MergesDistinct(r.ops) && forall u :: 0 <= u < 4 ==> (r.merged[u] <==> MergedAt(r.ops, u))
  {
    forall u | 0 <= u < 4 ensures r.merged[u] <==> MergedAt(r.ops, u) {
      if u == t {
        assert r.ops[|s.ops| + 1].MergeOp?;
      } else {
        if MergedAt(r.ops, u) {
          var i :| 0 <= i < |r.ops| && r.ops[i].MergeOp? && r.ops[i].at == u;
          assert i < |s.ops| && s.ops[i] == r.ops[i];
        }
        if MergedAt(s.ops, u) {
          var i :| 0 <= i < |s.ops| && s.ops[i].MergeOp? && s.ops[i].at == u;
          assert r.ops[i] == s.ops[i];
        }
      }
    }
    forall i, j | 0 <= i < j < |r.ops| && r.ops[i].MergeOp? && r.ops[j].MergeOp?
      ensures r.ops[i].at != r.ops[j].at
    {
      if j == |s.ops| + 1 && i < |s.ops| {
        assert MergedAt(s.ops, r.ops[i].at);
      }
    }
  }

  /** The events recorded before a step stay faithful after it, when the step
      writes a tile into one cell `w` that is free or not yet merged. */
  lemma KeepOld(src: seq<Cell>, s: Scan, r: Scan, w: nat)
    requires |src| == 4 && WellFormed(s) && WellFormed(r) && w < 4
    requires OpsFaithful(src, s) && forall t :: 0 <= t < 4 ==> (s.merged[t] <==> MergedAt(s.ops, t))
    requires |s.ops| <= |r.ops| && r.ops[..|s.ops|] == s.ops
    requires forall i :: 0 <= i < 4 && i != w ==> r.dst[i] == s.dst[i]
    requires r.dst[w] != Empty && (s.dst[w] != Empty ==> !s.merged[w])
    ensures forall i :: 0 <= i < |s.ops| ==> OpFaithful(src, r, i)
  {
    forall i | 0 <= i < |s.ops| ensures OpFaithful(src, r, i) {
      assert OpFaithful(src, s, i);
      assert r.ops[i] == s.ops[i];
      if i > 0 {
        assert r.ops[i - 1] == s.ops[i - 1];
      }
      if s.ops[i].MergeOp? {
        assert MergedAt(s.ops, s.ops[i].at);
      }
    }
  }

  lemma {:induction false} ScanInvariant(src: seq<Cell>, k: nat)
    requires |src| == 4 && k <= 4
    ensures Inv(src, k, ScanRow(src, k))
  {
    if k == 0 {
      InvInit(src);
    } else {
      ScanInvariant(src, k - 1);
      StepInv(src, k - 1, ScanRow(src, k - 1));
    }
  }

  lemma FinalInv(src: seq<Cell>)
    requires |src| == 4
    ensures Inv(src, 4, SlideRow(src)) && src[..4] == src
  {
    ScanInvariant(src, 4);
  }

  /** After the scan the occupied cells of the row form a prefix (scan
      positions 0..k-1), and the row's numbers add up to what they did. */
  lemma RowCompaction(src: seq<Cell>)
    requires |src| == 4
    ensures Compact(SlideRow(src).dst)
    ensures RowTotal(SlideRow(src).dst, Value) == RowTotal(src, Value)
  {
    FinalInv(src);
  }

  /** Every merge removes exactly one tile from the row. */
  lemma RowCountsMerges(src: seq<Cell>)
    requires |src| == 4
    ensures RowTotal(SlideRow(src).dst, Count) == RowTotal(src, Count) - Merges(SlideRow(src).ops)
  {
    FinalInv(src);
  }

  /** No position of the row is merged twice, and the merged flags record
      exactly the positions that received a merge. */
  lemma RowMergesOnce(src: seq<Cell>)
    requires |src| == 4
    ensures MergesDistinct(SlideRow(src).ops)
    ensures forall t :: 0 <= t < 4 ==> (SlideRow(src).merged[t] <==> MergedAt(SlideRow(src).ops, t))
  {
    FinalInv(src);
  }

  /** Each event of the finished scan is faithful to the source row and to the new row. */
  lemma RowEventsFaithful(src: seq<Cell>)
    requires |src| == 4
    ensures forall i :: 0 <= i < |SlideRow(src).ops| ==> OpFaithful(src, SlideRow(src), i)
  {
    FinalInv(src);
  }

  predicate OpInRange(o: RowOp) {
    match o
    case MoveOp(from, to, _) => from < 4 && to < 4
    case MergeOp(at, _) => at < 4
  }

  lemma RowOpsInRange(src: seq<Cell>)
    requires |src| == 4
    ensures forall i :: 0 <= i < |SlideRow(src).ops| ==> OpInRange(SlideRow(src).ops[i])
  {
    forall i | 0 <= i < |SlideRow(src).ops| ensures OpInRange(SlideRow(src).ops[i]) {
      RowEventsFaithful(src);
      assert OpFaithful(src, SlideRow(src), i);
    }
  }

  /** The events one step emits, after those of the scan it extends; they
      name positions of the row. */
  function Emitted(src: seq<Cell>, x: nat, s: Scan): (ops: seq<RowOp>)
    requires |src| == 4 && x < 4 && WellFormed(s)
    ensures Step(src, x, s).ops == s.ops + ops
    ensures forall i :: 0 <= i < |ops| ==> OpInRange(ops[i])
  {
    var after := Step(src, x, s).ops;
    assert after == after[..|s.ops|] + after[|s.ops|..];
    after[|s.ops|..]
  }

  /** The scan emits no event exactly when it leaves the row as it was. */
  lemma RowUnchangedIffNoEvents(src: seq<Cell>)
    requires |src| == 4
    ensures SlideRow(src).ops == [] <==> SlideRow(src).dst == src
  {
    var r := SlideRow(src);
    FinalInv(src);
  }

  /** A scan that emits an event leaves a free cell in its row. */
  lemma RowRoomAfterChange(src: seq<Cell>)
    requires |src| == 4 && SlideRow(src).ops != []
    ensures exists i :: 0 <= i < 4 && SlideRow(src).dst[i] == Empty
  {
    var r := SlideRow(src);
    FinalInv(src);
    CountBound(src);
    CountBound(r.dst);
    if Merges(r.ops) == 0 {
      var i :| 0 <= i < 4 && src[i] == Empty && r.dst[i] != Empty;
    }
  }

  /** The scan writes only tiles of the source row or the sum of two equal
      ones, so a row whose tiles are powers of two (at least 2) stays so. */
  lemma {:induction false} ScanKeepsPowers(src: seq<Cell>, k: nat)
    requires |src| == 4 && k <= 4 && ValidRow(src)
    ensures ValidRow(ScanRow(src, k).dst)
  {
    if k > 0 {
      ScanKeepsPowers(src, k - 1);
      StepKeepsPowers(src, k - 1, ScanRow(src, k - 1));
    }
  }

  /** One step writes a tile of the source row or the sum of two equal tiles. */
  lemma StepKeepsPowers(src: seq<Cell>, x: nat, s: Scan)
    requires |src| == 4 && x < 4 && WellFormed(s) && ValidRow(src) && ValidRow(s.dst)
    ensures ValidRow(Step(src, x, s).dst)
  {
    if src[x] != Empty && x > 0 {
      var t := Target(s.dst, x - 1);
      if s.dst[t] == src[x] && !s.merged[t] {
        assert ValidCell(src[x]);
        DoubleIsPowerOfTwo(src[x].n);
        StepMerge(src, x, s);
      }
    }
  }

  lemma RowKeepsPowers(src: seq<Cell>)
    requires |src| == 4 && ValidRow(src)
    ensures ValidRow(SlideRow(src).dst)
  {
    ScanKeepsPowers(src, 4);
  }

  /** A scan that emits an event leaves a tile in its row: its first event
      is a move, and a move lands on a cell that stays occupied. */
  lemma RowKeepsTile(src: seq<Cell>) returns (i: nat)
    requires |src| == 4 && SlideRow(src).ops != []
    ensures i < 4 && SlideRow(src).dst[i] != Empty
  {
    RowEventsFaithful(src);
    assert OpFaithful(src, SlideRow(src), 0);
    i := SlideRow(src).ops[0].to;
  }

  /** A stack of four equal tiles merges pairwise, never into one tile. */
  lemma FourEqualMergePairwise()
    ensures SlideRow([Tile(2), Tile(2), Tile(2), Tile(2)]) ==
      Scan([Tile(4), Tile(4), Empty, Empty], [true, true, false, false],
           [MoveOp(1, 0, 2), MergeOp(0, 4), MoveOp(2, 1, 2), MoveOp(3, 1, 2), MergeOp(1, 4)])
  {
  }

  /** [2, 2, -, -] becomes [4, -, -, -] by one move and one merge. */
  lemma AdjacentPairMerges()
    ensures SlideRow([Tile(2), Tile(2), Empty, Empty]) ==
      Scan([Tile(4), Empty, Empty, Empty], [true, false, false, false], [MoveOp(1, 0, 2), MergeOp(0, 4)])
  {
  }

  /** [2, -, 2, -] merges across the gap. */
  lemma GapPairMerges()
    ensures SlideRow([Tile(2), Empty, Tile(2), Empty]) ==
      Scan([Tile(4), Empty, Empty, Empty], [true, false, false, false], [MoveOp(2, 0, 2), MergeOp(0, 4)])
  {
  }

  /** [2, 4, -, -] is already packed and has no equal pair: no event. */
  lemma PackedRowStays()
    ensures SlideRow([Tile(2), Tile(4), Empty, Empty]) ==
      Scan([Tile(2), Tile(4), Empty, Empty], [false, false, false, false], [])
  {
  }
}
