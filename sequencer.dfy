// The animation sequencer of main.js, `stateFrame`: it groups a state's
// records by kind, classifies every occupied cell by the record that
// animates it, and returns the stepping function `frame(i)` that the page
// calls once per display frame. The DOM writes are abstracted: a step
// reports which groups of cells it settles (the `tileAnimationDone` calls)
// and which records `animationFrame` shows (at the phase's local index 0)
// or hides (at the phase's budget).
module Sequencer {
  import opened Tiles
  import opened Events
  import opened Game

  const N_FRAME_ADD := 12
  const N_FRAME_MOVE := 12
  const N_FRAME_HALF_MERGE := 6

  /** How a cell is animated: the source's 'still', 'move', 'merge', 'add'. */
  datatype Status = Still | Moving | Merging | Adding

  /** `animations`: the records by kind, each in list order. */
  datatype Groups = Groups(add: seq<Animation>, move: seq<Animation>, merge: seq<Animation>)

  /** `tileStatus`: the occupied positions by status, each list in x-outer,
      y-inner order. */
  datatype TileStatus = TileStatus(still: seq<Pos>, move: seq<Pos>, merge: seq<Pos>, add: seq<Pos>)

  /** What the function returned by `stateFrame` closes over. */
  datatype Frame = Frame(groups: Groups, tileStatus: TileStatus)

  /** The status a record gives the cell it names. */
  function KindOf(a: Animation): Status {
    match a
    case AddAnim(_, _, _, _) => Adding
    case MoveAnim(_, _, _, _, _, _) => Moving
    case MergeAnim(_, _, _, _) => Merging
  }

  /** Appends the record to the group of its own kind. */
  function Push(g: Groups, a: Animation): Groups {
    match a
    case AddAnim(_, _, _, _) => g.(add := g.add + [a])
    case MoveAnim(_, _, _, _, _, _) => g.(move := g.move + [a])
    case MergeAnim(_, _, _, _) => g.(merge := g.merge + [a])
  }

  /** The groups after pushing the records `anims` in order. */
  function Grouped(anims: seq<Animation>): Groups {
    if anims == [] then Groups([], [], []) else Push(Grouped(anims[..|anims| - 1]), anims[|anims| - 1])
  }

  /** Grouping splits the records by kind: each group holds exactly the
      records of its kind, and the three sizes add up to the whole list. */
  lemma {:induction false} GroupedSpec(anims: seq<Animation>)
    ensures var g := Grouped(anims);
      (forall a :: a in g.add <==> a in anims && a.AddAnim?) &&
      (forall a :: a in g.move <==> a in anims && a.MoveAnim?) &&
      (forall a :: a in g.merge <==> a in anims && a.MergeAnim?) &&
      |g.add| + |g.move| + |g.merge| == |anims|
  {
    if anims != [] {
      var init, last := anims[..|anims| - 1], anims[|anims| - 1];
      GroupedSpec(init);
      PushSpec(Grouped(init), last);
      assert anims == init + [last];
      assert forall a :: a in anims <==> a in init || a == last;
    }
  }

  /** Pushing `a` appends it to its kind's group only. */
  lemma PushSpec(g: Groups, a: Animation)
    ensures var h := Push(g, a);
      (forall b :: b in h.add <==> b in g.add || (b == a && a.AddAnim?)) &&
      (forall b :: b in h.move <==> b in g.move || (b == a && a.MoveAnim?)) &&
      (forall b :: b in h.merge <==> b in g.merge || (b == a && a.MergeAnim?)) &&
      |h.add| + |h.move| + |h.merge| == |g.add| + |g.move| + |g.merge| + 1
  {
  }

  /** Some record of `s` names cell `p`. */
  predicate Touches(s: seq<Animation>, p: Pos) {
    exists i :: 0 <= i < |s| && s[i].x == p.0 && s[i].y == p.1
  }

  lemma TouchesSnoc(s: seq<Animation>, k: nat, p: Pos)
    requires k < |s|
    ensures Touches(s[..k + 1], p) <==> Touches(s[..k], p) || (s[k].x == p.0 && s[k].y == p.1)
  {
    if Touches(s[..k + 1], p) && !(s[k].x == p.0 && s[k].y == p.1) {
      var i :| 0 <= i < k + 1 && s[..k + 1][i].x == p.0 && s[..k + 1][i].y == p.1;
      assert s[..k][i] == s[i];
    }
    if Touches(s[..k], p) {
      var i :| 0 <= i < k && s[..k][i].x == p.0 && s[..k][i].y == p.1;
      assert s[..k + 1][i] == s[i];
    }
    if s[k].x == p.0 && s[k].y == p.1 {
      assert s[..k + 1][k] == s[k];
    }
  }

  /** The mark `animatedTiles[x][y]` holds once the marking loops have done
      the first `nMove` moves, `nMerge` merges and `nAdd` adds: the loops run
      move, merge, add, so a later kind overwrites an earlier one. An
      unmarked cell (`null`) reads as still. */
  function MarkAfter(g: Groups, p: Pos, nMove: nat, nMerge: nat, nAdd: nat): Status
    requires nMove <= |g.move| && nMerge <= |g.merge| && nAdd <= |g.add|
  {
    if Touches(g.add[..nAdd], p) then Adding
    else if Touches(g.merge[..nMerge], p) then Merging
    else if Touches(g.move[..nMove], p) then Moving
    else Still
  }

  /** The final mark of cell `p`. */
  function Mark(g: Groups, p: Pos): Status {
    MarkAfter(g, p, |g.move|, |g.merge|, |g.add|)
  }

  /** A 4x4 grid of marks. */
  predicate IsMarks(m: seq<seq<Status>>) {
    |m| == 4 && forall x :: 0 <= x < 4 ==> |m[x]| == 4
  }

  /** The list of `ts` for status `s`. */
  function Get(ts: TileStatus, s: Status): seq<Pos> {
    match s
    case Still => ts.still
    case Moving => ts.move
    case Merging => ts.merge
    case Adding => ts.add
  }

  /** Appends `p` to the list of status `s` only. */
  function Enlist(ts: TileStatus, s: Status, p: Pos): (r: TileStatus)
    ensures Get(r, s) == Get(ts, s) + [p]
    ensures forall t :: t != s ==> Get(r, t) == Get(ts, t)
  {
    match s
    case Still => ts.(still := ts.still + [p])
    case Moving => ts.(move := ts.move + [p])
    case Merging => ts.(merge := ts.merge + [p])
    case Adding => ts.(add := ts.add + [p])
  }

  /** The grid `animatedTiles` once all three marking loops have run. */
  function Marks(g: Groups): (m: seq<seq<Status>>)
    ensures IsMarks(m) && forall x, y :: 0 <= x < 4 && 0 <= y < 4 ==> m[x][y] == Mark(g, (x, y))
  {
    seq(4, x requires 0 <= x < 4 => seq(4, y requires 0 <= y < 4 => Mark(g, (x, y))))
  }

  lemma MarksEq(m: seq<seq<Status>>, n: seq<seq<Status>>)
    requires IsMarks(m) && IsMarks(n)
    requires forall x, y :: 0 <= x < 4 && 0 <= y < 4 ==> m[x][y] == n[x][y]
    ensures m == n
  {
    forall x | 0 <= x < 4 ensures m[x] == n[x] {
      assert forall y :: 0 <= y < 4 ==> m[x][y] == n[x][y];
    }
  }

  /** `tileStatus` after the first `k` cells in x-outer, y-inner order:
      each occupied cell joins the list of its mark in `m`. */
  function Classified(b: Board, m: seq<seq<Status>>, k: nat): TileStatus
    requires IsBoard(b) && IsMarks(m) && k <= 16
  {
    if k == 0 then TileStatus([], [], [], [])
    else
      var p := ((k - 1) / 4, (k - 1) % 4);
      var ts := Classified(b, m, k - 1);
      if b[p.0][p.1] != Empty then Enlist(ts, m[p.0][p.1], p) else ts
  }

  lemma {:induction false} ClassifiedMembers(b: Board, m: seq<seq<Status>>, k: nat)
    requires IsBoard(b) && IsMarks(m) && k <= 16
    ensures forall p: Pos, s: Status :: p in Get(Classified(b, m, k), s) <==>
      InBoard(p) && 4 * p.0 + p.1 < k && b[p.0][p.1] != Empty && m[p.0][p.1] == s
  {
    if k > 0 {
      ClassifiedMembers(b, m, k - 1);
      var q: Pos := ((k - 1) / 4, (k - 1) % 4);
      forall p: Pos | InBoard(p) && 4 * p.0 + p.1 == k - 1 ensures p == q {
      }
    }
  }

  lemma {:induction false} ClassifiedDistinct(b: Board, m: seq<seq<Status>>, k: nat)
    requires IsBoard(b) && IsMarks(m) && k <= 16
    ensures forall s: Status :: NoRepeats(Get(Classified(b, m, k), s))
  {
    if k > 0 {
      ClassifiedDistinct(b, m, k - 1);
      var q: Pos := ((k - 1) / 4, (k - 1) % 4);
      if b[q.0][q.1] != Empty {
        var ts := Classified(b, m, k - 1);
        var s0 := m[q.0][q.1];
        ClassifiedMembers(b, m, k - 1);
        assert q !in Get(ts, s0);
        SnocDistinct(Get(ts, s0), q);
      }
    }
  }

  /** What `stateFrame` computes before it returns `frame`. */
  function FrameOf(b: Board, anims: seq<Animation>): Frame
    requires IsBoard(b)
  {
    var g := Grouped(anims);
    Frame(g, Classified(b, Marks(g), 16))
  }

  /** Some record of kind `k` in `anims` names cell `p`. */
  predicate AnimatedAt(anims: seq<Animation>, p: Pos, k: Status) {
    exists i :: 0 <= i < |anims| && KindOf(anims[i]) == k && anims[i].x == p.0 && anims[i].y == p.1
  }

  /** A list holding exactly the records of kind `k` touches a cell exactly
      when a record of that kind names it. */
  lemma KindTouches(anims: seq<Animation>, group: seq<Animation>, k: Status, p: Pos)
    requires forall a :: a in group <==> a in anims && KindOf(a) == k
    ensures Touches(group, p) <==> AnimatedAt(anims, p, k)
  {
    if Touches(group, p) {
      var i :| 0 <= i < |group| && group[i].x == p.0 && group[i].y == p.1;
      assert group[i] in group;
      var j :| 0 <= j < |anims| && anims[j] == group[i];
    }
    if AnimatedAt(anims, p, k) {
      var j :| 0 <= j < |anims| && KindOf(anims[j]) == k && anims[j].x == p.0 && anims[j].y == p.1;
      assert anims[j] in group;
      var i :| 0 <= i < |group| && group[i] == anims[j];
    }
  }

  /** Each group touches a cell exactly when a record of its kind names it. */
  lemma GroupTouches(anims: seq<Animation>, p: Pos)
    ensures var g := Grouped(anims);
      (Touches(g.add, p) <==> AnimatedAt(anims, p, Adding)) &&
      (Touches(g.merge, p) <==> AnimatedAt(anims, p, Merging)) &&
      (Touches(g.move, p) <==> AnimatedAt(anims, p, Moving))
  {
    var g := Grouped(anims);
    GroupedSpec(anims);
    KindTouches(anims, g.add, Adding, p);
    KindTouches(anims, g.merge, Merging, p);
    KindTouches(anims, g.move, Moving, p);
  }

  /** The classification partitions the occupied cells: an empty cell is in
      no list, and an occupied cell is in exactly one, chosen by priority
      add over merge over move over still. */
  lemma ClassificationPartition(b: Board, anims: seq<Animation>, p: Pos)
    requires IsBoard(b) && InBoard(p)
    ensures var ts := FrameOf(b, anims).tileStatus;
      var add, merge, move := AnimatedAt(anims, p, Adding), AnimatedAt(anims, p, Merging), AnimatedAt(anims, p, Moving);
      (b[p.0][p.1] == Empty ==> p !in ts.still && p !in ts.move && p !in ts.merge && p !in ts.add) &&
      (b[p.0][p.1] != Empty ==>
        (p in ts.add <==> add) &&
        (p in ts.merge <==> !add && merge) &&
        (p in ts.move <==> !add && !merge && move) &&
        (p in ts.still <==> !add && !merge && !move))
  {
    var g := Grouped(anims);
    var ts := Classified(b, Marks(g), 16);
    ClassifiedMembers(b, Marks(g), 16);
    GroupTouches(anims, p);
    assert g.add[..|g.add|] == g.add && g.merge[..|g.merge|] == g.merge && g.move[..|g.move|] == g.move;
    assert p.0 < 4 && p.1 < 4 && 4 * p.0 + p.1 < 16;
    assert p in ts.still <==> p in Get(ts, Still);
    assert p in ts.move <==> p in Get(ts, Moving);
    assert p in ts.merge <==> p in Get(ts, Merging);
    assert p in ts.add <==> p in Get(ts, Adding);
  }

  /** Each list names every cell at most once. */
  lemma ClassificationDistinct(b: Board, anims: seq<Animation>)
    requires IsBoard(b)
    ensures var ts := FrameOf(b, anims).tileStatus;
      forall s: Status, i, j :: 0 <= i < j < |Get(ts, s)| ==> Get(ts, s)[i] != Get(ts, s)[j]
  {
    ClassifiedDistinct(b, Marks(Grouped(anims)), 16);
    var ts := FrameOf(b, anims).tileStatus;
    assert forall s: Status :: NoRepeats(Get(ts, s));
  }

  /** `stateFrame(state)` up to the returned closure: groups the records,
      marks the animated cells and lists every occupied cell under its
      mark. The state is only read. */
  method StateFrame(state: GameState) returns (f: Frame)
    requires IsBoard(state.tiles) && forall a :: a in state.animations ==> OnBoard(a)
    ensures f == FrameOf(state.tiles, state.animations)
  {
    var groups := GroupRecords(state.animations);
    var marks := MarkTiles(state.animations, groups);
    var tileStatus := ClassifyTiles(state.tiles, marks);
    f := Frame(groups, tileStatus);
  }

  /** The loop of `stateFrame` that walks the state's records in order and
      appends each to the group of its kind. */
  method GroupRecords(anims: seq<Animation>) returns (groups: Groups)
    ensures groups == Grouped(anims)
  {
    groups := Groups([], [], []);
    for k := 0 to |anims|
      invariant groups == Grouped(anims[..k])
    {
      assert anims[..k + 1][..k] == anims[..k];
      groups := Push(groups, anims[k]);
    }
    assert anims[..|anims|] == anims;
  }

  /** The three marking loops over the moves, then the merges, then the adds. */
  method MarkTiles(anims: seq<Animation>, groups: Groups) returns (marks: seq<seq<Status>>)
    requires groups == Grouped(anims) && forall a :: a in anims ==> OnBoard(a)
    ensures marks == Marks(groups)
  {
    GroupedSpec(anims);
    marks := Unmarked();
    marks := MarkGroup(marks, groups, Moving, |groups.move|, 0, 0);
    marks := MarkGroup(marks, groups, Merging, |groups.move|, |groups.merge|, 0);
    marks := MarkGroup(marks, groups, Adding, |groups.move|, |groups.merge|, |groups.add|);
    assert groups.add[..|groups.add|] == groups.add;
    MarksEq(marks, Marks(groups));
  }

  /** The double loop over the cells that lists each occupied cell under
      its mark, an unmarked cell counting as still. */
  method ClassifyTiles(tiles: Board, marks: seq<seq<Status>>) returns (tileStatus: TileStatus)
    requires IsBoard(tiles) && IsMarks(marks)
    ensures tileStatus == Classified(tiles, marks, 16)
  {
    tileStatus := TileStatus([], [], [], []);
    ghost var k := 0;
    for x := 0 to 4
      invariant k == 4 * x && tileStatus == Classified(tiles, marks, k)
    {
      for y := 0 to 4
        invariant k == 4 * x + y && tileStatus == Classified(tiles, marks, k)
      {
        ClassifiedStep(tiles, marks, x, y, k);
        if tiles[x][y] != Empty {
          tileStatus := Enlist(tileStatus, marks[x][y], (x, y));
        }
        k := k + 1;
      }
    }
  }

  /** Cell `(x, y)` is the `4 * x + y`-th of the scan. */
  lemma ClassifiedStep(b: Board, m: seq<seq<Status>>, x: nat, y: nat, k: nat)
    requires IsBoard(b) && IsMarks(m) && x < 4 && y < 4 && k == 4 * x + y
    ensures Classified(b, m, k + 1) ==
      if b[x][y] != Empty then Enlist(Classified(b, m, k), m[x][y], (x, y)) else Classified(b, m, k)
  {
    assert k / 4 == x && k % 4 == y;
  }

  /** The grid of marks before any marking loop: every cell unmarked. */
  function Unmarked(): (m: seq<seq<Status>>)
    ensures IsMarks(m) && forall x, y :: 0 <= x < 4 && 0 <= y < 4 ==> m[x][y] == Still
  {
    [[Still, Still, Still, Still], [Still, Still, Still, Still],
     [Still, Still, Still, Still], [Still, Still, Still, Still]]
  }

  /** One marking loop: every record of group `k` marks the cell it names
      with `k`, overwriting the mark there; it runs after the loops of
      the kinds before it. */
  method MarkGroup(m: seq<seq<Status>>, g: Groups, k: Status, nMove: nat, nMerge: nat, nAdd: nat)
    returns (marks: seq<seq<Status>>)
    requires k != Still && nMove <= |g.move| && nMerge <= |g.merge| && nAdd <= |g.add|
    requires k == Moving ==> nMove == |g.move| && nMerge == 0 && nAdd == 0
    requires k == Merging ==> nMove == |g.move| && nMerge == |g.merge| && nAdd == 0
    requires k == Adding ==> nMove == |g.move| && nMerge == |g.merge| && nAdd == |g.add|
    requires forall a :: a in g.add || a in g.move || a in g.merge ==> OnBoard(a)
    requires IsMarks(m)
    requires forall x, y :: 0 <= x < 4 && 0 <= y < 4 ==>
      m[x][y] == (if k == Moving then MarkAfter(g, (x, y), 0, 0, 0)
                  else if k == Merging then MarkAfter(g, (x, y), nMove, 0, 0)
                  else MarkAfter(g, (x, y), nMove, nMerge, 0))
    ensures IsMarks(marks)
    ensures forall x, y :: 0 <= x < 4 && 0 <= y < 4 ==> marks[x][y] == MarkAfter(g, (x, y), nMove, nMerge, nAdd)
  {
    var group := if k == Moving then g.move else if k == Merging then g.merge else g.add;
    marks := m;
    for i := 0 to |group|
      invariant IsMarks(marks)
      invariant forall x, y :: 0 <= x < 4 && 0 <= y < 4 ==>
        marks[x][y] == (if k == Moving then MarkAfter(g, (x, y), i, 0, 0)
                        else if k == Merging then MarkAfter(g, (x, y), nMove, i, 0)
                        else MarkAfter(g, (x, y), nMove, nMerge, i))
    {
      var a := group[i];
      assert a in group;
      var old_marks := marks;
      marks := marks[a.x := marks[a.x][a.y := k]];
      forall x, y | 0 <= x < 4 && 0 <= y < 4
        ensures marks[x][y] == (if k == Moving then MarkAfter(g, (x, y), i + 1, 0, 0)
                                else if k == Merging then MarkAfter(g, (x, y), nMove, i + 1, 0)
                                else MarkAfter(g, (x, y), nMove, nMerge, i + 1))
      {
        TouchesSnoc(group, i, (x, y));
      }
    }
    assert group[..|group|] == group;
  }

  /** What one call `frame(i)` does: the statuses whose cells it settles
      (`tileAnimationDone`), in order; the records `animationFrame` shows
      and hides; and its result. */
  datatype FrameResult = FrameResult(settled: seq<Status>, shown: seq<Animation>, hidden: seq<Animation>, done: bool)

  /** A phase's share of `i`: its frame count when it has records, else 0. */
  function Budget(group: seq<Animation>, frames: nat): nat {
    if |group| != 0 then frames else 0
  }

  function MoveEnd(g: Groups): nat {
    Budget(g.move, N_FRAME_MOVE)
  }

  function MergeEnd(g: Groups): nat {
    MoveEnd(g) + Budget(g.merge, N_FRAME_HALF_MERGE * 2)
  }

  /** The index at which `frame` returns true. */
  function Total(g: Groups): nat {
    MergeEnd(g) + Budget(g.add, N_FRAME_ADD)
  }

  /** `animationFrame` over a group at local index `i`: it shows its
      records at 0 and hides them at the phase's frame count. */
  function Shown(group: seq<Animation>, i: int): seq<Animation> {
    if i == 0 then group else []
  }

  function Hidden(group: seq<Animation>, i: int, frames: nat): seq<Animation> {
    if i == frames then group else []
  }

  /** The function returned by `stateFrame`: each phase with records runs
      at `i` shifted by the budgets of the phases before it. */
  function FrameAt(f: Frame, i: int): FrameResult {
    var g := f.groups;
    var iMerge := i - Budget(g.move, N_FRAME_MOVE);
    var iAdd := iMerge - Budget(g.merge, N_FRAME_HALF_MERGE * 2);
    var iEnd := iAdd - Budget(g.add, N_FRAME_ADD);
    FrameResult(
      (if i == 0 then [Still] else []) + (if iMerge == 0 then [Moving] else []) +
      (if iAdd == 0 then [Merging] else []) + (if iEnd == 0 then [Adding] else []),
      Shown(g.move, i) + Shown(g.merge, iMerge) + Shown(g.add, iAdd),
      Hidden(g.move, i, N_FRAME_MOVE) + Hidden(g.merge, iMerge, N_FRAME_HALF_MERGE * 2) + Hidden(g.add, iAdd, N_FRAME_ADD),
      iEnd == 0)
  }

  /** The number of phases that have records. */
  function Phases(g: Groups): nat {
    (if |g.move| != 0 then 1 else 0) + (if |g.merge| != 0 then 1 else 0) + (if |g.add| != 0 then 1 else 0)
  }

  /** Every phase with records takes twelve frames, and `frame(i)` is done
      exactly at their total: false before it, true at it. */
  lemma FrameDone(f: Frame, i: int)
    ensures Total(f.groups) == 12 * Phases(f.groups)
    ensures FrameAt(f, i).done <==> i == Total(f.groups)
  {
  }

  /** Each group of cells is settled at exactly one index, the budget of
      the phases before its own: still at 0, moved cells when the moves
      end, merged cells when the merges end, added cells at the total. */
  lemma FrameSettles(f: Frame, i: int)
    ensures 0 <= MoveEnd(f.groups) <= MergeEnd(f.groups) <= Total(f.groups)
    ensures Still in FrameAt(f, i).settled <==> i == 0
    ensures Moving in FrameAt(f, i).settled <==> i == MoveEnd(f.groups)
    ensures Merging in FrameAt(f, i).settled <==> i == MergeEnd(f.groups)
    ensures Adding in FrameAt(f, i).settled <==> i == Total(f.groups)
  {
  }

  /** The cells one call `frame(i)` reports to `tileAnimationDone`: those
      of each settled status, in the order the source visits them. */
  function SettledPositions(f: Frame, i: int): seq<Pos> {
    var st := FrameAt(f, i).settled;
    (if Still in st then f.tileStatus.still else []) + (if Moving in st then f.tileStatus.move else []) +
    (if Merging in st then f.tileStatus.merge else []) + (if Adding in st then f.tileStatus.add else [])
  }

  /** A cell is reported at `i` exactly when it is listed under a status
      that `frame(i)` settles. */
  lemma SettledPositionsSpec(f: Frame, i: int, p: Pos)
    ensures p in SettledPositions(f, i) <==> exists s :: s in FrameAt(f, i).settled && p in Get(f.tileStatus, s)
  {
    var st := FrameAt(f, i).settled;
    var ts := f.tileStatus;
    var r := SettledPositions(f, i);
    var w1 := if Still in st then ts.still else [];
    var w2 := if Moving in st then ts.move else [];
    var w3 := if Merging in st then ts.merge else [];
    var w4 := if Adding in st then ts.add else [];
    assert r == w1 + w2 + w3 + w4;
    assert p in r <==> p in w1 || p in w2 || p in w3 || p in w4;
    forall s | s in st && p in Get(ts, s)
      ensures p in r
    {
      match s
      case Still => assert p in w1;
      case Moving => assert p in w2;
      case Merging => assert p in w3;
      case Adding => assert p in w4;
    }
    if p in w1 {
      assert Still in st && p in Get(ts, Still);
    } else if p in w2 {
      assert Moving in st && p in Get(ts, Moving);
    } else if p in w3 {
      assert Merging in st && p in Get(ts, Merging);
    } else if p in w4 {
      assert Adding in st && p in Get(ts, Adding);
    }
  }

  /** The index at which cells of status `s` are settled. */
  function SettleIndex(g: Groups, s: Status): nat {
    match s
    case Still => 0
    case Moving => MoveEnd(g)
    case Merging => MergeEnd(g)
    case Adding => Total(g)
  }

  /** Status `s` is settled by `frame(i)` exactly at its settle index. */
  lemma SettledAt(f: Frame, i: int, s: Status)
    ensures SettleIndex(f.groups, s) <= Total(f.groups)
    ensures s in FrameAt(f, i).settled <==> i == SettleIndex(f.groups, s)
  {
    FrameSettles(f, i);
  }

  /** An empty cell is never reported, and an occupied one is reported at
      exactly one index in 0..Total: the settle index of its final mark. */
  lemma CellSettlesOnce(b: Board, anims: seq<Animation>, p: Pos, i: int)
    requires IsBoard(b) && InBoard(p)
    ensures var f := FrameOf(b, anims);
      (b[p.0][p.1] == Empty ==> p !in SettledPositions(f, i)) &&
      (b[p.0][p.1] != Empty ==>
        SettleIndex(f.groups, Mark(f.groups, p)) <= Total(f.groups) &&
        (p in SettledPositions(f, i) <==> i == SettleIndex(f.groups, Mark(f.groups, p))))
  {
    var f := FrameOf(b, anims);
    var g := f.groups;
    var ts := f.tileStatus;
    ClassifiedMembers(b, Marks(g), 16);
    SettledPositionsSpec(f, i, p);
    if b[p.0][p.1] == Empty {
      assert forall t :: p !in Get(ts, t);
    } else {
      var s := Mark(g, p);
      assert forall t :: p in Get(ts, t) <==> t == s;
      SettledAt(f, i, s);
    }
  }

  /** The index at which the phase of kind `k` starts, and its frame count. */
  function PhaseStart(g: Groups, k: Status): nat {
    match k
    case Still => 0
    case Moving => 0
    case Merging => MoveEnd(g)
    case Adding => MergeEnd(g)
  }

  function PhaseFrames(k: Status): nat {
    match k
    case Still => 0
    case Moving => N_FRAME_MOVE
    case Merging => N_FRAME_HALF_MERGE * 2
    case Adding => N_FRAME_ADD
  }

  /** Every record of the state is shown at exactly one index, the start of
      its kind's phase, and hidden at exactly one index, the end of that
      phase, which is at most the total. */
  lemma FrameWindows(b: Board, anims: seq<Animation>, a: Animation, i: int)
    requires IsBoard(b) && a in anims
    ensures var f := FrameOf(b, anims);
      PhaseStart(f.groups, KindOf(a)) + PhaseFrames(KindOf(a)) <= Total(f.groups) &&
      (a in FrameAt(f, i).shown <==> i == PhaseStart(f.groups, KindOf(a))) &&
      (a in FrameAt(f, i).hidden <==> i == PhaseStart(f.groups, KindOf(a)) + PhaseFrames(KindOf(a)))
  {
    var f := FrameOf(b, anims);
    GroupedSpec(anims);
    assert f.groups == Grouped(anims);
    GroupWindows(f, a, i);
  }

  /** The same, for a record that sits in its kind's group and no other. */
  lemma GroupWindows(f: Frame, a: Animation, i: int)
    requires var g := f.groups;
      (a in g.move <==> a.MoveAnim?) && (a in g.merge <==> a.MergeAnim?) && (a in g.add <==> a.AddAnim?)
    ensures PhaseStart(f.groups, KindOf(a)) + PhaseFrames(KindOf(a)) <= Total(f.groups)
    ensures a in FrameAt(f, i).shown <==> i == PhaseStart(f.groups, KindOf(a))
    ensures a in FrameAt(f, i).hidden <==> i == PhaseStart(f.groups, KindOf(a)) + PhaseFrames(KindOf(a))
  {
    var g := f.groups;
    if a.MoveAnim? {
      assert a in g.move && a !in g.merge && a !in g.add;
    } else if a.MergeAnim? {
      assert a in g.merge && a !in g.move && a !in g.add;
    } else {
      assert a in g.add && a !in g.move && a !in g.merge;
    }
  }
}
