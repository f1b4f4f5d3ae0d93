// The game state object of main.js and the operations that build it in
// place: `newElementId`, `addTile`/`moveTile`/`mergeTile`, `addRandomTile`,
// `newGameState` and `slide` with its nested `slideRow`, `copy`, `move` and
// `merge`. Each is proved against the value-level definitions of
// tiles.dfy, rows.dfy, engine.dfy and spawn.dfy.
module Game {
  import opened Tiles
  import opened Rows
  import opened Events
  import opened Engine
  import opened Spawn

  class GameState {
    var nAction: int
    /** `tiles[x][y]`; every write replaces one cell. */
    var tiles: Board
    var elements: seq<ElementId>
    var elementId: nat
    var animations: seq<Animation>

    /** A 4x4 board, ids handed out 1, 2, ... to the records in order, and
        `elements` listing every id. */
    ghost predicate Valid()
      reads this
    {
      IsBoard(tiles) && Numbered(animations) && elementId == |animations| && elements == Ids(animations)
    }

    /** A new state object: the given action count, an empty board, no ids
        handed out and no records. */
    constructor (nAction: int)
      ensures Valid()
      ensures this.nAction == nAction && tiles == NewEmptyTiles()
      ensures animations == [] && elements == [] && elementId == 0
    {
      this.nAction := nAction;
      tiles := NewEmptyTiles();
      elements := [];
      elementId := 0;
      animations := [];
    }

    /** Hands out the next id: the counter is incremented first, so the
        n-th id of a state carries serial n. */
    method NewElementId(prefix: string) returns (id: ElementId)
      modifies this
      ensures elementId == old(elementId) + 1 && id == ElementId(prefix, elementId)
      ensures elements == old(elements) + [id]
      ensures nAction == old(nAction) && tiles == old(tiles) && animations == old(animations)
    {
      elementId := elementId + 1;
      id := ElementId(prefix, elementId);
      elements := elements + [id];
    }

    method AddTile(x: nat, y: nat, n: nat)
      requires Valid() && x < 4 && y < 4
      modifies this
      ensures Valid() && nAction == old(nAction) && tiles == old(tiles)
      ensures animations == old(animations) + [AddAnim(ElementId(ADD_PREFIX, |old(animations)| + 1), x, y, n)]
    {
      var addId := NewElementId(ADD_PREFIX);
      IdsAppend(animations, AddAnim(addId, x, y, n));
      animations := animations + [AddAnim(addId, x, y, n)];
    }

    method MoveTile(fromX: nat, fromY: nat, x: nat, y: nat, n: nat)
      requires Valid() && fromX < 4 && fromY < 4 && x < 4 && y < 4
      modifies this
      ensures Valid() && nAction == old(nAction) && tiles == old(tiles)
      ensures animations == old(animations) + [MoveAnim(ElementId(MOVE_PREFIX, |old(animations)| + 1), fromX, fromY, x, y, n)]
    {
      var moveId := NewElementId(MOVE_PREFIX);
      IdsAppend(animations, MoveAnim(moveId, fromX, fromY, x, y, n));
      animations := animations + [MoveAnim(moveId, fromX, fromY, x, y, n)];
    }

    method MergeTile(x: nat, y: nat, n: nat)
      requires Valid() && x < 4 && y < 4
      modifies this
      ensures Valid() && nAction == old(nAction) && tiles == old(tiles)
      ensures animations == old(animations) + [MergeAnim(ElementId(MERGE_PREFIX, |old(animations)| + 1), x, y, n)]
    {
      var mergeId := NewElementId(MERGE_PREFIX);
      IdsAppend(animations, MergeAnim(mergeId, x, y, n));
      animations := animations + [MergeAnim(mergeId, x, y, n)];
    }

    /** The loop of `addRandomTile` that collects the free cells, `x` outer
        and `y` inner. */
    method CollectAvailable() returns (availablePositions: seq<Pos>)
      requires IsBoard(tiles)
      ensures availablePositions == AvailablePositions(tiles)
    {
      availablePositions := [];
      ghost var k := 0;
      for x := 0 to 4
        invariant k == 4 * x && availablePositions == Available(tiles, k)
      {
        for y := 0 to 4
          invariant k == 4 * x + y && availablePositions == Available(tiles, k)
        {
          AvailableStep(tiles, x, y, k);
          if tiles[x][y] == Empty {
            availablePositions := availablePositions + [(x, y)];
          }
          k := k + 1;
        }
      }
    }

    /** Collects the free cells, picks one with the draw `u`, the number
        with the draw `v`, records the add and writes the tile. */
    method AddRandomTile(u: real, v: real)
      requires Valid() && HasRoom(tiles) && 0.0 <= u < 1.0 && 0.0 <= v < 1.0
      modifies this
      ensures Valid() && nAction == old(nAction)
      ensures tiles == Spawned(old(tiles), u, v)
      ensures animations == old(animations) + [SpawnRecord(old(tiles), u, v, |old(animations)| + 1)]
    {
      var availablePositions := CollectAvailable();
      AvailablePositionsSpec(tiles);
      var selected := PickIndex(u, |availablePositions|);
      var x, y := availablePositions[selected].0, availablePositions[selected].1;
      var n := PickValue(v);
      AddTile(x, y, n);
      tiles := Put(tiles, (x, y), Tile(n));
    }
  }

  /** A new game: an empty board with two spawns, drawn from `u1, v1` and
      then `u2, v2`; two tiles and two add records, and no action yet. */
  method NewGameState(u1: real, v1: real, u2: real, v2: real) returns (state: GameState)
    requires 0.0 <= u1 < 1.0 && 0.0 <= v1 < 1.0 && 0.0 <= u2 < 1.0 && 0.0 <= v2 < 1.0
    ensures fresh(state) && state.Valid()
    ensures state.nAction == 0
    ensures state.tiles == OpeningTiles(u1, v1, u2, v2)
    ensures state.animations == OpeningRecords(u1, v1, u2, v2)
    ensures TileCount(state.tiles) == 2
    ensures ValidTiles(state.tiles)
  {
    OpeningBoard(u1, v1, u2, v2);
    OpeningValid(u1, v1, u2, v2);
    state := new GameState(0);
    state.AddRandomTile(u1, v1);
    ghost var first, records := state.tiles, state.animations;
    state.AddRandomTile(u2, v2);
    OpeningFromSpawns(u1, v1, u2, v2, first, records, state.tiles, state.animations);
  }

  /** Board position of scan position `x` of row `y`. */
  function At(d: Direction, x: nat, y: nat): (p: Pos)
    requires x < 4 && y < 4
    ensures InBoard(p)
  {
    (GetX(d, x, y), GetY(d, x, y))
  }

  /** `copy(x)`: the source tile stays at its scan position. */
  method Copy(state: GameState, newState: GameState, d: Direction, y: nat, x: nat)
    requires state.Valid() && newState.Valid() && y < 4 && x < 4
    modifies newState
    ensures newState.Valid() && newState.nAction == old(newState.nAction)
    ensures newState.animations == old(newState.animations)
    ensures newState.tiles == Put(old(newState.tiles), At(d, x, y), state.tiles[GetX(d, x, y)][GetY(d, x, y)])
  {
    newState.tiles := Put(newState.tiles, At(d, x, y), state.tiles[GetX(d, x, y)][GetY(d, x, y)]);
  }

  /** `move(fromX, x)`: records the move and puts the tile at `x`. */
  method Move(state: GameState, newState: GameState, d: Direction, y: nat, fromX: nat, x: nat)
    requires state.Valid() && newState.Valid() && state != newState && y < 4 && x < 4 && fromX < 4
    requires state.tiles[GetX(d, fromX, y)][GetY(d, fromX, y)].Tile?
    modifies newState
    ensures newState.Valid() && newState.nAction == old(newState.nAction)
    ensures newState.animations == old(newState.animations) + [MoveAnim(
      ElementId(MOVE_PREFIX, |old(newState.animations)| + 1), GetX(d, fromX, y), GetY(d, fromX, y),
      GetX(d, x, y), GetY(d, x, y), state.tiles[GetX(d, fromX, y)][GetY(d, fromX, y)].n)]
    ensures newState.tiles == Put(old(newState.tiles), At(d, x, y), state.tiles[GetX(d, fromX, y)][GetY(d, fromX, y)])
  {
    newState.MoveTile(GetX(d, fromX, y), GetY(d, fromX, y), GetX(d, x, y), GetY(d, x, y),
      state.tiles[GetX(d, fromX, y)][GetY(d, fromX, y)].n);
    newState.tiles := Put(newState.tiles, At(d, x, y), state.tiles[GetX(d, fromX, y)][GetY(d, fromX, y)]);
  }

  /** `merge(fromX, x)`: records the move and the merge, then adds the moved
      number to the tile at `x`. */
  method Merge(state: GameState, newState: GameState, d: Direction, y: nat, fromX: nat, x: nat)
    requires state.Valid() && newState.Valid() && state != newState && y < 4 && x < 4 && fromX < 4
    requires state.tiles[GetX(d, fromX, y)][GetY(d, fromX, y)].Tile?
    requires newState.tiles[GetX(d, x, y)][GetY(d, x, y)].Tile?
    modifies newState
    ensures newState.Valid() && newState.nAction == old(newState.nAction)
    ensures var n := state.tiles[GetX(d, fromX, y)][GetY(d, fromX, y)].n;
      var m := old(newState.tiles[GetX(d, x, y)][GetY(d, x, y)]).n;
      newState.animations == old(newState.animations) + [
        MoveAnim(ElementId(MOVE_PREFIX, |old(newState.animations)| + 1), GetX(d, fromX, y), GetY(d, fromX, y),
          GetX(d, x, y), GetY(d, x, y), n),
        MergeAnim(ElementId(MERGE_PREFIX, |old(newState.animations)| + 2), GetX(d, x, y), GetY(d, x, y), n + m)] &&
      newState.tiles == Put(old(newState.tiles), At(d, x, y), Tile(m + n))
  {
    var n := state.tiles[GetX(d, fromX, y)][GetY(d, fromX, y)].n;
    newState.MoveTile(GetX(d, fromX, y), GetY(d, fromX, y), GetX(d, x, y), GetY(d, x, y), n);
    newState.MergeTile(GetX(d, x, y), GetY(d, x, y), n + newState.tiles[GetX(d, x, y)][GetY(d, x, y)].n);
    newState.tiles := Put(newState.tiles, At(d, x, y), Tile(newState.tiles[GetX(d, x, y)][GetY(d, x, y)].n + n));
  }

  /** Board `prev` with row `y`, in `d`'s scan order, replaced by `dst`. */
  function Place(prev: Board, d: Direction, y: nat, dst: seq<Cell>): (r: Board)
    requires IsBoard(prev) && y < 4 && |dst| == 4
    ensures IsBoard(r)
  {
    seq(4, px requires 0 <= px < 4 =>
      seq(4, py requires 0 <= py < 4 => if ScanY(d, px, py) == y then dst[ScanX(d, px, py)] else prev[px][py]))
  }

  /** Writing `c` at scan position `x` of row `y` turns the row `dst` into
      `dst[x := c]`. */
  lemma PlaceWrite(prev: Board, d: Direction, y: nat, dst: seq<Cell>, x: nat, c: Cell)
    requires IsBoard(prev) && y < 4 && x < 4 && |dst| == 4
    ensures Put(Place(prev, d, y, dst), At(d, x, y), c) == Place(prev, d, y, dst[x := c])
  {
    RemapBijective(d);
    BoardEq(Put(Place(prev, d, y, dst), At(d, x, y), c), Place(prev, d, y, dst[x := c]));
  }

  /** The cell at scan position `x` of row `y` is `dst[x]`. */
  lemma PlaceCell(prev: Board, d: Direction, y: nat, dst: seq<Cell>, x: nat)
    requires IsBoard(prev) && y < 4 && x < 4 && |dst| == 4
    ensures Place(prev, d, y, dst)[GetX(d, x, y)][GetY(d, x, y)] == dst[x]
  {
    RemapBijective(d);
  }

  /** Placing an empty row where the row is already empty changes nothing. */
  lemma PlaceEmpty(prev: Board, d: Direction, y: nat)
    requires IsBoard(prev) && y < 4
    requires forall px, py :: 0 <= px < 4 && 0 <= py < 4 && ScanY(d, px, py) == y ==> prev[px][py] == Empty
    ensures Place(prev, d, y, [Empty, Empty, Empty, Empty]) == prev
  {
    BoardEq(Place(prev, d, y, [Empty, Empty, Empty, Empty]), prev);
  }

  // What one pass of slideRow's loop does, branch by branch, stated on
  // board values: a scan `s` placed in row `y` becomes `Step(src, x, s)`,
  // and the records appended are the lifted events the step emits.

  lemma AfterSkip(src: seq<Cell>, x: nat, d: Direction, y: nat, s: Scan, anims: seq<Animation>)
    requires |src| == 4 && x < 4 && y < 4 && WellFormed(s) && src[x] == Empty
    ensures Step(src, x, s) == s
    ensures Emitted(src, x, s) == [] && anims == anims + Lift(Emitted(src, x, s), d, y, |anims|)
  {
    StepSkip(src, x, s);
    assert s.ops + Emitted(src, x, s) == s.ops;
    LiftSmall([], d, y, |anims|);
  }

  lemma AfterCopy(src: seq<Cell>, x: nat, d: Direction, y: nat, s: Scan, prev: Board, anims: seq<Animation>)
    requires |src| == 4 && x < 4 && y < 4 && WellFormed(s) && IsBoard(prev) && src[x] != Empty
    requires x == 0 || var w := Target(s.dst, x - 1);
      s.dst[w] != Empty && !(s.dst[w] == src[x] && !s.merged[w]) && w + 1 == x
    ensures Put(Place(prev, d, y, s.dst), At(d, x, y), src[x]) == Place(prev, d, y, Step(src, x, s).dst)
    ensures Step(src, x, s).merged == s.merged
    ensures Emitted(src, x, s) == [] && anims == anims + Lift(Emitted(src, x, s), d, y, |anims|)
  {
    PlaceWrite(prev, d, y, s.dst, x, src[x]);
    StepCopy(src, x, s);
    assert s.ops + Emitted(src, x, s) == s.ops;
    LiftSmall([], d, y, |anims|);
  }

  lemma AfterMove(src: seq<Cell>, x: nat, d: Direction, y: nat, s: Scan, prev: Board,
                  anims: seq<Animation>, anims': seq<Animation>, w: nat)
    requires |src| == 4 && 0 < x < 4 && y < 4 && WellFormed(s) && IsBoard(prev) && src[x] != Empty
    requires var target := Target(s.dst, x - 1);
      (s.dst[target] == Empty && w == target) ||
      (s.dst[target] != Empty && !(s.dst[target] == src[x] && !s.merged[target]) && target + 1 != x && w == target + 1)
    requires w < 4
    requires anims' == anims + [MoveAnim(ElementId(MOVE_PREFIX, |anims| + 1), GetX(d, x, y), GetY(d, x, y),
      GetX(d, w, y), GetY(d, w, y), src[x].n)]
    ensures Put(Place(prev, d, y, s.dst), At(d, w, y), src[x]) == Place(prev, d, y, Step(src, x, s).dst)
    ensures Step(src, x, s).merged == s.merged
    ensures Emitted(src, x, s) != [] && anims' == anims + Lift(Emitted(src, x, s), d, y, |anims|)
  {
    PlaceWrite(prev, d, y, s.dst, w, src[x]);
    StepMove(src, x, s, w);
    assert s.ops + Emitted(src, x, s) == s.ops + [MoveOp(x, w, src[x].n)];
    LiftSmall([MoveOp(x, w, src[x].n)], d, y, |anims|);
  }

  lemma AfterMerge(src: seq<Cell>, x: nat, d: Direction, y: nat, s: Scan, prev: Board,
                   anims: seq<Animation>, anims': seq<Animation>)
    requires |src| == 4 && 0 < x < 4 && y < 4 && WellFormed(s) && IsBoard(prev) && src[x] != Empty
    requires var w := Target(s.dst, x - 1);
      s.dst[w] != Empty && s.dst[w] == src[x] && !s.merged[w] &&
      anims' == anims + [
        MoveAnim(ElementId(MOVE_PREFIX, |anims| + 1), GetX(d, x, y), GetY(d, x, y), GetX(d, w, y), GetY(d, w, y), src[x].n),
        MergeAnim(ElementId(MERGE_PREFIX, |anims| + 2), GetX(d, w, y), GetY(d, w, y), src[x].n + s.dst[w].n)]
    ensures var w := Target(s.dst, x - 1);
      Step(src, x, s).merged == s.merged[w := true] &&
      Put(Place(prev, d, y, s.dst), At(d, w, y), Tile(s.dst[w].n + src[x].n)) == Place(prev, d, y, Step(src, x, s).dst)
    ensures Emitted(src, x, s) != [] && anims' == anims + Lift(Emitted(src, x, s), d, y, |anims|)
  {
    var w := Target(s.dst, x - 1);
    PlaceWrite(prev, d, y, s.dst, w, Tile(s.dst[w].n + src[x].n));
    StepMerge(src, x, s);
    var more := [MoveOp(x, w, src[x].n), MergeOp(w, src[x].n + s.dst[w].n)];
    assert s.ops + Emitted(src, x, s) == s.ops + more;
    LiftSmall(more, d, y, |anims|);
  }

  /** The backward search of `slideRow` for the cell the tile at scan
      position `x` goes to. */
  method FindTarget(newState: GameState, d: Direction, y: nat, x: nat, ghost dst: seq<Cell>, ghost prev: Board)
    returns (targetX: nat)
    requires newState.Valid() && y < 4 && 0 < x < 4
    requires |dst| == 4 && IsBoard(prev) && newState.tiles == Place(prev, d, y, dst)
    ensures targetX == Target(dst, x - 1)
  {
    targetX := x - 1;
    PlaceCell(prev, d, y, dst, targetX);
    while targetX > 0 && newState.tiles[GetX(d, targetX, y)][GetY(d, targetX, y)] == Empty
      invariant 0 <= targetX < x
      invariant Target(dst, targetX) == Target(dst, x - 1)
      invariant newState.tiles[GetX(d, targetX, y)][GetY(d, targetX, y)] == dst[targetX]
    {
      targetX := targetX - 1;
      PlaceCell(prev, d, y, dst, targetX);
    }
  }

  /** The rest of a pass at scan position `x > 0` over a tile: search the
      target, then move, merge, move next to it, or copy. */
  method SlideSearched(state: GameState, newState: GameState, d: Direction, y: nat, x: nat, merged: array<bool>,
                       ghost src: seq<Cell>, ghost prev: Board, ghost s: Scan)
    returns (moved: bool)
    requires state.Valid() && newState.Valid() && state != newState && y < 4 && 0 < x < 4
    requires src == RowOf(state.tiles, d, y) && IsBoard(prev) && merged.Length == 4 && src[x] != Empty
    requires WellFormed(s) && newState.tiles == Place(prev, d, y, s.dst) && merged[..] == s.merged
    modifies newState, merged
    ensures newState.Valid() && newState.nAction == old(newState.nAction)
    ensures newState.tiles == Place(prev, d, y, Step(src, x, s).dst)
    ensures merged[..] == Step(src, x, s).merged
    ensures newState.animations == old(newState.animations) + Lift(Emitted(src, x, s), d, y, |old(newState.animations)|)
    ensures moved == (Emitted(src, x, s) != [])
  {
    ghost var anims := newState.animations;
    var targetX := FindTarget(newState, d, y, x, s.dst, prev);
    PlaceCell(prev, d, y, s.dst, targetX);
    var target := newState.tiles[GetX(d, targetX, y)][GetY(d, targetX, y)];
    assert state.tiles[GetX(d, x, y)][GetY(d, x, y)] == src[x];
    if target == Empty {
      moved := true;
      Move(state, newState, d, y, x, targetX);
      AfterMove(src, x, d, y, s, prev, anims, newState.animations, targetX);
    } else {
      moved := SlideBlocked(state, newState, d, y, x, targetX, merged, src, prev, s);
    }
  }

  /** The search stopped at an occupied cell `targetX`: merge into it when it
      holds the same number and has not merged yet, otherwise move next to
      it, or stay when already there. */
  method SlideBlocked(state: GameState, newState: GameState, d: Direction, y: nat, x: nat, targetX: nat,
                      merged: array<bool>, ghost src: seq<Cell>, ghost prev: Board, ghost s: Scan)
    returns (moved: bool)
    requires state.Valid() && newState.Valid() && state != newState && y < 4 && 0 < x < 4
    requires src == RowOf(state.tiles, d, y) && IsBoard(prev) && merged.Length == 4 && src[x] != Empty
    requires WellFormed(s) && newState.tiles == Place(prev, d, y, s.dst) && merged[..] == s.merged
    requires targetX == Target(s.dst, x - 1) && s.dst[targetX] != Empty
    modifies newState, merged
    ensures newState.Valid() && newState.nAction == old(newState.nAction)
    ensures newState.tiles == Place(prev, d, y, Step(src, x, s).dst)
    ensures merged[..] == Step(src, x, s).merged
    ensures newState.animations == old(newState.animations) + Lift(Emitted(src, x, s), d, y, |old(newState.animations)|)
    ensures moved == (Emitted(src, x, s) != [])
  {
    ghost var anims := newState.animations;
    var tile := state.tiles[GetX(d, x, y)][GetY(d, x, y)];
    assert tile == src[x];
    PlaceCell(prev, d, y, s.dst, targetX);
    var target := newState.tiles[GetX(d, targetX, y)][GetY(d, targetX, y)];
    if target == tile && !merged[targetX] {
      SlideMerge(state, newState, d, y, x, targetX, merged, src, prev, s);
      moved := true;
    } else {
      moved := SlideBeside(state, newState, d, y, x, targetX, src, prev, s);
    }
  }

  /** The tile at `targetX` cannot take the moved tile: move next to it, or
      stay when already there. */
  method SlideBeside(state: GameState, newState: GameState, d: Direction, y: nat, x: nat, targetX: nat,
                     ghost src: seq<Cell>, ghost prev: Board, ghost s: Scan)
    returns (moved: bool)
    requires state.Valid() && newState.Valid() && state != newState && y < 4 && 0 < x < 4
    requires src == RowOf(state.tiles, d, y) && IsBoard(prev) && src[x] != Empty
    requires WellFormed(s) && newState.tiles == Place(prev, d, y, s.dst)
    requires targetX == Target(s.dst, x - 1) && s.dst[targetX] != Empty
    requires !(s.dst[targetX] == src[x] && !s.merged[targetX])
    modifies newState
    ensures newState.Valid() && newState.nAction == old(newState.nAction)
    ensures newState.tiles == Place(prev, d, y, Step(src, x, s).dst)
    ensures Step(src, x, s).merged == s.merged
    ensures newState.animations == old(newState.animations) + Lift(Emitted(src, x, s), d, y, |old(newState.animations)|)
    ensures moved == (Emitted(src, x, s) != [])
  {
    ghost var anims := newState.animations;
    assert state.tiles[GetX(d, x, y)][GetY(d, x, y)] == src[x];
    PlaceCell(prev, d, y, s.dst, targetX);
    if targetX + 1 != x {
      moved := true;
      Move(state, newState, d, y, x, targetX + 1);
      AfterMove(src, x, d, y, s, prev, anims, newState.animations, targetX + 1);
    } else {
      moved := false;
      Copy(state, newState, d, y, x);
      AfterCopy(src, x, d, y, s, prev, anims);
    }
  }

  /** The merge branch: the moved tile joins the equal, unmerged tile at
      `targetX`, which is flagged as merged. */
  method SlideMerge(state: GameState, newState: GameState, d: Direction, y: nat, x: nat, targetX: nat,
                    merged: array<bool>, ghost src: seq<Cell>, ghost prev: Board, ghost s: Scan)
    requires state.Valid() && newState.Valid() && state != newState && y < 4 && 0 < x < 4
    requires src == RowOf(state.tiles, d, y) && IsBoard(prev) && merged.Length == 4 && src[x] != Empty
    requires WellFormed(s) && newState.tiles == Place(prev, d, y, s.dst) && merged[..] == s.merged
    requires targetX == Target(s.dst, x - 1) && s.dst[targetX] == src[x] && !s.merged[targetX]
    modifies newState, merged
    ensures newState.Valid() && newState.nAction == old(newState.nAction)
    ensures newState.tiles == Place(prev, d, y, Step(src, x, s).dst)
    ensures merged[..] == Step(src, x, s).merged
    ensures newState.animations == old(newState.animations) + Lift(Emitted(src, x, s), d, y, |old(newState.animations)|)
    ensures Emitted(src, x, s) != []
  {
    ghost var anims := newState.animations;
    PlaceCell(prev, d, y, s.dst, targetX);
    assert state.tiles[GetX(d, x, y)][GetY(d, x, y)] == src[x];
    merged[targetX] := true;
    Merge(state, newState, d, y, x, targetX);
    AfterMerge(src, x, d, y, s, prev, anims, newState.animations);
  }

  /** One pass of `slideRow`'s loop at scan position `x`: skip an empty
      cell, copy at the edge, otherwise search the target. */
  method SlideTile(state: GameState, newState: GameState, d: Direction, y: nat, x: nat, merged: array<bool>,
                   ghost src: seq<Cell>, ghost prev: Board, ghost s: Scan)
    returns (moved: bool)
    requires state.Valid() && newState.Valid() && state != newState && y < 4 && x < 4
    requires src == RowOf(state.tiles, d, y) && IsBoard(prev) && merged.Length == 4
    requires WellFormed(s) && newState.tiles == Place(prev, d, y, s.dst) && merged[..] == s.merged
    modifies newState, merged
    ensures newState.Valid() && newState.nAction == old(newState.nAction)
    ensures newState.tiles == Place(prev, d, y, Step(src, x, s).dst)
    ensures merged[..] == Step(src, x, s).merged
    ensures newState.animations == old(newState.animations) + Lift(Emitted(src, x, s), d, y, |old(newState.animations)|)
    ensures moved == (Emitted(src, x, s) != [])
  {
    var tile := state.tiles[GetX(d, x, y)][GetY(d, x, y)];
    if tile == Empty {
      moved := false;
      AfterSkip(src, x, d, y, s, newState.animations);
    } else if x == 0 {
      moved := false;
      Copy(state, newState, d, y, x);
      AfterCopy(src, x, d, y, s, prev, old(newState.animations));
    } else {
      moved := SlideSearched(state, newState, d, y, x, merged, src, prev, s);
    }
  }

  /** `slideRow(y)`: scans row `y` of `state` towards scan position 0,
      writing the new row into `newState` and recording its events there.
      `canSlide` is the flag the rows share: every move and merge sets it. */
  method SlideRow(state: GameState, newState: GameState, d: Direction, y: nat, canSlideIn: bool)
    returns (canSlide: bool)
    requires state.Valid() && newState.Valid() && state != newState && y < 4
    requires forall px, py :: 0 <= px < 4 && 0 <= py < 4 && ScanY(d, px, py) == y ==> newState.tiles[px][py] == Empty
    modifies newState
    ensures newState.Valid() && newState.nAction == old(newState.nAction)
    ensures newState.tiles == Place(old(newState.tiles), d, y, RowResult(state.tiles, d, y).dst)
    ensures newState.animations ==
      old(newState.animations) + Lift(RowResult(state.tiles, d, y).ops, d, y, |old(newState.animations)|)
    ensures canSlide == (canSlideIn || RowResult(state.tiles, d, y).ops != [])
  {
    ghost var src := RowOf(state.tiles, d, y);
    ghost var prev := newState.tiles;
    ghost var base := newState.animations;
    ghost var s := ScanRow(src, 0);
    PlaceEmpty(prev, d, y);
    canSlide := canSlideIn;
    var merged := new bool[4](_ => false);
    var x := 0;
    while x < 4
      invariant 0 <= x <= 4 && s == ScanRow(src, x)
      invariant newState.Valid() && newState.nAction == old(newState.nAction)
      invariant newState.tiles == Place(prev, d, y, s.dst)
      invariant merged[..] == s.merged
      invariant forall i :: 0 <= i < |s.ops| ==> OpInRange(s.ops[i])
      invariant newState.animations == base + Lift(s.ops, d, y, |base|)
      invariant canSlide == (canSlideIn || s.ops != [])
    {
      ghost var before := newState.animations;
      var moved := SlideTile(state, newState, d, y, x, merged, src, prev, s);
      LiftExtend(base, s.ops, Emitted(src, x, s), d, y, before, newState.animations);
      s := Step(src, x, s);
      canSlide := canSlide || moved;
      x := x + 1;
    }
  }

  /** The board `slide` has built after rows 0..y-1: those rows, in `d`'s
      scan order, as in the slid board, the others still empty. */
  function Partial(b: Board, d: Direction, y: nat): (r: Board)
    requires IsBoard(b)
    ensures IsBoard(r)
  {
    seq(4, px requires 0 <= px < 4 =>
      seq(4, py requires 0 <= py < 4 => if ScanY(d, px, py) < y then Slid(b, d)[px][py] else Empty))
  }

  lemma PartialStep(b: Board, d: Direction, y: nat)
    requires IsBoard(b) && y < 4
    ensures var p := Partial(b, d, y);
      (forall px, py :: 0 <= px < 4 && 0 <= py < 4 && ScanY(d, px, py) == y ==> p[px][py] == Empty) &&
      Place(p, d, y, RowResult(b, d, y).dst) == Partial(b, d, y + 1)
  {
    BoardEq(Place(Partial(b, d, y), d, y, RowResult(b, d, y).dst), Partial(b, d, y + 1));
  }

  lemma PartialEnds(b: Board, d: Direction)
    requires IsBoard(b)
    ensures Partial(b, d, 0) == NewEmptyTiles()
    ensures Partial(b, d, 4) == Slid(b, d)
  {
    BoardEq(Partial(b, d, 0), NewEmptyTiles());
    BoardEq(Partial(b, d, 4), Slid(b, d));
  }

  /** The loop of `slide` over the rows: scans rows 0..3 into the empty
      `newState`; the result says whether any row emitted an event. */
  method SlideAllRows(state: GameState, newState: GameState, d: Direction) returns (canSlide: bool)
    requires state.Valid() && newState.Valid() && state != newState
    requires newState.tiles == NewEmptyTiles() && newState.animations == []
    modifies newState
    ensures newState.Valid() && newState.nAction == old(newState.nAction)
    ensures newState.tiles == Slid(state.tiles, d)
    ensures newState.animations == Animations(state.tiles, d)
    ensures canSlide == (Animations(state.tiles, d) != [])
  {
    PartialEnds(state.tiles, d);
    canSlide := false;
    for y := 0 to 4
      invariant newState.Valid() && newState.nAction == old(newState.nAction)
      invariant newState.tiles == Partial(state.tiles, d, y)
      invariant newState.animations == SlideAnimations(state.tiles, d, y)
      invariant canSlide == (newState.animations != [])
    {
      PartialStep(state.tiles, d, y);
      canSlide := SlideRow(state, newState, d, y, canSlide);
    }
  }

  /** `slide(state, direction)`: builds a new state with `nAction` one
      higher from the four row scans; `null` when nothing moved, otherwise
      the new state after one spawn drawn from `u` and `v`. The old state
      is only read. */
  method Slide(state: GameState, d: Direction, u: real, v: real) returns (r: GameState?)
    requires state.Valid() && 0.0 <= u < 1.0 && 0.0 <= v < 1.0
    ensures r == null <==> Animations(state.tiles, d) == []
    ensures r != null ==>
      fresh(r) && r.Valid() && r.nAction == state.nAction + 1 &&
      HasRoom(Slid(state.tiles, d)) &&
      r.tiles == Spawned(Slid(state.tiles, d), u, v) &&
      r.animations == Animations(state.tiles, d) +
        [SpawnRecord(Slid(state.tiles, d), u, v, |Animations(state.tiles, d)| + 1)]
    ensures r != null ==> TileCount(r.tiles) >= 2
    ensures r != null && ValidTiles(state.tiles) ==> ValidTiles(r.tiles)
  {
    var newState := new GameState(state.nAction + 1);
    var canSlide := SlideAllRows(state, newState, d);
    if !canSlide {
      return null;
    }
    SlideLeavesRoom(state.tiles, d);
    ghost var slid := newState.tiles;
    ghost var anims := newState.animations;
    newState.AddRandomTile(u, v);
    assert newState.animations == anims + [SpawnRecord(slid, u, v, |anims| + 1)];
    AcceptedSlide(state.tiles, d, u, v);
    return newState;
  }

  /** An accepted slide, one that records anything, followed by its spawn
      leaves at least two tiles, and keeps every tile a power of two that is
      at least 2. */
  lemma AcceptedSlide(b: Board, d: Direction, u: real, v: real)
    requires IsBoard(b) && Animations(b, d) != [] && 0.0 <= u < 1.0 && 0.0 <= v < 1.0
    ensures HasRoom(Slid(b, d))
    ensures TileCount(Spawned(Slid(b, d), u, v)) >= 2
    ensures ValidTiles(b) ==> ValidTiles(Spawned(Slid(b, d), u, v))
  {
    SlideLeavesRoom(b, d);
    SlideKeepsTile(b, d);
    SpawnEffect(Slid(b, d), u, v);
    if ValidTiles(b) {
      SlideKeepsPowers(b, d);
      SpawnKeepsPowers(Slid(b, d), u, v);
    }
  }
}
