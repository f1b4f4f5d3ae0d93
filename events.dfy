// The animation records a game state collects while it is built (the
// `animations` list of main.js), and their element ids.
module Events {

  const ADD_PREFIX := "add-tile-"
  const MOVE_PREFIX := "move-tile-"
  const MERGE_PREFIX := "merge-tile-"

  /** The element id `prefix + serial`, kept as its two parts; `serial` is the
      state's `elementId` right after it was incremented. */
  datatype ElementId = ElementId(prefix: string, serial: nat)

  /** One record of the `animations` list; `operation` is the constructor. */
  datatype Animation =
    | AddAnim(id: ElementId, x: nat, y: nat, n: nat)
    | MoveAnim(id: ElementId, fromX: nat, fromY: nat, x: nat, y: nat, n: nat)
    | MergeAnim(id: ElementId, x: nat, y: nat, n: nat)

  /** The id prefix each kind of record is created with. */
  function Prefix(a: Animation): string {
    match a
    case AddAnim(_, _, _, _) => ADD_PREFIX
    case MoveAnim(_, _, _, _, _, _) => MOVE_PREFIX
    case MergeAnim(_, _, _, _) => MERGE_PREFIX
  }

  /** The cells a record names lie on the board. */
  predicate OnBoard(a: Animation) {
    a.x < 4 && a.y < 4 && (a.MoveAnim? ==> a.fromX < 4 && a.fromY < 4)
  }

  /** The ids of a state are handed out 1, 2, 3, ... in list order, each with
      its kind's prefix, and every record names board cells. */
  predicate Numbered(anims: seq<Animation>) {
    forall i :: 0 <= i < |anims| ==> anims[i].id == ElementId(Prefix(anims[i]), i + 1) && OnBoard(anims[i])
  }

  /** The ids of the records, in order (the state's `elements` list). */
  function Ids(anims: seq<Animation>): (r: seq<ElementId>)
    ensures |r| == |anims|
    ensures forall i :: 0 <= i < |anims| ==> r[i] == anims[i].id
  {
    if anims == [] then [] else Ids(anims[..|anims| - 1]) + [anims[|anims| - 1].id]
  }

  lemma IdsAppend(anims: seq<Animation>, a: Animation)
    ensures Ids(anims + [a]) == Ids(anims) + [a.id]
  {
    assert (anims + [a])[..|anims|] == anims;
  }

  /** Within one state no two records share an id. */
  lemma NumberedIdsDistinct(anims: seq<Animation>)
    requires Numbered(anims)
    ensures forall i, j :: 0 <= i < j < |anims| ==> Ids(anims)[i] != Ids(anims)[j]
  {
  }

  /** Number of merge records. */
  function MergeCount(anims: seq<Animation>): nat {
    if anims == [] then 0
    else MergeCount(anims[..|anims| - 1]) + (if anims[|anims| - 1].MergeAnim? then 1 else 0)
  }

  lemma MergeCountAppend(a: seq<Animation>, b: seq<Animation>)
    ensures MergeCount(a + b) == MergeCount(a) + MergeCount(b)
    decreases |b|
  {
    if b == [] {
      assert a + b == a;
    } else {
      assert (a + b)[..|a + b| - 1] == a + b[..|b| - 1];
      MergeCountAppend(a, b[..|b| - 1]);
    }
  }
}
