/** The seven pieces and their rotations (board_control.c). The engine stores one flat
    4x4 picture per piece and turns it by re-indexing; `Cell` is an independent
    description, four cells turned clockwise inside the 4x4 box, and
    `SolidIffCell` proves that the two agree. */
module Tetromino {

  const WIDTH := 10
  const HEIGHT := 20

  type PieceType = t: nat | 1 <= t <= 7 witness 1
  type Rotation = r: nat | r < 4

  const TETROMINOES: seq<seq<nat>> :=
    [ [0, 0, 0, 0, 1, 1, 1, 1, 0, 0, 0, 0, 0, 0, 0, 0]
    , [0, 0, 0, 0, 0, 1, 1, 0, 0, 1, 1, 0, 0, 0, 0, 0]
    , [0, 0, 0, 0, 0, 1, 0, 0, 1, 1, 1, 0, 0, 0, 0, 0]
    , [0, 0, 0, 0, 0, 0, 1, 1, 0, 1, 1, 0, 0, 0, 0, 0]
    , [0, 0, 0, 0, 1, 1, 0, 0, 0, 1, 1, 0, 0, 0, 0, 0]
    , [0, 0, 0, 0, 0, 0, 0, 1, 0, 1, 1, 1, 0, 0, 0, 0]
    , [0, 0, 0, 0, 1, 0, 0, 0, 1, 1, 1, 0, 0, 0, 0, 0] ]

  /** Where the picture of the unturned piece is read for box position (x, y). */
  function RotationIndex(x: int, y: int, rot: Rotation): int {
    match rot
    case 0 => x + y * 4
    case 1 => 12 + y - x * 4
    case 2 => 15 - y * 4 - x
    case _ => 3 - y + x * 4
  }

  function Picture(t: PieceType): (p: seq<nat>)
    ensures |p| == 16
  {
    TETROMINOES[t - 1]
  }

  predicate Solid(t: PieceType, rot: Rotation, px: int, py: int)
    requires 0 <= px < 4 && 0 <= py < 4
  {
    Picture(t)[RotationIndex(px, py, rot)] != 0
  }

  // ----- Reference description -----

  /** The four cells (column, row) of the unturned piece. */
  function BaseCell(t: PieceType, k: nat): (int, int)
    requires k < 4
  {
    match t
    case 1 => (k, 1)
    case 2 => (if k % 2 == 0 then 1 else 2, if k < 2 then 1 else 2)
    case 3 => if k == 0 then (1, 1) else (k - 1, 2)
    case 4 => if k < 2 then (2 + k, 1) else (k - 1, 2)
    case 5 => if k < 2 then (k, 1) else (k - 1, 2)
    case 6 => if k == 0 then (3, 1) else (k, 2)
    case _ => if k == 0 then (0, 1) else (k - 1, 2)
  }

  /** A quarter turn clockwise inside the 4x4 box. */
  function Turn(c: (int, int)): (int, int) {
    (3 - c.1, c.0)
  }

  function Turned(c: (int, int), rot: Rotation): (int, int) {
    match rot
    case 0 => c
    case 1 => Turn(c)
    case 2 => Turn(Turn(c))
    case _ => Turn(Turn(Turn(c)))
  }

  function Cell(t: PieceType, rot: Rotation, k: nat): (int, int)
    requires k < 4
  {
    Turned(BaseCell(t, k), rot)
  }

  lemma CellInBox(t: PieceType, rot: Rotation, k: nat)
    requires k < 4
    ensures 0 <= Cell(t, rot, k).0 < 4 && 0 <= Cell(t, rot, k).1 < 4
  {}

  lemma CellsDistinct(t: PieceType, rot: Rotation, j: nat, k: nat)
    requires j < k < 4
    ensures Cell(t, rot, j) != Cell(t, rot, k)
  {}

  /** The flat picture shows exactly the base cells. */
  lemma PictureShowsBaseCells(t: PieceType, col: int, row: int)
    requires 0 <= col < 4 && 0 <= row < 4
    ensures Picture(t)[col + row * 4] != 0 <==> exists k: nat | k < 4 :: BaseCell(t, k) == (col, row)
  {
    var c := [BaseCell(t, 0), BaseCell(t, 1), BaseCell(t, 2), BaseCell(t, 3)];
    assert Picture(t)[col + row * 4] != 0 <==> (col, row) in c by {
      match t
      case 1 => assert c == [(0, 1), (1, 1), (2, 1), (3, 1)];
      case 2 => assert c == [(1, 1), (2, 1), (1, 2), (2, 2)];
      case 3 => assert c == [(1, 1), (0, 2), (1, 2), (2, 2)];
      case 4 => assert c == [(2, 1), (3, 1), (1, 2), (2, 2)];
      case 5 => assert c == [(0, 1), (1, 1), (1, 2), (2, 2)];
      case 6 => assert c == [(3, 1), (1, 2), (2, 2), (3, 2)];
      case _ => assert c == [(0, 1), (0, 2), (1, 2), (2, 2)];
    }
    assert forall k: nat | k < 4 :: c[k] == BaseCell(t, k);
  }

  function Unturned(c: (int, int), rot: Rotation): (int, int) {
    match rot
    case 0 => c
    case 1 => (c.1, 3 - c.0)
    case 2 => (3 - c.0, 3 - c.1)
    case _ => (3 - c.1, c.0)
  }

  lemma TurnedBack(c: (int, int), d: (int, int), rot: Rotation)
    ensures Turned(c, rot) == d <==> c == Unturned(d, rot)
  {}

  lemma IndexIsUnturned(px: int, py: int, rot: Rotation)
    requires 0 <= px < 4 && 0 <= py < 4
    ensures var b := Unturned((px, py), rot);
            0 <= b.0 < 4 && 0 <= b.1 < 4 && RotationIndex(px, py, rot) == b.0 + b.1 * 4
  {}

  /** Re-indexing the picture is turning the piece: for every piece, rotation and box
      position, the position is solid exactly when a turned cell lies there. */
  lemma SolidIffCell(t: PieceType, rot: Rotation, px: int, py: int)
    requires 0 <= px < 4 && 0 <= py < 4
    ensures Solid(t, rot, px, py) <==> exists k: nat | k < 4 :: Cell(t, rot, k) == (px, py)
  {
    var b := Unturned((px, py), rot);
    IndexIsUnturned(px, py, rot);
    PictureShowsBaseCells(t, b.0, b.1);
    if k: nat :| k < 4 && BaseCell(t, k) == b {
      TurnedBack(BaseCell(t, k), (px, py), rot);
      assert Cell(t, rot, k) == (px, py);
    }
    if k: nat :| k < 4 && Cell(t, rot, k) == (px, py) {
      TurnedBack(BaseCell(t, k), (px, py), rot);
      assert BaseCell(t, k) == b;
    }
  }

  /** A T piece spans at most three rows in every rotation. */
  lemma TSpansThreeRows(rot: Rotation, k: nat)
    requires k < 4
    ensures var top := if rot == 1 then 0 else 1;
            top <= Cell(3, rot, k).1 <= top + 2
  {}
}
