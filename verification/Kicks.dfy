/** Rotation with wall kicks (board_control.c). */
module Kicks {
  import opened Tetromino
  import opened Board

  datatype Piece = Piece(t: PieceType, rot: Rotation, x: int, y: int)

  function TransitionIndex(current: Rotation, next: Rotation): (i: nat)
    ensures i < 8
  {
    if current == 0 && next == 1 then 0
    else if current == 1 && next == 0 then 1
    else if current == 1 && next == 2 then 2
    else if current == 2 && next == 1 then 3
    else if current == 2 && next == 3 then 4
    else if current == 3 && next == 2 then 5
    else if current == 3 && next == 0 then 6
    else if current == 0 && next == 3 then 7
    else 0
  }

  function KicksJLSTZ(trans: nat): (r: seq<(int, int)>)
    requires trans < 8
    ensures |r| == 5
  {
    match trans
    case 0 => [(0, 0), (-1, 0), (-1, -1), (0, 2), (-1, 2)]
    case 1 => [(0, 0), (1, 0), (1, 1), (0, -2), (1, -2)]
    case 2 => [(0, 0), (1, 0), (1, 1), (0, -2), (1, -2)]
    case 3 => [(0, 0), (-1, 0), (-1, -1), (0, 2), (-1, 2)]
    case 4 => [(0, 0), (1, 0), (1, -1), (0, 2), (1, 2)]
    case 5 => [(0, 0), (-1, 0), (-1, 1), (0, -2), (-1, -2)]
    case 6 => [(0, 0), (-1, 0), (-1, 1), (0, -2), (-1, -2)]
    case _ => [(0, 0), (1, 0), (1, -1), (0, 2), (1, 2)]
  }

  function KicksI(trans: nat): (r: seq<(int, int)>)
    requires trans < 8
    ensures |r| == 5
  {
    match trans
    case 0 => [(0, 0), (-2, 0), (1, 0), (-2, 1), (1, -2)]
    case 1 => [(0, 0), (2, 0), (-1, 0), (2, -1), (-1, 2)]
    case 2 => [(0, 0), (-1, 0), (2, 0), (-1, -2), (2, 1)]
    case 3 => [(0, 0), (1, 0), (-2, 0), (1, 2), (-2, -1)]
    case 4 => [(0, 0), (2, 0), (-1, 0), (2, -1), (-1, 2)]
    case 5 => [(0, 0), (-2, 0), (1, 0), (-2, 1), (1, -2)]
    case 6 => [(0, 0), (1, 0), (-2, 0), (1, 2), (-2, -1)]
    case _ => [(0, 0), (-1, 0), (2, 0), (-1, -2), (2, 1)]
  }

  /** The i-th offset tried when a piece goes from one rotation to the next. */
  function Kick(t: PieceType, current: Rotation, next: Rotation, i: nat): (int, int)
    requires i < 5
  {
    var trans := TransitionIndex(current, next);
    if t == 1 then KicksI(trans)[i]
    else if t == 2 then (0, 0)
    else KicksJLSTZ(trans)[i]
  }

  /** The piece turned to `next` and shifted by its i-th kick. */
  function Kicked(p: Piece, next: Rotation, i: nat): Piece
    requires i < 5
  {
    var k := Kick(p.t, p.rot, next, i);
    Piece(p.t, next, p.x + k.0, p.y + k.1)
  }

  ghost predicate PieceFits(g: Playfield, p: Piece) {
    Fits(g, p.t, p.rot, p.x, p.y)
  }

  /** The first kick, from `i` on, whose position is free; 5 when there is none. */
  ghost function FirstKick(g: Playfield, p: Piece, next: Rotation, i: nat): (k: nat)
    requires i <= 5
    ensures i <= k <= 5
    ensures k < 5 ==> PieceFits(g, Kicked(p, next, k))
    ensures forall j | i <= j < k :: !PieceFits(g, Kicked(p, next, j))
    decreases 5 - i
  {
    if i == 5 || PieceFits(g, Kicked(p, next, i)) then i else FirstKick(g, p, next, i + 1)
  }

  ghost predicate CanRotate(g: Playfield, p: Piece, next: Rotation) {
    FirstKick(g, p, next, 0) < 5
  }

  ghost function Rotated(g: Playfield, p: Piece, next: Rotation): Piece {
    var k := FirstKick(g, p, next, 0);
    if k < 5 then Kicked(p, next, k) else p
  }

  ghost predicate Adjacent(r: Rotation, s: Rotation) {
    s == (r + 1) % 4 || s == (r + 3) % 4
  }

  ghost predicate Opposite(a: seq<(int, int)>, b: seq<(int, int)>)
    requires |a| == |b| == 5
  {
    forall i | 0 <= i < 5 :: a[i].0 == -b[i].0 && a[i].1 == -b[i].1
  }

  lemma OppositeRows(m: nat)
    requires m < 4
    ensures Opposite(KicksI(2 * m), KicksI(2 * m + 1)) && Opposite(KicksJLSTZ(2 * m), KicksJLSTZ(2 * m + 1))
  {
    match m
    case 0 => assert Opposite(KicksI(0), KicksI(1)) && Opposite(KicksJLSTZ(0), KicksJLSTZ(1));
    case 1 => assert Opposite(KicksI(2), KicksI(3)) && Opposite(KicksJLSTZ(2), KicksJLSTZ(3));
    case 2 => assert Opposite(KicksI(4), KicksI(5)) && Opposite(KicksJLSTZ(4), KicksJLSTZ(5));
    case _ => assert Opposite(KicksI(6), KicksI(7)) && Opposite(KicksJLSTZ(6), KicksJLSTZ(7));
  }

  /** Every kick is negated in the table row of the opposite transition. */
  lemma KickReversed(t: PieceType, r: Rotation, s: Rotation, i: nat)
    requires i < 5 && Adjacent(r, s)
    ensures Kick(t, s, r, i) == (-Kick(t, r, s, i).0, -Kick(t, r, s, i).1)
  {
    var m := TransitionIndex(r, s) / 2;
    OppositeRows(m);
    assert TransitionIndex(s, r) == 4 * m + 1 - TransitionIndex(r, s);
  }

  lemma FirstKickAtMost(g: Playfield, p: Piece, next: Rotation, i: nat, k: nat)
    requires i <= k < 5 && PieceFits(g, Kicked(p, next, k))
    ensures FirstKick(g, p, next, i) <= k
  {
    var f := FirstKick(g, p, next, i);
    if k < f {
      assert false;
    }
  }

  /** A piece that fits and was turned can always be turned back: the reverse kick with the
      same number leads to where it came from. It lands exactly there if and only if no
      earlier reverse kick finds room at another place. */
  lemma RotationCanBeUndone(g: Playfield, p: Piece, next: Rotation)
    requires Adjacent(p.rot, next) && PieceFits(g, p) && CanRotate(g, p, next)
    ensures var q := Rotated(g, p, next);
            var k := FirstKick(g, p, next, 0);
            && PieceFits(g, q) && CanRotate(g, q, p.rot)
            && Kicked(q, p.rot, k) == p
            && (Rotated(g, q, p.rot) == p <==>
                forall j | 0 <= j < k :: PieceFits(g, Kicked(q, p.rot, j)) ==> Kicked(q, p.rot, j) == p)
  {
    var k := FirstKick(g, p, next, 0);
    var q := Kicked(p, next, k);
    KickReversed(p.t, p.rot, next, k);
    assert Kicked(q, p.rot, k) == p;
    FirstKickAtMost(g, q, p.rot, 0, k);
    var f := FirstKick(g, q, p.rot, 0);
    assert f <= k;
    if f < k && Kicked(q, p.rot, f) == p {
      forall j | 0 <= j < k && PieceFits(g, Kicked(q, p.rot, j)) ensures Kicked(q, p.rot, j) == p {
        SamePlaceSameKick(q, p.rot, f, k);
      }
    }
  }

  /** Two different kicks of a row lead to different places, except for the O piece, whose
      kicks are all zero. */
  lemma SamePlaceSameKick(q: Piece, next: Rotation, i: nat, j: nat)
    requires i < j < 5 && Kicked(q, next, i) == Kicked(q, next, j)
    ensures forall k | 0 <= k < 5 :: Kicked(q, next, k) == Kicked(q, next, i)
  {
    var m := TransitionIndex(q.rot, next);
    var a := KicksI(m);
    var b := KicksJLSTZ(m);
    assert a[i] != a[j] && b[i] != b[j];
  }

  ghost predicate AllEmpty(g: Playfield) {
    forall y, x | 0 <= y < HEIGHT && 0 <= x < WIDTH :: g[y][x] == 0
  }

  /** On an empty board a piece fits iff its four cells are within walls and floor. */
  lemma FitsOnEmpty(g: Playfield, p: Piece)
    requires AllEmpty(g)
    ensures PieceFits(g, p) <==>
            forall k | 0 <= k < 4 :: 0 <= p.x + Cell(p.t, p.rot, k).0 < WIDTH && p.y + Cell(p.t, p.rot, k).1 < HEIGHT
  {
    hide Cell;
    var cells := Cells(p.t, p.rot, p.x, p.y);
    forall c: Pos ensures Free(g, c) <==> 0 <= c.0 < WIDTH && c.1 < HEIGHT {
    }
    forall k | 0 <= k < 4 ensures cells[k] == (p.x + Cell(p.t, p.rot, k).0, p.y + Cell(p.t, p.rot, k).1)
        && cells[k] in cells {
    }
  }

  lemma TCells()
    ensures Cell(3, 0, 0) == (1, 1) && Cell(3, 0, 1) == (0, 2) && Cell(3, 0, 2) == (1, 2) && Cell(3, 0, 3) == (2, 2)
    ensures Cell(3, 1, 0) == (2, 1) && Cell(3, 1, 1) == (1, 0) && Cell(3, 1, 2) == (1, 1) && Cell(3, 1, 3) == (1, 2)
  {
  }

  /** The first kick is no kick. */
  lemma StayFirst(t: PieceType, r: Rotation, s: Rotation)
    ensures Kick(t, r, s, 0) == (0, 0)
  {
    var trans := TransitionIndex(r, s);
    hide TransitionIndex;
    assert KicksI(trans)[0] == (0, 0) && KicksJLSTZ(trans)[0] == (0, 0);
  }

  lemma RightKick(t: PieceType, r: Rotation, s: Rotation)
    requires t >= 3 && TransitionIndex(r, s) == 1
    ensures Kick(t, r, s, 1) == (1, 0)
  {
    hide TransitionIndex;
    assert KicksJLSTZ(1) == [(0, 0), (1, 0), (1, 1), (0, -2), (1, -2)];
  }

  lemma KicksAtWall(p: Piece, s: Rotation)
    requires p.t >= 3 && p.rot == 1 && s == 0
    ensures Kicked(p, s, 0) == p.(rot := s) && Kicked(p, s, 1) == p.(rot := s, x := p.x + 1)
    ensures Kicked(p.(rot := s, x := p.x + 1), p.rot, 0) == p.(x := p.x + 1)
  {
    assert TransitionIndex(p.rot, s) == 1;
    hide Kick, TransitionIndex;
    StayFirst(p.t, p.rot, s);
    StayFirst(p.t, s, p.rot);
    RightKick(p.t, p.rot, s);
  }

  lemma FitsAtWall(g: Playfield, p: Piece, s: Rotation)
    requires AllEmpty(g) && p.t == 3 && p.rot == 1 && p.x == -1 && p.y + 2 < HEIGHT && s == 0
    ensures PieceFits(g, p) && PieceFits(g, p.(rot := s, x := p.x + 1)) && PieceFits(g, p.(x := p.x + 1))
    ensures !PieceFits(g, p.(rot := s))
  {
    hide PieceFits, Cell;
    TCells();
    FitsOnEmpty(g, p);
    FitsOnEmpty(g, p.(rot := s, x := p.x + 1));
    FitsOnEmpty(g, p.(x := p.x + 1));
    FitsOnEmpty(g, p.(rot := s));
  }

  lemma SecondKick(g: Playfield, p: Piece, next: Rotation)
    requires !PieceFits(g, Kicked(p, next, 0)) && PieceFits(g, Kicked(p, next, 1))
    ensures Rotated(g, p, next) == Kicked(p, next, 1)
  {
    hide PieceFits, Kicked;
    var k := FirstKick(g, p, next, 0);
    assert k == FirstKick(g, p, next, 1) == 1;
  }

  lemma NoKick(g: Playfield, p: Piece, next: Rotation)
    requires PieceFits(g, Kicked(p, next, 0))
    ensures Rotated(g, p, next) == Kicked(p, next, 0)
  {
    hide PieceFits, Kicked;
  }

  /** On an empty board a T that stands upright at the left wall is pushed one column to the
      right when it turns, and turning back does not take it to the wall again. */
  lemma RotatingBackMayMiss(g: Playfield, p: Piece, s: Rotation)
    requires AllEmpty(g) && p.t == 3 && p.rot == 1 && p.x == -1 && p.y + 2 < HEIGHT && s == 0
    ensures PieceFits(g, p) && Rotated(g, p, s) == p.(rot := s, x := 0)
    ensures Rotated(g, Rotated(g, p, s), p.rot) == p.(x := 0) != p
  {
    hide PieceFits, Kicked, Rotated, AllEmpty;
    KicksAtWall(p, s);
    FitsAtWall(g, p, s);
    SecondKick(g, p, s);
    NoKick(g, p.(rot := s, x := p.x + 1), p.rot);
  }
}
