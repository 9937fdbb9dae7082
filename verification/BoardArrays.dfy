/** The in-place loops over the cell array (board_control.c, garbage.c), each proved to
    compute the board value that module Board describes. */
module BoardArrays {
  import opened Collections
  import opened Tetromino
  import opened Board

  ghost function RowOf(a: array2<nat>, y: int): (r: Row)
    requires 0 <= y < a.Length0
    reads a
    ensures |r| == a.Length1
  {
    seq(a.Length1, x requires 0 <= x < a.Length1 reads a => a[y, x])
  }

  ghost function GridOf(a: array2<nat>): (g: Grid)
    reads a
    ensures Rect(g, a.Length0, a.Length1)
    ensures forall y, x {:trigger g[y][x]} {:trigger a[y, x]} | 0 <= y < a.Length0 && 0 <= x < a.Length1 ::
      g[y][x] == a[y, x]
  {
    seq(a.Length0, y requires 0 <= y < a.Length0 reads a => RowOf(a, y))
  }

  lemma SameGrid(g: Grid, h: Grid, w: nat)
    requires |g| == |h| && Rect(g, |g|, w) && Rect(h, |h|, w)
    requires forall y, x | 0 <= y < |g| && 0 <= x < w :: g[y][x] == h[y][x]
    ensures g == h
  {
    forall y | 0 <= y < |g| ensures g[y] == h[y] {}
  }

  // ----- Scanning the 4x4 box -----

  /** Reading picture `p` through rotation `rot` for a box at (x, y) shows exactly `cells`. */
  ghost predicate Depicts(p: seq<nat>, rot: Rotation, x: int, y: int, cells: seq<Pos>) {
    && |p| == 16
    && (forall c | c in cells :: x <= c.0 < x + 4 && y <= c.1 < y + 4)
    && forall px, py | 0 <= px < 4 && 0 <= py < 4 ::
         p[RotationIndex(px, py, rot)] != 0 <==> (x + px, y + py) in cells
  }

  lemma PictureDepicts(t: PieceType, rot: Rotation, x: int, y: int)
    ensures Depicts(Picture(t), rot, x, y, Cells(t, rot, x, y))
  {
    CellsAreDistinctAndBelow(t, rot, x, y);
    forall px, py | 0 <= px < 4 && 0 <= py < 4
      ensures Picture(t)[RotationIndex(px, py, rot)] != 0 <==> (x + px, y + py) in Cells(t, rot, x, y)
    {
      SolidIsCell(t, rot, x, y, px, py);
    }
  }

  lemma SolidIsCell(t: PieceType, rot: Rotation, x: int, y: int, px: int, py: int)
    requires 0 <= px < 4 && 0 <= py < 4
    ensures Solid(t, rot, px, py) <==> (x + px, y + py) in Cells(t, rot, x, y)
  {
    hide BaseCell, Turned, Solid;
    SolidIffCell(t, rot, px, py);
    var cells := Cells(t, rot, x, y);
    if k: nat :| k < 4 && Cell(t, rot, k) == (px, py) {
      assert cells[k] == (x + px, y + py);
    }
    if (x + px, y + py) in cells {
      var k :| 0 <= k < 4 && cells[k] == (x + px, y + py);
      assert Cell(t, rot, k) == (px, py);
    }
  }

  // ----- Collision test -----

  method ScanFits(a: array2<nat>, p: seq<nat>, rot: Rotation, posX: int, posY: int, ghost cells: seq<Pos>)
      returns (ok: bool)
    requires a.Length0 == HEIGHT && a.Length1 == WIDTH && Depicts(p, rot, posX, posY, cells)
    ensures ok == AllFree(GridOf(a), cells)
  {
    ghost var g: Playfield := GridOf(a);
    for px := 0 to 4
      invariant forall c | c in cells && c.0 < posX + px :: Free(g, c)
    {
      for py := 0 to 4
        invariant forall c | c in cells && c.0 < posX + px :: Free(g, c)
        invariant forall c | c in cells && c.0 == posX + px && c.1 < posY + py :: Free(g, c)
      {
        ghost var here := (posX + px, posY + py);
        if p[RotationIndex(px, py, rot)] == 0 {
          assert here !in cells;
          continue;
        }
        assert here in cells;
        var boardX, boardY := posX + px, posY + py;
        if boardX < 0 || boardX >= WIDTH || boardY >= HEIGHT {
          assert !Free(g, here);
          return false;
        }
        if boardY >= 0 && a[boardY, boardX] != 0 {
          assert !Free(g, here);
          return false;
        }
      }
    }
    return true;
  }

  /** The nested scan over the 4x4 box decides whether the piece fits. */
  method IsValidPos(a: array2<nat>, t: PieceType, rot: Rotation, posX: int, posY: int) returns (ok: bool)
    requires a.Length0 == HEIGHT && a.Length1 == WIDTH
    ensures ok == Fits(GridOf(a), t, rot, posX, posY)
  {
    PictureDepicts(t, rot, posX, posY);
    ok := ScanFits(a, Picture(t), rot, posX, posY, Cells(t, rot, posX, posY));
  }

  // ----- Locking -----

  /** The board value a cell has once the scan has passed columns before `px` and, in
      column `px`, rows before `py` of the box at (x, y). */
  ghost function WrittenSoFar(g: Playfield, cells: seq<Pos>, t: nat, x: int, y: int, px: int, py: int, c: Pos): nat
    requires OnBoard(c)
  {
    if c in cells && (c.0 < x + px || (c.0 == x + px && c.1 < y + py)) then t else g[c.1][c.0]
  }

  method ScanLock(a: array2<nat>, t: nat, p: seq<nat>, rot: Rotation, x: int, y: int, ghost cells: seq<Pos>)
    requires a.Length0 == HEIGHT && a.Length1 == WIDTH && Depicts(p, rot, x, y, cells)
    modifies a
    ensures GridOf(a) == Stamped(old(GridOf(a)), cells, t)
  {
    ghost var g: Playfield := GridOf(a);
    for px := 0 to 4
      invariant forall r, c | 0 <= r < HEIGHT && 0 <= c < WIDTH ::
        a[r, c] == WrittenSoFar(g, cells, t, x, y, px, 0, (c, r))
    {
      for py := 0 to 4
        invariant forall r, c | 0 <= r < HEIGHT && 0 <= c < WIDTH ::
          a[r, c] == WrittenSoFar(g, cells, t, x, y, px, py, (c, r))
      {
        assert p[RotationIndex(px, py, rot)] != 0 <==> (x + px, y + py) in cells;
        if p[RotationIndex(px, py, rot)] != 0 {
          var boardX, boardY := x + px, y + py;
          if boardY >= 0 && boardY < HEIGHT {
            if boardX >= 0 && boardX < WIDTH {
              a[boardY, boardX] := t;
            }
          }
        }
      }
    }
    forall r, c | 0 <= r < HEIGHT && 0 <= c < WIDTH
      ensures GridOf(a)[r][c] == Stamped(g, cells, t)[r][c]
    {
      StampedAt(g, cells, t, (c, r));
    }
    SameGrid(GridOf(a), Stamped(g, cells, t), WIDTH);
  }

  /** The nested scan writes the piece into the board. */
  method LockPiece(a: array2<nat>, t: PieceType, rot: Rotation, x: int, y: int)
    requires a.Length0 == HEIGHT && a.Length1 == WIDTH
    modifies a
    ensures GridOf(a) == Locked(old(GridOf(a)), t, rot, x, y)
  {
    PictureDepicts(t, rot, x, y);
    ScanLock(a, t, Picture(t), rot, x, y, Cells(t, rot, x, y));
  }

  // ----- Clearing lines -----

  method RowIsFull(a: array2<nat>, y: nat) returns (full: bool)
    requires y < a.Length0
    ensures full == Full(GridOf(a)[y])
  {
    full := true;
    for x := 0 to a.Length1
      invariant forall q | 0 <= q < x :: a[y, q] != 0
    {
      if a[y, x] == 0 {
        assert GridOf(a)[y][x] == 0;
        return false;
      }
    }
    assert forall q | 0 <= q < a.Length1 :: GridOf(a)[y][q] == a[y, q];
  }

  method CopyRowDown(a: array2<nat>, y: nat)
    requires 0 < y < a.Length0
    modifies a
    ensures GridOf(a) == old(GridOf(a)[y := GridOf(a)[y - 1]])
  {
    for xx := 0 to a.Length1
      invariant forall r, c | 0 <= r < a.Length0 && 0 <= c < a.Length1 ::
        a[r, c] == old(a[if r == y && c < xx then y - 1 else r, c])
    {
      a[y, xx] := a[y - 1, xx];
    }
    SameGrid(GridOf(a), old(GridOf(a)[y := GridOf(a)[y - 1]]), a.Length1);
  }

  method BlankTopRow(a: array2<nat>)
    requires 0 < a.Length0
    modifies a
    ensures GridOf(a) == old(GridOf(a))[0 := EmptyRow(a.Length1)]
  {
    for xx := 0 to a.Length1
      invariant forall r, c | 0 <= r < a.Length0 && 0 <= c < a.Length1 ::
        a[r, c] == if r == 0 && c < xx then 0 else old(a[r, c])
    {
      a[0, xx] := 0;
    }
    SameGrid(GridOf(a), old(GridOf(a))[0 := EmptyRow(a.Length1)], a.Length1);
  }

  /** The grid once rows `k` to `y - 1` are copied down; row `k` is still in its old place too. */
  ghost function CopiedDown(g: Grid, k: nat, y: nat): (r: Grid)
    requires k <= y < |g|
    ensures |r| == |g|
  {
    g[..k + 1] + g[k..y] + g[y + 1..]
  }

  lemma CopyOneMore(g: Grid, k: nat, y: nat)
    requires 0 < k <= y < |g|
    ensures var d := CopiedDown(g, k, y); d[k := d[k - 1]] == CopiedDown(g, k - 1, y)
  {
    assert g[k - 1..y] == [g[k - 1]] + g[k..y];
    assert g[..k + 1] == g[..k] + [g[k]];
  }

  lemma CopiedAll(g: Grid, y: nat, blank: Row)
    requires y < |g|
    ensures CopiedDown(g, y, y) == g
    ensures CopiedDown(g, 0, y)[0 := blank] == [blank] + g[..y] + g[y + 1..]
  {
    assert g[0..y] == g[..y];
  }

  /** Copies every row above `y` one row down and blanks the top row. */
  method DropRowsAbove(a: array2<nat>, y: nat)
    requires y < a.Length0
    modifies a
    ensures GridOf(a) == [EmptyRow(a.Length1)] + old(GridOf(a))[..y] + old(GridOf(a))[y + 1..]
  {
    hide EmptyRow, CopiedDown;
    ghost var g := GridOf(a);
    var yy := y;
    CopiedAll(g, y, EmptyRow(a.Length1));
    while yy > 0
      invariant 0 <= yy <= y && GridOf(a) == CopiedDown(g, yy, y)
    {
      CopyOneMore(g, yy, y);
      CopyRowDown(a, yy);
      yy := yy - 1;
    }
    BlankTopRow(a);
  }

  ghost predicate NoFullBelow(g: Grid, y: int) {
    forall i | 0 <= i < |g| && y < i :: !Full(g[i])
  }

  lemma RowsBelowStay(g: Grid, y: nat, top: Row)
    requires y < |g| && NoFullBelow(g, y)
    ensures NoFullBelow([top] + g[..y] + g[y + 1..], y)
  {}

  /** Clearing scans from the bottom, drops the rows above each full row and looks at the
      same index again. It ends, returns the number of full rows and leaves that many
      empty rows above the rows that were not full, in their order. */
  method ClearLines(a: array2<nat>) returns (cleared: nat)
    requires a.Length1 > 0
    modifies a
    ensures cleared == FullCount(old(GridOf(a)))
    ensures GridOf(a) == Cleared(old(GridOf(a)), a.Length1)
  {
    hide Full, FullCount, Survivors, Cleared, EmptyRow, GridOf;
    ghost var before := GridOf(a);
    cleared := 0;
    var y := a.Length0 - 1;
    while y >= 0
      invariant -1 <= y < a.Length0
      invariant cleared + FullCount(GridOf(a)) == FullCount(before)
      invariant Cleared(GridOf(a), a.Length1) == Cleared(before, a.Length1)
      invariant NoFullBelow(GridOf(a), y)
      decreases y + 1 + FullCount(GridOf(a))
    {
      ghost var g := GridOf(a);
      var full := RowIsFull(a, y);
      if full {
        cleared := cleared + 1;
        RemoveRowKeepsCleared(g, y, a.Length1);
        DropRowsAbove(a, y);
        RowsBelowStay(g, y, EmptyRow(a.Length1));
      } else {
        y := y - 1;
      }
    }
    NoFullRowUnchanged(GridOf(a), a.Length1);
  }

  // ----- Garbage -----

  /** Shifts the board up and fills the freed rows with garbage; more than a board's
      height of garbage counts as a full height. */
  method AddGarbage(a: array2<nat>, lines: int, rolls: seq<nat>)
    requires a.Length0 == HEIGHT && a.Length1 == WIDTH
    modifies a
    ensures GridOf(a) == if lines <= 0 then old(GridOf(a))
                         else Raised(old(GridOf(a)), if lines > HEIGHT then HEIGHT else lines, rolls)
  {
    if lines <= 0 {
      return;
    }
    var n := if lines > HEIGHT then HEIGHT else lines;
    ghost var g: Playfield := GridOf(a);
    for y := 0 to HEIGHT - n
      invariant forall r, c | 0 <= r < HEIGHT && 0 <= c < WIDTH :: a[r, c] == if r < y then g[r + n][c] else g[r][c]
    {
      for x := 0 to WIDTH
        invariant forall r, c | 0 <= r < HEIGHT && 0 <= c < WIDTH ::
          a[r, c] == if r < y || (r == y && c < x) then g[r + n][c] else g[r][c]
      {
        a[y, x] := a[y + n, x];
      }
    }
    ghost var target := Raised(g, n, rolls);
    for y := HEIGHT - n to HEIGHT
      invariant forall r, c | 0 <= r < y && 0 <= c < WIDTH :: a[r, c] == target[r][c]
    {
      var hole := Roll(rolls, y - (HEIGHT - n)) % WIDTH;
      for x := 0 to WIDTH
        invariant forall r, c | 0 <= r < y && 0 <= c < WIDTH :: a[r, c] == target[r][c]
        invariant forall c | 0 <= c < x :: a[y, c] == target[y][c]
      {
        assert target[y] == GarbageRow(hole);
        if x == hole {
          a[y, x] := 0;
        } else {
          a[y, x] := 8;
        }
      }
    }
    SameGrid(GridOf(a), target, WIDTH);
  }
}
