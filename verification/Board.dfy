/** The playfield as a value: what locking, line clearing and garbage do to it
    (board_control.c, garbage.c), and how each changes the number of filled cells. */
module Board {
  import opened Collections
  import opened Tetromino

  type Row = seq<nat>
  type Grid = seq<Row>

  ghost predicate Rect(g: Grid, h: nat, w: nat) {
    |g| == h && forall i | 0 <= i < h :: |g[i]| == w
  }

  predicate Full(r: Row) {
    forall x | 0 <= x < |r| :: r[x] != 0
  }

  function EmptyRow(w: nat): (r: Row)
    ensures |r| == w
  {
    seq(w, _ => 0)
  }

  function Empties(n: nat, w: nat): (g: Grid)
    ensures Rect(g, n, w)
  {
    seq(n, _ => EmptyRow(w))
  }

  // ----- Counting -----

  function Filled(r: Row): (n: nat)
    ensures n <= |r|
  {
    if r == [] then 0 else Filled(r[..|r| - 1]) + (if r[|r| - 1] != 0 then 1 else 0)
  }

  function CellCount(g: Grid): nat {
    if g == [] then 0 else CellCount(g[..|g| - 1]) + Filled(g[|g| - 1])
  }

  lemma {:induction false} FilledOfFull(r: Row)
    requires Full(r)
    ensures Filled(r) == |r|
  {
    if r != [] {
      FilledOfFull(r[..|r| - 1]);
    }
  }

  lemma {:induction false} FilledOfEmpty(w: nat)
    ensures Filled(EmptyRow(w)) == 0
  {
    if w > 0 {
      assert EmptyRow(w)[..w - 1] == EmptyRow(w - 1);
      FilledOfEmpty(w - 1);
    }
  }

  lemma {:induction false} FilledUpdate(r: Row, x: nat, v: nat)
    requires x < |r|
    ensures Filled(r[x := v]) == Filled(r) - (if r[x] != 0 then 1 else 0) + (if v != 0 then 1 else 0)
  {
    var n := |r| - 1;
    if x == n {
      assert r[x := v][..n] == r[..n];
    } else {
      assert r[x := v][..n] == r[..n][x := v];
      FilledUpdate(r[..n], x, v);
    }
  }

  lemma {:induction false} CellCountConcat(a: Grid, b: Grid)
    ensures CellCount(a + b) == CellCount(a) + CellCount(b)
  {
    if b == [] {
      assert a + b == a;
    } else {
      var m := |b| - 1;
      assert (a + b)[..|a| + m] == a + b[..m];
      CellCountConcat(a, b[..m]);
    }
  }

  lemma {:induction false} CellCountUpdate(g: Grid, y: nat, r: Row)
    requires y < |g|
    ensures CellCount(g[y := r]) == CellCount(g) - Filled(g[y]) + Filled(r)
  {
    var n := |g| - 1;
    if y == n {
      assert g[y := r][..n] == g[..n];
    } else {
      assert g[y := r][..n] == g[..n][y := r];
      CellCountUpdate(g[..n], y, r);
    }
  }

  lemma {:induction false} CellCountEmpties(n: nat, w: nat)
    ensures CellCount(Empties(n, w)) == 0
  {
    if n > 0 {
      assert Empties(n, w)[..n - 1] == Empties(n - 1, w);
      CellCountEmpties(n - 1, w);
      FilledOfEmpty(w);
    }
  }

  // ----- Clearing lines -----

  function FullCount(g: Grid): (n: nat)
    ensures n <= |g|
  {
    if g == [] then 0 else FullCount(g[..|g| - 1]) + (if Full(g[|g| - 1]) then 1 else 0)
  }

  /** The rows that are not full, in their original order. */
  function Survivors(g: Grid): (s: Grid)
    ensures |s| + FullCount(g) == |g|
  {
    if g == [] then []
    else Survivors(g[..|g| - 1]) + (if Full(g[|g| - 1]) then [] else [g[|g| - 1]])
  }

  /** The board after clearing: one empty row on top for every full row, then the survivors. */
  function Cleared(g: Grid, w: nat): (c: Grid)
    ensures |c| == |g|
  {
    Empties(FullCount(g), w) + Survivors(g)
  }

  ghost predicate NoFullRow(g: Grid) {
    forall i | 0 <= i < |g| :: !Full(g[i])
  }

  lemma {:induction false} FullCountConcat(a: Grid, b: Grid)
    ensures FullCount(a + b) == FullCount(a) + FullCount(b)
    ensures Survivors(a + b) == Survivors(a) + Survivors(b)
  {
    hide Full;
    if b == [] {
      assert a + b == a;
    } else {
      var m, c := |b| - 1, a + b;
      assert c[..|c| - 1] == a + b[..m] && c[|c| - 1] == b[m];
      FullCountConcat(a, b[..m]);
      SurvivorsAppend(Survivors(a), Survivors(b[..m]), if Full(b[m]) then [] else [b[m]]);
    }
  }

  lemma SurvivorsAppend(a: Grid, b: Grid, c: Grid)
    ensures a + b + c == a + (b + c)
  {}

  lemma {:induction false} NoFullRowUnchanged(g: Grid, w: nat)
    requires NoFullRow(g)
    ensures FullCount(g) == 0 && Survivors(g) == g && Cleared(g, w) == g
  {
    hide Full;
    if g != [] {
      NoFullRowUnchanged(g[..|g| - 1], w);
      assert g == g[..|g| - 1] + [g[|g| - 1]];
    }
    assert Empties(0, w) + g == g;
  }

  lemma {:induction false} SurvivorsShape(g: Grid, w: nat)
    requires Rect(g, |g|, w)
    ensures Rect(Survivors(g), |Survivors(g)|, w) && NoFullRow(Survivors(g))
  {
    if g != [] {
      SurvivorsShape(g[..|g| - 1], w);
    }
  }

  lemma MiddleRow(a: Grid, r: Row, b: Grid)
    ensures FullCount(a + [r] + b) == FullCount(a) + FullCount(b) + (if Full(r) then 1 else 0)
    ensures Survivors(a + [r] + b) == Survivors(a) + (if Full(r) then [] else [r]) + Survivors(b)
  {
    FullCountConcat(a + [r], b);
    FullCountConcat(a, [r]);
    SingleRow(r);
  }

  /** Dropping out one full row and adding an empty one on top does not change what
      clearing the board amounts to; it only brings it one row closer. */
  lemma RemoveRowKeepsCleared(g: Grid, y: nat, w: nat)
    requires y < |g| && w > 0 && Full(g[y])
    ensures var h := [EmptyRow(w)] + g[..y] + g[y + 1..];
            FullCount(h) == FullCount(g) - 1 && Cleared(h, w) == Cleared(g, w)
  {
    hide FullCount, Survivors;
    var e, a, b, n := EmptyRow(w), g[..y], g[y + 1..], FullCount(g);
    assert g == a + [g[y]] + b;
    MiddleRow(a, g[y], b);
    assert !Full(e) by { assert e[0] == 0; }
    assert [] + [e] + (a + b) == [e] + a + b;
    MiddleRow([], e, a + b);
    FullCountConcat(a, b);
    assert Empties(n, w) == Empties(n - 1, w) + [e];
  }

  lemma SingleRow(r: Row)
    ensures FullCount([r]) == (if Full(r) then 1 else 0)
    ensures CellCount([r]) == Filled(r)
    ensures Survivors([r]) == (if Full(r) then [] else [r])
  {
    var s: Grid := [r];
    assert s[..0] == [];
  }

  lemma ClearedShape(g: Grid, w: nat)
    requires w > 0 && Rect(g, |g|, w)
    ensures Rect(Cleared(g, w), |g|, w) && NoFullRow(Cleared(g, w))
  {
    SurvivorsShape(g, w);
    var n, c := FullCount(g), Cleared(g, w);
    forall i | 0 <= i < |c| ensures |c[i]| == w && !Full(c[i]) {
      if i < n {
        assert c[i] == EmptyRow(w);
        assert c[i][0] == 0;
      } else {
        assert c[i] == Survivors(g)[i - n];
      }
    }
  }

  lemma {:induction false} SurvivorsCount(g: Grid)
    requires Rect(g, |g|, WIDTH)
    ensures CellCount(g) == CellCount(Survivors(g)) + WIDTH * FullCount(g)
  {
    if g != [] {
      var n := |g| - 1;
      SurvivorsCount(g[..n]);
      if Full(g[n]) {
        FilledOfFull(g[n]);
        assert Survivors(g) == Survivors(g[..n]);
      } else {
        CellCountConcat(Survivors(g[..n]), [g[n]]);
        SingleRow(g[n]);
      }
    }
  }

  lemma ClearedCount(g: Grid)
    requires Rect(g, |g|, WIDTH)
    ensures CellCount(Cleared(g, WIDTH)) == CellCount(g) - WIDTH * FullCount(g)
  {
    SurvivorsCount(g);
    CellCountConcat(Empties(FullCount(g), WIDTH), Survivors(g));
    CellCountEmpties(FullCount(g), WIDTH);
  }

  ghost function FullRows(g: Grid): set<int> {
    set i | 0 <= i < |g| && Full(g[i])
  }

  lemma {:induction false} FullCountIsCardinality(g: Grid)
    ensures FullCount(g) == |FullRows(g)|
  {
    if g != [] {
      var n := |g| - 1;
      FullCountIsCardinality(g[..n]);
      assert FullRows(g) == FullRows(g[..n]) + (if Full(g[n]) then {n} else {});
    }
  }

  // ----- The piece against the board -----

  type Playfield = g: Grid | |g| == HEIGHT && (forall i | 0 <= i < HEIGHT :: |g[i]| == WIDTH)
    witness Empties(HEIGHT, WIDTH)

  type Pos = (int, int)

  /** The four board positions (column, row) of a piece whose box sits at (x, y). */
  function Cells(t: PieceType, rot: Rotation, x: int, y: int): (c: seq<Pos>)
    ensures |c| == 4
  {
    seq(4, k requires 0 <= k < 4 => (x + Cell(t, rot, k).0, y + Cell(t, rot, k).1))
  }

  predicate OnBoard(c: Pos) {
    0 <= c.1 < HEIGHT && 0 <= c.0 < WIDTH
  }

  predicate Free(g: Playfield, c: Pos) {
    0 <= c.0 < WIDTH && c.1 < HEIGHT && (c.1 >= 0 ==> g[c.1][c.0] == 0)
  }

  ghost predicate AllFree(g: Playfield, cells: seq<Pos>) {
    forall c | c in cells :: Free(g, c)
  }

  /** The piece lies inside the walls, above the floor and over empty cells only;
      there is no ceiling. */
  ghost predicate Fits(g: Playfield, t: PieceType, rot: Rotation, x: int, y: int) {
    AllFree(g, Cells(t, rot, x, y))
  }

  function Put(g: Playfield, c: Pos, v: nat): Playfield {
    if OnBoard(c) then
      var row: Row := g[c.1];
      g[c.1 := row[c.0 := v]]
    else g
  }

  /** The board after writing `v` at every listed position that is on the board. */
  function Stamped(g: Playfield, cells: seq<Pos>, v: nat): Playfield {
    if cells == [] then g
    else Put(Stamped(g, cells[..|cells| - 1], v), cells[|cells| - 1], v)
  }

  function Locked(g: Playfield, t: PieceType, rot: Rotation, x: int, y: int): Playfield {
    Stamped(g, Cells(t, rot, x, y), t)
  }

  lemma {:induction false} StampedAt(g: Playfield, cells: seq<Pos>, v: nat, c: Pos)
    requires OnBoard(c)
    ensures Stamped(g, cells, v)[c.1][c.0] == if c in cells then v else g[c.1][c.0]
  {
    if cells != [] {
      var n := |cells| - 1;
      StampedAt(g, cells[..n], v, c);
      assert cells == cells[..n] + [cells[n]];
    }
  }

  /** Stamping distinct free positions that are all below the top edge turns exactly that
      many empty cells into filled ones. */
  lemma {:induction false} StampedCount(g: Playfield, cells: seq<Pos>, v: nat)
    requires v != 0 && AllFree(g, cells) && Unique(cells)
    requires forall c | c in cells :: c.1 >= 0
    ensures CellCount(Stamped(g, cells, v)) == CellCount(g) + |cells|
  {
    hide CellCount, Filled;
    if cells != [] {
      var n := |cells| - 1;
      var s, c := Stamped(g, cells[..n], v), cells[n];
      assert forall d | d in cells[..n] :: d in cells;
      StampedCount(g, cells[..n], v);
      assert c in cells && Free(g, c);
      StampedAt(g, cells[..n], v, c);
      FilledUpdate(s[c.1], c.0, v);
      CellCountUpdate(s, c.1, s[c.1][c.0 := v]);
    }
  }

  lemma CellsAreDistinctAndBelow(t: PieceType, rot: Rotation, x: int, y: int)
    ensures Unique(Cells(t, rot, x, y))
    ensures forall c | c in Cells(t, rot, x, y) :: x <= c.0 < x + 4 && y <= c.1 < y + 4
  {
    forall i, j | 0 <= i < j < 4 ensures Cells(t, rot, x, y)[i] != Cells(t, rot, x, y)[j] {
      CellsDistinct(t, rot, i, j);
    }
    forall k | 0 <= k < 4
      ensures x <= Cells(t, rot, x, y)[k].0 < x + 4 && y <= Cells(t, rot, x, y)[k].1 < y + 4
    {
      CellInBox(t, rot, k);
    }
  }

  /** A fitting piece that is wholly below the top edge locks into exactly four cells that
      were empty, and every other cell keeps its value. */
  lemma LockFillsFourEmptyCells(g: Playfield, t: PieceType, rot: Rotation, x: int, y: int)
    requires y >= 0 && Fits(g, t, rot, x, y)
    ensures var cells := Cells(t, rot, x, y);
            && Unique(cells) && |cells| == 4
            && (forall c | c in cells :: OnBoard(c) && g[c.1][c.0] == 0)
            && (forall c: Pos | OnBoard(c) ::
                  Locked(g, t, rot, x, y)[c.1][c.0] == if c in cells then t else g[c.1][c.0])
            && CellCount(Locked(g, t, rot, x, y)) == CellCount(g) + 4
  {
    var cells := Cells(t, rot, x, y);
    CellsAreDistinctAndBelow(t, rot, x, y);
    StampedCount(g, cells, t);
    forall c | c in cells ensures OnBoard(c) && g[c.1][c.0] == 0 {
      assert Free(g, c);
    }
    forall c: Pos | OnBoard(c)
      ensures Locked(g, t, rot, x, y)[c.1][c.0] == if c in cells then t else g[c.1][c.0]
    {
      StampedAt(g, cells, t, c);
    }
  }

  lemma EmptyBoardFits(t: PieceType)
    ensures Fits(Empties(HEIGHT, WIDTH), t, 0, 3, -2)
  {
    CellsAreDistinctAndBelow(t, 0, 3, -2);
  }

  /** A fitting piece is never lower than row 19. */
  lemma FittingPieceAboveFloor(g: Playfield, t: PieceType, rot: Rotation, x: int, y: int)
    requires Fits(g, t, rot, x, y)
    ensures y < HEIGHT
  {
    CellsAreDistinctAndBelow(t, rot, x, y);
    var c := Cells(t, rot, x, y)[0];
    assert c in Cells(t, rot, x, y) && Free(g, c);
  }

  /** Every row a stamp turns full contains one of the stamped positions. */
  lemma StampFillsOnlyItsRows(g: Playfield, cells: seq<Pos>, v: nat, rows: set<int>)
    requires NoFullRow(g)
    requires forall c | c in cells :: c.1 in rows
    ensures FullCount(Stamped(g, cells, v)) <= |rows|
  {
    var l := Stamped(g, cells, v);
    FullCountIsCardinality(l);
    forall i | i in FullRows(l) ensures i in rows {
      var x :| 0 <= x < WIDTH && g[i][x] == 0;
      StampedAt(g, cells, v, (x, i));
    }
    SubsetSize(FullRows(l), rows);
  }

  /** Locking onto a board without full rows fills at most the rows the piece spans:
      at most four, and at most three for a T. */
  lemma LockFillsFewRows(g: Playfield, t: PieceType, rot: Rotation, x: int, y: int)
    requires NoFullRow(g)
    ensures FullCount(Locked(g, t, rot, x, y)) <= if t == 3 then 3 else 4
  {
    hide NoFullRow, FullCount, BaseCell, Turned;
    CellsAreDistinctAndBelow(t, rot, x, y);
    var cells := Cells(t, rot, x, y);
    if t == 3 {
      var top := y + (if rot == 1 then 0 else 1);
      forall k | 0 <= k < 4 ensures top <= cells[k].1 <= top + 2 {
        TSpansThreeRows(rot, k);
      }
      StampFillsOnlyItsRows(g, cells, t, {top, top + 1, top + 2});
    } else {
      StampFillsOnlyItsRows(g, cells, t, {y, y + 1, y + 2, y + 3});
    }
  }

  // ----- Garbage -----

  /** A garbage row: solid tiles (value 8) with one hole. */
  function GarbageRow(hole: nat): (r: Row)
    ensures |r| == WIDTH
  {
    seq(WIDTH, x => if x == hole then 0 else 8)
  }

  function GarbageRows(lines: nat, rolls: seq<nat>): (b: Grid)
    ensures Rect(b, lines, WIDTH)
  {
    seq(lines, i requires 0 <= i < lines => GarbageRow(Roll(rolls, i) % WIDTH))
  }

  /** The board pushed up by `lines` garbage rows whose holes come from `rolls`. */
  function Raised(g: Playfield, lines: nat, rolls: seq<nat>): (r: Playfield)
    requires lines <= HEIGHT
  {
    g[lines..] + GarbageRows(lines, rolls)
  }

  /** Every row moves up, and each garbage row below has one hole, where its random number says. */
  lemma RaisedAt(g: Playfield, lines: nat, rolls: seq<nat>, c: Pos)
    requires lines <= HEIGHT && OnBoard(c)
    ensures Raised(g, lines, rolls)[c.1][c.0] ==
            if c.1 < HEIGHT - lines then g[c.1 + lines][c.0]
            else if c.0 == Roll(rolls, c.1 - (HEIGHT - lines)) % WIDTH then 0 else 8
  {
    if c.1 >= HEIGHT - lines {
      assert Raised(g, lines, rolls)[c.1] == GarbageRow(Roll(rolls, c.1 - (HEIGHT - lines)) % WIDTH);
    }
  }

  lemma GarbageRowFilled(hole: nat)
    requires hole < WIDTH
    ensures Filled(GarbageRow(hole)) == WIDTH - 1 && !Full(GarbageRow(hole))
  {
    var solid: Row := seq(WIDTH, _ => 8);
    FilledOfFull(solid);
    assert GarbageRow(hole) == solid[hole := 0];
    FilledUpdate(solid, hole, 0);
    assert GarbageRow(hole)[hole] == 0;
  }

  lemma {:induction false} GarbageRowsCount(lines: nat, rolls: seq<nat>)
    ensures CellCount(GarbageRows(lines, rolls)) == (WIDTH - 1) * lines
  {
    if lines > 0 {
      GarbageRowsCount(lines - 1, rolls);
      assert GarbageRows(lines, rolls)[..lines - 1] == GarbageRows(lines - 1, rolls);
      GarbageRowFilled(Roll(rolls, lines - 1) % WIDTH);
    }
  }

  lemma RaisedCount(g: Playfield, lines: nat, rolls: seq<nat>)
    requires lines <= HEIGHT
    ensures CellCount(Raised(g, lines, rolls)) ==
            CellCount(g) - CellCount(g[..lines]) + (WIDTH - 1) * lines
  {
    CellCountConcat(g[lines..], GarbageRows(lines, rolls));
    GarbageRowsCount(lines, rolls);
    assert g == g[..lines] + g[lines..];
    CellCountConcat(g[..lines], g[lines..]);
  }

  lemma RaisedHasNoFullRow(g: Playfield, lines: nat, rolls: seq<nat>)
    requires lines <= HEIGHT && NoFullRow(g)
    ensures NoFullRow(Raised(g, lines, rolls))
  {
    var r := Raised(g, lines, rolls);
    forall i | 0 <= i < |r| ensures !Full(r[i]) {
      if i < HEIGHT - lines {
        assert r[i] == g[lines + i];
      } else {
        GarbageRowFilled(Roll(rolls, i - (HEIGHT - lines)) % WIDTH);
      }
    }
  }

  // ----- Cell values -----

  /** Cells hold 0, a piece type or the garbage value 8. */
  ghost predicate SmallCells(g: Grid) {
    forall y | 0 <= y < |g| :: SmallRow(g[y])
  }

  ghost predicate SmallRow(r: Row) {
    forall x | 0 <= x < |r| :: r[x] <= 8
  }

  lemma {:induction false} StampedSmall(g: Playfield, cells: seq<Pos>, v: nat)
    requires SmallCells(g) && v <= 8
    ensures SmallCells(Stamped(g, cells, v))
  {
    if cells != [] {
      StampedSmall(g, cells[..|cells| - 1], v);
      var s, c := Stamped(g, cells[..|cells| - 1], v), cells[|cells| - 1];
      assert OnBoard(c) ==> SmallRow(s[c.1]);
    }
  }

  lemma {:induction false} SurvivorsSmall(g: Grid)
    requires SmallCells(g)
    ensures SmallCells(Survivors(g))
  {
    if g != [] {
      SurvivorsSmall(g[..|g| - 1]);
    }
  }

  lemma ClearedSmall(g: Grid, w: nat)
    requires SmallCells(g)
    ensures SmallCells(Cleared(g, w))
  {
    SurvivorsSmall(g);
    var n, c := FullCount(g), Cleared(g, w);
    forall y | 0 <= y < |c| ensures SmallRow(c[y]) {
      assert c[y] == if y < n then EmptyRow(w) else Survivors(g)[y - n];
    }
  }

  lemma RaisedSmall(g: Playfield, lines: nat, rolls: seq<nat>)
    requires lines <= HEIGHT && SmallCells(g)
    ensures SmallCells(Raised(g, lines, rolls))
  {
    var r := Raised(g, lines, rolls);
    forall y | 0 <= y < |r| ensures SmallRow(r[y]) {
      if y < HEIGHT - lines {
        assert r[y] == g[lines + y];
      } else {
        assert r[y] == GarbageRow(Roll(rolls, y - (HEIGHT - lines)) % WIDTH);
      }
    }
  }
}
