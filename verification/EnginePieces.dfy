/** Where dealt pieces go: every one is locked, falling or held; and what each player action
    does to the cells of the falling piece. */
module EnginePieces {
  import opened Tetromino
  import opened Board
  import opened Kicks
  import opened Engine
  import opened EngineRuns
  import Bag

  // ----- Dealt pieces -----

  /** A step that locks is the lock of the piece where it then rests. */
  lemma LockStep(g: Game, e: Event)
    requires WellFormed(e) && Locks(TickOf(g, e))
    ensures Step(g, e) == LockedDown(TickOf(g, e).game, RollsOf(e)).(lockTimer := 0, gravityTimer := 0)
  {
    hide Fits, LockedDown, Dropped, Threshold;
    if e.Idle? {
      TickedIgnoresTimers(g, e.rolls, g.lockTimer + 1, g.gravityTimer);
    }
  }

  /** The types placed on the board, as the count of placed pieces went up. */
  ghost function PlacedTypes(g: Game, es: seq<Event>): seq<PieceType>
    requires WellFormedRun(es)
  {
    if es == [] then []
    else
      var n := |es| - 1;
      var before, after := Run(g, es[..n]), Run(g, es);
      PlacedTypes(g, es[..n]) + (if after.piecesPlaced > before.piecesPlaced then [before.current.t] else [])
  }

  function HeldTypes(g: Game): multiset<PieceType> {
    if g.held == 0 then multiset{} else multiset{g.held as PieceType}
  }

  ghost predicate SameTypes(g: Game, s: Game) {
    s.current.t == g.current.t && s.held == g.held && s.piecesPlaced == g.piecesPlaced
  }

  /** The action swaps the falling piece with the held one, or with the next of the bag. */
  ghost predicate Swaps(g: Game, e: Event) {
    !g.gameOver && e.Act? && e.action.Hold? && !g.hasHeld
  }

  lemma QuietTypes(g: Game, a: Action, rolls: Rolls)
    requires WellFormedAction(a) && !a.HardDrop? && !Swaps(g, Act(a, rolls))
    ensures SameTypes(g, Acted(g, a, rolls)) && Acted(g, a, rolls).hasHeld == g.hasHeld
  {
    hide FitsAt, NextTarget, SeatOf, CanRotate, FirstKick, Kick;
  }

  lemma LockKeepsHeld(g: Game, rolls: Rolls)
    ensures LockedDown(g, rolls).held == g.held && !LockedDown(g, rolls).hasHeld
  {
    hide Fits, SettledBoard, Attack, Cancelled, RowsTaken, Completed, IsTSpin, Difficult, Bag.Dealt;
  }

  lemma TickedTypes(g: Game, rolls: Rolls)
    ensures Resting(g) && g.current.y >= 0 ==> Ticked(g, rolls) == LockedDown(g, rolls)
    ensures !(Resting(g) && g.current.y >= 0) ==>
              SameTypes(g, Ticked(g, rolls)) && Ticked(g, rolls).hasHeld == g.hasHeld
  {
    hide Fits, LockedDown;
  }

  /** What one event does to the types: a lock places the falling piece and brings the next, a
      hold swaps, anything else leaves them. */
  lemma StepTypes(g: Game, e: Event)
    requires WellFormed(e)
    ensures var s := Step(g, e);
            if Locks(TickOf(g, e)) then
              s.piecesPlaced == g.piecesPlaced + 1 && s.current == NextPiece(g) && s.held == g.held && !s.hasHeld
            else if Swaps(g, e) then
              s.piecesPlaced == g.piecesPlaced && s.held == g.current.t && s.hasHeld
              && s.current == if g.held == 0 then NextPiece(g) else Piece(g.held, 0, SPAWN_X, SPAWN_Y)
            else SameTypes(g, s) && s.hasHeld == g.hasHeld
  {
    if Locks(TickOf(g, e)) {
      LockTypes(g, e);
    } else {
      QuietStepTypes(g, e);
    }
  }

  lemma LockTypes(g: Game, e: Event)
    requires WellFormed(e) && Locks(TickOf(g, e))
    ensures var s := Step(g, e);
            s.piecesPlaced == g.piecesPlaced + 1 && s.current == NextPiece(g) && s.held == g.held && !s.hasHeld
  {
    hide Fits, LockedDown, Threshold, Dropped, Step;
    DroppedFacts(g);
    LockStep(g, e);
    LockKeepsHeld(TickOf(g, e).game, RollsOf(e));
    LockSpawns(TickOf(g, e).game, RollsOf(e));
  }

  lemma QuietStepTypes(g: Game, e: Event)
    requires WellFormed(e) && !Locks(TickOf(g, e))
    ensures var s := Step(g, e);
            if Swaps(g, e) then
              s.piecesPlaced == g.piecesPlaced && s.held == g.current.t && s.hasHeld
              && s.current == if g.held == 0 then NextPiece(g) else Piece(g.held, 0, SPAWN_X, SPAWN_Y)
            else SameTypes(g, s) && s.hasHeld == g.hasHeld
  {
    hide Fits, LockedDown, Threshold, Dropped, Bag.Dealt;
    if e.Act? && !e.action.HardDrop? && !Swaps(g, e) {
      hide Acted;
      QuietTypes(g, e.action, e.rolls);
    } else if e.Act? && e.action.HardDrop? {
      DroppedFacts(g);
    }
  }

  lemma LockSpawns(g: Game, rolls: Rolls)
    ensures LockedDown(g, rolls).current == NextPiece(g) && LockedDown(g, rolls).piecesPlaced == g.piecesPlaced + 1
  {
    hide Fits, SettledBoard, Attack, Cancelled, RowsTaken, Completed, IsTSpin, Difficult, Bag.Dealt;
  }

  /** In every game, every piece ever dealt is exactly one of: placed, falling, held. */
  lemma {:induction false} EveryPieceIsSomewhere(d: Deal, es: seq<Event>)
    requires WellFormedRun(es)
    ensures var start := StartOf(d);
            var g := Run(start, es);
            multiset(Books(start, es).drawn)
                == multiset(PlacedTypes(start, es)) + multiset{g.current.t} + HeldTypes(g)
    ensures |PlacedTypes(StartOf(d), es)| == Run(StartOf(d), es).piecesPlaced
  {
    hide StartOf, Step, Deals, TickOf, CellCount;
    var start := StartOf(d);
    if es == [] {
      NothingHeld(d);
    } else {
      var n := |es| - 1;
      var before, e := es[..n], es[n];
      assert forall f | f in before :: f in es;
      assert e in es;
      EveryPieceIsSomewhere(d, before);
      StepKeepsPieces(Run(start, before), Books(start, before), e, PlacedTypes(start, before));
    }
  }

  lemma NothingHeld(d: Deal)
    ensures StartOf(d).held == 0 && StartOf(d).piecesPlaced == 0
  {
    hide Bag.Dealt, Bag.NewBag;
  }

  lemma StepKeepsPieces(g: Game, l: Ledger, e: Event, placed: seq<PieceType>)
    requires WellFormed(e)
    requires multiset(l.drawn) == multiset(placed) + multiset{g.current.t} + HeldTypes(g)
    ensures var s := Step(g, e);
            var placed' := placed + (if s.piecesPlaced > g.piecesPlaced then [g.current.t] else []);
            && multiset(Booked(l, g, e).drawn) == multiset(placed') + multiset{s.current.t} + HeldTypes(s)
            && s.piecesPlaced - g.piecesPlaced == |placed'| - |placed|
  {
    hide Step, TickOf, Booked, Bag.Dealt;
    StepTypes(g, e);
    DealtPieceAppears(g, l, e);
    TicksAreNoHolds(g, e);
    assert multiset(l.drawn + [NextPiece(g).t]) == multiset(l.drawn) + multiset{NextPiece(g).t};
    assert multiset(placed + [g.current.t]) == multiset(placed) + multiset{g.current.t};
    hide Deals, Locks;
    assert placed + [] == placed;
  }

  lemma TicksAreNoHolds(g: Game, e: Event)
    ensures Locks(TickOf(g, e)) ==> !Swaps(g, e)
  {
    hide Fits, Threshold, Dropped;
  }

  /** After a hold, until a piece is placed, nothing changes what falls and what is held. */
  lemma {:induction false} OneHoldPerPiece(g: Game, es: seq<Event>)
    requires WellFormedRun(es) && g.hasHeld
    ensures Run(g, es).piecesPlaced >= g.piecesPlaced
    ensures Run(g, es).piecesPlaced == g.piecesPlaced ==> SameTypes(g, Run(g, es)) && Run(g, es).hasHeld
  {
    hide Step, TickOf, Bag.Dealt;
    if es != [] {
      var n := |es| - 1;
      assert es[n] in es;
      assert forall f | f in es[..n] :: f in es;
      OneHoldPerPiece(g, es[..n]);
      StepTypes(Run(g, es[..n]), es[n]);
      TicksAreNoHolds(Run(g, es[..n]), es[n]);
    }
  }

  // ----- Streaks -----

  /** Locks in a row that completed rows. */
  ghost function Streak(g: Game, es: seq<Event>): nat
    requires WellFormedRun(es)
  {
    if es == [] then 0
    else
      var n := |es| - 1;
      var before, after := Run(g, es[..n]), Run(g, es);
      if after.piecesPlaced == before.piecesPlaced then Streak(g, es[..n])
      else if after.linesCleared > before.linesCleared then Streak(g, es[..n]) + 1
      else 0
  }

  /** The last lock that completed rows was a T-spin or completed four. */
  ghost predicate LastWasDifficult(g: Game, es: seq<Event>)
    requires WellFormedRun(es)
  {
    if es == [] then false
    else
      var n := |es| - 1;
      var before, after := Run(g, es[..n]), Run(g, es);
      if after.linesCleared == before.linesCleared then LastWasDifficult(g, es[..n])
      else after.tSpins > before.tSpins || after.linesCleared == before.linesCleared + 4
  }

  /** Locks that completed four rows. */
  ghost function FourRowLocks(g: Game, es: seq<Event>): nat
    requires WellFormedRun(es)
  {
    if es == [] then 0
    else
      var n := |es| - 1;
      FourRowLocks(g, es[..n])
      + if Run(g, es).linesCleared == Run(g, es[..n]).linesCleared + 4 then 1 else 0
  }

  ghost predicate SameStreak(g: Game, s: Game) {
    && s.piecesPlaced == g.piecesPlaced && s.linesCleared == g.linesCleared && s.tSpins == g.tSpins
    && s.tetrises == g.tetrises && s.combo == g.combo && s.b2b == g.b2b
  }

  lemma QuietActStreak(g: Game, a: Action, rolls: Rolls)
    requires WellFormedAction(a) && !a.HardDrop?
    ensures SameStreak(g, Acted(g, a, rolls))
  {
    hide FitsAt, NextTarget, SeatOf, CanRotate, Rotated, Bag.Dealt;
  }

  lemma QuietStreak(g: Game, e: Event)
    requires WellFormed(e) && !Locks(TickOf(g, e))
    ensures SameStreak(g, Step(g, e))
  {
    hide Fits, LockedDown, Threshold, Dropped;
    if e.Act? && !e.action.HardDrop? {
      hide Acted;
      QuietActStreak(g, e.action, e.rolls);
    } else if e.Act? {
      DroppedFacts(g);
    }
  }

  lemma LockStreak(g: Game, rolls: Rolls)
    ensures var s := LockedDown(g, rolls);
            && s.piecesPlaced == g.piecesPlaced + 1 && s.linesCleared == g.linesCleared + Completed(g)
            && s.tSpins == g.tSpins + (if IsTSpin(g) then 1 else 0)
            && s.tetrises == g.tetrises + (if Completed(g) == 4 then 1 else 0)
            && s.combo == (if Completed(g) == 0 then -1 else g.combo + 1)
            && s.b2b == if Completed(g) == 0 then g.b2b else IsTSpin(g) || Completed(g) == 4
  {
    hide Fits, SettledBoard, Attack, Cancelled, RowsTaken, Completed, IsTSpin, Bag.Dealt;
  }

  lemma TickKeepsStreak(g: Game, e: Event)
    requires TickOf(g, e).TickAt?
    ensures SameStreak(g, TickOf(g, e).game)
  {
    hide Fits, Threshold;
    DroppedFacts(g);
  }

  /** In every game the combo counter is one less than the number of locks in a row that
      completed rows, the back-to-back flag says whether the last lock that did so was a T-spin
      or completed four, and four rows at once are counted. */
  lemma {:induction false} ComboIsTheStreak(d: Deal, es: seq<Event>)
    requires WellFormedRun(es)
    ensures Run(StartOf(d), es).combo == Streak(StartOf(d), es) - 1
    ensures Run(StartOf(d), es).b2b == LastWasDifficult(StartOf(d), es)
    ensures Run(StartOf(d), es).tetrises == FourRowLocks(StartOf(d), es)
  {
    hide StartOf, Step, TickOf, Completed, IsTSpin, LockedDown;
    var start := StartOf(d);
    if es == [] {
      NoStreak(d);
    } else {
      var n := |es| - 1;
      var g, e := Run(start, es[..n]), es[n];
      assert es[n] in es;
      assert forall f | f in es[..n] :: f in es;
      ComboIsTheStreak(d, es[..n]);
      if Locks(TickOf(g, e)) {
        LockStep(g, e);
        LockStreak(TickOf(g, e).game, RollsOf(e));
        TickKeepsStreak(g, e);
      } else {
        QuietStreak(g, e);
      }
    }
  }

  lemma NoStreak(d: Deal)
    ensures StartOf(d).combo == -1 && !StartOf(d).b2b && StartOf(d).tetrises == 0
  {
    hide Bag.Dealt, Bag.NewBag;
  }

  /** The attack table in full: without rows no attack; a T-spin is worth two per row; else two
      rows are worth one line, three are worth three and four are worth four; one more for a
      T-spin or four rows after another; and a bonus that grows with the streak up to five. */
  lemma DamageTable(combo: int, b2b: bool, n: nat, tSpin: bool)
    requires combo >= -1 && n <= 4
    ensures Damage(combo, b2b, 0, tSpin) == 0
    ensures n > 0 ==>
              Damage(combo, b2b, n, tSpin) ==
              (if tSpin then 2 * n else if n == 4 then 4 else if n == 3 then 3 else n - 1)
              + (if b2b && (tSpin || n == 4) then 1 else 0)
              + (if combo + 1 < 8 then (combo + 1) / 2 else if combo + 1 < 11 then 4 else 5)
  {
    ComboTable(combo + 1);
  }

  lemma ComboTable(k: nat)
    ensures ComboBonus(k) == if k < 8 then k / 2 else if k < 11 then 4 else 5
  {
    var table := [0, 0, 1, 1, 2, 2, 3, 3, 4, 4, 4, 5];
    assert k < 8 ==> table[k] == k / 2;
  }

  /** A lock that completes rows takes in no garbage: its attack is first set against what is
      pending, and only what is left over is sent. A lock that completes none takes in all
      that is pending, as that many rows, and sends nothing. */
  lemma LockAnswersGarbage(g: Game, rolls: Rolls)
    requires g.pending <= HEIGHT
    ensures var s, a := LockedDown(g, rolls), Damage(g.combo, g.b2b, Completed(g), IsTSpin(g));
            if Completed(g) > 0 then
              && s.board == ClearedBoard(g)
              && s.pending == (if a < g.pending then g.pending - a else 0)
              && s.outgoing == if a > g.pending then a - g.pending else 0
            else
              && s.pending == 0 && s.outgoing == 0
              && forall c: Pos | OnBoard(c) && c.1 < HEIGHT - g.pending ::
                s.board[c.1][c.0] == LockedBoard(g)[c.1 + g.pending][c.0]
  {
    hide Locked, FullCount, Bag.Dealt, IsTSpin, Fits, BaseGarbage, ComboBonus, Difficult, Raised, Cleared;
    SettledBoardFacts(g, rolls.holes);
    NothingCleared(LockedBoard(g));
    if Completed(g) == 0 {
      forall c: Pos | OnBoard(c) && c.1 < HEIGHT - g.pending
        ensures SettledBoard(g, rolls.holes)[c.1][c.0] == LockedBoard(g)[c.1 + g.pending][c.0]
      {
        RaisedAt(ClearedBoard(g), g.pending, rolls.holes, c);
      }
    }
  }

  // ----- The corner test -----

  /** The cell of a T that all its others are next to. */
  function TMiddle(rot: Rotation): (c: (int, int)) {
    match rot
    case 0 => (1, 2)
    case 1 => (1, 1)
    case 2 => (2, 1)
    case _ => (2, 2)
  }

  predicate NextTo(c: (int, int), d: (int, int)) {
    (c.0 == d.0 && (c.1 == d.1 + 1 || d.1 == c.1 + 1)) || (c.1 == d.1 && (c.0 == d.0 + 1 || d.0 == c.0 + 1))
  }

  lemma MiddleOfT(rot: Rotation)
    ensures Cell(3, rot, 2) == TMiddle(rot)
    ensures forall k | 0 <= k < 4 && k != 2 :: NextTo(Cell(3, rot, k), TMiddle(rot))
  {}

  /** Three corners around the middle of a T in its box at (x, y). */
  predicate ThreeCorners(b: Playfield, rot: Rotation, x: int, y: int) {
    CornerCount(b, x + TMiddle(rot).0, y + TMiddle(rot).1) >= 3
  }

  /** Four filled cells around a T's middle on an otherwise empty board. */
  function AroundMiddle(rot: Rotation, x: int, y: int): seq<Pos> {
    var mx, my := x + TMiddle(rot).0, y + TMiddle(rot).1;
    [(mx - 1, my - 1), (mx + 1, my - 1), (mx - 1, my + 1), (mx + 1, my + 1)]
  }

  lemma AroundMiddleIs(rot: Rotation, x: int, y: int, c: Pos)
    requires OnBoard(c)
    ensures Stamped(Empties(HEIGHT, WIDTH), AroundMiddle(rot, x, y), 8)[c.1][c.0] != 0 <==>
            c in AroundMiddle(rot, x, y)
  {
    StampedAt(Empties(HEIGHT, WIDTH), AroundMiddle(rot, x, y), 8, c);
    assert Empties(HEIGHT, WIDTH)[c.1][c.0] == 0;
  }

  /** The test looks around the box position (1, 1), which is the middle of a T only after one
      clockwise turn: then a T that has just turned spins iff three corners around its middle
      are blocked, on every board; in any other rotation there is a board on which all four
      are and the test says no. */
  lemma CornerTestIsOffCentre(g: Game)
    requires g.current.t == 3 && g.lastRotation
    ensures g.current.rot == 1 ==> (IsTSpin(g) <==> ThreeCorners(g.board, g.current.rot, g.current.x, g.current.y))
    ensures g.current.rot != 1 && 0 <= g.current.x <= 6 && 0 <= g.current.y <= 16 ==>
              exists b: Playfield ::
                ThreeCorners(b, g.current.rot, g.current.x, g.current.y) && !IsTSpin(g.(board := b))
  {
    var p := g.current;
    if p.rot != 1 && 0 <= p.x <= 6 && 0 <= p.y <= 16 {
      var b := Stamped(Empties(HEIGHT, WIDTH), AroundMiddle(p.rot, p.x, p.y), 8);
      hide Stamped;
      forall c: Pos | OnBoard(c) ensures b[c.1][c.0] != 0 <==> c in AroundMiddle(p.rot, p.x, p.y) {
        AroundMiddleIs(p.rot, p.x, p.y, c);
      }
      BlockedCorners(b, p.rot, p.x, p.y);
      assert !IsTSpin(g.(board := b));
    }
  }

  lemma BlockedCorners(b: Playfield, rot: Rotation, x: int, y: int)
    requires rot != 1 && 0 <= x <= 6 && 0 <= y <= 16
    requires forall c: Pos | OnBoard(c) :: b[c.1][c.0] != 0 <==> c in AroundMiddle(rot, x, y)
    ensures ThreeCorners(b, rot, x, y) && CornerCount(b, x + 1, y + 1) == 0
  {
    forall c: Pos | OnBoard(c) ensures Blocked(b, c.0, c.1) <==> c in AroundMiddle(rot, x, y) {}
    var at := AroundMiddle(rot, x, y);
    forall k | 0 <= k < 4 ensures OnBoard(at[k]) && Blocked(b, at[k].0, at[k].1) {
      assert at[k] in at;
    }
    hide Blocked;
    forall c: Pos | c in [(x, y), (x + 2, y), (x, y + 2), (x + 2, y + 2)] ensures OnBoard(c) && c !in at {}
    assert !Blocked(b, x, y) && !Blocked(b, x + 2, y) && !Blocked(b, x, y + 2) && !Blocked(b, x + 2, y + 2);
  }

  // ----- The falling piece -----

  function PieceCells(p: Piece): (c: seq<Pos>)
    ensures |c| == 4
  {
    Cells(p.t, p.rot, p.x, p.y)
  }

  /** Every cell one step on is free. */
  ghost predicate FreeAt(g: Game, dx: int, dy: int) {
    forall k | 0 <= k < 4 :: Free(g.board, (PieceCells(g.current)[k].0 + dx, PieceCells(g.current)[k].1 + dy))
  }

  ghost predicate MovedBy(g: Game, s: Game, dx: int, dy: int) {
    && s.board == g.board && s.current.t == g.current.t && s.current.rot == g.current.rot
    && forall k | 0 <= k < 4 ::
      PieceCells(s.current)[k] == (PieceCells(g.current)[k].0 + dx, PieceCells(g.current)[k].1 + dy)
  }

  lemma FitsIsFree(g: Game, dx: int, dy: int)
    ensures FitsAt(g, g.current.x + dx, g.current.y + dy) <==> FreeAt(g, dx, dy)
    ensures MovedBy(g, MovedTo(g, g.current.x + dx, g.current.y + dy), dx, dy)
  {
    hide Cell, Free;
    var c := Cells(g.current.t, g.current.rot, g.current.x + dx, g.current.y + dy);
    forall k | 0 <= k < 4
      ensures c[k] == (PieceCells(g.current)[k].0 + dx, PieceCells(g.current)[k].1 + dy) && c[k] in c
    {}
  }

  /** Left, right and soft drop move every cell one column left, right, or one row down if all
      those cells are free, and otherwise change nothing at all. */
  lemma MovesByOne(g: Game, rolls: Rolls)
    requires !g.gameOver
    ensures var s := Step(g, Act(MoveLeft, rolls)); if FreeAt(g, -1, 0) then MovedBy(g, s, -1, 0) else s == g
    ensures var s := Step(g, Act(MoveRight, rolls)); if FreeAt(g, 1, 0) then MovedBy(g, s, 1, 0) else s == g
    ensures var s := Step(g, Act(SoftDrop, rolls)); if FreeAt(g, 0, 1) then MovedBy(g, s, 0, 1) else s == g
  {
    hide FitsAt, FreeAt, PieceCells;
    FitsIsFree(g, -1, 0);
    FitsIsFree(g, 1, 0);
    FitsIsFree(g, 0, 1);
  }

  /** Position `d` is `c` after a quarter turn clockwise in the 4x4 box at (x, y): the row
      becomes the column, counted from the right. */
  predicate QuarterTurn(x: int, y: int, c: Pos, d: Pos) {
    d.0 - x == 3 - (c.1 - y) && d.1 - y == c.0 - x
  }

  ghost predicate TurnedClockwise(g: Game, s: Game) {
    && s.board == g.board && s.current.t == g.current.t
    && forall k | 0 <= k < 4 ::
      QuarterTurn(g.current.x, g.current.y, PieceCells(g.current)[k], PieceCells(s.current)[k])
  }

  lemma NextRotationTurns(t: PieceType, r: Rotation, k: nat)
    requires k < 4
    ensures Cell(t, (r + 1) % 4, k) == Turn(Cell(t, r, k))
  {
    hide BaseCell;
    CellInBox(t, r, k);
    assert Turn(Turn(Turn(Turn(BaseCell(t, k))))) == BaseCell(t, k);
  }

  /** Every cell of the piece, turned clockwise where it is, is free. */
  ghost predicate FreeTurned(g: Game) {
    forall k, d | 0 <= k < 4 && QuarterTurn(g.current.x, g.current.y, PieceCells(g.current)[k], d) :: Free(g.board, d)
  }

  /** Every cell of the piece, turned counter-clockwise where it is, is free. */
  ghost predicate FreeTurnedBack(g: Game) {
    forall k, d | 0 <= k < 4 && QuarterTurn(g.current.x, g.current.y, d, PieceCells(g.current)[k]) :: Free(g.board, d)
  }

  lemma UnkickedTurns(g: Game)
    ensures var s := g.(current := g.current.(rot := (g.current.rot + 1) % 4));
            TurnedClockwise(g, s) && (FreeTurned(g) <==> PieceFits(s.board, s.current))
  {
    hide Cell, Free;
    var p := g.current;
    var s := g.(current := p.(rot := (p.rot + 1) % 4));
    forall k | 0 <= k < 4 ensures QuarterTurn(p.x, p.y, PieceCells(g.current)[k], PieceCells(s.current)[k])
        && PieceCells(s.current)[k] in PieceCells(s.current) {
      NextRotationTurns(p.t, p.rot, k);
    }
    forall k, d | 0 <= k < 4 && QuarterTurn(p.x, p.y, PieceCells(p)[k], d) ensures d == PieceCells(s.current)[k] {}
    if FreeTurned(g) {
      forall c | c in PieceCells(s.current) ensures Free(g.board, c) {
        var k :| 0 <= k < 4 && PieceCells(s.current)[k] == c;
        assert QuarterTurn(p.x, p.y, PieceCells(p)[k], c);
      }
    }
  }

  lemma UnkickedTurnsBack(g: Game)
    ensures var s := g.(current := g.current.(rot := (g.current.rot + 3) % 4));
            TurnedClockwise(s, g) && (FreeTurnedBack(g) <==> PieceFits(s.board, s.current))
  {
    hide Cell, Free;
    var p := g.current;
    var s := g.(current := p.(rot := (p.rot + 3) % 4));
    assert (s.current.rot + 1) % 4 == p.rot;
    forall k | 0 <= k < 4 ensures QuarterTurn(p.x, p.y, PieceCells(s.current)[k], PieceCells(g.current)[k])
        && PieceCells(s.current)[k] in PieceCells(s.current) {
      NextRotationTurns(p.t, s.current.rot, k);
    }
    forall k, d | 0 <= k < 4 && QuarterTurn(p.x, p.y, d, PieceCells(p)[k]) ensures d == PieceCells(s.current)[k] {}
    if FreeTurnedBack(g) {
      forall c | c in PieceCells(s.current) ensures Free(g.board, c) {
        var k :| 0 <= k < 4 && PieceCells(s.current)[k] == c;
        assert QuarterTurn(p.x, p.y, c, PieceCells(p)[k]);
      }
    }
  }

  lemma FreeTurnIsTaken(g: Game, next: Rotation)
    requires PieceFits(g.board, g.current.(rot := next))
    ensures TurnedTo(g, next).current == g.current.(rot := next)
  {
    hide PieceFits, Kick;
    StayFirst(g.current.t, g.current.rot, next);
    assert Kicked(g.current, next, 0) == g.current.(rot := next);
    NoKick(g.board, g.current, next);
    FirstKickAtMost(g.board, g.current, next, 0, 0);
  }

  /** Where the cells turned in place are free, the clockwise action turns every cell clockwise
      in the piece's box and the counter-clockwise action turns every cell back. */
  lemma TurnsEveryCell(g: Game, rolls: Rolls)
    requires !g.gameOver
    ensures FreeTurned(g) ==> TurnedClockwise(g, Step(g, Act(RotateCw, rolls)))
    ensures FreeTurnedBack(g) ==>
              var s := Step(g, Act(RotateCcw, rolls));
              TurnedClockwise(s, g) && s.current.x == g.current.x && s.current.y == g.current.y
  {
    hide PieceFits, FreeTurned, FreeTurnedBack, PieceCells, CanRotate, Rotated;
    UnkickedTurns(g);
    UnkickedTurnsBack(g);
    if FreeTurned(g) {
      FreeTurnIsTaken(g, (g.current.rot + 1) % 4);
    }
    if FreeTurnedBack(g) {
      FreeTurnIsTaken(g, (g.current.rot + 3) % 4);
    }
  }

  /** Each rotation undoes the other where both the piece and its turned cells have room. */
  lemma TurningBack(g: Game, rolls: Rolls, rolls': Rolls)
    requires !g.gameOver && PieceFits(g.board, g.current)
    ensures FreeTurned(g) ==> Step(Step(g, Act(RotateCw, rolls)), Act(RotateCcw, rolls')).current == g.current
    ensures FreeTurnedBack(g) ==> Step(Step(g, Act(RotateCcw, rolls)), Act(RotateCw, rolls')).current == g.current
  {
    hide PieceFits, FreeTurned, FreeTurnedBack, PieceCells, CanRotate, Rotated;
    var p := g.current;
    UnkickedTurns(g);
    UnkickedTurnsBack(g);
    if FreeTurned(g) {
      var s := Step(g, Act(RotateCw, rolls));
      FreeTurnIsTaken(g, (p.rot + 1) % 4);
      assert s.current.(rot := (s.current.rot + 3) % 4) == p;
      FreeTurnIsTaken(s, (s.current.rot + 3) % 4);
    }
    if FreeTurnedBack(g) {
      var s := Step(g, Act(RotateCcw, rolls));
      FreeTurnIsTaken(g, (p.rot + 3) % 4);
      assert s.current.(rot := (s.current.rot + 1) % 4) == p;
      FreeTurnIsTaken(s, (s.current.rot + 1) % 4);
    }
  }

  // ----- Hard drop -----

  /** The piece can fall by `n` rows, through free cells only, and no further. */
  ghost predicate FallsBy(g: Game, n: nat) {
    (forall j | 1 <= j <= n :: FreeAt(g, 0, j)) && !FreeAt(g, 0, n + 1)
  }

  /** The board with the piece's type in its cells `n` rows below. */
  ghost predicate Landed(g: Game, n: nat, b: Playfield) {
    forall c: Pos | OnBoard(c) ::
      b[c.1][c.0] == if (c.0, c.1 - n) in PieceCells(g.current) then g.current.t else g.board[c.1][c.0]
  }

  lemma {:induction false} DropsBy(g: Game, n: nat)
    requires FallsBy(g, n)
    ensures Dropped(g) == MovedTo(g, g.current.x, g.current.y + n)
    decreases n
  {
    hide FreeAt;
    FitsIsFree(g, 0, 1);
    if n > 0 {
      var h := MovedTo(g, g.current.x, g.current.y + 1);
      FallsOneLess(g, h, n);
      DropsBy(h, n - 1);
    }
  }

  lemma FallsOneLess(g: Game, h: Game, n: nat)
    requires n > 0 && FallsBy(g, n) && h == MovedTo(g, g.current.x, g.current.y + 1)
    ensures FallsBy(h, n - 1)
  {
    hide FreeAt;
    forall j: int ensures FreeAt(h, 0, j) == FreeAt(g, 0, j + 1) {
      OneRowOn(g, h, j);
    }
  }

  lemma OneRowOn(g: Game, h: Game, j: int)
    requires h == MovedTo(g, g.current.x, g.current.y + 1)
    ensures FreeAt(h, 0, j) == FreeAt(g, 0, j + 1)
  {
    hide Cell, Free;
    forall k | 0 <= k < 4
      ensures (PieceCells(h.current)[k].0 + 0, PieceCells(h.current)[k].1 + j)
           == (PieceCells(g.current)[k].0 + 0, PieceCells(g.current)[k].1 + (j + 1))
    {}
  }

  /** The piece always falls by some number of rows. */
  lemma {:induction false} FallsSomewhere(g: Game) returns (n: nat)
    ensures FallsBy(g, n)
    decreases HEIGHT - g.current.y
  {
    hide FreeAt;
    FitsIsFree(g, 0, 1);
    if Resting(g) {
      n := 0;
    } else {
      var h := MovedTo(g, g.current.x, g.current.y + 1);
      FittingPieceAboveFloor(g.board, g.current.t, g.current.rot, g.current.x, g.current.y + 1);
      var m := FallsSomewhere(h);
      n := m + 1;
      forall j: int ensures FreeAt(h, 0, j) == FreeAt(g, 0, j + 1) {
        OneRowOn(g, h, j);
      }
      forall j | 1 <= j <= n ensures FreeAt(g, 0, j) {
        assert j > 1 ==> FreeAt(h, 0, j - 1);
        assert j == 1 ==> FreeAt(h, 0, 0);
      }
      assert FreeAt(g, 0, n + 1) == FreeAt(h, 0, m + 1);
    }
  }

  lemma LockedHasLanded(g: Game, n: nat)
    ensures Landed(g, n, LockedBoard(MovedTo(g, g.current.x, g.current.y + n)))
  {
    hide Cell;
    var h := MovedTo(g, g.current.x, g.current.y + n);
    var cs := PieceCells(h.current);
    forall c: Pos | OnBoard(c) ensures c in cs <==> (c.0, c.1 - n) in PieceCells(g.current) {
      InShifted(g, n, c);
    }
    forall c: Pos | OnBoard(c)
      ensures LockedBoard(h)[c.1][c.0] == if c in cs then g.current.t else g.board[c.1][c.0]
    {
      StampedAt(h.board, cs, h.current.t, c);
    }
  }

  lemma InShifted(g: Game, n: nat, c: Pos)
    ensures c in PieceCells(MovedTo(g, g.current.x, g.current.y + n).current)
            <==> (c.0, c.1 - n) in PieceCells(g.current)
  {
    hide Cell;
    var a, b := PieceCells(g.current), PieceCells(MovedTo(g, g.current.x, g.current.y + n).current);
    forall k | 0 <= k < 4 ensures b[k] == (a[k].0, a[k].1 + n) {}
    if c in b {
      var k :| 0 <= k < 4 && b[k] == c;
      assert a[k] == (c.0, c.1 - n);
    }
    if (c.0, c.1 - n) in a {
      var k :| 0 <= k < 4 && a[k] == (c.0, c.1 - n);
      assert b[k] == c;
    }
  }

  /** A hard drop takes the piece down through free cells as far as it goes, for exactly one
      number of rows. Above the top edge the game ends; otherwise the piece's type is written
      into its cells there and nowhere else, the rows completed count, and without completed
      rows and pending garbage that is the new board. */
  lemma HardDropLands(g: Game, rolls: Rolls)
    requires !g.gameOver && g.pending <= HEIGHT
    ensures exists n: nat :: FallsBy(g, n)
    ensures forall n: nat | FallsBy(g, n) ::
      var s := Step(g, Act(HardDrop, rolls));
      if g.current.y + n < 0 then s.gameOver && s.board == g.board && s.piecesPlaced == g.piecesPlaced
      else
        && s.piecesPlaced == g.piecesPlaced + 1
        && exists b: Playfield ::
          Landed(g, n, b) && s.linesCleared == g.linesCleared + FullCount(b)
          && (FullCount(b) == 0 && g.pending == 0 ==> s.board == b)
  {
    hide FreeAt, Landed, FitsAt, LockedDown;
    var m := FallsSomewhere(g);
    forall n: nat | FallsBy(g, n)
      ensures var s, h := Step(g, Act(HardDrop, rolls)), MovedTo(g, g.current.x, g.current.y + n);
              if h.current.y < 0 then s.gameOver && s.board == g.board && s.piecesPlaced == g.piecesPlaced
              else
                && s.piecesPlaced == g.piecesPlaced + 1 && Landed(g, n, LockedBoard(h))
                && s.linesCleared == g.linesCleared + FullCount(LockedBoard(h))
                && (FullCount(LockedBoard(h)) == 0 && g.pending == 0 ==> s.board == LockedBoard(h))
    {
      var h := MovedTo(g, g.current.x, g.current.y + n);
      DropsBy(g, n);
      DroppedFacts(g);
      LockedHasLanded(g, n);
      LandedBoard(h, rolls);
    }
  }

  lemma LandedBoard(g: Game, rolls: Rolls)
    requires g.pending <= HEIGHT
    ensures var s := LockedDown(g, rolls);
            && s.piecesPlaced == g.piecesPlaced + 1 && s.linesCleared == g.linesCleared + FullCount(LockedBoard(g))
            && (FullCount(LockedBoard(g)) == 0 && g.pending == 0 ==> s.board == LockedBoard(g))
  {
    hide Locked, FullCount, Bag.Dealt, IsTSpin, Damage, Fits, Raised;
    NothingCleared(LockedBoard(g));
  }

  lemma NothingCleared(b: Playfield)
    ensures FullCount(b) == 0 ==> Cleared(b, WIDTH) == b
  {
    if FullCount(b) == 0 {
      AllSurvive(b);
      assert Empties(0, WIDTH) == [];
    }
  }

  lemma {:induction false} AllSurvive(b: Grid)
    requires FullCount(b) == 0
    ensures Survivors(b) == b
  {
    if b != [] {
      var n := |b| - 1;
      AllSurvive(b[..n]);
      assert b == b[..n] + [b[n]];
    }
  }

  // ----- Targets -----

  /** The seat `k` seats after `from`, going round a table of `n`. */
  function Around(from: int, k: int, n: nat): (i: int)
    requires n > 0
    ensures 0 <= i < n
  {
    (from + k + n) % n
  }

  lemma OneSeatOn(r: Roster, self: nat, from: int, step: nat)
    requires |r.ids| == |r.eliminated| && -1 <= from < |r.ids| && 1 <= step <= |r.ids|
    ensures var i := Around(from, step, |r.ids|);
            NextTarget(r, self, from, step)
                == if Targetable(r, self, i) then i else NextTarget(r, self, from, step + 1)
  {
    hide Targetable;
  }

  /** Cycling goes round the seats after the old target, in order, and takes the first living
      opponent: everybody skipped is dead or the player itself. */
  lemma {:induction false} EverybodySkippedIsOut(r: Roster, self: nat, from: int, step: nat)
    requires |r.ids| == |r.eliminated| && -1 <= from < |r.ids| && 1 <= step <= |r.ids|
    ensures var i, n := NextTarget(r, self, from, step), |r.ids|;
            if i == -1 then
              forall k | step <= k <= n :: var j := Around(from, k, n); r.ids[j] == self || r.eliminated[j]
            else
              exists k :: step <= k <= n && i == Around(from, k, n) && r.ids[i] != self && !r.eliminated[i]
                          && forall l | step <= l < k ::
                            var j := Around(from, l, n); r.ids[j] == self || r.eliminated[j]
    decreases |r.ids| - step
  {
    var n := |r.ids|;
    OneSeatOn(r, self, from, step);
    if !Targetable(r, self, Around(from, step, n)) {
      if step < n {
        EverybodySkippedIsOut(r, self, from, step + 1);
      }
      hide Around;
    } else {
      assert NextTarget(r, self, from, step) == Around(from, step, n);
    }
  }
}
