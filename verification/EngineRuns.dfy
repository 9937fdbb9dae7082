/** What holds of a game in every run: any player actions, idle ticks, incoming garbage,
    consumed attacks and random results, in any order, from the start of a game. */
module EngineRuns {
  import opened Tetromino
  import opened Board
  import opened Bag
  import opened Kicks
  import opened Engine

  /** Everything that can happen to a player's game. */
  datatype Event =
    | Act(action: Action, rolls: Rolls)
    | Idle(rolls: Rolls)
    | Receive(lines: int, attacker: nat)
    | Consume
    | Finish(winner: nat)

  ghost predicate WellFormed(e: Event) {
    e.Act? ==> WellFormedAction(e.action)
  }

  ghost function Step(g: Game, e: Event): Game
    requires WellFormed(e)
  {
    match e
    case Act(a, rolls) => Acted(g, a, rolls)
    case Idle(rolls) => if g.gameOver then g else Timed(g, rolls)
    case Receive(lines, attacker) => if g.gameOver then g else Queued(g, lines).(lastAttacker := attacker)
    case Consume => g.(outgoing := 0)
    case Finish(w) => g.(gameOver := true, winner := w)
  }

  ghost predicate WellFormedRun(es: seq<Event>) {
    forall e | e in es :: WellFormed(e)
  }

  // ----- The invariant -----

  /** All four cells lie between the walls and above the floor. */
  ghost predicate InBounds(p: Piece) {
    forall c | c in Cells(p.t, p.rot, p.x, p.y) :: 0 <= c.0 < WIDTH && c.1 < HEIGHT
  }

  predicate AtSpawn(p: Piece) {
    p.rot == 0 && p.x == SPAWN_X && p.y == SPAWN_Y
  }

  ghost predicate PieceOk(g: Game) {
    && InBounds(g.current)
    && (PieceFits(g.board, g.current) || g.gameOver || (AtSpawn(g.current) && g.hasHeld))
  }

  ghost predicate TimersOk(g: Game) {
    && 0 <= g.lockTimer < LOCK_START
    && 0 <= g.gravityTimer < Threshold(g.level)
    && g.level == g.linesCleared / 10 + 1
  }

  ghost predicate CountersOk(g: Game) {
    && g.score == 100 * g.linesCleared
    && g.combo >= -1
    && g.pending <= HEIGHT
    && g.outgoing <= 12
    && 4 * g.tetrises <= g.linesCleared
    && g.linesCleared <= 4 * g.piecesPlaced
    && g.tSpins <= g.piecesPlaced
  }

  ghost predicate Inv(g: Game) {
    && PieceOk(g) && NoFullRow(g.board) && SmallCells(g.board) && TimersOk(g) && CountersOk(g) && Stocked(g.bag)
    && NotTooHigh(g.current)
  }

  /** Kicks can lift a piece above its spawn place, but not without end. */
  predicate NotTooHigh(p: Piece) {
    p.y >= SPAWN_Y - 3
  }

  // ----- Pieces -----

  lemma FitsInBounds(g: Playfield, p: Piece)
    requires PieceFits(g, p)
    ensures InBounds(p)
  {
    forall c | c in Cells(p.t, p.rot, p.x, p.y) ensures 0 <= c.0 < WIDTH && c.1 < HEIGHT {
      assert Free(g, c);
    }
  }

  lemma SpawnInBounds(t: PieceType)
    ensures InBounds(Piece(t, 0, SPAWN_X, SPAWN_Y))
  {
    CellsAreDistinctAndBelow(t, 0, SPAWN_X, SPAWN_Y);
  }

  /** A piece that reaches the lock overlaps nothing. */
  lemma LockingPieceFits(g: Game)
    requires PieceOk(g) && !g.gameOver && g.current.y >= 0
    ensures PieceFits(g.board, g.current)
  {}

  lemma {:induction false} DroppedFacts(g: Game)
    ensures var d := Dropped(g);
            && d == MovedTo(g, g.current.x, d.current.y)
            && Resting(d) && g.current.y <= d.current.y
            && (d == g || PieceFits(d.board, d.current))
    decreases HEIGHT - g.current.y
  {
    if !Resting(g) {
      var h := MovedTo(g, g.current.x, g.current.y + 1);
      FittingPieceAboveFloor(g.board, g.current.t, g.current.rot, g.current.x, g.current.y + 1);
      DroppedFacts(h);
      assert PieceFits(h.board, h.current);
    }
  }

  lemma DroppedKeepsInv(g: Game)
    requires Inv(g)
    ensures Inv(Dropped(g))
  {
    DroppedFacts(g);
    var d := Dropped(g);
    if d != g {
      FitsInBounds(d.board, d.current);
    }
  }

  // ----- Locking -----

  /** One lock clears at most four rows, at most three with a T, and generates at most
      twelve lines of garbage. */
  lemma LockYield(g: Game)
    requires NoFullRow(g.board) && g.combo >= -1
    ensures Completed(g) <= if g.current.t == 3 then 3 else 4
    ensures Attack(g) <= 12
  {
    LockFillsFewRows(g.board, g.current.t, g.current.rot, g.current.x, g.current.y);
  }

  /** What one lock does to the attack meters: everything generated is either cancelled
      against pending garbage or sent; pending garbage is cancelled, taken in or kept;
      afterwards nothing is both owed and sent. */
  lemma DamageIsConserved(g: Game, rolls: Rolls)
    ensures var r := LockedDown(g, rolls);
            && Attack(g) == Cancelled(g) + r.outgoing
            && g.pending == Cancelled(g) + RowsTaken(g) + r.pending
            && (r.outgoing == 0 || r.pending == 0)
            && (Completed(g) == 0 ==> r.pending == 0 && r.outgoing == 0)
  {
    hide Fits, Locked, Cleared, FullCount, Raised, Dealt, ComboBonus, BaseGarbage, IsTSpin;
  }

  lemma SettledBoardSmall(g: Game, holes: seq<nat>)
    requires g.pending <= HEIGHT && SmallCells(g.board)
    ensures SmallCells(SettledBoard(g, holes))
  {
    hide Cells, FullCount, SmallCells, Raised;
    StampedSmall(g.board, Cells(g.current.t, g.current.rot, g.current.x, g.current.y), g.current.t);
    ClearedSmall(LockedBoard(g), WIDTH);
    RaisedSmall(ClearedBoard(g), RowsTaken(g), holes);
  }

  lemma SettledBoardFacts(g: Game, holes: seq<nat>)
    requires g.pending <= HEIGHT
    ensures SettledBoard(g, holes) == Raised(ClearedBoard(g), RowsTaken(g), holes)
    ensures NoFullRow(SettledBoard(g, holes))
  {
    hide Locked, FullCount, NoFullRow, SmallCells;
    ClearedShape(LockedBoard(g), WIDTH);
    RaisedHasNoFullRow(ClearedBoard(g), RowsTaken(g), holes);
    assert Raised(ClearedBoard(g), 0, holes) == ClearedBoard(g) by {
      assert ClearedBoard(g)[0..] == ClearedBoard(g) && GarbageRows(0, holes) == [];
    }
  }

  lemma LockedDownKeepsInv(g: Game, rolls: Rolls)
    requires Inv(g)
    ensures Inv(LockedDown(g, rolls).(lockTimer := 0, gravityTimer := 0))
  {
    hide Fits, NoFullRow, SmallCells, Damage, IsTSpin, Dealt, Completed, SettledBoard, InBounds, Stocked;
    SettledBoardSmall(g, rolls.holes);
    LockYield(g);
    DamageIsConserved(g, rolls);
    SettledBoardFacts(g, rolls.holes);
    SpawnInBounds(NextPiece(g).t);
    DealtStocked(g.bag, rolls.picks);
  }

  /** A tick either falls one row or, resetting the timers as every caller does, keeps the
      invariant through a lock or the end of the game. */
  lemma TickedKeepsInv(g: Game, rolls: Rolls)
    requires Inv(g) && !g.gameOver
    ensures Inv(Ticked(g, rolls).(lockTimer := 0, gravityTimer := 0))
    ensures !Resting(g) ==> Inv(Ticked(g, rolls))
  {
    hide Fits, InBounds, NoFullRow, SmallCells, Stocked, LockedDown, Threshold;
    if !Resting(g) {
      var m := MovedTo(g, g.current.x, g.current.y + 1);
      assert PieceFits(m.board, m.current);
      FitsInBounds(m.board, m.current);
    } else if g.current.y >= 0 {
      LockedDownKeepsInv(g, rolls);
    }
  }

  lemma TickedIgnoresTimers(g: Game, rolls: Rolls, l: int, v: int)
    ensures Ticked(g.(lockTimer := l, gravityTimer := v), rolls).(lockTimer := 0, gravityTimer := 0)
         == Ticked(g, rolls).(lockTimer := 0, gravityTimer := 0)
  {
    var h := g.(lockTimer := l, gravityTimer := v);
    assert Resting(h) == Resting(g);
    if Resting(g) && g.current.y >= 0 {
      LockedDownIgnoresTimers(g, rolls, l, v);
    }
  }

  lemma LockedDownIgnoresTimers(g: Game, rolls: Rolls, l: int, v: int)
    ensures LockedDown(g.(lockTimer := l, gravityTimer := v), rolls)
        == LockedDown(g, rolls).(lockTimer := l, gravityTimer := v)
  {
    hide Fits, Locked, Cleared, FullCount, Raised, Dealt, ComboBonus, BaseGarbage, CornerCount, Difficult;
    var h := g.(lockTimer := l, gravityTimer := v);
    assert Completed(h) == Completed(g) && ClearedBoard(h) == ClearedBoard(g);
  }

  lemma TimedKeepsInv(g: Game, rolls: Rolls)
    requires Inv(g) && !g.gameOver
    ensures Inv(Timed(g, rolls))
  {
    hide Fits, Locked, Cleared, FullCount, Raised, Dealt, LockedDown, Stocked, InBounds;
    if Resting(g) {
      if g.lockTimer + 1 >= LOCK_START {
        TickedIgnoresTimers(g, rolls, g.lockTimer + 1, g.gravityTimer);
        TickedKeepsInv(g, rolls);
      }
    } else {
      var h := g.(lockTimer := 0);
      TickedKeepsInv(h, rolls);
    }
  }

  /** A kick that lifts a piece has the column of an earlier kick that does not. */
  lemma LiftingKick(t: PieceType, r: Rotation, s: Rotation, k: nat) returns (j: nat)
    requires k < 5 && Kick(t, r, s, k).1 < 0
    ensures j < k && Kick(t, r, s, j) == (Kick(t, r, s, k).0, 0) && Kick(t, r, s, k).1 >= -2
  {
    var trans := TransitionIndex(r, s);
    hide TransitionIndex;
    j := if t == 1 then LiftingI(trans, k) else LiftingJLSTZ(trans, k);
  }

  function LiftingI(trans: nat, k: nat): (j: nat)
    requires trans < 8 && k < 5 && KicksI(trans)[k].1 < 0
    ensures j < k && KicksI(trans)[j] == (KicksI(trans)[k].0, 0) && KicksI(trans)[k].1 >= -2
  {
    match trans
    case 0 => 2
    case 1 => 1
    case 2 => 1
    case 3 => 2
    case 4 => 1
    case 5 => 2
    case 6 => 2
    case _ => 1
  }

  function LiftingJLSTZ(trans: nat, k: nat): (j: nat)
    requires trans < 8 && k < 5 && KicksJLSTZ(trans)[k].1 < 0
    ensures j < k && KicksJLSTZ(trans)[j] == (KicksJLSTZ(trans)[k].0, 0) && KicksJLSTZ(trans)[k].1 >= -2
  {
    if k == 3 then 0 else 1
  }

  /** A piece kept from a place by the board, and not by the walls or the floor, has a cell on
      the board there. */
  lemma BlockedBelowTop(g: Playfield, p: Piece, q: Piece)
    requires PieceFits(g, p) && !PieceFits(g, q) && q == p.(y := q.y) && p.y <= q.y
    ensures q.y >= -3
  {
    hide Cell;
    var cs, ds := Cells(q.t, q.rot, q.x, q.y), Cells(p.t, p.rot, p.x, p.y);
    var k :| 0 <= k < 4 && !Free(g, cs[k]);
    CellInBox(q.t, q.rot, k);
    assert ds[k] in ds && cs[k] == (ds[k].0, ds[k].1 + q.y - p.y);
  }

  lemma RotatedNotTooHigh(g: Playfield, p: Piece, next: Rotation)
    requires CanRotate(g, p, next) && NotTooHigh(p)
    ensures NotTooHigh(Rotated(g, p, next))
  {
    hide PieceFits, Kick;
    var k := FirstKick(g, p, next, 0);
    if Kick(p.t, p.rot, next, k).1 < 0 {
      var j := LiftingKick(p.t, p.rot, next, k);
      BlockedBelowTop(g, Kicked(p, next, k), Kicked(p, next, j));
    }
  }

  lemma TurnedKeepsInv(g: Game, next: Rotation)
    requires Inv(g)
    ensures Inv(TurnedTo(g, next).(lockTimer := 0))
  {
    hide Fits, InBounds, NoFullRow, SmallCells, Stocked;
    if CanRotate(g.board, g.current, next) {
      var p := Rotated(g.board, g.current, next);
      FitsInBounds(g.board, p);
      RotatedNotTooHigh(g.board, g.current, next);
    }
  }

  lemma HeldKeepsInv(g: Game, picks: seq<nat>)
    requires Inv(g) && !g.hasHeld
    ensures Inv(Held(g, picks).(gravityTimer := 0))
  {
    hide Fits, Stocked, InBounds, NoFullRow, SmallCells, Dealt;
    SpawnInBounds(Held(g, picks).current.t);
    DealtStocked(g.bag, picks);
  }

  lemma ShiftedKeepsInv(g: Game, dx: int, dy: nat)
    requires Inv(g)
    ensures Inv(Shifted(g, dx, dy))
  {
    hide Fits, Stocked, InBounds, NoFullRow, SmallCells;
    if FitsAt(g, g.current.x + dx, g.current.y + dy) {
      FitsInBounds(g.board, g.current.(x := g.current.x + dx, y := g.current.y + dy));
    }
  }

  lemma ActedKeepsInv(g: Game, a: Action, rolls: Rolls)
    requires WellFormedAction(a) && Inv(g)
    ensures Inv(Acted(g, a, rolls))
  {
    hide Fits, Stocked, InBounds, NoFullRow, SmallCells, Ticked, Dropped, Held, Shifted, TurnedTo, NextTarget, SeatOf;
    if !g.gameOver {
      match a
      case MoveLeft => ShiftedKeepsInv(g, -1, 0);
      case MoveRight => ShiftedKeepsInv(g, 1, 0);
      case RotateCw => TurnedKeepsInv(g, (g.current.rot + 1) % 4);
      case RotateCcw => TurnedKeepsInv(g, (g.current.rot + 3) % 4);
      case SoftDrop => ShiftedKeepsInv(g, 0, 1);
      case HardDrop =>
        DroppedKeepsInv(g);
        DroppedFacts(g);
        TickedKeepsInv(Dropped(g), rolls);
      case Hold =>
        if !g.hasHeld {
          HeldKeepsInv(g, rolls.picks);
        }
      case _ =>
    }
  }

  /** The end of a game is final. */
  lemma GameOverIsFinal(g: Game, e: Event)
    requires WellFormed(e) && g.gameOver
    ensures Step(g, e).gameOver && Step(g, e).board == g.board
  {}

  /** Every event keeps the invariant. */
  lemma StepKeepsInv(g: Game, e: Event)
    requires WellFormed(e) && Inv(g)
    ensures Inv(Step(g, e))
  {
    hide Fits, Stocked, InBounds, NoFullRow, SmallCells, Acted, Timed;
    match e
    case Act(a, rolls) => ActedKeepsInv(g, a, rolls);
    case Idle(rolls) =>
      if !g.gameOver {
        TimedKeepsInv(g, rolls);
      }
    case _ =>
  }

  lemma StartedInv(picks1: seq<nat>, picks2: seq<nat>, picks3: seq<nat>)
    ensures Inv(Started(picks1, picks2, picks3))
    ensures CellCount(Started(picks1, picks2, picks3).board) == 0
  {
    hide Dealt, Stocked, InBounds, Fits, CellCount;
    var g := Started(picks1, picks2, picks3);
    NewBagStocked(picks1, picks2);
    DealtStocked(NewBag(picks1, picks2), picks3);
    SpawnInBounds(g.current.t);
    EmptyBoardFits(g.current.t);
    CellCountEmpties(HEIGHT, WIDTH);
    forall i | 0 <= i < HEIGHT ensures !Full(g.board[i]) {
      assert g.board[i][0] == 0;
    }
    assert SmallCells(Empties(HEIGHT, WIDTH));
  }

  // ----- Runs and their ledger -----

  /** What a run has done that the game itself does not remember: garbage rows inserted,
      filled cells pushed off the top, and the pieces dealt. */
  datatype Ledger = Ledger(inserted: nat, pushed: nat, drawn: seq<PieceType>)

  /** The game at the moment an event makes the engine tick, if it does. */
  datatype TickPoint = NoTick | TickAt(game: Game)

  ghost function TickOf(g: Game, e: Event): TickPoint {
    if g.gameOver then NoTick
    else
      match e
      case Act(HardDrop, _) => TickAt(Dropped(g))
      case Idle(_) =>
        if (if Resting(g) then g.lockTimer + 1 >= LOCK_START else g.gravityTimer + 1 >= Threshold(g.level))
        then TickAt(g) else NoTick
      case _ => NoTick
  }

  ghost predicate Locks(t: TickPoint) {
    t.TickAt? && Resting(t.game) && t.game.current.y >= 0
  }

  ghost predicate Deals(g: Game, e: Event) {
    Locks(TickOf(g, e)) || (!g.gameOver && e.Act? && e.action.Hold? && !g.hasHeld && g.held == 0)
  }

  ghost function Booked(l: Ledger, g: Game, e: Event): Ledger {
    var t := TickOf(g, e);
    var n := if Locks(t) then Min(RowsTaken(t.game), HEIGHT) else 0;
    Ledger(
      l.inserted + n,
      l.pushed + (if n > 0 then CellCount(ClearedBoard(t.game)[..n]) else 0),
      if Deals(g, e) then l.drawn + [g.bag.slots[g.bag.index]] else l.drawn)
  }

  ghost function Run(g: Game, es: seq<Event>): Game
    requires WellFormedRun(es)
  {
    if es == [] then g else Step(Run(g, es[..|es| - 1]), es[|es| - 1])
  }

  ghost function Books(g: Game, es: seq<Event>): Ledger
    requires WellFormedRun(es)
  {
    if es == [] then Ledger(0, 0, [g.current.t])
    else Booked(Books(g, es[..|es| - 1]), Run(g, es[..|es| - 1]), es[|es| - 1])
  }

  /** Filled cells = 4 per placed piece - 10 per cleared line + 9 per garbage row
      - cells pushed off the top. */
  ghost predicate Balanced(g: Game, l: Ledger) {
    CellCount(g.board) == 4 * g.piecesPlaced - 10 * g.linesCleared + 9 * l.inserted - l.pushed
  }

  lemma NoRowsNoCells(g: Grid)
    ensures CellCount(g[..0]) == 0
  {}

  /** A lock changes the number of filled cells by exactly four, less ten for each row it
      completes, plus what garbage brings and pushes out. */
  lemma LockBalance(g: Game, rolls: Rolls)
    requires Inv(g) && !g.gameOver && Resting(g) && g.current.y >= 0
    ensures var n, r := RowsTaken(g), Ticked(g, rolls);
            && CellCount(r.board) == CellCount(g.board) + 4 - 10 * Completed(g)
                + 9 * n - CellCount(ClearedBoard(g)[..n])
            && r.piecesPlaced == g.piecesPlaced + 1 && r.linesCleared == g.linesCleared + Completed(g)
  {
    hide Fits, Locked, Cleared, FullCount, Raised, CellCount, Dealt, Damage, Difficult, IsTSpin, Stocked, NoFullRow,
        SmallCells;
    LockingPieceFits(g);
    LockFillsFourEmptyCells(g.board, g.current.t, g.current.rot, g.current.x, g.current.y);
    ClearedCount(LockedBoard(g));
    SettledBoardFacts(g, rolls.holes);
    RaisedCount(ClearedBoard(g), RowsTaken(g), rolls.holes);
  }

  ghost predicate SameBoard(g: Game, s: Game) {
    s.board == g.board && s.piecesPlaced == g.piecesPlaced && s.linesCleared == g.linesCleared
  }

  lemma QuietAct(g: Game, e: Event)
    requires WellFormed(e) && !Locks(TickOf(g, e)) && e.Act?
    ensures SameBoard(g, Acted(g, e.action, e.rolls))
  {
    hide Shifted, TurnedTo, Retargeted, Ticked, Dropped, Held, Fits;
    QuietMoves(g, e.rolls.picks);
    match e.action
    case MoveLeft => QuietShift(g, -1, 0);
    case MoveRight => QuietShift(g, 1, 0);
    case SoftDrop => QuietShift(g, 0, 1);
    case HardDrop =>
      DroppedFacts(g);
      if !g.gameOver {
        QuietTick(Dropped(g), e.rolls);
      }
    case CycleTarget(r) => QuietRetarget(g, r);
    case _ =>
  }

  lemma QuietTick(g: Game, rolls: Rolls)
    requires !(Resting(g) && g.current.y >= 0)
    ensures SameBoard(g, Ticked(g, rolls))
  {
    hide Resting, LockedDown;
  }

  lemma QuietShift(g: Game, dx: int, dy: int)
    ensures SameBoard(g, Shifted(g, dx, dy))
  {
    hide FitsAt;
  }

  lemma QuietRetarget(g: Game, r: Roster)
    requires |r.ids| == |r.eliminated|
    ensures SameBoard(g, Retargeted(g, r))
  {
    hide NextTarget, SeatOf;
  }

  lemma QuietMoves(g: Game, picks: seq<nat>)
    ensures SameBoard(g, Held(g, picks)) && forall next: Rotation :: SameBoard(g, TurnedTo(g, next))
  {
    hide Dealt, CanRotate, Rotated;
  }

  /** Outside a lock no event touches board, piece count or line count. */
  lemma QuietStep(g: Game, e: Event)
    requires WellFormed(e) && !Locks(TickOf(g, e))
    ensures SameBoard(g, Step(g, e))
  {
    hide Acted, Fits, LockedDown, Threshold, Dropped;
    if e.Act? {
      QuietAct(g, e);
    }
  }

  lemma LockingStep(g: Game, e: Event)
    requires WellFormed(e) && Locks(TickOf(g, e))
    ensures var s, r := Step(g, e), Ticked(TickOf(g, e).game, e.rolls);
            s.board == r.board && s.piecesPlaced == r.piecesPlaced && s.linesCleared == r.linesCleared
            && s.bag == r.bag && s.current == r.current
  {
    hide Fits, LockedDown, Dropped, Threshold;
    if e.Idle? {
      TickedIgnoresTimers(g, e.rolls, g.lockTimer + 1, g.gravityTimer);
    }
  }

  lemma StepKeepsBalance(g: Game, l: Ledger, e: Event)
    requires WellFormed(e) && Inv(g) && Balanced(g, l)
    ensures Balanced(Step(g, e), Booked(l, g, e))
  {
    hide Fits, Dropped, Step, Ticked, CellCount, ClearedBoard, Completed, Threshold, NoFullRow, SmallCells, Stocked,
        PieceOk;
    var t := TickOf(g, e);
    if Locks(t) {
      if e.Act? {
        DroppedKeepsInv(g);
        DroppedFacts(g);
      }
      LockBalance(t.game, e.rolls);
      LockingStep(g, e);
      NoRowsNoCells(ClearedBoard(t.game));
    } else {
      QuietStep(g, e);
    }
  }

  lemma BagOfMoves(g: Game, a: Action, rolls: Rolls)
    requires WellFormedAction(a) && !a.HardDrop?
    ensures Acted(g, a, rolls).bag ==
            if !g.gameOver && a.Hold? && !g.hasHeld && g.held == 0 then Dealt(g.bag, rolls.picks) else g.bag
  {
    hide FitsAt, Dealt, NextTarget, SeatOf, CanRotate, Rotated;
  }

  function RollsOf(e: Event): Rolls {
    match e
    case Act(_, rolls) => rolls
    case Idle(rolls) => rolls
    case _ => Rolls([], [])
  }

  /** The bag moves on exactly when a piece is dealt. */
  lemma BagOfStep(g: Game, e: Event)
    requires WellFormed(e)
    ensures Step(g, e).bag == if Deals(g, e) then Dealt(g.bag, RollsOf(e).picks) else g.bag
  {
    hide Fits, SettledBoard, Attack, Cancelled, RowsTaken, Completed, IsTSpin, Difficult, Dropped, Dealt, Threshold;
    if Locks(TickOf(g, e)) {
      hide Acted, Timed;
      LockingStep(g, e);
      DroppedFacts(g);
    } else if e.Act? && !e.action.HardDrop? {
      hide Acted;
      BagOfMoves(g, e.action, e.rolls);
    } else if e.Act? {
      DroppedFacts(g);
    }
  }

  /** A piece written into the ledger is the piece that appears at the spawn place. */
  lemma DealtPieceAppears(g: Game, l: Ledger, e: Event)
    requires WellFormed(e)
    ensures Deals(g, e) ==>
              Step(g, e).current == NextPiece(g) && Booked(l, g, e).drawn == l.drawn + [Step(g, e).current.t]
    ensures !Deals(g, e) ==> Booked(l, g, e).drawn == l.drawn
  {
    hide Fits, SettledBoard, Attack, Cancelled, RowsTaken, Completed, IsTSpin, Difficult, Dropped, Dealt, Threshold,
      CellCount, ClearedBoard;
    if Locks(TickOf(g, e)) {
      hide Acted, Timed;
      LockingStep(g, e);
      DroppedFacts(g);
    }
  }

  lemma StepKeepsDealing(g: Game, l: Ledger, e: Event)
    requires WellFormed(e) && Dealing(l.drawn, g.bag)
    ensures Dealing(Booked(l, g, e).drawn, Step(g, e).bag)
  {
    hide Deals, Step, Dealt, Dealing, CellCount;
    BagOfStep(g, e);
    if Deals(g, e) {
      DealtDealing(l.drawn, g.bag, RollsOf(e).picks);
    }
  }

  /** How a player's game begins: the first shuffles, and the seat given by the session. */
  datatype Deal = Deal(picks1: seq<nat>, picks2: seq<nat>, picks3: seq<nat>, playerId: nat, targetId: nat)

  function StartOf(d: Deal): Game {
    Started(d.picks1, d.picks2, d.picks3).(playerId := d.playerId, targetId := d.targetId)
  }

  lemma StartedBooks(d: Deal)
    ensures var g := StartOf(d);
            Balanced(g, Books(g, [])) && Dealing(Books(g, []).drawn, g.bag)
  {
    hide Dealt, Dealing, FreshSet, CellCount, Fits;
    StartedInv(d.picks1, d.picks2, d.picks3);
    NewBagDealing(d.picks1, d.picks2);
    var b := NewBag(d.picks1, d.picks2);
    DealtDealing([], b, d.picks3);
    assert [] + [b.slots[b.index]] == [b.slots[b.index]];
  }

  lemma StartInv(d: Deal)
    ensures Inv(StartOf(d))
  {
    hide Fits, NoFullRow, SmallCells, Stocked, InBounds, Started;
    StartedInv(d.picks1, d.picks2, d.picks3);
  }

  /** In every run from the start of a game: the piece stays between the walls and overlaps
      nothing (unless the game is over or it waits at the spawn point after a hold), no row
      stays full, the timers stay below their thresholds, the counters agree with each
      other, the filled cells balance, and the pieces come in whole sets of seven. */
  lemma {:induction false} EveryRun(d: Deal, es: seq<Event>)
    requires WellFormedRun(es)
    ensures var start := StartOf(d);
            var g, l := Run(start, es), Books(start, es);
            Inv(g) && Balanced(g, l) && Dealing(l.drawn, g.bag)
  {
    hide Inv, Balanced, Dealing, Step, Booked, StartOf;
    var start := StartOf(d);
    if es == [] {
      StartInv(d);
      StartedBooks(d);
    } else {
      var n := |es| - 1;
      var before, e := es[..n], es[n];
      assert forall f | f in before :: f in es;
      assert e in es;
      EveryRun(d, before);
      var g, l := Run(start, before), Books(start, before);
      StepKeepsInv(g, e);
      StepKeepsBalance(g, l, e);
      StepKeepsDealing(g, l, e);
    }
  }

  /** Over every run, filled cells = 4 * pieces placed - 10 * lines cleared
      + 9 * garbage rows inserted - cells pushed off the top. */
  lemma CellsAreConserved(d: Deal, es: seq<Event>)
    requires WellFormedRun(es)
    ensures var start := StartOf(d);
            var g, l := Run(start, es), Books(start, es);
            CellCount(g.board) == 4 * g.piecesPlaced - 10 * g.linesCleared + 9 * l.inserted - l.pushed
  {
    hide Inv, Dealing, Run, Books, StartOf, CellCount;
    EveryRun(d, es);
  }

  /** Over every run, each aligned block of seven dealt pieces holds every piece once, and
      any thirteen pieces dealt in a row contain every type. */
  lemma PiecesComeInSets(d: Deal, es: seq<Event>)
    requires WellFormedRun(es)
    ensures var dealt := Books(StartOf(d), es).drawn;
            && (forall q: nat | 7 * q + 7 <= |dealt| :: OneOfEach(Block(dealt, q)))
            && (forall i: nat, t: PieceType | i + 13 <= |dealt| :: t in Window(dealt, i))
  {
    hide Inv, Dealing, Run, Books, StartOf, OneOfEach;
    EveryRun(d, es);
    var g, dealt := Run(StartOf(d), es), Books(StartOf(d), es).drawn;
    forall q: nat | 7 * q + 7 <= |dealt| ensures OneOfEach(Block(dealt, q)) {
      DealtInBlocks(dealt, g.bag, q);
    }
    forall i: nat, t: PieceType | i + 13 <= |dealt| ensures t in Window(dealt, i) {
      EveryPieceWithinThirteen(dealt, g.bag, i, t);
    }
  }
}
