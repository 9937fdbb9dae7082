/** How long a piece lives without input: exactly when it locks. */
module EngineTiming {
  import opened Tetromino
  import opened Board
  import opened Kicks
  import opened Engine
  import opened EngineRuns

  /** Rows the piece can still fall. */
  ghost function Depth(g: Game): int {
    Dropped(g).current.y - g.current.y
  }

  /** The number of idle simulation steps after which the piece locks or the game ends. */
  ghost function StepsToLock(g: Game): int {
    if Resting(g) then LOCK_START - g.lockTimer
    else Depth(g) * Threshold(g.level) - g.gravityTimer + LOCK_START
  }

  ghost predicate AllIdle(es: seq<Event>) {
    forall e | e in es :: e.Idle?
  }

  lemma DepthFacts(g: Game)
    requires Inv(g)
    ensures Resting(g) ==> Depth(g) == 0
    ensures !Resting(g) ==> Depth(g) >= 1 && Depth(MovedTo(g, g.current.x, g.current.y + 1)) == Depth(g) - 1
    ensures 0 <= Depth(g) && (!Resting(g) ==> g.current.y + Depth(g) < HEIGHT)
  {
    hide Fits;
    DroppedFacts(g);
    var d := Dropped(g);
    if !Resting(g) {
      DroppedFacts(MovedTo(g, g.current.x, g.current.y + 1));
      assert d == Dropped(MovedTo(g, g.current.x, g.current.y + 1));
      assert d.current.y > g.current.y;
      FittingPieceAboveFloor(d.board, d.current.t, d.current.rot, d.current.x, d.current.y);
    }
  }

  lemma DepthIgnoresTimers(g: Game, l: int, v: int)
    ensures Depth(g.(lockTimer := l, gravityTimer := v)) == Depth(g)
    ensures Resting(g.(lockTimer := l, gravityTimer := v)) == Resting(g)
    decreases HEIGHT - g.current.y
  {
    hide Fits;
    if !Resting(g) {
      FittingPieceAboveFloor(g.board, g.current.t, g.current.rot, g.current.x, g.current.y + 1);
      DepthIgnoresTimers(MovedTo(g, g.current.x, g.current.y + 1), l, v);
    }
  }

  lemma Times(d: int, t: int)
    ensures d * t == (d - 1) * t + t
    ensures d >= 1 && t >= 0 ==> d * t >= t
  {
    if d >= 1 && t >= 0 {
      assert (d - 1) * t >= 0;
    }
  }

  ghost predicate Closer(g: Game, s: Game) {
    if StepsToLock(g) > 1
    then !s.gameOver && s.piecesPlaced == g.piecesPlaced && StepsToLock(s) == StepsToLock(g) - 1
    else s.gameOver || s.piecesPlaced == g.piecesPlaced + 1
  }

  lemma RestingStep(g: Game, rolls: Rolls)
    requires Inv(g) && !g.gameOver && Resting(g)
    ensures StepsToLock(g) >= 1 && Closer(g, Timed(g, rolls))
  {
    hide Fits, Dropped, Threshold, LockedDown, NoFullRow, SmallCells, InBounds, PieceOk, CountersOk, Depth, Ticked;
    DepthIgnoresTimers(g, g.lockTimer + 1, g.gravityTimer);
    LockAddsPiece(g.(lockTimer := g.lockTimer + 1), rolls);
  }

  lemma FloatingStep(g: Game, rolls: Rolls)
    requires Inv(g) && !g.gameOver && !Resting(g) && g.gravityTimer + 1 < Threshold(g.level)
    ensures StepsToLock(g) > 1 && Closer(g, Timed(g, rolls))
  {
    hide Fits, Dropped, Threshold, LockedDown, NoFullRow, SmallCells, InBounds, PieceOk, CountersOk, Depth, Ticked;
    var t, d := Threshold(g.level), Depth(g);
    DepthFacts(g);
    Times(d, t);
    DepthIgnoresTimers(g, 0, g.gravityTimer + 1);
  }

  lemma FallStep(g: Game, rolls: Rolls)
    requires !g.gameOver && !Resting(g) && g.gravityTimer + 1 >= Threshold(g.level)
    ensures Timed(g, rolls) == MovedTo(g, g.current.x, g.current.y + 1).(lockTimer := 0, gravityTimer := 0)
  {
    hide Fits, Threshold, LockedDown;
  }

  lemma FallingStep(g: Game, rolls: Rolls)
    requires Inv(g) && !g.gameOver && !Resting(g) && g.gravityTimer + 1 >= Threshold(g.level)
    ensures StepsToLock(g) > 1 && Closer(g, Timed(g, rolls))
  {
    hide Fits, Dropped, Threshold, LockedDown, NoFullRow, SmallCells, InBounds, PieceOk, CountersOk, Depth,
        Timed, Resting;
    var t, d := Threshold(g.level), Depth(g);
    var s := MovedTo(g, g.current.x, g.current.y + 1).(lockTimer := 0, gravityTimer := 0);
    FallStep(g, rolls);
    TimedKeepsInv(g, rolls);
    DepthFacts(g);
    DepthFacts(s);
    DepthIgnoresTimers(MovedTo(g, g.current.x, g.current.y + 1), 0, 0);
    Times(d, t);
    assert d == 1 ==> (d - 1) * t == 0;
  }

  /** One idle step brings the lock exactly one step closer, or is the lock. */
  lemma OneStepCloser(g: Game, rolls: Rolls)
    requires Inv(g) && !g.gameOver
    ensures StepsToLock(g) >= 1 && Closer(g, Timed(g, rolls))
  {
    hide Inv, StepsToLock, Closer, Timed, Threshold, Fits;
    if Resting(g) {
      RestingStep(g, rolls);
    } else if g.gravityTimer + 1 >= Threshold(g.level) {
      FallingStep(g, rolls);
    } else {
      FloatingStep(g, rolls);
    }
  }

  lemma LockAddsPiece(g: Game, rolls: Rolls)
    requires Resting(g)
    ensures Ticked(g, rolls).gameOver || Ticked(g, rolls).piecesPlaced == g.piecesPlaced + 1
  {
    hide Fits, Completed, SettledBoard, Damage, IsTSpin;
  }

  lemma {:induction false} WaitingCountsDown(g: Game, es: seq<Event>)
    requires Inv(g) && !g.gameOver && WellFormedRun(es) && AllIdle(es) && |es| < StepsToLock(g)
    ensures var s := Run(g, es);
            Inv(s) && !s.gameOver && s.piecesPlaced == g.piecesPlaced && StepsToLock(s) == StepsToLock(g) - |es|
  {
    hide Inv, StepsToLock, Timed;
    if es != [] {
      var n := |es| - 1;
      assert forall e | e in es[..n] :: e in es;
      WaitingCountsDown(g, es[..n]);
      assert es[n] in es;
      OneStepCloser(Run(g, es[..n]), es[n].rolls);
      StepKeepsInv(Run(g, es[..n]), es[n]);
    }
  }

  /** With no input a live piece at row y locks, or the game ends, at step number
      `StepsToLock` exactly and never before; that is at most 50 * (20 - y) steps. */
  lemma IdlePieceLocksOnTime(g: Game, es: seq<Event>)
    requires Inv(g) && !g.gameOver && WellFormedRun(es) && AllIdle(es)
    ensures 1 <= StepsToLock(g) <= 50 * (HEIGHT - g.current.y)
    ensures |es| < StepsToLock(g) ==> Run(g, es).piecesPlaced == g.piecesPlaced && !Run(g, es).gameOver
    ensures |es| == StepsToLock(g) ==> Run(g, es).piecesPlaced == g.piecesPlaced + 1 || Run(g, es).gameOver
  {
    StepsBound(g);
    OneStepCloser(g, Rolls([], []));
    hide Inv, StepsToLock, Timed;
    if |es| < StepsToLock(g) {
      WaitingCountsDown(g, es);
    } else if |es| == StepsToLock(g) {
      var n := |es| - 1;
      assert forall e | e in es[..n] :: e in es;
      assert es[n] in es;
      WaitingCountsDown(g, es[..n]);
      OneStepCloser(Run(g, es[..n]), es[n].rolls);
    }
  }

  lemma AtMostFifty(d: nat, t: int)
    requires t <= 50
    ensures d * t <= 50 * d
  {
    assert d * (50 - t) >= 0;
  }

  lemma StepsBound(g: Game)
    requires Inv(g) && !g.gameOver
    ensures StepsToLock(g) <= 50 * (HEIGHT - g.current.y)
  {
    hide Depth, FitsAt, InBounds, NoFullRow, SmallCells, PieceOk, Threshold;
    DepthFacts(g);
    if Resting(g) {
      LowestRow(g);
    } else {
      AtMostFifty(Depth(g), Threshold(g.level));
    }
  }

  lemma LowestRow(g: Game)
    requires PieceOk(g)
    ensures g.current.y < HEIGHT
  {
    var p := g.current;
    CellsAreDistinctAndBelow(p.t, p.rot, p.x, p.y);
    assert Cells(p.t, p.rot, p.x, p.y)[0] in Cells(p.t, p.rot, p.x, p.y);
  }

  // ----- Pace -----

  /** Simulation steps between two rows: 50 on level 1, five fewer a level, down to 5. */
  function Pace(level: nat): (n: int)
    requires level >= 1
  {
    if level >= 10 then 5 else 55 - 5 * level
  }

  lemma PaceIsThreshold(level: nat)
    requires level >= 1
    ensures Threshold(level) == Pace(level)
  {}

  /** Nothing happens to a falling piece but that the gravity timer runs. */
  lemma {:induction false} HangingPiece(g: Game, es: seq<Event>)
    requires Inv(g) && !g.gameOver && !Resting(g) && g.lockTimer == 0 && WellFormedRun(es) && AllIdle(es)
    requires |es| + g.gravityTimer < Threshold(g.level)
    ensures Run(g, es) == g.(gravityTimer := g.gravityTimer + |es|)
  {
    hide Inv, Fits, Ticked, Threshold;
    if es != [] {
      var n := |es| - 1;
      assert forall e | e in es[..n] :: e in es;
      HangingPiece(g, es[..n]);
      assert es[n] in es;
      StillFloating(g, n);
    }
  }

  lemma StillFloating(g: Game, v: int)
    ensures Resting(g.(gravityTimer := g.gravityTimer + v)) == Resting(g)
  {
    hide Fits;
  }

  /** A piece that has just fallen and can fall on stays where it is for one step less than the
      level's pace and is one row lower after the pace, with the timer at 0 again. */
  lemma FallsAtItsPace(g: Game, es: seq<Event>)
    requires Inv(g) && !g.gameOver && !Resting(g) && g.lockTimer == 0 && g.gravityTimer == 0
    requires WellFormedRun(es) && AllIdle(es)
    ensures |es| < Pace(g.level) ==> Run(g, es).current == g.current
    ensures |es| == Pace(g.level) ==>
              && Run(g, es).current == g.current.(y := g.current.y + 1) && Run(g, es).gravityTimer == 0
              && Run(g, es).lockTimer == 0 && Run(g, es).board == g.board && Run(g, es).level == g.level
  {
    PaceIsThreshold(g.level);
    hide Inv, Threshold, Pace, Resting, Run, WellFormedRun, AllIdle;
    if |es| < Pace(g.level) {
      HangingPiece(g, es);
    } else if |es| == Pace(g.level) {
      FallsAtLast(g, es);
    }
  }

  lemma FallsAtLast(g: Game, es: seq<Event>)
    requires Inv(g) && !g.gameOver && !Resting(g) && g.lockTimer == 0 && g.gravityTimer == 0
    requires WellFormedRun(es) && AllIdle(es) && |es| == Threshold(g.level)
    ensures Run(g, es) == MovedTo(g, g.current.x, g.current.y + 1).(lockTimer := 0, gravityTimer := 0)
  {
    hide Inv, Threshold, Step, Resting, Run, WellFormedRun, AllIdle;
    var n := |es| - 1;
    IdleRunSplits(g, es);
    HangingPiece(g, es[..n]);
    LastFall(g, es[n], n);
  }

  lemma IdleRunSplits(g: Game, es: seq<Event>)
    requires es != [] && WellFormedRun(es) && AllIdle(es)
    ensures var n := |es| - 1;
            && WellFormedRun(es[..n]) && AllIdle(es[..n]) && WellFormed(es[n]) && es[n].Idle?
            && Run(g, es) == Step(Run(g, es[..n]), es[n])
  {
    hide Step;
    assert es[|es| - 1] in es;
  }

  lemma LastFall(g: Game, e: Event, n: int)
    requires !g.gameOver && !Resting(g) && g.gravityTimer == 0 && n + 1 >= Threshold(g.level) && e.Idle?
    ensures Step(g.(gravityTimer := n), e)
         == MovedTo(g, g.current.x, g.current.y + 1).(lockTimer := 0, gravityTimer := 0)
  {
    hide Resting, Threshold, Timed;
    StillFloating(g, n);
    FallStep(g.(gravityTimer := g.gravityTimer + n), e.rolls);
  }

  /** A piece that has just come to rest locks, or ends the game, at the fiftieth step. */
  lemma RestsForFifty(g: Game, es: seq<Event>)
    requires Inv(g) && !g.gameOver && Resting(g) && g.lockTimer == 0 && WellFormedRun(es) && AllIdle(es)
    ensures |es| < 50 ==> Run(g, es).piecesPlaced == g.piecesPlaced && !Run(g, es).gameOver
    ensures |es| == 50 ==> Run(g, es).piecesPlaced == g.piecesPlaced + 1 || Run(g, es).gameOver
  {
    hide Inv, Run;
    IdlePieceLocksOnTime(g, es);
  }
}
