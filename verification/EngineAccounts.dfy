/** More that holds over whole games: the preview comes true, garbage lines are accounted for,
    every lock finds its four cells free, and a finished game stays as it is. */
module EngineAccounts {
  import opened Tetromino
  import opened Board
  import opened Kicks
  import opened Engine
  import opened EngineRuns
  import Bag

  // ----- The preview -----

  function DealtBag(b: Bag.PieceBag, picks: seq<seq<nat>>): Bag.PieceBag
    decreases |picks|
  {
    if picks == [] then b else DealtBag(Bag.Dealt(b, picks[0]), picks[1..])
  }

  lemma {:induction false} OneMoreDeal(b: Bag.PieceBag, picks: seq<seq<nat>>, p: seq<nat>)
    ensures var d := DealtBag(b, picks);
            && Bag.Deals(b, picks + [p]) == Bag.Deals(b, picks) + [d.slots[d.index]]
            && DealtBag(b, picks + [p]) == Bag.Dealt(d, p)
    decreases |picks|
  {
    hide Bag.Dealt;
    if picks == [] {
      assert [p][1..] == [];
      assert Bag.Deals(b, [p]) == [b.slots[b.index]] + [];
    } else {
      OneMoreDeal(Bag.Dealt(b, picks[0]), picks[1..], p);
      assert (picks + [p])[1..] == picks[1..] + [p];
    }
  }

  lemma {:induction false} FirstDeals(b: Bag.PieceBag, picks: seq<seq<nat>>, k: nat)
    requires k <= |picks|
    ensures Bag.Deals(b, picks)[..k] == Bag.Deals(b, picks[..k])
    decreases k
  {
    hide Bag.Dealt;
    if k > 0 {
      FirstDeals(Bag.Dealt(b, picks[0]), picks[1..], k - 1);
      assert picks[..k][1..] == picks[1..][..k - 1];
    }
  }

  /** What a game deals after its first `n` events comes out of the bag it then has. */
  lemma {:induction false} LaterDeals(g: Game, es: seq<Event>, n: nat) returns (picks: seq<seq<nat>>)
    requires WellFormedRun(es) && n <= |es|
    ensures var b := Run(g, es[..n]).bag;
            && Books(g, es).drawn == Books(g, es[..n]).drawn + Bag.Deals(b, picks)
            && Run(g, es).bag == DealtBag(b, picks)
    decreases |es|
  {
    hide Step, Deals, Bag.Dealt, CellCount;
    if |es| == n {
      assert es[..n] == es;
      picks := [];
    } else {
      var m := |es| - 1;
      assert es[..m][..n] == es[..n];
      assert es[m] in es;
      picks := LaterDeals(g, es[..m], n);
      var b := Run(g, es[..n]).bag;
      BagOfStep(Run(g, es[..m]), es[m]);
      if Deals(Run(g, es[..m]), es[m]) {
        var p := RollsOf(es[m]).picks;
        OneMoreDeal(b, picks, p);
        picks := picks + [p];
      }
    }
  }

  /** In every game, at every moment, the three pieces in the preview are the next three dealt,
      whatever happens in between. */
  lemma PreviewComesTrue(g: Game, es: seq<Event>, n: nat)
    requires WellFormedRun(es) && n <= |es|
    requires |Books(g, es[..n]).drawn| + 3 <= |Books(g, es).drawn|
    ensures var a := |Books(g, es[..n]).drawn|;
            Books(g, es).drawn[a..a + 3] == Bag.Preview(Run(g, es[..n]).bag)
  {
    hide Run, Books, Bag.Preview, Bag.Deals;
    var picks := LaterDeals(g, es, n);
    var before, b := Books(g, es[..n]).drawn, Run(g, es[..n]).bag;
    FirstDeals(b, picks, 3);
    Bag.PreviewIsNextThree(b, picks[..3]);
    assert (before + Bag.Deals(b, picks))[|before|..|before| + 3] == Bag.Deals(b, picks)[..3];
  }

  // ----- Garbage -----

  /** Lines a game has received from others, accepted, refused because 20 were pending,
      cancelled by its own attacks, taken in as rows, generated and sent. */
  datatype Meter = Meter(
    received: nat, queued: nat, capped: nat, cancelled: nat, taken: nat, generated: nat, sent: nat)

  ghost function Metered(m: Meter, g: Game, e: Event): Meter {
    var t := TickOf(g, e);
    if Locks(t) then
      m.(cancelled := m.cancelled + Cancelled(t.game), taken := m.taken + RowsTaken(t.game),
         generated := m.generated + Attack(t.game), sent := m.sent + Attack(t.game) - Cancelled(t.game))
    else if e.Receive? && !g.gameOver && e.lines > 0 then
      var n := Min(e.lines, if g.pending < HEIGHT then HEIGHT - g.pending else 0);
      m.(received := m.received + e.lines, queued := m.queued + n, capped := m.capped + e.lines - n)
    else m
  }

  ghost function Meters(g: Game, es: seq<Event>): Meter
    requires WellFormedRun(es)
  {
    if es == [] then Meter(g.pending, g.pending, 0, 0, 0, 0, 0)
    else Metered(Meters(g, es[..|es| - 1]), Run(g, es[..|es| - 1]), es[|es| - 1])
  }

  lemma PendingOfMoves(g: Game, a: Action, rolls: Rolls)
    requires WellFormedAction(a) && !a.HardDrop?
    ensures Acted(g, a, rolls).pending == g.pending
  {
    hide FitsAt, Bag.Dealt, NextTarget, SeatOf, CanRotate, Rotated;
  }

  lemma PendingOfLock(g: Game, rolls: Rolls)
    ensures LockedDown(g, rolls).pending == g.pending - Cancelled(g) - RowsTaken(g)
  {
    hide Fits, Completed, SettledBoard, Attack, IsTSpin, Bag.Dealt;
  }

  /** Pending garbage changes in a lock and by what is received only. */
  lemma PendingOfStep(g: Game, e: Event)
    requires WellFormed(e) && g.pending <= HEIGHT
    ensures var t, s := TickOf(g, e), Step(g, e);
            s.pending == if Locks(t) then t.game.pending - Cancelled(t.game) - RowsTaken(t.game)
                         else if e.Receive? && !g.gameOver && e.lines > 0
                         then g.pending + Min(e.lines, HEIGHT - g.pending)
                         else g.pending
  {
    hide Fits, LockedDown, Cancelled, RowsTaken, Dropped, Threshold;
    if e.Act? && !e.action.HardDrop? {
      hide Acted;
      PendingOfMoves(g, e.action, e.rolls);
    } else if e.Act? {
      DroppedFacts(g);
      PendingOfLock(Dropped(g), e.rolls);
    } else if e.Idle? {
      PendingOfLock(g.(lockTimer := g.lockTimer + 1), e.rolls);
      LockIgnoresTimers(g, g.lockTimer + 1);
    }
  }

  lemma LockIgnoresTimers(g: Game, l: int)
    ensures var h := g.(lockTimer := l);
            Cancelled(h) == Cancelled(g) && RowsTaken(h) == RowsTaken(g) && Resting(h) == Resting(g)
  {
    hide Fits, FullCount, Locked, CornerCount, Difficult, ComboBonus, BaseGarbage;
    assert Completed(g.(lockTimer := l)) == Completed(g);
  }

  lemma TickKeepsPending(g: Game, e: Event)
    requires TickOf(g, e).TickAt?
    ensures TickOf(g, e).game.pending == g.pending && TickOf(g, e).game.board == g.board
  {
    hide Fits, Threshold;
    DroppedFacts(g);
  }

  /** In every game: lines received = lines accepted + lines refused; lines accepted = lines
      pending + lines cancelled + rows taken in; lines generated = lines cancelled + lines
      sent; and the rows taken in are the garbage rows that the balance of cells counts. */
  lemma {:induction false} GarbageIsConserved(d: Deal, es: seq<Event>)
    requires WellFormedRun(es)
    ensures var start := StartOf(d);
            var g, m := Run(start, es), Meters(start, es);
            && m.received == m.queued + m.capped
            && m.queued == g.pending + m.cancelled + m.taken
            && m.generated == m.cancelled + m.sent
            && m.taken == Books(start, es).inserted
  {
    hide Step, TickOf, Resting, Cancelled, RowsTaken, Attack, StartOf, Deals, CellCount;
    if es == [] {
    } else {
      var start, n := StartOf(d), |es| - 1;
      var before, e := es[..n], es[n];
      assert forall f | f in before :: f in es;
      assert e in es;
      GarbageIsConserved(d, before);
      var g := Run(start, before);
      PendingBounded(d, before);
      PendingOfStep(g, e);
      if TickOf(g, e).TickAt? {
        TickKeepsPending(g, e);
        CancelledAtMost(TickOf(g, e).game);
      }
    }
  }

  lemma PendingBounded(d: Deal, es: seq<Event>)
    requires WellFormedRun(es)
    ensures Run(StartOf(d), es).pending <= HEIGHT
  {
    hide Run, Books, StartOf, PieceOk, NoFullRow, SmallCells, TimersOk;
    EveryRun(d, es);
  }

  lemma CancelledAtMost(g: Game)
    ensures Cancelled(g) <= g.pending && Cancelled(g) <= Attack(g) && RowsTaken(g) <= g.pending
  {
    hide Completed, Attack;
  }

  // ----- Locks and the end -----

  /** In every game, every piece that locks finds its cells free, hard drop or not. */
  lemma EveryLockFits(d: Deal, es: seq<Event>, e: Event)
    requires WellFormedRun(es) && WellFormed(e) && Locks(TickOf(Run(StartOf(d), es), e))
    ensures var g := TickOf(Run(StartOf(d), es), e).game; PieceFits(g.board, g.current)
  {
    hide Run, Books, StartOf, Fits, NoFullRow, SmallCells, TimersOk, CountersOk, Threshold, InBounds, Dropped;
    EveryRun(d, es);
    var g := Run(StartOf(d), es);
    DroppedFacts(g);
    if TickOf(g, e).game == g {
      LockingPieceFits(g);
    }
  }

  /** Once over, a game is over for good, with the board as it was. */
  lemma {:induction false} OverStaysOver(g: Game, es: seq<Event>)
    requires WellFormedRun(es) && g.gameOver
    ensures Run(g, es).gameOver && Run(g, es).board == g.board
  {
    hide Step;
    if es != [] {
      var n := |es| - 1;
      assert es[n] in es;
      OverStaysOver(g, es[..n]);
      GameOverIsFinal(Run(g, es[..n]), es[n]);
    }
  }
}
