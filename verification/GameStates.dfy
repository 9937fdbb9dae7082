/** The engine as it runs: one mutable game whose calls update cells, bag, piece, timers
    and meters in place. Every call is proved to do what module Engine says. */
module GameStates {
  import opened Tetromino
  import opened Board
  import opened BoardArrays
  import opened Bag
  import opened Kicks
  import opened Engine

  /** The seven pieces in shuffled order. */
  method NewSet(picks: seq<nat>) returns (a: array<PieceType>)
    ensures fresh(a) && a.Length == 7 && a[..] == FreshSet(picks)
  {
    a := new PieceType[7][1, 2, 3, 4, 5, 6, 7];
    assert a[..] == SEVEN;
    ShuffleArray(a, picks);
  }

  /** A timer runs out in this simulation step. */
  ghost predicate TickIsDue(g: Game) {
    if Resting(g) then g.lockTimer + 1 >= LOCK_START else g.gravityTimer + 1 >= Threshold(g.level)
  }

  // ----- A lock in three parts -----

  /** Full rows go, and the line counters move. */
  ghost function LinesGone(g: Game): Game {
    var n := FullCount(g.board);
    ClearedShape(g.board, WIDTH);
    g.(board := Cleared(g.board, WIDTH),
       linesCleared := g.linesCleared + n,
       level := if n > 0 then (g.linesCleared + n) / 10 + 1 else g.level,
       score := g.score + n * 100)
  }

  ghost function PieceBaked(g: Game): Game {
    g.(board := LockedBoard(g),
       tSpins := g.tSpins + (if IsTSpin(g) then 1 else 0),
       piecesPlaced := g.piecesPlaced + 1)
  }

  /** The piece is baked in, full rows go, and the counters move. */
  ghost function CellsBaked(g: Game): Game {
    LinesGone(PieceBaked(g)).(tetrises := g.tetrises + (if Completed(g) == 4 then 1 else 0))
  }

  /** So do combo and back-to-back. */
  ghost function Baked(g: Game): Game {
    var n := Completed(g);
    CellsBaked(g).(combo := if n == 0 then -1 else g.combo + 1,
                   b2b := if n == 0 then g.b2b else Difficult(n, IsTSpin(g)))
  }

  /** The attack cancels pending garbage; what is left of either is sent or taken in. */
  ghost function Settled(g: Game, cleared: nat, damage: nat, holes: seq<nat>): Game
    requires cleared == 0 ==> damage == 0
  {
    g.(outgoing := damage - Min(damage, g.pending),
       pending := if cleared == 0 then 0 else g.pending - Min(damage, g.pending),
       board := if cleared == 0 && g.pending > 0 then Raised(g.board, Min(g.pending, HEIGHT), holes) else g.board)
  }

  ghost function SpawnedOrOver(g: Game, picks: seq<nat>): Game {
    Spawned(g, picks).(gameOver := g.gameOver || !PieceFits(g.board, NextPiece(g)))
  }

  lemma LinesGoneKeeps(g: Game)
    ensures LinesGone(PieceBaked(g)).tetrises == g.tetrises && FullCount(PieceBaked(g).board) == Completed(g)
  {
    hide FullCount, Cleared, Locked, IsTSpin;
  }

  lemma CellsBakedKeeps(g: Game)
    ensures CellsBaked(g).combo == g.combo && CellsBaked(g).b2b == g.b2b
  {
    hide FullCount, Cleared, Locked, IsTSpin;
  }

  lemma LockInThreeParts(g: Game, rolls: Rolls)
    ensures Completed(g) == 0 ==> Attack(g) == 0
    ensures LockedDown(g, rolls) == SpawnedOrOver(Settled(Baked(g), Completed(g), Attack(g), rolls.holes), rolls.picks)
  {
    hide FullCount, Cleared, Locked, IsTSpin, Raised, Fits, Dealt, Difficult, BaseGarbage, ComboBonus;
  }

  class GameState {
    const cells: array2<nat>
    const bag: array<PieceType>
    var bagIndex: nat
    var current: Piece
    var held: HeldType
    var hasHeld: bool
    var gravityTimer: int
    var lockTimer: int
    var piecesPlaced: nat
    var tetrises: nat
    var tSpins: nat
    var lastRotation: bool
    var pending: nat
    var outgoing: nat
    var lastAttacker: nat
    var score: nat
    var linesCleared: nat
    var combo: int
    var b2b: bool
    var level: nat
    var gameOver: bool
    var winner: nat
    var targetMode: TargetMode
    var playerId: nat
    var targetId: nat

    ghost predicate Valid()
      reads this
    {
      cells.Length0 == HEIGHT && cells.Length1 == WIDTH && bag.Length == 14 && bagIndex < 7
    }

    ghost function Field(): Playfield
      requires Valid()
      reads this, cells
    {
      GridOf(cells)
    }

    ghost function Stock(): PieceBag
      requires Valid()
      reads this, bag
    {
      Slots(bag[..], bagIndex)
    }

    ghost function View(): Game
      requires Valid()
      reads this, cells, bag
    {
      Game(Field(), current, Stock(), held, hasHeld, gravityTimer, lockTimer, piecesPlaced, tetrises, tSpins,
           lastRotation, pending, outgoing, lastAttacker, score, linesCleared, combo, b2b, level, gameOver, winner,
           targetMode, playerId, targetId)
    }

    // ----- bag.c, state.c -----

    method RefillBag(picks: seq<nat>)
      requires cells.Length0 == HEIGHT && cells.Length1 == WIDTH && bag.Length == 14
      modifies this`bagIndex, bag
      ensures bagIndex == 0 && bag[..] == Refilled(old(bag[..]), picks)
    {
      for i := 0 to 7
        invariant forall k | 0 <= k < i :: bag[k] == old(bag[k + 7])
        invariant forall k | 7 <= k < 14 :: bag[k] == old(bag[k])
      {
        bag[i] := bag[i + 7];
      }
      var newBag := NewSet(picks);
      assert bag[..7] == old(bag[7..]);
      for i := 0 to 7
        invariant bag[..7] == old(bag[7..])
        invariant forall k | 0 <= k < i :: bag[k + 7] == newBag[k]
        invariant newBag[..] == FreshSet(picks)
      {
        bag[i + 7] := newBag[i];
      }
      bagIndex := 0;
      assert bag[7..] == newBag[..];
      assert bag[..] == bag[..7] + bag[7..];
    }

    method SpawnNewPiece(picks: seq<nat>)
      requires Valid()
      modifies this`current, this`bagIndex, this`hasHeld, bag
      ensures Valid() && View() == Spawned(old(View()), picks)
    {
      hide GridOf, FreshSet;
      var t := bag[bagIndex];
      current := current.(t := t);
      bagIndex := bagIndex + 1;
      if bagIndex >= 7 {
        RefillBag(picks);
      }
      current := current.(rot := 0, x := WIDTH / 2 - 2, y := -2);
      hasHeld := false;
    }

    method FillBag(picks1: seq<nat>, picks2: seq<nat>)
      requires bag.Length == 14
      modifies bag
      ensures bag[..] == FreshSet(picks1) + FreshSet(picks2)
    {
      var bag1 := NewSet(picks1);
      var bag2 := NewSet(picks2);
      hide FreshSet;
      for i := 0 to 7
        invariant bag1[..] == FreshSet(picks1) && bag2[..] == FreshSet(picks2)
        invariant forall k | 0 <= k < i :: bag[k] == bag1[k]
      {
        bag[i] := bag1[i];
      }
      assert bag[..7] == bag1[..];
      for i := 0 to 7
        invariant bag1[..] == FreshSet(picks1) && bag2[..] == FreshSet(picks2)
        invariant bag[..7] == bag1[..]
        invariant forall k | 0 <= k < i :: bag[k + 7] == bag2[k]
      {
        bag[i + 7] := bag2[i];
      }
      assert bag[7..] == bag2[..];
      assert bag[..] == bag[..7] + bag[7..];
    }

    /** A fresh game: empty board, two shuffled sets in the bag, first piece at the top. */
    constructor (picks1: seq<nat>, picks2: seq<nat>, picks3: seq<nat>)
      ensures Valid() && fresh(cells) && fresh(bag)
      ensures View() == Started(picks1, picks2, picks3)
    {
      cells := new nat[HEIGHT, WIDTH]((y, x) => 0);
      bag := new PieceType[14](i => 1);
      current := Piece(1, 0, 0, 0);
      held, hasHeld, gravityTimer, lockTimer, piecesPlaced, tetrises, tSpins := 0, false, 0, 0, 0, 0, 0;
      lastRotation, pending, outgoing, lastAttacker, score, linesCleared := false, 0, 0, 0, 0, 0;
      combo, b2b, level, gameOver, winner, targetMode, playerId, targetId := -1, false, 1, false, 0, Manual, 0, 0;
      bagIndex := 0;
      new;
      SameGrid(GridOf(cells), Empties(HEIGHT, WIDTH), WIDTH);
      FillBag(picks1, picks2);
      hide Dealt, FreshSet;
      SpawnNewPiece(picks3);
    }

    // ----- movement.c, hold.c -----

    method RoomAt(x: int, y: int) returns (ok: bool)
      requires Valid()
      ensures ok == FitsAt(View(), x, y)
    {
      hide Fits, GridOf;
      ok := IsValidPos(cells, current.t, current.rot, x, y);
    }

    method CanFall() returns (room: bool)
      requires Valid()
      ensures room == !Resting(View())
    {
      hide FitsAt, GridOf;
      room := RoomAt(current.x, current.y + 1);
    }

    method Shift(dx: int, dy: int) returns (moved: bool)
      requires Valid()
      modifies this`current, this`lastRotation
      ensures Valid() && View() == Moved(old(View()), dx, dy)
      ensures moved == FitsAt(old(View()), old(current.x) + dx, old(current.y) + dy)
    {
      hide FitsAt, GridOf;
      moved := RoomAt(current.x + dx, current.y + dy);
      if moved {
        current := current.(x := current.x + dx, y := current.y + dy);
        lastRotation := false;
      }
    }

    method HardDropPiece() returns (rows: nat)
      requires Valid()
      modifies this`current
      ensures Valid() && View() == Dropped(old(View()))
      ensures current.y == old(current.y) + rows
    {
      hide Fits;
      rows := 0;
      var falling := IsValidPos(cells, current.t, current.rot, current.x, current.y + 1);
      while falling
        invariant Dropped(View()) == Dropped(old(View()))
        invariant falling == !Resting(View())
        invariant current.y == old(current.y) + rows
        decreases HEIGHT - current.y, falling
      {
        FittingPieceAboveFloor(Field(), current.t, current.rot, current.x, current.y + 1);
        current := current.(y := current.y + 1);
        rows := rows + 1;
        falling := IsValidPos(cells, current.t, current.rot, current.x, current.y + 1);
      }
    }

    method HoldPiece(picks: seq<nat>)
      requires Valid()
      modifies this`current, this`bagIndex, this`held, this`hasHeld, bag
      ensures Valid() && View() == Held(old(View()), picks)
    {
      hide Dealt, GridOf;
      if hasHeld {
        return;
      }
      if held == 0 {
        held := current.t;
        SpawnNewPiece(picks);
      } else {
        var temp := current.t;
        current := current.(t := held);
        held := temp;
        current := current.(y := -2, x := WIDTH / 2 - 2, rot := 0);
      }
      hasHeld := true;
    }

    // ----- board_control.c -----

    method TestRotate(next: Rotation) returns (turned: bool)
      requires Valid()
      modifies this`current, this`lastRotation
      ensures Valid() && View() == TurnedTo(old(View()), next)
      ensures turned == CanRotate(old(Field()), old(current), next)
    {
      hide Fits, Kick;
      for i := 0 to 5
        invariant current == old(current) && lastRotation == old(lastRotation)
        invariant FirstKick(Field(), current, next, i) == FirstKick(Field(), current, next, 0)
      {
        var k := Kick(current.t, current.rot, next, i);
        var nx, ny := current.x + k.0, current.y + k.1;
        var ok := IsValidPos(cells, current.t, next, nx, ny);
        assert ok == PieceFits(Field(), Kicked(current, next, i));
        if ok {
          current := current.(x := nx, y := ny, rot := next);
          lastRotation := true;
          return true;
        }
      }
      return false;
    }

    // ----- engine.c, garbage.c -----

    method CheckTSpin() returns (spin: bool)
      requires Valid()
      ensures spin == IsTSpin(View())
    {
      if current.t != 3 || !lastRotation {
        return false;
      }
      var cx, cy := current.x + 1, current.y + 1;
      var offsets := [(-1, -1), (1, -1), (-1, 1), (1, 1)];
      var blocked := 0;
      for i := 0 to 4
        invariant blocked == (if i > 0 && Blocked(Field(), cx - 1, cy - 1) then 1 else 0)
                           + (if i > 1 && Blocked(Field(), cx + 1, cy - 1) then 1 else 0)
                           + (if i > 2 && Blocked(Field(), cx - 1, cy + 1) then 1 else 0)
                           + (if i > 3 && Blocked(Field(), cx + 1, cy + 1) then 1 else 0)
      {
        var x, y := cx + offsets[i].0, cy + offsets[i].1;
        if x < 0 || x >= WIDTH || y >= HEIGHT || y < 0 {
          blocked := blocked + 1;
        } else if y >= 0 && cells[y, x] != 0 {
          blocked := blocked + 1;
        }
      }
      return blocked >= 3;
    }

    method CalculateGarbage(cleared: nat, tSpin: bool) returns (damage: nat)
      modifies this`combo, this`b2b
      ensures damage == Damage(old(combo), old(b2b), cleared, tSpin)
      ensures combo == if cleared == 0 then -1 else old(combo) + 1
      ensures b2b == if cleared == 0 then old(b2b) else Difficult(cleared, tSpin)
    {
      if cleared == 0 {
        combo := -1;
        return 0;
      }
      combo := combo + 1;
      damage := 0;
      if tSpin {
        damage := cleared * 2;
      } else if cleared == 2 {
        damage := 1;
      } else if cleared == 3 {
        damage := 3;
      } else if cleared == 4 {
        damage := 4;
      }
      if tSpin || cleared == 4 {
        if b2b {
          damage := damage + 1;
        }
        b2b := true;
      } else {
        b2b := false;
      }
      var bonus := 0;
      if combo > 0 {
        var table := [0, 0, 1, 1, 2, 2, 3, 3, 4, 4, 4, 5];
        if combo < 12 {
          bonus := table[combo];
        } else {
          bonus := 5;
        }
      }
      damage := damage + bonus;
    }

    method ClearFullLines() returns (cleared: nat)
      requires Valid()
      modifies this`linesCleared, this`level, this`score, cells
      ensures Valid() && cleared == FullCount(old(Field())) && View() == LinesGone(old(View()))
    {
      hide GridOf, FullCount, Cleared;
      cleared := ClearLines(cells);
      if cleared > 0 {
        linesCleared := linesCleared + cleared;
        level := linesCleared / 10 + 1;
        score := score + cleared * 100;
      }
    }

    /** Cancels pending garbage with the attack, sends the rest, takes in what is left if
        nothing was cleared. */
    method SettleGarbage(cleared: nat, damage: nat, holes: seq<nat>)
      requires Valid() && (cleared == 0 ==> damage == 0)
      modifies this`pending, this`outgoing, cells
      ensures Valid() && View() == Settled(old(View()), cleared, damage, holes)
    {
      hide Raised, GridOf;
      var left := damage;
      if left > 0 && pending > 0 {
        if left >= pending {
          left := left - pending;
          pending := 0;
        } else {
          pending := pending - left;
          left := 0;
        }
      }
      outgoing := left;
      if cleared == 0 && pending > 0 {
        AddGarbage(cells, pending, holes);
        pending := 0;
      }
    }

    method StampPiece() returns (tSpin: bool)
      requires Valid()
      modifies this`tSpins, this`piecesPlaced, cells
      ensures Valid() && tSpin == IsTSpin(old(View())) && View() == PieceBaked(old(View()))
    {
      hide Locked, IsTSpin, GridOf;
      tSpin := CheckTSpin();
      if tSpin {
        tSpins := tSpins + 1;
      }
      LockPiece(cells, current.t, current.rot, current.x, current.y);
      piecesPlaced := piecesPlaced + 1;
    }

    /** Bakes the piece in and clears full rows, noting a T-spin. */
    method BakeCells() returns (cleared: nat, tSpin: bool)
      requires Valid()
      modifies this`tSpins, this`piecesPlaced, this`tetrises, this`linesCleared, this`level, this`score, cells
      ensures Valid() && cleared == Completed(old(View())) && tSpin == IsTSpin(old(View()))
      ensures View() == CellsBaked(old(View()))
    {
      hide LinesGone, PieceBaked, FullCount, IsTSpin, GridOf;
      LinesGoneKeeps(View());
      tSpin := StampPiece();
      cleared := ClearFullLines();
      if cleared == 4 {
        tetrises := tetrises + 1;
      }
    }

    /** Bakes the piece in, clears full rows and works out the attack. */
    method BakePiece() returns (cleared: nat, damage: nat)
      requires Valid()
      modifies this`tSpins, this`piecesPlaced, this`tetrises, this`linesCleared, this`level, this`score, this`combo,
               this`b2b, cells
      ensures Valid() && cleared == Completed(old(View())) && damage == Attack(old(View()))
      ensures View() == Baked(old(View()))
    {
      hide CellsBaked, Completed, IsTSpin, Damage, Difficult, GridOf;
      CellsBakedKeeps(View());
      var tSpin;
      cleared, tSpin := BakeCells();
      damage := CalculateGarbage(cleared, tSpin);
    }

    /** The next piece appears; the game ends if it has no room. */
    method SpawnOrEnd(picks: seq<nat>)
      requires Valid()
      modifies this`current, this`bagIndex, this`hasHeld, this`gameOver, bag
      ensures Valid() && View() == SpawnedOrOver(old(View()), picks)
    {
      hide Fits, Dealt, GridOf;
      SpawnNewPiece(picks);
      var room := RoomAt(current.x, current.y);
      assert room == PieceFits(Field(), current);
      if !room {
        gameOver := true;
      }
    }

    /** Locks the resting piece and settles everything that follows from it. */
    method LockDown(rolls: Rolls) returns (cleared: nat)
      requires Valid()
      modifies this, cells, bag
      ensures Valid() && View() == LockedDown(old(View()), rolls)
      ensures cleared == Completed(old(View()))
    {
      hide View, Baked, Settled, SpawnedOrOver, Completed, Attack, LockedDown;
      LockInThreeParts(View(), rolls);
      var damage;
      cleared, damage := BakePiece();
      SettleGarbage(cleared, damage, rolls.holes);
      SpawnOrEnd(rolls.picks);
    }

    method TickGame(rolls: Rolls) returns (cleared: nat)
      requires Valid()
      modifies this, cells, bag
      ensures Valid() && View() == Ticked(old(View()), rolls)
      ensures cleared == if Resting(old(View())) && old(current.y) >= 0 then Completed(old(View())) else 0
    {
      hide Resting, LockedDown, Completed, GridOf;
      var room := CanFall();
      if room {
        current := current.(y := current.y + 1);
        return 0;
      }
      if current.y < 0 {
        gameOver := true;
        return 0;
      }
      cleared := LockDown(rolls);
    }

    method UpdateTimers(rolls: Rolls) returns (changed: bool)
      requires Valid()
      modifies this, cells, bag
      ensures Valid() && View() == Timed(old(View()), rolls)
      ensures changed == TickIsDue(old(View()))
      ensures !changed ==> Field() == old(Field()) && current == old(current)
    {
      hide Resting, Ticked, GridOf;
      var gravity := GRAVITY_START - (level - 1) * 5;
      if gravity < 5 {
        gravity := 5;
      }
      var room := CanFall();
      if !room {
        lockTimer := lockTimer + 1;
        if lockTimer >= LOCK_START {
          var _ := TickGame(rolls);
          lockTimer := 0;
          gravityTimer := 0;
          return true;
        }
      } else {
        lockTimer := 0;
        gravityTimer := gravityTimer + 1;
        if gravityTimer >= gravity {
          var _ := TickGame(rolls);
          gravityTimer := 0;
          return true;
        }
      }
      return false;
    }

    method QueueGarbage(lines: int)
      requires Valid()
      modifies this`pending
      ensures Valid() && View() == Queued(old(View()), lines)
    {
      if lines <= 0 {
        return;
      }
      var p := pending + lines;
      if p > HEIGHT {
        p := HEIGHT;
      }
      pending := p;
    }

    // ----- targeting.c -----

    method CycleManualTarget(r: Roster)
      requires Valid() && |r.ids| == |r.eliminated|
      modifies this`targetId
      ensures Valid() && View() == Retargeted(old(View()), r)
    {
      if |r.ids| <= 1 {
        return;
      }
      var seat := FindSeat(r.ids, targetId);
      for step := 1 to |r.ids| + 1
        invariant targetId == old(targetId)
        invariant NextTarget(r, playerId, seat, step) == NextTarget(r, playerId, seat, 1)
      {
        var i := (seat + step + |r.ids|) % |r.ids|;
        if r.ids[i] != playerId && !r.eliminated[i] {
          targetId := r.ids[i];
          return;
        }
      }
    }

    // ----- game.c -----

    method ShiftAction(dx: int, dy: int)
      requires Valid()
      modifies this`current, this`lastRotation, this`lockTimer
      ensures Valid() && View() == Shifted(old(View()), dx, dy)
    {
      hide Fits;
      var moved := Shift(dx, dy);
      if moved {
        lockTimer := 0;
      }
    }

    method TurnAction(next: Rotation)
      requires Valid()
      modifies this`current, this`lastRotation, this`lockTimer
      ensures Valid() && View() == TurnedTo(old(View()), next).(lockTimer := 0)
    {
      hide Fits, CanRotate, Rotated;
      var _ := TestRotate(next);
      lockTimer := 0;
    }

    /** Slams the piece down and resolves the lock at once. */
    method SlamAction(rolls: Rolls)
      requires Valid()
      modifies this, cells, bag
      ensures Valid() && View() == Ticked(Dropped(old(View())), rolls).(gravityTimer := 0, lockTimer := 0)
    {
      hide Ticked, Dropped;
      var _ := HardDropPiece();
      var _ := TickGame(rolls);
      gravityTimer := 0;
      lockTimer := 0;
    }

    method HoldAction(picks: seq<nat>)
      requires Valid()
      modifies this`current, this`bagIndex, this`held, this`hasHeld, this`gravityTimer, bag
      ensures Valid()
      ensures View() == if old(hasHeld) then old(View()) else Held(old(View()), picks).(gravityTimer := 0)
    {
      hide Held, GridOf;
      if !hasHeld {
        HoldPiece(picks);
        gravityTimer := 0;
      }
    }

    method ApplyAction(a: Action, rolls: Rolls)
      requires Valid() && WellFormedAction(a)
      modifies this, cells, bag
      ensures Valid() && View() == Acted(old(View()), a, rolls)
    {
      hide Shifted, Ticked, Dropped, Held, TurnedTo, Retargeted, GridOf;
      if gameOver {
        return;
      }
      match a {
        case NoAction =>
        case MoveLeft => ShiftAction(-1, 0);
        case MoveRight => ShiftAction(1, 0);
        case RotateCw => TurnAction((current.rot + 1) % 4);
        case RotateCcw => TurnAction((current.rot + 3) % 4);
        case SoftDrop => ShiftAction(0, 1);
        case HardDrop => SlamAction(rolls);
        case Hold => HoldAction(rolls.picks);
        case CycleTargetMode => targetMode := NextMode(targetMode);
        case CycleTarget(r) => CycleManualTarget(r);
        case Quit => gameOver := true;
      }
    }
  }

  method FindSeat(ids: seq<nat>, id: nat) returns (seat: int)
    ensures seat == SeatOf(ids, id)
  {
    for i := 0 to |ids|
      invariant SeatOf(ids, id) == (var k := SeatOf(ids[i..], id); if k < 0 then -1 else i + k)
    {
      assert ids[i..][1..] == ids[i + 1..];
      if ids[i] == id {
        return i;
      }
    }
    return -1;
  }
}
