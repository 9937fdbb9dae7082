/** One player's game as a value and what each engine call does to it (engine.c,
    garbage.c, movement.c, hold.c, state.c, targeting.c and the action switch of game.c).
    `rand()` results are inputs: `holes` for garbage rows, `picks` for bag shuffles. */
module Engine {
  import opened Tetromino
  import opened Board
  import opened Bag
  import opened Kicks

  const GRAVITY_START := 50
  const LOCK_START := 50
  const SPAWN_X := WIDTH / 2 - 2
  const SPAWN_Y := -2

  datatype TargetMode = Manual | Random | Ko

  type HeldType = h: nat | h <= 7

  datatype Rolls = Rolls(holes: seq<nat>, picks: seq<nat>)

  /** The players of a room, in seat order, and who is out. */
  datatype Roster = Roster(ids: seq<nat>, eliminated: seq<bool>)

  datatype Game = Game(
    board: Playfield,
    current: Piece,
    bag: PieceBag,
    held: HeldType,
    hasHeld: bool,
    gravityTimer: int,
    lockTimer: int,
    piecesPlaced: nat,
    tetrises: nat,
    tSpins: nat,
    lastRotation: bool,
    pending: nat,
    outgoing: nat,
    lastAttacker: nat,
    score: nat,
    linesCleared: nat,
    combo: int,
    b2b: bool,
    level: nat,
    gameOver: bool,
    winner: nat,
    targetMode: TargetMode,
    playerId: nat,
    targetId: nat)

  // ----- Position -----

  ghost predicate FitsAt(g: Game, x: int, y: int) {
    Fits(g.board, g.current.t, g.current.rot, x, y)
  }

  ghost predicate Resting(g: Game) {
    !FitsAt(g, g.current.x, g.current.y + 1)
  }

  function MovedTo(g: Game, x: int, y: int): Game {
    g.(current := g.current.(x := x, y := y))
  }

  ghost function Moved(g: Game, dx: int, dy: int): Game {
    if FitsAt(g, g.current.x + dx, g.current.y + dy)
    then MovedTo(g, g.current.x + dx, g.current.y + dy).(lastRotation := false)
    else g
  }

  /** Falling as far as there is room. */
  ghost function Dropped(g: Game): Game
    decreases HEIGHT - g.current.y
  {
    if Resting(g) then g
    else
      FittingPieceAboveFloor(g.board, g.current.t, g.current.rot, g.current.x, g.current.y + 1);
      Dropped(MovedTo(g, g.current.x, g.current.y + 1))
  }

  ghost function TurnedTo(g: Game, next: Rotation): Game {
    if CanRotate(g.board, g.current, next)
    then g.(current := Rotated(g.board, g.current, next), lastRotation := true)
    else g
  }

  // ----- Dealing pieces -----

  function Spawned(g: Game, picks: seq<nat>): Game {
    g.(current := NextPiece(g),
       bag := Dealt(g.bag, picks),
       hasHeld := false)
  }

  function Held(g: Game, picks: seq<nat>): Game {
    if g.hasHeld then g
    else if g.held == 0 then Spawned(g.(held := g.current.t), picks).(hasHeld := true)
    else g.(current := Piece(g.held, 0, SPAWN_X, SPAWN_Y), held := g.current.t, hasHeld := true)
  }

  function Started(picks1: seq<nat>, picks2: seq<nat>, picks3: seq<nat>): Game {
    Spawned(
      Game(Empties(HEIGHT, WIDTH), Piece(1, 0, 0, 0), NewBag(picks1, picks2), 0, false, 0, 0, 0, 0, 0, false,
           0, 0, 0, 0, 0, -1, false, 1, false, 0, Manual, 0, 0),
      picks3)
  }

  // ----- Attack value -----

  predicate Blocked(g: Playfield, x: int, y: int) {
    if x < 0 || x >= WIDTH || y >= HEIGHT || y < 0 then true else g[y][x] != 0
  }

  function CornerCount(g: Playfield, cx: int, cy: int): nat {
    (if Blocked(g, cx - 1, cy - 1) then 1 else 0) + (if Blocked(g, cx + 1, cy - 1) then 1 else 0)
    + (if Blocked(g, cx - 1, cy + 1) then 1 else 0) + (if Blocked(g, cx + 1, cy + 1) then 1 else 0)
  }

  predicate IsTSpin(g: Game) {
    g.current.t == 3 && g.lastRotation && CornerCount(g.board, g.current.x + 1, g.current.y + 1) >= 3
  }

  function ComboBonus(combo: int): (b: nat)
    ensures b <= 5
  {
    if combo <= 0 then 0
    else if combo < 12 then [0, 0, 1, 1, 2, 2, 3, 3, 4, 4, 4, 5][combo]
    else 5
  }

  function BaseGarbage(cleared: nat, tSpin: bool): nat {
    if tSpin then cleared * 2
    else if cleared == 2 then 1
    else if cleared == 3 then 3
    else if cleared == 4 then 4
    else 0
  }

  predicate Difficult(cleared: nat, tSpin: bool) {
    tSpin || cleared == 4
  }

  /** The guideline attack table: base value, back-to-back bonus, combo bonus. */
  function Damage(combo: int, b2b: bool, cleared: nat, tSpin: bool): nat {
    if cleared == 0 then 0
    else
      var bonus := if Difficult(cleared, tSpin) && b2b then 1 else 0;
      BaseGarbage(cleared, tSpin) + bonus + ComboBonus(combo + 1)
  }

  // ----- One tick -----

  function Min(a: int, b: int): int {
    if a < b then a else b
  }

  function LockedBoard(g: Game): Playfield {
    Locked(g.board, g.current.t, g.current.rot, g.current.x, g.current.y)
  }

  /** Rows completed when the piece locks where it is. */
  function Completed(g: Game): nat {
    FullCount(LockedBoard(g))
  }

  function ClearedBoard(g: Game): Playfield {
    ClearedShape(LockedBoard(g), WIDTH);
    Cleared(LockedBoard(g), WIDTH)
  }

  /** Lines of garbage the lock generates. */
  function Attack(g: Game): nat {
    Damage(g.combo, g.b2b, Completed(g), IsTSpin(g))
  }

  /** Lines the lock's attack takes off the pending garbage. */
  function Cancelled(g: Game): nat {
    Min(Attack(g), g.pending)
  }

  /** Garbage rows the lock takes in: what is pending, if no row was completed. */
  function RowsTaken(g: Game): nat {
    if Completed(g) == 0 then g.pending else 0
  }

  function SettledBoard(g: Game, holes: seq<nat>): Playfield {
    if RowsTaken(g) > 0 then Raised(ClearedBoard(g), Min(RowsTaken(g), HEIGHT), holes) else ClearedBoard(g)
  }

  function NextPiece(g: Game): Piece {
    Piece(g.bag.slots[g.bag.index], 0, SPAWN_X, SPAWN_Y)
  }

  /** A resting piece below the top edge locks: it is baked in, full rows go, the attack
      cancels pending garbage and the rest is sent, garbage is taken in if nothing was
      cleared, and the next piece appears, or the game ends because it has no room. */
  ghost function LockedDown(g: Game, rolls: Rolls): Game {
    var n, tSpin, board := Completed(g), IsTSpin(g), SettledBoard(g, rolls.holes);
    g.(board := board,
       current := NextPiece(g),
       bag := Dealt(g.bag, rolls.picks),
       hasHeld := false,
       piecesPlaced := g.piecesPlaced + 1,
       tSpins := g.tSpins + (if tSpin then 1 else 0),
       tetrises := g.tetrises + (if n == 4 then 1 else 0),
       linesCleared := g.linesCleared + n,
       level := if n > 0 then (g.linesCleared + n) / 10 + 1 else g.level,
       score := g.score + n * 100,
       combo := if n == 0 then -1 else g.combo + 1,
       b2b := if n == 0 then g.b2b else Difficult(n, tSpin),
       outgoing := Attack(g) - Cancelled(g),
       pending := g.pending - Cancelled(g) - RowsTaken(g),
       gameOver := g.gameOver || !PieceFits(board, NextPiece(g)))
  }

  ghost function Ticked(g: Game, rolls: Rolls): Game {
    if !Resting(g) then MovedTo(g, g.current.x, g.current.y + 1)
    else if g.current.y < 0 then g.(gameOver := true)
    else LockedDown(g, rolls)
  }

  function Threshold(level: nat): (t: int)
    ensures 5 <= t
    ensures level >= 1 ==> t <= GRAVITY_START
  {
    var t := GRAVITY_START - (level - 1) * 5;
    if t < 5 then 5 else t
  }

  /** One simulation step without input. */
  ghost function Timed(g: Game, rolls: Rolls): Game {
    if Resting(g) then
      if g.lockTimer + 1 >= LOCK_START
      then Ticked(g.(lockTimer := g.lockTimer + 1), rolls).(lockTimer := 0, gravityTimer := 0)
      else g.(lockTimer := g.lockTimer + 1)
    else
      if g.gravityTimer + 1 >= Threshold(g.level)
      then Ticked(g.(lockTimer := 0, gravityTimer := g.gravityTimer + 1), rolls).(gravityTimer := 0)
      else g.(lockTimer := 0, gravityTimer := g.gravityTimer + 1)
  }

  function Queued(g: Game, lines: int): Game {
    if lines <= 0 then g else g.(pending := Min(g.pending + lines, HEIGHT))
  }

  // ----- Targets -----

  predicate Targetable(r: Roster, self: nat, i: nat)
    requires |r.ids| == |r.eliminated| && i < |r.ids|
  {
    r.ids[i] != self && !r.eliminated[i]
  }

  /** The first living opponent `step` or more seats after `from`, going round once. */
  function NextTarget(r: Roster, self: nat, from: int, step: nat): (i: int)
    requires |r.ids| == |r.eliminated| && -1 <= from < |r.ids| && 1 <= step
    ensures i == -1 || (0 <= i < |r.ids| && Targetable(r, self, i))
    decreases |r.ids| + 1 - step
  {
    if step > |r.ids| then -1
    else
      var i := (from + step + |r.ids|) % |r.ids|;
      if Targetable(r, self, i) then i else NextTarget(r, self, from, step + 1)
  }

  function SeatOf(ids: seq<nat>, id: nat): (i: int)
    ensures -1 <= i < |ids|
    ensures i >= 0 ==> ids[i] == id
  {
    if ids == [] then -1
    else if ids[0] == id then 0
    else
      var i := SeatOf(ids[1..], id);
      if i < 0 then -1 else i + 1
  }

  function Retargeted(g: Game, r: Roster): Game
    requires |r.ids| == |r.eliminated|
  {
    if |r.ids| <= 1 then g
    else
      var i := NextTarget(r, g.playerId, SeatOf(r.ids, g.targetId), 1);
      if i < 0 then g else g.(targetId := r.ids[i])
  }

  function NextMode(m: TargetMode): TargetMode {
    match m
    case Manual => Random
    case Random => Ko
    case Ko => Manual
  }

  // ----- Player actions -----

  datatype Action =
    | NoAction | MoveLeft | MoveRight | RotateCw | RotateCcw | SoftDrop | HardDrop | Hold
    | CycleTargetMode | CycleTarget(roster: Roster) | Quit

  ghost function Shifted(g: Game, dx: int, dy: int): Game {
    if FitsAt(g, g.current.x + dx, g.current.y + dy) then Moved(g, dx, dy).(lockTimer := 0) else g
  }

  ghost predicate WellFormedAction(a: Action) {
    a.CycleTarget? ==> |a.roster.ids| == |a.roster.eliminated|
  }

  ghost function Acted(g: Game, a: Action, rolls: Rolls): Game
    requires WellFormedAction(a)
  {
    if g.gameOver then g
    else
      match a
      case NoAction => g
      case MoveLeft => Shifted(g, -1, 0)
      case MoveRight => Shifted(g, 1, 0)
      case RotateCw => TurnedTo(g, (g.current.rot + 1) % 4).(lockTimer := 0)
      case RotateCcw => TurnedTo(g, (g.current.rot + 3) % 4).(lockTimer := 0)
      case SoftDrop => Shifted(g, 0, 1)
      case HardDrop => Ticked(Dropped(g), rolls).(gravityTimer := 0, lockTimer := 0)
      case Hold => if g.hasHeld then g else Held(g, rolls.picks).(gravityTimer := 0)
      case CycleTargetMode => g.(targetMode := NextMode(g.targetMode))
      case CycleTarget(r) => Retargeted(g, r)
      case Quit => g.(gameOver := true)
  }
}
