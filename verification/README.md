# A verified model of the terminal Tetris and Bomberman servers

The repository holds a battle-royale Tetris server that forks one worker per room, the engine
each room runs, the HTTTP text protocol its clients speak, a Bomberman arena and a log
pipeline. This project models the parts where correctness is not visible in any single
function and proves what they promise, for all inputs, all random results and all
interleavings. `dafny verify dfyconfig.toml` checks everything.

## How it is organised

Each component has a value model (datatypes and functions) about which the theorems are
proved, and, where the code changes things in place, classes and methods whose contracts say
that every call computes exactly what the value model says.

| files | component |
|---|---|
| Collections, Arith | sets, sequences and random inputs; square roots and division |
| Tetromino, Board, BoardArrays, Bag, Kicks | pieces, board, in-place board loops, shuffle and bag, kicks |
| Engine, EngineRuns, EngineAccounts, EnginePieces, EngineTiming, GameStates | the engine as a function of events, whole games and their accounts, where pieces go and what actions do to them, timing, the engine object |
| Targeting | whom an attack is aimed at |
| Hub, HubSafety, HubMasterSteps, HubTable, HubFullTable, HubGarbage, HubDelivery, HubAttacks, HubDealing | master and room workers as one state machine; safety, the player table, garbage accounts, where attacks go, dealing |
| HubMail, HubEnding, HubHeard, HubStarts | what the master tells its rooms, when the match ends and whom that reaches, what workers then know, which rooms start |
| HubMaster, HubRoom | the master process and the room process as they run |
| Spawns, Maps, Bombs, Arenas | spawn placement, map generation, bomb queues, arena play |
| Hypertext, HypertextBuffers, Payload, Protocol, PayloadBuffers | message text, in-place parser and printer, payloads, snapshot to mirror |
| Logs | queue, sender, gap tracker |

Random numbers are inputs (`rand()` is a sequence of arbitrary results, 0 past its end), so
every theorem holds for all of them. In the hub, a step is as small as one message, one
report or one attack, the two channels of a room are first-in first-out, a worker may exit at
any step, and room count, lobby size and room size are parameters.

## Main results

- *Engine.* In every game, after any actions, ticks, incoming garbage and random results, the
  filled cells are 4 per piece locked, minus 10 per line cleared, plus 9 per garbage row, minus
  the cells pushed off the top. The current piece is inside the walls and overlaps nothing unless
  the game is over or it was just swapped in from hold. No row is full between events, a lock
  sends at most 12 lines; lines accepted = pending + cancelled + taken in, and lines generated =
  cancelled + sent. Pieces come in sets of seven, every preview comes true, and every piece dealt
  is placed, falling or held. Moves, turns and drops are described cell by cell. An untouched
  piece falls at its level's pace and locks at an exactly computed step.
- *Hub.* At most one winner is ever announced. Everybody else in the master's table is then
  really out, and the table holds everyone whose join was handled if and only if no more joins
  were handled than it has places. Eliminations are reported once, after the join, only of
  players who are out. Consumed attack lines = delivered + dropped + lost with a worker + in
  flight, each attack lands at most once, in the victim's room, never on the attacker, and the
  master drops one if and only if its victim cannot be reached. The match goes on while it is
  undecided, its end reaches every used room once and names the announced winner, and the last
  roster of a running room is the master's table. Every accepted socket is parked or closed,
  exactly once in all.
- *Text.* Parsing undoes printing, and all headers are stored if and only if they fit a message's
  16 places; the state of every reachable game goes through snapshot, text, buffer and back, and
  the client's mirror agrees.
- *Arena.* For every player count, every player has an own spawn tile and the fallback is never
  used. A tile burns exactly if the bomb's fire reaches it unhindered. The walls stay exactly those generated, nothing becomes solid, no live player ever
  overlaps a solid tile.
- *Log.* Pushed = sent + counted as dropped + queued. Gap counts are exactly the missing records
  after every arrival if and only if every arrival from a known sender passes a test on the
  numbers seen so far, as all do when every sender's order is kept.

Some properties one might expect are false of the code. The project gives a failing input and
says exactly when they hold:

- A player whose join was handled can be missing from the table once a slot has been used again,
  and a winner announced over it (`HubFullTable.FullTableMisleads`, a small instance with three
  rooms of one seat each). Everybody is recorded if and only if the joins handled fit the table
  (`HubTable.EverybodyIsRecorded`), as they do while no slot was used again
  (`HubTable.NoReuseNoLoss`).
- A worker need not learn of the end of the match (`HubHeard.EndCanBeMissed`); it does if and only
  if the announcement is among the messages it takes after its lobby (`HubHeard.WorkerHearsTheEnd`),
  and otherwise it never will (`HubHeard.MissedForever`).
- The three-corner test for T-spins is not centred on the piece. For a piece on the board it is
  the three-corner rule, whatever the board holds, if and only if the piece stands one clockwise
  turn from its spawn position (`EnginePieces.CornerTestIsOffCentre`).
- The blasts of a tick need not be where the bombs were whose time is up
  (`Bombs.AnotherBombGoesOff`, `Bombs.SecondBlastElsewhere`). They all are if and only if each of
  the last bombs of the queue, as many as are due, shares its tile with one that is due
  (`Bombs.BlastsAreDue`). Every due bomb has a blast on its tile if and only if each lies where
  the queue says a blast is to be, which with bombs on different tiles means that none before the
  last is due (`Bombs.EveryDueBombGoesOff`, `Bombs.BlastsAreWhere`).
- Rotating back always succeeds but need not return to the same place (`Kicks.RotatingBackMayMiss`);
  it does if and only if no earlier kick of the way back fits elsewhere
  (`Kicks.RotationCanBeUndone`).
- A message without headers need not be read back (`Hypertext.HeaderlessCanFail`); it is if and
  only if what follows its request line contains no double line end, or starts with one
  (`Hypertext.HeaderlessRoundTrip`).
- A text with 17 headers is read, but a message has 16 places (`Hypertext.SeventeenHeaders`). All
  headers have a place if and only if no more than 16 are counted or the seventeenth cannot be
  read (`HypertextBuffers.ParseHypertext`, `Hypertext.PrintedHeadersFit`).
- The body of an overlong message need not be printed inside the buffer
  (`HypertextBuffers.LongHeaderLeavesNoPlace`); it is if and only if request line and headers fit,
  or some of the headers fill the buffer exactly (`HypertextBuffers.BodyHasPlace`).
- Gap counts can be wrong (`Logs.ReusedPidIsOvercounted`); they are right after every arrival if
  and only if every arrival from a known sender is behind everything so far with the last arrival
  the greatest, or right in front of everything so far, or a repetition that does not look like a
  gap (`Logs.ExactIffFitting`).

## Model

| member | source | states |
|---|---|---|
| `Tetromino.SolidIffCell` | tetris/src/lib/libtetrisbrain/board_control.c:4-30 | The 16-cell pictures read through the rotation index show exactly the four cells of the rotated piece. |
| `BoardArrays.IsValidPos` | tetris/src/lib/libtetrisbrain/board_control.c:142-169 | The 4x4 scan accepts a position iff every cell of the piece is within the walls, above the floor and free (rows above the top count as free). |
| `BoardArrays.LockPiece` | tetris/src/lib/libtetrisbrain/board_control.c:172-197 | The in-place scan writes the piece type into exactly the cells of the piece that are on the board. |
| `Board.LockFillsFourEmptyCells` | tetris/src/lib/libtetrisbrain/board_control.c:172-197 | A fitting piece at row 0 or below turns four distinct empty cells into its type, changes no other cell and raises the cell count by 4. |
| `BoardArrays.ClearLines` | tetris/src/lib/libtetrisbrain/board_control.c:200-250 | The shifting loop that re-examines a row terminates, returns the number of full rows and leaves that many empty rows above the other rows in order. |
| `Board.RemoveRowKeepsCleared` | tetris/src/lib/libtetrisbrain/board_control.c:218-240 | Dropping out one full row lowers the number of full rows by one and leaves what clearing amounts to unchanged. |
| `Board.ClearedCount` | tetris/src/lib/libtetrisbrain/board_control.c:200-250 | Clearing removes ten cells per full row. |
| `Board.LockFillsFewRows` | tetris/src/lib/libtetrisbrain/board_control.c:172-250 | On a board without full rows one lock completes at most 4 rows, at most 3 with a T. |
| `BoardArrays.AddGarbage` | tetris/src/lib/libtetrisbrain/garbage.c:5-43 | Any number of lines is handled: none if not positive, at most 20; rows move up and garbage rows with one random hole each fill the bottom. |
| `Board.RaisedCount` | tetris/src/lib/libtetrisbrain/garbage.c:5-43 | Garbage adds nine cells a row and loses exactly the cells of the rows pushed off the top. |
| `Board.RaisedHasNoFullRow` | tetris/src/lib/libtetrisbrain/garbage.c:26-43 | Garbage never makes a row full, since every garbage row keeps a hole. |
| `Board.RaisedAt` | tetris/src/lib/libtetrisbrain/garbage.c:14-43 | Every row moves up by the number of lines, and each garbage row has one hole, at the column its random number says. |
| `Bag.ShuffleArray` | tetris/src/lib/libtetrisbrain/bag.c:5-13 | The in-place Fisher-Yates loop computes the arrangement that its choice sequence stands for. |
| `Bag.ShuffleBijective` | tetris/src/lib/libtetrisbrain/bag.c:5-13 | On distinct elements of any number, choice sequences correspond one-to-one to arrangements: each is reached, by exactly one sequence. |
| `Bag.DealtDealing` | tetris/src/lib/libtetrisbrain/bag.c:16-51 | Dealing a piece, with or without a refill, keeps dealt pieces and bag contents together a row of complete sets of seven. |
| `Bag.DealtInBlocks` | tetris/src/lib/libtetrisbrain/bag.c:16-51 | Every aligned block of seven dealt pieces holds each piece once. |
| `Bag.EveryPieceWithinThirteen` | tetris/src/lib/libtetrisbrain/bag.c:16-51 | Any thirteen pieces in a row contain every piece, so at most twelve others separate two of one type. |
| `Bag.PreviewIsNextThree` | tetris/src/lib/libtetrisprotocol/protocol.c:15-18 | The three pieces shown are the next three dealt, whatever the shuffles to come and across a refill. |
| `Kicks.KickReversed` | tetris/src/lib/libtetrisbrain/board_control.c:35-122 | Each kick is the negative of the same kick of the opposite rotation, for every piece and table. |
| `Kicks.RotationCanBeUndone` | tetris/src/lib/libtetrisbrain/board_control.c:65-137 | After a successful rotation of a fitting piece the opposite rotation succeeds; it ends in the same place iff no earlier kick fits in another place. |
| `Kicks.RotatingBackMayMiss` | tetris/src/lib/libtetrisbrain/board_control.c:65-137 | On an empty board, an upright T at the left wall turns away from it and turning back leaves it one column off. |
| `GameStates.GameState.constructor` | tetris/src/lib/libtetrisbrain/state.c:12-50 | A new game: empty board, two shuffled sets, first piece dealt, counters at their start values. |
| `GameStates.GameState.RefillBag` | tetris/src/lib/libtetrisbrain/bag.c:16-29 | The second half moves to the front and a freshly shuffled set fills the back. |
| `GameStates.GameState.SpawnNewPiece` | tetris/src/lib/libtetrisbrain/bag.c:32-51 | The piece at the bag index appears at the spawn place and the bag moves on, refilled when seven were dealt. |
| `GameStates.GameState.Shift` | tetris/src/lib/libtetrisbrain/movement.c:4-32 | The piece moves by one step iff it fits there; the result says whether it moved. |
| `GameStates.GameState.HardDropPiece` | tetris/src/lib/libtetrisbrain/movement.c:34-42 | The loop drops the piece as far as it fits and counts the rows. |
| `GameStates.GameState.HoldPiece` | tetris/src/lib/libtetrisbrain/hold.c:5-30 | Once per piece, the current piece is swapped with the held one, or with the next from the bag if none is held. |
| `GameStates.GameState.TestRotate` | tetris/src/lib/libtetrisbrain/board_control.c:65-121 | The first of five kicks that fits is taken; otherwise nothing changes. |
| `GameStates.GameState.CheckTSpin` | tetris/src/lib/libtetrisbrain/engine.c:7-41 | A T that last rotated and has at least three blocked corners around the tested centre. |
| `GameStates.GameState.CalculateGarbage` | tetris/src/lib/libtetrisbrain/garbage.c:64-119 | Damage is base value plus back-to-back plus combo bonus; combo and back-to-back move on or reset. |
| `GameStates.GameState.SettleGarbage` | tetris/src/lib/libtetrisbrain/engine.c:77-96 | Attack and pending garbage cancel, the rest is sent, or taken in when nothing was cleared. |
| `GameStates.GameState.LockDown` | tetris/src/lib/libtetrisbrain/engine.c:61-107 | Lock, clear, attack, cancel, garbage and spawn in the code's order give the whole next state of the value model. |
| `GameStates.GameState.TickGame` | tetris/src/lib/libtetrisbrain/engine.c:44-108 | Falls one row, ends the game above the top edge, or locks; returns the rows completed by a lock and 0 otherwise. |
| `GameStates.GameState.UpdateTimers` | tetris/src/lib/libtetrisbrain/engine.c:110-142 | One step of gravity or lock delay; the result is true exactly when a timer runs out, and otherwise board and piece are as before. |
| `GameStates.GameState.QueueGarbage` | tetris/src/lib/libtetrisbrain/garbage.c:46-62 | Pending garbage grows by positive amounts and stops at 20. |
| `GameStates.GameState.CycleManualTarget` | tetris/src/lib/libtetrisbrain/targeting.c:13-39 | The next living opponent in seat order becomes the target, going round once; otherwise nothing changes. |
| `GameStates.GameState.ApplyAction` | tetris/src/tetrisd/game.c:59-140 | Every player action does to the game what the value model says, and nothing once the game is over. |
| `EnginePieces.EveryPieceIsSomewhere` | tetris/src/lib/libtetrisbrain/hold.c:5-30 | In every game, the pieces dealt are, as a multiset, those placed, the falling one and the held one. |
| `EnginePieces.StepTypes` | tetris/src/lib/libtetrisbrain/hold.c:5-30 | A lock places the falling piece and brings the next; a hold swaps the falling piece with the held one, or with the next if none is held; no other event changes what falls or is held. |
| `EnginePieces.OneHoldPerPiece` | tetris/src/lib/libtetrisbrain/hold.c:5-30 | After a hold, until a piece is placed, no event changes what falls and what is held. |
| `EnginePieces.MovesByOne` | tetris/src/lib/libtetrisbrain/movement.c:4-32 | Left, right and soft drop move every cell by one if all cells there are free, and otherwise change nothing at all. |
| `EnginePieces.TurnsEveryCell` | tetris/src/lib/libtetrisbrain/board_control.c:124-137 | Where the cells turned in place are free, the clockwise action turns each of them clockwise in the piece's box, and the other action turns each back. |
| `EnginePieces.TurningBack` | tetris/src/lib/libtetrisbrain/board_control.c:124-137 | Each rotation action undoes the other where the piece and its turned cells have room. |
| `EnginePieces.HardDropLands` | tetris/src/lib/libtetrisbrain/movement.c:34-42 | A hard drop passes through free cells only, for the one number of rows after which a cell below is not free; the piece's type is then written into its cells there and nowhere else, or the game ends above the top edge. |
| `EnginePieces.ComboIsTheStreak` | tetris/src/lib/libtetrisbrain/garbage.c:64-119 | In every game the combo counter is one less than the locks in a row that completed rows, the back-to-back flag says whether the last such lock was a T-spin or four rows, and locks of four rows are counted. |
| `EnginePieces.DamageTable` | tetris/src/lib/libtetrisbrain/garbage.c:64-119 | The whole attack table in closed form: base value, back-to-back bonus, combo bonus by streak length. |
| `EnginePieces.LockAnswersGarbage` | tetris/src/lib/libtetrisbrain/engine.c:76-96 | A lock that completes rows sets its attack against pending garbage and sends what is left over; one that completes none takes in all that is pending and sends nothing. |
| `EnginePieces.CornerTestIsOffCentre` | tetris/src/lib/libtetrisbrain/engine.c:7-41 | The tested centre is a T's middle cell only after one clockwise turn: there the test is the three-corner rule on every board, in any other rotation some board with all four corners blocked fails it. |
| `EnginePieces.EverybodySkippedIsOut` | tetris/src/lib/libtetrisbrain/targeting.c:13-39 | Going round the seats, everybody skipped is dead or the player itself, and without a result everybody is. |
| `EngineRuns.LockYield` | tetris/src/lib/libtetrisbrain/garbage.c:64-119 | A lock on a board without full rows completes at most 4 rows (3 with a T) and generates at most 12 lines. |
| `EngineRuns.StepKeepsInv` | tetris/src/lib/libtetrisbrain/engine.c:44-142 | Every event keeps: piece in bounds and free (or game over, or just swapped in) and at most three rows above its spawn place, no full row, lock timer below 50 and gravity timer below the level's threshold, level = lines/10+1, pending at most 20, sent at most 12, bag of two complete sets. |
| `EngineRuns.LockBalance` | tetris/src/lib/libtetrisbrain/engine.c:61-108 | One lock changes the cell count by 4 - 10 per row completed + 9 per garbage row - cells pushed off the top. |
| `EngineRuns.EveryRun` | tetris/src/tetrisd/game.c:59-168 | In every game, after any events, the invariant, the cell balance and the order of dealt pieces hold. |
| `EngineRuns.CellsAreConserved` | tetris/src/lib/libtetrisbrain/engine.c:44-108 | In every game, filled cells = 4 pieces - 10 lines + 9 garbage rows - cells pushed off. |
| `EngineRuns.DealtPieceAppears` | tetris/src/lib/libtetrisbrain/bag.c:32-51 | In every event a piece is written down as dealt exactly when it appears at the spawn place as the current piece. |
| `EngineRuns.PiecesComeInSets` | tetris/src/lib/libtetrisbrain/state.c:35-49 | In every game, pieces come in blocks of seven different ones, and any thirteen in a row hold all seven. |
| `EngineAccounts.PreviewComesTrue` | tetris/src/lib/libtetrisprotocol/protocol.c:15-18 | At every moment of every game the three pieces shown are the next three dealt, whatever happens in between. |
| `EngineAccounts.GarbageIsConserved` | tetris/src/lib/libtetrisbrain/garbage.c:46-62 | In every game, lines received = accepted + refused at the cap, accepted = pending + cancelled + taken in, generated = cancelled + sent, and the rows taken in are those the cell balance counts. |
| `EngineAccounts.EveryLockFits` | tetris/src/lib/libtetrisbrain/engine.c:47-68 | In every game every piece that locks, by time or hard drop, finds its cells free. |
| `EngineAccounts.OverStaysOver` | tetris/src/tetrisd/game.c:59-63 | A finished game stays finished through any further events, with its board as it was. |
| `EngineTiming.OneStepCloser` | tetris/src/lib/libtetrisbrain/engine.c:110-142 | One idle step lowers the number of steps to the lock by exactly one, or is the lock. |
| `EngineTiming.IdlePieceLocksOnTime` | tetris/src/lib/libtetrisbrain/engine.c:110-142 | Without input a live piece at row y locks, or the game ends, at an explicit step number of at most 50 (20 - y), and never before. |
| `EngineTiming.FallsAtItsPace` | tetris/src/lib/libtetrisbrain/engine.c:110-142 | A piece that has just fallen is one row lower after exactly 50 steps on level 1, five fewer a level, 5 from level 10 on, and not before. |
| `EngineTiming.RestsForFifty` | tetris/src/lib/libtetrisbrain/engine.c:119-130 | A piece that has just come to rest locks, or ends the game, at the fiftieth step and not before. |
| `Targeting.CollectOpponents` | tetris/src/lib/libtetrisbrain/targeting.c:45-54 | The candidates in roster order. |
| `Targeting.OpponentsAreTheLiving` | tetris/src/lib/libtetrisbrain/targeting.c:45-54 | A player is a candidate iff it is alive and not the attacker. |
| `Targeting.ResolveTarget` | tetris/src/lib/libtetrisbrain/targeting.c:42-77 | Random draws a candidate if there is one, retaliation hits a living last attacker, everything else the locked target. |
| `Targeting.ResolveVictim` | tetris/src/tetrisd/room.c:75-107 | The whole match is considered first, the room second, the locked target last. |
| `Targeting.DrawsAreTheLiving` | tetris/src/tetrisd/room.c:80-94 | The players that some random result selects are exactly the living opponents. |
| `Targeting.VictimIsLivingOpponent` | tetris/src/tetrisd/room.c:75-107 | A victim other than the locked target is a living opponent; the attacker is hit only by a target locked on itself. |
| `Targeting.StartingTarget` | tetris/src/tetrisd/game.c:36-45 | The first target is the first other player of the room, or none. |
| `Targeting.NeverAimsAtItself` | tetris/src/lib/libtetrisbrain/targeting.c:13-77 | In every game started by a session, whatever the player does, no attack is aimed at its own attacker. |
| `HubMaster.MasterProcess.BroadcastRoster` | tetris/src/tetrisd/main.c:228-242 | Every running room is sent the player table. |
| `HubMaster.MasterProcess.StartRoom` | tetris/src/tetrisd/main.c:244-258 | A used, unstarted room with a player is started and told how many to expect. |
| `HubMaster.MasterProcess.StartAllRooms` | tetris/src/tetrisd/main.c:263-268 | Every room is started in turn. |
| `HubMaster.MasterProcess.CheckGlobalEnd` | tetris/src/tetrisd/main.c:273-307 | The match ends once, when at most one of several players (none of one) is alive, and every room is told the winner. |
| `HubMaster.MasterProcess.CloseRoom` | tetris/src/tetrisd/main.c:312-338 | Parked clients are dropped; before the end of the match the room's players are out. |
| `HubMaster.MasterProcess.HandleHubMsg` | tetris/src/tetrisd/main.c:341-415 | Every worker message changes the master as the state machine says. |
| `HubMaster.MasterProcess.SpawnRoom` | tetris/src/tetrisd/main.c:124-177 | A new worker takes the first unused slot, if the fork succeeds. |
| `HubMaster.MasterProcess.FillingRoom` | tetris/src/tetrisd/main.c:180-188 | The first open room with room left, or a new one. |
| `HubMaster.MasterProcess.AcceptClient` | tetris/src/tetrisd/main.c:198-224 | A client is redirected, parked until the room listens, or refused. |
| `HubRoom.RoomProcess.constructor` | tetris/src/tetrisd/room.c:138-144 | A fresh worker opens its lobby and tells the master, as one step of the system. |
| `HubRoom.RoomProcess.Meanwhile` | tetris/src/tetrisd/room.c:222-281 | Whatever step another process makes, the worker's state stays what the system says it is, and its mail only grows. |
| `HubRoom.RoomProcess.ReportArrivals` | tetris/src/tetrisd/room.c:158-165 | Every client not yet reported is reported, in order, once. |
| `HubRoom.RoomProcess.TakeLobbyMail` | tetris/src/tetrisd/room.c:167-177 | All mail is taken; the start order is noticed wherever it stands, and the last roster is kept. |
| `HubRoom.RoomProcess.Begin` | tetris/src/tetrisd/game.c:10-46 | Every reported client gets a seat and a first target. |
| `HubRoom.RoomProcess.ApplyRemoteGarbage` | tetris/src/tetrisd/room.c:54-71 | Garbage lands on the victim's seat iff the victim is active and not out, and on no other seat; the victim remembers the attacker. |
| `HubRoom.RoomProcess.TakeMail` | tetris/src/tetrisd/room.c:256-281 | All mail is taken in order; only garbage touches a player, feeds never do; every player hit remembers its last attacker; afterwards the roster is the master's present table, and a winner held is the one announced. |
| `HubRoom.RoomProcess.ActAll` | tetris/src/tetrisd/room.c:222-253 | The players' actions move their games on and may change whom they aim at, not who attacked them last. |
| `HubRoom.RoomProcess.ReportOut` | tetris/src/tetrisd/room.c:295-305 | Exactly the players that are out and unreported are reported, in seat order. |
| `HubRoom.RoomProcess.RouteOne` | tetris/src/tetrisd/room.c:312-350 | An attack is consumed, aimed by the target rules, and lands in the room (and is remembered there), leaves for the master or is dropped, with exactly the messages the code sends. |
| `HubRoom.RoomProcess.RouteAll` | tetris/src/tetrisd/room.c:307-350 | Every waiting attack is consumed once; apart from attack and garbage amounts no seat changes. |
| `HubRoom.RoomProcess.Tick` | tetris/src/tetrisd/room.c:222-350 | One turn of the loop (actions, mail, simulation, reports, attacks) is a sequence of steps of the system; afterwards, unless the match is over, everyone out is reported and no attack waits. |
| `HubRoom.RoomProcess.RoomOver` | tetris/src/tetrisd/room.c:387-413 | Exactly the players still connected are finished and told, in seat order, the winner the master announced. |
| `HubSafety.OwnerIsWorkerOf` | tetris/src/tetrisd/main.c:124-177 | The id ranges of all rooms ever spawned are disjoint: an id names its worker. |
| `HubMasterSteps.StepKeepsSafe` | tetris/src/tetrisd/main.c:341-415 | Every step of master or worker keeps the safety invariant. |
| `HubMasterSteps.EveryRunIsSafe` | tetris/src/tetrisd/main.c:418-551 | The safety invariant holds in every state of every run. |
| `HubMasterSteps.WinnerIsTheOneAlive` | tetris/src/tetrisd/main.c:273-307 | When the match is decided, a table entry is alive iff it is the announced winner. |
| `HubMasterSteps.AtMostOneTrueWinner` | tetris/src/tetrisd/main.c:273-338 | In every run at most one winner is announced; if not 0 it is the only one alive in the table, and every other player has quit or topped out in its room or its worker has exited. |
| `HubMasterSteps.ReportedOnceAfterJoin` | tetris/src/tetrisd/room.c:295-305 | In every run an elimination is sent at most once per player, only when it is out, and behind its join. |
| `HubTable.EveryRunIsComplete` | tetris/src/tetrisd/main.c:355-364 | In every run, while the table has a place left, everyone whose join was handled has a record. |
| `HubTable.EverybodyIsRecorded` | tetris/src/tetrisd/main.c:355-364 | In every run, everyone whose join was handled has a record iff no more joins were handled than the table has places. |
| `HubTable.NoReuseNoLoss` | tetris/src/tetrisd/main.c:124-177 | As long as no more workers were spawned than there are slots, the joins handled fit the table. |
| `HubTable.FlagsAgreeWhenDrained` | tetris/src/tetrisd/main.c:355-378 | After a report pass, with the channel drained, every record of a room says of its player what the room says, and every seat of the room has such a record if the joins handled fit the table. |
| `HubTable.WinnerBeatsEveryone` | tetris/src/tetrisd/main.c:273-307 | From the announcement on, everyone whose join was handled before it, other than the winner, is really out, if the joins handled fit the table. |
| `HubFullTable.FullTableMisleads` | tetris/src/tetrisd/main.c:355-364 | A run that drops the fourth join and announces the second player while the fourth is in the game. |
| `HubMasterSteps.FlagsNeverReturn` | tetris/src/tetrisd/main.c:355-378 | Along every run the table only grows at the end and no alive flag returns to true. |
| `HubGarbage.StepConserves` | tetris/src/tetrisd/room.c:307-350 | Every step keeps: consumed attacks are, as a multiset, the delivered, dropped, lost and in-flight ones. |
| `HubDelivery.GarbageLandsOnceOrNever` | tetris/src/tetrisd/main.c:380-410 | In every run each attack ends at most once, only in its victim's room, never at its attacker, and what a player was given is what was delivered to it. |
| `HubDelivery.LinesAreConserved` | tetris/src/tetrisd/room.c:307-350 | In every run, lines consumed = delivered + dropped + lost with a worker + in flight. |
| `HubDealing.ParkingIsNeverFull` | tetris/src/tetrisd/main.c:198-224 | The branch for a full parking lot is never taken. |
| `HubDealing.ClientsAreDealtFairly` | tetris/src/tetrisd/main.c:180-224 | In every run no room is dealt more clients than its size, and every accepted socket is parked once or was closed once. |
| `HubDealing.ClientGoesToTheFirstOpenRoom` | tetris/src/tetrisd/main.c:180-224 | In every run a client takes a place in the first open room; only without one a worker is started, in the first unused slot; only without that it is turned away. |
| `HubEnding.MatchGoesOnWhileTwoLive` | tetris/src/tetrisd/main.c:273-291 | In every run, until the match has ended, two players of the table are alive, or its single player is, or it is empty. |
| `HubEnding.EndReachesEveryRoom` | tetris/src/tetrisd/main.c:293-300 | The step that ends the match announces the one player alive in the table, or nobody, and appends exactly that announcement to the channel of every used room, and of no other. |
| `HubEnding.GameOverTellsTheWinner` | tetris/src/tetrisd/main.c:293-300 | In every run, whatever end of the match a room was sent names the one winner announced, who alone was alive in the table; no room is sent a second one. |
| `HubHeard.WorkerKnowsTheWinner` | tetris/src/tetrisd/room.c:274-277 | In every run, the winner a worker holds once it knows of the end is the one announced. |
| `HubHeard.WorkerHearsTheEnd` | tetris/src/tetrisd/room.c:256-281 | In every run a live worker knows of the end iff the announcement is among the messages it took after its lobby. |
| `HubHeard.MissedForever` | tetris/src/tetrisd/room.c:167-177 | A worker that took the end of the match in its lobby never knows of it, however long it lives. |
| `HubHeard.EndCanBeMissed` | tetris/src/tetrisd/room.c:167-177 | A run in which that happens to the announced winner's own room. |
| `HubHeard.RostersAreTheTable` | tetris/src/tetrisd/main.c:228-242 | In every run the last roster of every running room is the present table, and every roster ever sent is a table the master has had: its ids and alive flags, in order. |
| `HubHeard.HeardRosterIsTheTable` | tetris/src/tetrisd/room.c:256-281 | In every run a worker in its match with no mail left last heard exactly the master's present table. |
| `HubHeard.OneStartOrder` | tetris/src/tetrisd/main.c:244-258 | In every run a room is sent a start order iff it counts as started, and only one. |
| `HubStarts.JoinsAreCounted` | tetris/src/tetrisd/main.c:355-361 | In every run the number of players counted for a used room is the number of its worker's joins handled. |
| `HubStarts.EnterStartsEverybody` | tetris/src/tetrisd/main.c:244-268 | ENTER starts exactly the used, unstarted rooms with a player, each told how many clients were dealt to it. |
| `HubStarts.FullHouseStarts` | tetris/src/tetrisd/main.c:355-368 | A join that fills the daemon starts exactly the used rooms with a player, its own among them; another join starts none. |
| `HubAttacks.AttackGoesToTheVictim` | tetris/src/tetrisd/main.c:380-396 | In every run a handled attack is dropped iff nobody alive with the victim's id is recorded in a used and started room; otherwise exactly that room's channel grows, by that attack. |
| `HubAttacks.NoticeGoesToTheOthers` | tetris/src/tetrisd/main.c:398-410 | A handled notice is sent once to every running room but the one it came from. |
| `HubAttacks.AttackLeavesItsRoom` | tetris/src/tetrisd/room.c:307-350 | In every run a consumed attack lands on exactly the other player with the victim's id that is still in the game; it is sent on iff the victim is somebody else not active in the room; it is dropped iff aimed at nobody, at the attacker or at a player of the room that has topped out. |
| `HubAttacks.GarbageArrives` | tetris/src/tetrisd/room.c:54-71 | In every run garbage taken in lands on exactly the player with the victim's id that is still in the game, and is dropped iff there is none. |
| `Spawns.MapSize` | bomberman/src/lib/libbombbrain/map.c:14-18 | The map side is the least, from the minimum on, whose square is at least 25 per player. |
| `Spawns.CentresSpread` | bomberman/src/lib/libbombbrain/map.c:35-70 | Centres of consecutive strips (or columns) lie inside and at least three apart. |
| `Spawns.InnerIsWide` | bomberman/src/lib/libbombbrain/map.c:30-50 | The rounded square-root strip count leaves three tiles per strip and one strip to spare. |
| `Spawns.CalcPlayerSpawns` | bomberman/src/lib/libbombbrain/map.c:20-72 | For every player count all spawns are inside the border and no two are within one plus-shaped clearing of each other. |
| `Maps.FillRandomly` | bomberman/src/lib/libbombbrain/map.c:118-136 | Every unset tile becomes what the next random number in scan order makes of it; marked tiles stay. |
| `Maps.MapGenerate` | bomberman/src/lib/libbombbrain/map.c:74-137 | For every player count the map has exactly one marker per player, a wall border, no wall just inside it, and clear neighbours; no clearing erased a marker; every tile is what its marks or its random number make it. |
| `Maps.CollectSpawns` | bomberman/src/bombd/session.c:12-24 | Exactly the spawn tiles are found, each once, so the fallback spawn is never needed; the markers are cleared and nothing else changes. |
| `Arenas.StartMatch` | bomberman/src/bombd/session.c:26-62 | The map is the generated one with its markers cleared, and every player starts alive on an own marked tile. |
| `Arenas.SmallStepStaysInMap` | bomberman/src/lib/libbombbrain/collision.c:4-12 | A box off the border that moves less than a tile overlaps only tiles of the map. |
| `Arenas.TickIsSmall` | bomberman/include/lib/libbombbrain/sim_config.h:8-15 | One tick at either speed moves less than one tile along each axis. |
| `Arenas.Arena.Collided` | bomberman/src/lib/libbombbrain/collision.c:14-27 | The scan reports a hit iff the box overlaps a solid tile. |
| `Arenas.Arena.MoveBox` | bomberman/src/lib/libbombbrain/collision.c:29-38 | Each axis in turn moves iff there is room, and the result overlaps no solid tile. |
| `Arenas.Arena.PlaceBomb` | bomberman/src/lib/libbombbrain/bomb_control.c:97-118 | A bomb appears on the tile under the player's centre, which its box overlaps, iff that tile is free and a bomb is left; the whole new state is stated. |
| `Arenas.Arena.HandleSpread` | bomberman/src/lib/libbombbrain/bomb_control.c:11-20 | One tile burns; under a breakable block the power-up that the random results choose, if any, is hidden there, and otherwise no random result is used. |
| `Arenas.Arena.TriggerExplosion` | bomberman/src/lib/libbombbrain/bomb_control.c:22-67 | A tile burns iff it lies above, below, left or right of the bomb within its reach and no tile from the bomb's up to it ends the loop of that direction; the blast remembers exactly those tiles. |
| `Arenas.Arena.CrossIsReached` | bomberman/src/lib/libbombbrain/bomb_control.c:33-65 | The tiles of a blast are, direction by direction, exactly those reached. |
| `Arenas.Arena.TickBombs` | bomberman/src/lib/libbombbrain/bomb_control.c:75-95 | The swap-remove loop leaves the bombs, adds the blasts and leaves on every tile what the queue's recursive description says; walls stay and nothing becomes solid. |
| `Bombs.AnotherBombGoesOff` | bomberman/src/lib/libbombbrain/bomb_control.c:86-92 | Of a bomb whose time is up and one whose is not, the later in the queue goes off. |
| `Bombs.BlastIsItsOwn` | bomberman/src/lib/libbombbrain/bomb_control.c:75-95 | In any queue, the first blast is centred on the first bomb whose time is up iff that bomb is last or the last bomb lies on the same tile. |
| `Bombs.BlastsAreWhere` | bomberman/src/lib/libbombbrain/bomb_control.c:75-95 | In any queue, as many bombs go off as are due, and a tile has a blast iff one of the last bombs, as many as are due, lies there; the foremost of those does not count when it and the next one are due. |
| `Bombs.BlastsAreDue` | bomberman/src/lib/libbombbrain/bomb_control.c:75-95 | In any queue, every blast of a tick is on the tile of a bomb whose time is up iff each of the last bombs, as many as are due, shares its tile with one that is due. |
| `Bombs.EveryDueBombGoesOff` | bomberman/src/lib/libbombbrain/bomb_control.c:75-95 | In any queue, every bomb whose time is up has a blast on its tile iff each lies on a tile described so; with bombs on different tiles iff none before the last is due. |
| `Bombs.SecondBlastElsewhere` | bomberman/src/lib/libbombbrain/bomb_control.c:75-95 | Of two due bombs on one tile with a live one between them, the second blast is on the live one's tile. |
| `Bombs.BlastsEndOnTime` | bomberman/src/lib/libbombbrain/bomb_control.c:120-143 | In any queue every blast ages by one tick, exactly once, in spite of the swaps, and exactly those with no time left end. |
| `Arenas.Arena.TickExplosions` | bomberman/src/lib/libbombbrain/bomb_control.c:120-143 | Exactly the blasts that are over leave the queue; every tile and what is hidden there is as those blasts, ending in order, leave it; no other tile changes. |
| `Arenas.Arena.SpawnPendingPowerups` | bomberman/src/lib/libbombbrain/powerup_control.c:37-51 | Hidden power-ups on the blast's tiles appear and are no longer hidden; nothing else changes. |
| `Arenas.Arena.PickUp` | bomberman/src/bombd/session.c:134-152 | The player gains one fire or bomb per power-up tile its box overlaps, and exactly those tiles become empty. |
| `Arenas.Arena.MovePlayer` | bomberman/src/bombd/session.c:102-156 | A live player moves, takes the power-ups it then overlaps and replenishes; nobody else and no other tile changes. |
| `Arenas.Arena.KillInExplosions` | bomberman/src/bombd/session.c:158-179 | Exactly the live players whose box overlaps a burning tile die. |
| `Arenas.TickSession` | bomberman/src/bombd/session.c:181-201 | A tick moves everybody as the solid tiles allow, burns bombs and blasts down, and puts out exactly those who then stand in a blast; nothing becomes solid. |
| `Arenas.RunEvents` | bomberman/src/bombd/session.c:92-201 | Through any bombs dropped and ticks, exactly the same tiles are walls, nothing becomes solid, and bombs, blasts and live players stay on open tiles. |
| `Arenas.PlayMatch` | bomberman/src/bombd/session.c:92-201 | After every match the walls are exactly those of the generated map, what is solid was solid then, the border is solid, and every live player's box overlaps only non-solid tiles of the map. |
| `Hypertext.ParseUndoesPrint` | corestack/src/lib/libhypertext.c:73-123 | Every message with legal tokens, at least one legal header and any body is read back exactly from its text; a message of the code holds at most 16 headers, and for more see the rows on places. |
| `Hypertext.PrintedHeadersFit` | corestack/src/lib/libhypertext.c:100-114 | The text of a legal message with headers fits the parser's header places iff it has at most 16 headers. |
| `Hypertext.SeventeenHeaders` | corestack/src/lib/libhypertext.c:100-114 | A legal text of 112 characters with 17 headers is read back but does not fit those places. |
| `Hypertext.HeaderlessRoundTrip` | corestack/src/lib/libhypertext.c:45-123 | A message without headers is read back exactly iff what follows its request line (a line end and the body) contains no double line end, or starts with one. |
| `Hypertext.HeaderlessCanFail` | corestack/src/lib/libhypertext.c:45-123 | A concrete message without headers, with a blank line inside its body, is not read back. |
| `HypertextBuffers.NextToken` | corestack/src/lib/libhypertext.c:16-43 | The token is cut at the first delimiter by overwriting it, what came before is untouched, and a missing delimiter changes nothing. |
| `HypertextBuffers.CountHeaderLines` | corestack/src/lib/libhypertext.c:45-71 | The line count up to the blank line. |
| `HypertextBuffers.ParseHeadersInPlace` | corestack/src/lib/libhypertext.c:100-114 | The headers are cut in place and stored in at most 16 places; all that were cut have a place iff no more than 16 are counted or the seventeenth cannot be read. |
| `HypertextBuffers.ParseHypertext` | corestack/src/lib/libhypertext.c:73-123 | The destructive parser succeeds iff the value parser does and reports whether every header had a place; its pointers then read that message, cut to 16 headers, and the whole message when every header had a place. |
| `HypertextBuffers.ConvertToHypertext` | corestack/src/lib/libhypertext.c:194-219 | On success the buffer holds the text cut to leave room for the terminator; success iff the text is at most 2048 long; the size the body's printing is given is stated, negative or not. |
| `HypertextBuffers.BodyHasPlace` | corestack/src/lib/libhypertext.c:200-210 | That size is not negative iff request line and headers fit the buffer or some of the headers fill it exactly. |
| `HypertextBuffers.LongHeaderLeavesNoPlace` | corestack/src/lib/libhypertext.c:200-210 | One header value of 2048 characters makes that size negative. |
| `HypertextBuffers.PrintedIsWhole` | corestack/src/lib/libhypertext.c:194-219 | The printed string is the whole text iff the text is shorter than 2048. |
| `HypertextBuffers.PrintThenParse` | corestack/src/lib/libhypertext.c:73-219 | Printing into a buffer and parsing that buffer in place yields the message if it has at most 16 headers, and the message cut to 16 headers otherwise. |
| `Payload.IntRoundTrip` | corestack/src/lib/libhtttp/payload.c:53-76 | A printed decimal, negative or not, is read back exactly wherever it stands. |
| `Payload.FieldsRoundTrip` | corestack/src/lib/libhtttp/payload.c:53-76 | A comma-separated list of numbers is read back exactly. |
| `Payload.BoardRoundTrip` | corestack/src/lib/libhtttp/payload.c:44-68 | A board of single-digit cells is read back exactly. |
| `Protocol.MethodRoundTrip` | corestack/src/lib/libhtttp.c:46-97 | Every method has a name, and the name stands for that method. |
| `Protocol.NameRoundTrip` | corestack/src/lib/libhtttp.c:46-97 | Every name that stands for a method is that method's name. |
| `Protocol.ExtractRoundTrip` | corestack/src/lib/libhtttp.c:230-243 | Method, player id and body of a printed and parsed request are those that were sent. |
| `Protocol.StateRoundTrip` | corestack/src/lib/libhtttp/payload.c:44-76 | Decoding undoes encoding, for board and all 23 numbers. |
| `Protocol.MirrorAgrees` | tetris/src/lib/libtetrisprotocol/protocol.c:6-74 | A snapshot applied to any mirror makes it agree on board, piece, next three, hold, counters, target and result. |
| `Protocol.StateTextFits` | corestack/src/lib/libhtttp.c:149-174 | The text of a state request is shorter than the buffer. |
| `Protocol.ServerStateReachesClient` | tetris/src/lib/libtetrisprotocol/protocol.c:6-74 | For every game in the invariant with counters that fit 32 bits: snapshot, encode, print, fit (buffer and header places), parse, extract, decode, apply, and the mirror agrees. |
| `Protocol.EveryRunReachesClient` | tetris/src/tetrisd/room.c:352-380 | The same for the state of every game after any events. |
| `PayloadBuffers.EncodeStateInto` | corestack/src/lib/libhtttp/payload.c:44-59 | The string left in the buffer is the encoded state. |
| `PayloadBuffers.ReadBoard` | corestack/src/lib/libhtttp/payload.c:61-68 | The loop at a running offset reads the board. |
| `PayloadBuffers.BuildStatePayload` | tetris/src/lib/libtetrisprotocol/protocol.c:6-37 | The payload is the snapshot of the running game. |
| `PayloadBuffers.ApplyStatePayload` | tetris/src/lib/libtetrisprotocol/protocol.c:41-74 | The running mirror takes over what was sent and keeps the rest. |
| `PayloadBuffers.Mirror` | tetris/src/lib/libtetrisprotocol/protocol.c:6-74 | Between two running games, building and applying makes the client agree and leaves the server as it was. |
| `Logs.Queue.Enqueue` | corestack/include/utils/queue.h:48-55 | Appends iff the last slot is free; otherwise the contents stay. |
| `Logs.Queue.Dequeue` | corestack/include/utils/queue.h:57-68 | Removes the first element; an emptied queue starts over at the first slot. |
| `Logs.LogClient.Push` | tetris/src/lib/libtetrislog/logclient.c:41-53 | A record is queued at the end if the last slot is free, and counted as dropped otherwise. |
| `Logs.LogClient.Drain` | tetris/src/lib/libtetrislog/logclient.c:56-88 | The first records of the queue, up to the limit, are attempted in order with the channel's answers, and the rest stay queued. |
| `Logs.LogClient.NothingIsLostSilently` | tetris/src/lib/libtetrislog/logclient.c:41-88 | Pushed = sent + counted as dropped + still queued. |
| `Logs.LogDaemon.Receive` | tetris/src/tetrislogd/main.c:56-73 | One record updates tracker and gap count as the value model says, with a full table ignored. |
| `Logs.ArrivalChange` | tetris/src/tetrislogd/main.c:285-299 | The gap counted for an arrival from a known sender is the change in that sender's missing records iff the arrival passes the test on the numbers seen so far. |
| `Logs.ExactIffFitting` | tetris/src/tetrislogd/main.c:285-299 | For any arrivals from up to 32 senders, the gap count is the number of missing records after every arrival iff every arrival from a known sender passes that test. |
| `Logs.GapsAreTheMissing` | tetris/src/tetrislogd/main.c:285-299 | For any interleaving of up to 32 senders and any losses, with each sender's order kept, the gap count is the number of records, over all senders, numbered between a sender's first and last arrival that never arrived; every sender is tracked once. |
| `Logs.ReusedPidIsOvercounted` | tetris/src/tetrislogd/main.c:285-299 | When numbers fall back, as after a process identifier is used again, a record that arrives can have been counted as lost. |

## Left out

- Sockets, fork, poll, threads, signals, clocks, sleeping, the handshake and its cryptography: input and output; the hub keeps only the messages, the sockets as numbers and the fact that a fork may fail.
- Operator shutdown (SIGINT), which closes the hubs of live rooms: the winner theorem is about runs in which a room is closed after its worker has exited.
- Rendering, audio, camera, terminal input, the event bus, the kill feed and both client programs: they display or forward and would only add easy members.
- The Bomberman wire packets, the client map mirror, and the attack, roster and input payloads: field copies with the same kind of text round trip as the state payload.
- 32-bit overflow of counters and rounding of floats: counters are mathematical integers, positions real numbers; `Protocol.ServerStateReachesClient` says which counters must fit 32 bits.
- Ids: a room hands out at most one lobby of ids, as the hub's id ranges assume; an aborted handshake that burns more ids than that is not modelled.
- What the engine does inside a hub worker: the hub lets a player's game do anything except come back to life, so its theorems hold for every engine; queue amounts in the hub are totals, without the cap of 20 that `GameStates.GameState.QueueGarbage` states and `EngineAccounts.GarbageIsConserved` accounts for.
- Attack conservation across several locks in one tick: the code assigns the attack of a lock over an earlier unsent one, so accounts are per lock and, across rooms, from the point of consumption.
- The room roster's eliminated flags and the dirty and idle counters of a session: the room takes any such flags (`HubRoom.RoomProcess.Tick`), and how often a state is sent is not modelled.
- What a seventeenth header overwrites: the model only says when that happens.
- What an overlong message writes outside its buffer: the model only says when that happens. A number list that cannot be read yields no payload, where `sscanf` would leave the remaining fields as they were.
- GameStates.GameState.ApplyAction: does not model what a quit does to the session's seat and roster, nor the flag that asks for a new broadcast; the hub's seats carry the former.
- PayloadBuffers.ApplyStatePayload: takes payloads whose piece, rotation and counts are in their ranges, as every payload of `PayloadBuffers.BuildStatePayload` is; the code copies others unchecked into its mirror.
- Arenas.Arena.TickBombs: says what burns and which bombs and blasts remain, not which power-up a random number hides under a burnt block.
- HubRoom.RoomProcess.ApplyRemoteGarbage: the seat's amount is what it was handed; what the game accepts of it is the engine's.
- HubRoom.RoomProcess.RouteOne: likewise for the victim in the room.
- Arenas.TickSession: does not repeat what players carry and what every tile holds afterwards; its parts `Arenas.Arena.MovePlayer`, `Arenas.Arena.TickBombs` and `Arenas.Arena.TickExplosions` say so.
