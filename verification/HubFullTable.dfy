/** What a full player table can do: a run in which a join is lost and a winner is announced
    over a player who is still in the game. Three rooms for one player each; the third room's
    worker exits, its slot is used again, and the table has no room for the fourth player. */
module HubFullTable {
  import opened Hub
  import opened HubSafety
  import opened HubMasterSteps
  import opened HubTable

  ghost predicate Small(c: Config) {
    c.maxRooms == 3 && c.lobby == 1 && c.roomSize == 1
  }

  // ----- Building a run -----

  lemma Extend(c: Config, states: seq<System>, steps: seq<Step>, e: Step)
      returns (states': seq<System>, steps': seq<Step>)
    requires IsRun(c, states, steps) && Enabled(c, states[|steps|], e)
    ensures IsRun(c, states', steps') && |states'| == |steps'| + 1 && states'[|steps'|] == Next(c, states[|steps|], e)
  {
    RunExtends(c, states, steps, e);
    states', steps' := states + [Next(c, states[|steps|], e)], steps + [e];
  }

  // ----- A room with one player -----

  function Lobbyist(w: nat, slot: nat): Worker {
    Worker(slot, true, false, false, false, false, 0, [w + 1], w + 2, 1, [], [Ready, Joined(w + 1)], 0, 0)
  }

  /** A new worker in `slot`, ready, with one client whose join is being handled. */
  function Seating(s: System, slot: nat): Master
    requires slot < |s.master.rooms|
  {
    var w := s.master.roomSeq;
    s.master.(rooms := s.master.rooms[slot := Room(true, true, false, w, 1, 0, [], [], 2)],
              roomSeq := w + 1, closed := s.master.closed + [s.accepted])
  }

  function Seated(c: Config, s: System, slot: nat): System
    requires slot < |s.master.rooms|
  {
    var w := s.master.roomSeq;
    s.(master := Handled(c, Seating(s, slot), slot, Joined(w + 1)), workers := s.workers + [Lobbyist(w, slot)],
       accepted := s.accepted + 1)
  }

  ghost predicate NextSlot(c: Config, s: System, slot: nat) {
    && FirstOpen(c, s.master.rooms, 0) == |s.master.rooms| && FirstUnused(s.master.rooms, 0) == slot < |s.master.rooms|
    && |s.workers| == s.master.roomSeq
  }

  function Parked(s: System, slot: nat): System
    requires slot < |s.master.rooms|
  {
    var w := s.master.roomSeq;
    s.(master := s.master.(rooms := s.master.rooms[slot := Room(true, false, false, w, 1, 0, [s.accepted], [], 0)],
                           roomSeq := w + 1),
       workers := s.workers + [Worker(slot, false, false, false, false, false, 0, [], w + 1, 0, [], [], 0, 0)],
       accepted := s.accepted + 1)
  }

  lemma AcceptParks(c: Config, s: System, slot: nat)
    requires Small(c) && NextSlot(c, s, slot)
    ensures Next(c, s, Accept(true)) == Parked(s, slot)
  {
    hide FirstOpen, FirstUnused;
    assert [] + [s.accepted] == [s.accepted];
  }

  function Joining(s: System, slot: nat): System
    requires slot < |s.master.rooms|
  {
    var p, w := Parked(s, slot), s.master.roomSeq;
    p.(workers := s.workers + [Lobbyist(w, slot)])
  }

  lemma WorkerOpens(c: Config, states: seq<System>, steps: seq<Step>, s: System, slot: nat)
    returns (states': seq<System>, steps': seq<Step>)
    requires IsRun(c, states, steps) && Small(c) && slot < |s.master.rooms| && |s.workers| == s.master.roomSeq
    requires states[|steps|] == Parked(s, slot)
    ensures IsRun(c, states', steps') && |states'| == |steps'| + 1 && states'[|steps'|] == Joining(s, slot)
  {
    assert |states| == |steps| + 1;
    hide IsRun;
    var w := s.master.roomSeq;
    states', steps' := Extend(c, states, steps, OpenLobby(w));
    states', steps' := Extend(c, states', steps', Arrive(w, w + 1));
    states', steps' := Extend(c, states', steps', TellJoin(w));
    var k := states'[|steps'|].workers[w];
    assert [] + [Ready] == [Ready] && [] + [w + 1] == [w + 1] && [Ready] + [Joined(w + 1)] == [Ready, Joined(w + 1)];
    assert k == Lobbyist(w, slot);
    assert states'[|steps'|].workers == s.workers + [k];
  }

  lemma SeatOne(c: Config, states: seq<System>, steps: seq<Step>, slot: nat)
    returns (states': seq<System>, steps': seq<Step>)
    requires IsRun(c, states, steps) && Small(c) && NextSlot(c, states[|steps|], slot)
    ensures IsRun(c, states', steps') && states'[|steps'|] == Seated(c, states[|steps|], slot)
  {
    assert |states| == |steps| + 1;
    hide IsRun, FirstOpen, FirstUnused;
    var s := states[|steps|];
    AcceptParks(c, s, slot);
    states', steps' := Extend(c, states, steps, Accept(true));
    states', steps' := WorkerOpens(c, states', steps', s, slot);
    var t := Joining(s, slot);
    states', steps' := Extend(c, states', steps', Deliver(slot));
    ReadyDelivered(c, s, slot);
    states', steps' := Extend(c, states', steps', Deliver(slot));
    JoinDelivered(c, s, slot);
  }

  function Listening(s: System, slot: nat): System
    requires slot < |s.master.rooms|
  {
    var t, w := Joining(s, slot), s.master.roomSeq;
    t.(master := t.master.(rooms := s.master.rooms[slot := Room(true, true, false, w, 1, 0, [], [], 1)],
                           closed := s.master.closed + [s.accepted]))
  }

  lemma ReadyDelivered(c: Config, s: System, slot: nat)
    requires slot < |s.master.rooms| && |s.workers| == s.master.roomSeq
    ensures Enabled(c, Joining(s, slot), Deliver(slot))
        && Next(c, Joining(s, slot), Deliver(slot)) == Listening(s, slot)
  {
  }

  lemma JoinDelivered(c: Config, s: System, slot: nat)
    requires slot < |s.master.rooms| && |s.workers| == s.master.roomSeq
    ensures Enabled(c, Listening(s, slot), Deliver(slot))
        && Next(c, Listening(s, slot), Deliver(slot)) == Seated(c, s, slot)
  {
    hide Handled;
    JoinKeepsEnd(c, Seating(s, slot), slot, s.master.roomSeq + 1);
    var t := Listening(s, slot);
    var room := t.master.rooms[slot];
    assert t.master.(rooms := t.master.rooms[slot := room.(seen := room.seen + 1)]) == Seating(s, slot);
  }

  lemma JoinKeepsEnd(c: Config, m: Master, slot: nat, id: nat)
    requires slot < |m.rooms|
    ensures Handled(c, m, slot, Joined(id)).matchEnded == m.matchEnded
  {
    hide ToRunning, AllStarted;
    var ps := if |m.players| < Capacity(c) then m.players + [PlayerRec(id, slot, true)] else m.players;
    var room := m.rooms[slot];
    var n := RosterSent(m.(players := ps, rooms := m.rooms[slot := room.(joined := room.joined + 1)]));
    AllStartedCores(n, |n.rooms|);
  }

  // ----- The run -----

  function R(w: nat, started: bool, sent: seq<DownMsg>): Room {
    Room(true, true, started, w, 1, 1, [], sent, 2)
  }

  function Unused(): Room {
    Room(false, false, false, 0, 0, 0, [], [], 0)
  }

  /** Players 1 to n, alive except as said, each in the room of its number. */
  function P(id: nat, alive: bool): PlayerRec
    requires id > 0
  {
    PlayerRec(id, id - 1, alive)
  }

  function State(rooms: seq<Room>, players: seq<PlayerRec>, closed: seq<nat>, workers: seq<Worker>): System {
    System(Master(rooms, players, |workers|, false, closed, []), workers, [], [], [], [], |workers|, [])
  }

  function Two(): System {
    State([R(0, false, []), R(1, false, []), Unused()], [P(1, true), P(2, true)], [0, 1],
        [Lobbyist(0, 0), Lobbyist(1, 1)])
  }

  lemma NobodyRunning(rooms: seq<Room>, msg: DownMsg)
    requires forall i | 0 <= i < |rooms| :: !rooms[i].started
    ensures ToRunning(rooms, msg, -1) == rooms
  {
  }

  /** While rooms remain to be filled, a join is only recorded. */
  lemma EarlyJoin(c: Config, m: Master, slot: nat, id: nat)
    requires Small(c) && slot < |m.rooms| && |m.players| < 2 && forall i | 0 <= i < |m.rooms| :: !m.rooms[i].started
    ensures Handled(c, m, slot, Joined(id)) ==
            m.(players := m.players + [PlayerRec(id, slot, true)],
               rooms := m.rooms[slot := m.rooms[slot].(joined := m.rooms[slot].joined + 1)])
  {
    hide ToRunning, AllStarted;
    var ps := m.players + [PlayerRec(id, slot, true)];
    NobodyRunning(m.rooms[slot := m.rooms[slot].(joined := m.rooms[slot].joined + 1)], RosterOf(ps));
  }

  lemma FirstSeat(c: Config)
    requires Small(c)
    ensures NextSlot(c, Initial(c), 0)
    ensures Seated(c, Initial(c), 0)
        == State([R(0, false, []), Unused(), Unused()], [P(1, true)], [0], [Lobbyist(0, 0)])
  {
    var s := Initial(c);
    assert s.master.rooms == [Unused(), Unused(), Unused()];
    EarlyJoin(c, Seating(s, 0), 0, 1);
  }

  lemma SecondSeat(c: Config)
    requires Small(c)
    ensures var s := State([R(0, false, []), Unused(), Unused()], [P(1, true)], [0], [Lobbyist(0, 0)]);
            NextSlot(c, s, 1) && Seated(c, s, 1) == Two()
  {
    var s := State([R(0, false, []), Unused(), Unused()], [P(1, true)], [0], [Lobbyist(0, 0)]);
    EarlyJoin(c, Seating(s, 1), 1, 2);
  }

  // ----- The third room fills the table and starts the match -----

  function G(a: bool, b: bool, d: bool): DownMsg {
    GlobalRoster([(1, a), (2, b), (3, d)])
  }

  function Table(a: bool, b: bool, d: bool): seq<PlayerRec> {
    [P(1, a), P(2, b), P(3, d)]
  }

  lemma TableRoster(a: bool, b: bool, d: bool)
    ensures RosterOf(Table(a, b, d)) == G(a, b, d)
  {
    assert RosterOf(Table(a, b, d)).standing == G(a, b, d).standing;
  }

  /** What a room hears of a roster. */
  function Told(r: Room, g: DownMsg): Room {
    if Running(r) then r.(sent := r.sent + [g]) else r
  }

  lemma RosterToThree(x: Room, y: Room, z: Room, g: DownMsg)
    ensures ToRunning([x, y, z], g, -1) == [Told(x, g), Told(y, g), Told(z, g)]
  {
  }

  function Begun(w: nat): Room {
    R(w, true, [Start(1)])
  }

  /** Starting every room of the three, none of them started before. */
  lemma AllThreeStart(m: Master, a: bool, b: bool, d: bool)
    requires m.rooms == [R(0, false, []), R(1, false, []), R(2, false, [])] && m.players == Table(a, b, d)
    ensures var g := G(a, b, d);
            AllStarted(m, 3).rooms == [R(0, true, [Start(1), g, g, g]), R(1, true, [Start(1), g, g]),
                R(2, true, [Start(1), g])]
    ensures AllStarted(m, 3) == m.(rooms := AllStarted(m, 3).rooms)
  {
    var g := G(a, b, d);
    TableRoster(a, b, d);
    AllStartedCores(m, 3);
    var m1 := m.(rooms := [R(0, true, [Start(1), g]), R(1, false, []), R(2, false, [])]);
    var m2 := m.(rooms := [R(0, true, [Start(1), g, g]), R(1, true, [Start(1), g]), R(2, false, [])]);
    var m3 := m.(rooms := [R(0, true, [Start(1), g, g, g]), R(1, true, [Start(1), g, g]), R(2, true, [Start(1), g])]);
    hide RoomStarted, G, Table, RosterOf, Told;
    ToldSeats(g);
    OneStarts(m, 0, g);
    assert RoomStarted(m, 0) == m1;
    OneStarts(m1, 1, g);
    assert RoomStarted(m1, 1) == m2;
    OneStarts(m2, 2, g);
    assert RoomStarted(m2, 2) == m3;
    hide AllStarted;
    NextStarts(m, 0);
    NextStarts(m, 1);
    NextStarts(m, 2);
  }

  lemma NextStarts(m: Master, n: nat)
    requires n < |m.rooms|
    ensures AllStarted(m, 0) == m && AllStarted(m, n + 1) == RoomStarted(AllStarted(m, n), n)
  {
    hide RoomStarted;
  }

  lemma ToldSeats(g: DownMsg)
    ensures forall w: nat :: Told(R(w, false, []), g) == R(w, false, [])
    ensures forall w: nat :: Told(R(w, true, [Start(1)]), g) == R(w, true, [Start(1), g])
    ensures forall w: nat :: Told(R(w, true, [Start(1), g]), g) == R(w, true, [Start(1), g, g])
    ensures forall w: nat :: Told(R(w, true, [Start(1), g, g]), g) == R(w, true, [Start(1), g, g, g])
  {
    assert [Start(1)] + [g] == [Start(1), g] && [Start(1), g] + [g] == [Start(1), g, g];
    assert [Start(1), g, g] + [g] == [Start(1), g, g, g];
  }

  lemma OneStarts(m: Master, slot: nat, g: DownMsg)
    requires |m.rooms| == 3 && slot < 3 && m.rooms[slot] == R(slot, false, [])
    requires g == RosterOf(m.players)
    ensures var r := m.rooms[slot := Begun(slot)];
            RoomStarted(m, slot) == m.(rooms := [Told(r[0], g), Told(r[1], g), Told(r[2], g)])
  {
    hide ToRunning, RosterOf;
    var r := m.rooms[slot := Begun(slot)];
    assert [] + [Start(1)] == [Start(1)];
    assert m.rooms[slot].(sent := m.rooms[slot].sent + [Start(1)], started := true) == Begun(slot);
    assert r == [r[0], r[1], r[2]];
    RosterToThree(r[0], r[1], r[2], g);
  }

  function Three(): System {
    var g := G(true, true, true);
    State([R(0, true, [Start(1), g, g, g]), R(1, true, [Start(1), g, g]), R(2, true, [Start(1), g])],
          Table(true, true, true), [0, 1, 2], [Lobbyist(0, 0), Lobbyist(1, 1), Lobbyist(2, 2)])
  }

  lemma ThirdSeat(c: Config)
    requires Small(c)
    ensures NextSlot(c, Two(), 2) && Seated(c, Two(), 2) == Three()
  {
    var m := Seating(Two(), 2);
    var n := m.(players := Table(true, true, true), rooms := [R(0, false, []), R(1, false, []), R(2, false, [])]);
    NobodyRunning(n.rooms, RosterOf(n.players));
    AllThreeStart(n, true, true, true);
    hide ToRunning, AllStarted, RosterOf;
    assert m.players + [PlayerRec(3, 2, true)] == n.players;
    assert m.rooms[2 := m.rooms[2].(joined := 1)] == n.rooms;
    assert Two().workers + [Lobbyist(2, 2)] == Three().workers;
    assert Two().master.closed + [2] == Three().master.closed;
  }

  // ----- The third worker exits and its slot is used again -----

  function Gone(w: nat, slot: nat): Worker {
    Lobbyist(w, slot).(exited := true)
  }

  function Survivors(r: Room): System {
    var g, h := G(true, true, true), G(true, true, false);
    State([R(0, true, [Start(1), g, g, g, h]), R(1, true, [Start(1), g, g, h]), r],
          Table(true, true, false), [0, 1, 2], [Lobbyist(0, 0), Lobbyist(1, 1), Gone(2, 2)])
  }

  lemma ThirdExits(c: Config, s: System, t: System)
    requires Small(c) && s == Three() && t == s.(workers := [Lobbyist(0, 0), Lobbyist(1, 1), Gone(2, 2)])
    ensures Enabled(c, s, Exit(2)) && Next(c, s, Exit(2)) == t
    ensures Enabled(c, t, Close(2))
    ensures var r := t.master.rooms[2].(used := false); Next(c, t, Close(2)) == Survivors(r)
  {
    var g, h := G(true, true, true), G(true, true, false);
    TableRoster(true, true, false);
    var r := s.master.rooms[2].(used := false);
    assert RoomKilled(s.master.players, 2) == Table(true, true, false) != s.master.players by {
      assert s.master.players[2].alive && !Table(true, true, false)[2].alive;
    }
    RosterToThree(s.master.rooms[0], s.master.rooms[1], r, h);
    assert AliveCount(Table(true, true, false)) == 2 by {
      TwoAlive();
    }
    hide ToRunning, AliveCount, RoomKilled, RosterOf, Table;
    assert s.master.rooms[2 := r] == [s.master.rooms[0], s.master.rooms[1], r];
    assert [Start(1), g, g, g] + [h] == [Start(1), g, g, g, h] && [Start(1), g, g] + [h] == [Start(1), g, g, h];
    assert s.master.closed + [] == s.master.closed;
    assert GarbageFrom(s.master.rooms[2].sent, 0) == [];
  }

  lemma TwoAlive()
    ensures AliveCount(Table(true, true, false)) == 2 && AliveCount(Table(false, true, false)) == 1
    ensures LastAlive(Table(false, true, false)) == 2
  {
    var ps, qs := Table(true, true, false), Table(false, true, false);
    assert ps[..2] == [P(1, true), P(2, true)] && ps[..2][..1] == [P(1, true)] && ps[..2][..1][..0] == [];
    assert qs[..2] == [P(1, false), P(2, true)] && qs[..2][..1] == [P(1, false)] && qs[..2][..1][..0] == [];
    assert AliveCount(ps[..2][..1]) == 1 && AliveCount(ps[..2]) == 2;
    assert AliveCount(qs[..2][..1]) == 0 && AliveCount(qs[..2]) == 1;
  }

  function Four(k: Worker): System {
    var g, h := G(true, true, true), G(true, true, false);
    State([R(0, true, [Start(1), g, g, g, h, h, h]), R(1, true, [Start(1), g, g, h, h, h]), R(3, true, [Start(1), h])],
          Table(true, true, false), [0, 1, 2, 3], [k, Lobbyist(1, 1), Gone(2, 2), Lobbyist(3, 2)])
  }

  /** The fourth player's join starts its room, but the table is full. */
  lemma FourthSeat(c: Config, s: System)
    requires Small(c) && |s.master.rooms| == 3 && !s.master.rooms[2].used && s == Survivors(s.master.rooms[2])
    ensures NextSlot(c, s, 2) && Seated(c, s, 2) == Four(Lobbyist(0, 0))
  {
    var g, h := G(true, true, true), G(true, true, false);
    TableRoster(true, true, false);
    var m, x, y := Seating(s, 2), s.master.rooms[0], s.master.rooms[1];
    var x1, y1 := R(0, true, [Start(1), g, g, g, h, h]), R(1, true, [Start(1), g, g, h, h]);
    var n := m.(rooms := [x1, y1, R(3, false, [])]);
    assert FirstOpen(c, s.master.rooms, 0) == 3;
    assert x.used && y.used && FirstUnused(s.master.rooms, 2) == FirstUnused(s.master.rooms, 1) == 2;
    assert |m.players| == 3;
    hide ToRunning, RosterOf, Table, G, FirstOpen, FirstUnused;
    assert [Start(1), g, g, g, h] + [h] == [Start(1), g, g, g, h, h]
        && [Start(1), g, g, h] + [h] == [Start(1), g, g, h, h];
    RosterToThree(x, y, R(3, false, []), h);
    assert m.rooms[2 := m.rooms[2].(joined := 1)] == [x, y, R(3, false, [])];
    assert RosterSent(m.(rooms := [x, y, R(3, false, [])])) == n;
    LastStarts(n, h);
    assert [Start(1), g, g, g, h, h] + [h] == [Start(1), g, g, g, h, h, h];
    assert [Start(1), g, g, h, h] + [h] == [Start(1), g, g, h, h, h];
    assert Handled(c, m, 2, Joined(4)) == AllStarted(n, 3);
    assert s.workers + [Lobbyist(3, 2)] == Four(Lobbyist(0, 0)).workers;
    assert s.master.closed + [3] == [0, 1, 2, 3];
  }

  lemma LastStarts(n: Master, h: DownMsg)
    requires |n.rooms| == 3 && n.rooms[0].started && n.rooms[0].used && n.rooms[1].started && n.rooms[1].used
    requires n.rooms[2] == R(3, false, []) && h == RosterOf(n.players)
    ensures AllStarted(n, 3) == n.(rooms := [Told(n.rooms[0], h), Told(n.rooms[1], h), R(3, true, [Start(1), h])])
  {
    hide ToRunning, RosterOf;
    assert AllStarted(n, 1) == n && AllStarted(n, 2) == n;
    RosterToThree(n.rooms[0], n.rooms[1], Begun(3), h);
    assert n.rooms[2 := Begun(3)] == [n.rooms[0], n.rooms[1], Begun(3)];
    assert [] + [Start(1)] == [Start(1)] && [Start(1)] + [h] == [Start(1), h];
    assert n.rooms[2].(sent := n.rooms[2].sent + [Start(1)], started := true) == Begun(3);
  }

  // ----- The first player tops out -----

  function Ordered(): Worker {
    Lobbyist(0, 0).(taken := 1, early := 1, ordered := true)
  }

  function Playing(over: bool): Worker {
    Ordered().(begun := true, session := [Slot(1, true, over, false, 0, 0)])
  }

  function Reported(): Worker {
    Ordered().(begun := true, session := [Slot(1, true, true, true, 0, 0)], sent := [Ready, Joined(1), Eliminated(1)])
  }

  lemma FirstPlays(c: Config, states: seq<System>, steps: seq<Step>) returns (states': seq<System>, steps': seq<Step>)
    requires IsRun(c, states, steps) && Small(c) && states[|steps|] == Four(Lobbyist(0, 0))
    ensures IsRun(c, states', steps') && |states'| == |steps'| + 1 && states'[|steps'|] == Four(Reported())
  {
    hide IsRun, Table, G;
    WorkerZero(Lobbyist(0, 0), Ordered());
    states', steps' := Extend(c, states, steps, TakeInLobby(0));
    assert states'[|steps'|] == Four(Ordered());
    assert Ordered().clients[..1] == [1] && Seats([1]) == [Slot(1, true, false, false, 0, 0)];
    WorkerZero(Ordered(), Playing(false));
    states', steps' := Extend(c, states', steps', Begin(0));
    assert states'[|steps'|] == Four(Playing(false));
    WorkerZero(Playing(false), Playing(true));
    states', steps' := Extend(c, states', steps', Play(0, 0, true, true, 0));
    assert Playing(false).session[0 := Slot(1, true, true, false, 0, 0)] == Playing(true).session;
    assert states'[|steps'|] == Four(Playing(true));
    WorkerZero(Playing(true), Reported());
    states', steps' := Extend(c, states', steps', TellOut(0, 0));
    assert Playing(true).session[0 := Slot(1, true, true, true, 0, 0)] == Reported().session;
    assert [Ready, Joined(1)] + [Eliminated(1)] == Reported().sent;
  }

  lemma WorkerZero(k: Worker, k': Worker)
    ensures Four(k).(workers := Four(k).workers[0 := k']) == Four(k')
  {
    hide Table, G;
    assert Four(k).workers[0 := k'] == Four(k').workers;
  }

  lemma WinnerAnnounced(c: Config, s: System)
    requires Small(c) && s == Four(Reported())
    ensures Enabled(c, s, Deliver(0))
    ensures var t := Next(c, s, Deliver(0));
            && t.master.announced == [2] && t.workers == s.workers && t.master.players == Table(false, true, false)
            && Current(t, 3) && t.master.rooms[2].seen == 2
            && !s.master.matchEnded && t.master.matchEnded && WaitsInLobby(t)
  {
    var p := Peeked(s, 0);
    var ps := Killed(s.master.players, 1);
    assert ps == Table(false, true, false);
    TwoAlive();
    HandledCores(c, p.master, 0, Eliminated(1));
    var t := Next(c, s, Deliver(0));
    hide ToRunning, ToUsed, AliveCount, LastAlive, Killed, Table, G;
    assert SameCore(p.master.rooms[2], t.master.rooms[2]);
    assert SameCore(p.master.rooms[1], t.master.rooms[1]);
  }

  /** The second room's worker is still in its lobby, with its player and its start order. */
  ghost predicate WaitsInLobby(s: System) {
    && |s.workers| > 1 && s.workers[1] == Lobbyist(1, 1) && Current(s, 1)
    && s.master.rooms[1].sent != [] && s.master.rooms[1].sent[0].Start?
  }

  /** A run that announces player 2 as the winner while player 4, whose join the master has
      handled, is still in the game and unknown to the master. */
  lemma FullTableMisleads(c: Config) returns (states: seq<System>, steps: seq<Step>)
    requires Small(c)
    ensures IsRun(c, states, steps) && |states| == |steps| + 1 && |steps| > 0
    ensures !states[|steps| - 1].master.matchEnded && states[|steps|].master.matchEnded
    ensures WaitsInLobby(states[|steps|])
    ensures var s := states[|steps|];
            && s.master.announced == [2]
            && JoinHandled(c, s, 4) && !Recorded(s.master.players, 4) && !ReallyOut(c, s, 4)
  {
    states, steps := [Initial(c)], [];
    assert IsRun(c, states, steps);
    FirstSeat(c);
    SecondSeat(c);
    ThirdSeat(c);
    hide IsRun, NextSlot, Seated;
    states, steps := SeatOne(c, states, steps, 0);
    states, steps := SeatOne(c, states, steps, 1);
    states, steps := SeatOne(c, states, steps, 2);
    var t := Three().(workers := [Lobbyist(0, 0), Lobbyist(1, 1), Gone(2, 2)]);
    ThirdExits(c, Three(), t);
    hide Next, Enabled;
    states, steps := Extend(c, states, steps, Exit(2));
    states, steps := Extend(c, states, steps, Close(2));
    FourthSeat(c, states[|steps|]);
    states, steps := SeatOne(c, states, steps, 2);
    states, steps := FirstPlays(c, states, steps);
    states, steps := LastReport(c, states, steps);
    FourthIsIn(c, states[|steps|]);
  }

  lemma LastReport(c: Config, states: seq<System>, steps: seq<Step>) returns (states': seq<System>, steps': seq<Step>)
    requires IsRun(c, states, steps) && |states| == |steps| + 1 && Small(c) && states[|steps|] == Four(Reported())
    ensures IsRun(c, states', steps') && |states'| == |steps'| + 1 && |steps'| > 0
    ensures !states'[|steps'| - 1].master.matchEnded && states'[|steps'|].master.matchEnded
    ensures var t := states'[|steps'|];
            && t.master.announced == [2] && t.workers == states[|steps|].workers && WaitsInLobby(t)
            && t.master.players == Table(false, true, false) && Current(t, 3) && t.master.rooms[2].seen == 2
  {
    hide IsRun, Enabled, Next, WaitsInLobby, Four, Reported, Table, Current;
    WinnerAnnounced(c, states[|steps|]);
    RunExtends(c, states, steps, Deliver(0));
    states', steps' := states + [Next(c, states[|steps|], Deliver(0))], steps + [Deliver(0)];
  }

  lemma FourthIsIn(c: Config, s: System)
    requires Small(c) && s.workers == Four(Reported()).workers && s.master.players == Table(false, true, false)
    requires Current(s, 3) && s.master.rooms[2].seen == 2
    ensures JoinHandled(c, s, 4) && !Recorded(s.master.players, 4) && !ReallyOut(c, s, 4)
  {
    assert WorkerOf(c, 4) == 3;
    var sent := s.workers[3].sent;
    assert sent[1] == Joined(4);
    assert Among(Joined(4), sent, 2);
  }
}
