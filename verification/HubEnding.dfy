/** The end of the match over whole runs: when it comes, whom it reaches, and what the workers
    then know. */
module HubEnding {
  import opened Hub
  import opened HubSafety
  import opened HubMasterSteps
  import opened HubTable
  import opened HubMail
  import opened HubFullTable

  // ----- When the match ends -----

  ghost predicate TwoAlive(ps: seq<PlayerRec>) {
    exists i, j :: 0 <= i < j < |ps| && ps[i].alive && ps[j].alive
  }

  /** Nobody has played yet, one plays alone, or two players are still alive. */
  ghost predicate Undecided(ps: seq<PlayerRec>) {
    ps == [] || (|ps| == 1 && ps[0].alive) || TwoAlive(ps)
  }

  lemma {:induction false} SomeAlive(ps: seq<PlayerRec>)
    requires AliveCount(ps) >= 1
    ensures exists i :: 0 <= i < |ps| && ps[i].alive
  {
    var n := |ps| - 1;
    if ps[n].alive {
      assert ps[n].alive;
    } else {
      SomeAlive(ps[..n]);
      var i :| 0 <= i < n && ps[..n][i].alive;
      assert ps[i].alive;
    }
  }

  lemma {:induction false} CountTwo(ps: seq<PlayerRec>)
    requires AliveCount(ps) >= 2
    ensures TwoAlive(ps)
  {
    var n := |ps| - 1;
    if ps[n].alive {
      SomeAlive(ps[..n]);
      var i :| 0 <= i < n && ps[..n][i].alive;
      assert ps[i].alive && ps[n].alive;
    } else {
      CountTwo(ps[..n]);
      var i, j :| 0 <= i < j < n && ps[..n][i].alive && ps[..n][j].alive;
      assert ps[i].alive && ps[j].alive;
    }
  }

  lemma NotDecided(ps: seq<PlayerRec>)
    requires !Decided(ps)
    ensures Undecided(ps)
  {
    hide AliveCount;
    if |ps| >= 2 {
      CountTwo(ps);
    } else {
      SomeAlive(ps);
    }
  }

  ghost predicate GoesOn(m: Master) {
    !m.matchEnded ==> Undecided(m.players)
  }

  lemma CheckedGoesOn(m: Master)
    ensures GoesOn(EndChecked(m))
  {
    hide Decided, Winner, ToUsed, Undecided;
    if !m.matchEnded && m.players != [] && !Decided(m.players) {
      NotDecided(m.players);
    }
    assert Undecided([]) by { NobodyYet([]); }
  }

  lemma NobodyYet(ps: seq<PlayerRec>)
    requires ps == []
    ensures Undecided(ps)
  {}

  lemma JoinGoesOn(ps: seq<PlayerRec>, r: PlayerRec)
    requires Undecided(ps) && r.alive
    ensures Undecided(ps + [r])
  {
    var qs := ps + [r];
    if |ps| == 1 && ps[0].alive {
      assert qs[0].alive && qs[1].alive;
    } else if TwoAlive(ps) {
      var i, j :| 0 <= i < j < |ps| && ps[i].alive && ps[j].alive;
      assert qs[i].alive && qs[j].alive;
    }
  }

  lemma HandledGoesOn(c: Config, m: Master, slot: nat, msg: UpMsg)
    requires slot < |m.rooms| && GoesOn(m)
    ensures GoesOn(Handled(c, m, slot, msg))
  {
    hide ToRunning, EndChecked, AllStarted, RouteOf, Undecided;
    if msg.Joined? {
      var rec := PlayerRec(msg.id, slot, true);
      var ps := if |m.players| < c.maxRooms * c.lobby then m.players + [rec] else m.players;
      var room := m.rooms[slot];
      var n := RosterSent(m.(players := ps, rooms := m.rooms[slot := room.(joined := room.joined + 1)]));
      AllStartedCores(n, |n.rooms|);
      if !m.matchEnded {
        JoinGoesOn(m.players, rec);
      }
    } else if msg.Eliminated? {
      CheckedGoesOn(RosterSent(m.(players := Killed(m.players, msg.id))));
    }
  }

  lemma ClosedGoesOn(m: Master, slot: nat)
    requires slot < |m.rooms| && GoesOn(m)
    ensures GoesOn(RoomClosed(m, slot))
  {
    hide ToRunning, EndChecked, Undecided, RoomKilled;
    var c := m.(rooms := m.rooms[slot := m.rooms[slot].(used := false)],
                closed := m.closed + m.rooms[slot].pending);
    CheckedGoesOn(RosterSent(c.(players := RoomKilled(m.players, slot))));
  }

  lemma StepGoesOn(c: Config, s: System, e: Step)
    requires Enabled(c, s, e) && GoesOn(s.master)
    ensures GoesOn(Next(c, s, e).master)
  {
    hide GoesOn, Handled, RoomClosed, AllStarted, TakenInMatch, TakenInLobby, Routed, GarbageFrom, FirstOpen,
        FirstUnused;
    match e
    case Enter => AllStartedCores(s.master, |s.master.rooms|); SamePlayers(s.master, Next(c, s, e).master);
    case Accept(forkOk) => SamePlayers(s.master, Next(c, s, e).master);
    case Deliver(slot) =>
      var room := s.master.rooms[slot];
      SamePlayers(s.master, Peeked(s, slot).master);
      HandledGoesOn(c, Peeked(s, slot).master, slot, s.workers[room.worker].sent[room.seen]);
    case Close(slot) => ClosedGoesOn(s.master, slot);
    case TakeInMatch(w) => TakenKeepsEnd(s, w);
    case Route(w, seat, victim) => RouteWorker(s, w, seat, victim);
    case TakeInLobby(w) => TakeInLobbyMaster(s, w);
    case _ =>
  }

  lemma SamePlayers(m: Master, n: Master)
    requires n.players == m.players && n.matchEnded == m.matchEnded && GoesOn(m)
    ensures GoesOn(n)
  {}

  /** In every run, until the match has ended, there are two living players in the table, or a
      single player who is alive, or nobody. */
  lemma {:induction false} MatchGoesOnWhileTwoLive(c: Config, states: seq<System>, steps: seq<Step>, n: nat)
    requires IsRun(c, states, steps) && n < |states|
    ensures !states[n].master.matchEnded ==> Undecided(states[n].master.players)
  {
    hide Next, Undecided;
    if n == 0 {
      NobodyYet(states[0].master.players);
    } else {
      MatchGoesOnWhileTwoLive(c, states, steps, n - 1);
      StepGoesOn(c, states[n - 1], steps[n - 1]);
    }
  }

  // ----- Whom the end reaches -----

  /** A used room's channel ends with the announcement, behind everything sent before; an
      unused room is told nothing. */
  ghost predicate ToldTheEnd(a: Room, b: Room, w: nat) {
    if b.used then b.sent != [] && b.sent[|b.sent| - 1] == GameOver(w) && a.sent <= b.sent[..|b.sent| - 1]
    else b.sent == a.sent
  }

  ghost predicate AllToldTheEnd(m: Master, n: Master) {
    && |n.rooms| == |m.rooms| && n.announced != []
    && forall i | 0 <= i < |m.rooms| :: ToldTheEnd(m.rooms[i], n.rooms[i], n.announced[|n.announced| - 1])
  }

  lemma CheckTellsTheEnd(m: Master, n: Master)
    requires |n.rooms| == |m.rooms|
    requires !n.matchEnded && EndChecked(n).matchEnded
    requires forall i | 0 <= i < |m.rooms| ::
      m.rooms[i].sent <= n.rooms[i].sent && (!n.rooms[i].used ==> n.rooms[i].sent == m.rooms[i].sent)
    ensures AllToldTheEnd(m, EndChecked(n))
  {
    hide Decided, Winner;
    var e := EndChecked(n);
    forall i | 0 <= i < |m.rooms| ensures ToldTheEnd(m.rooms[i], e.rooms[i], e.announced[|e.announced| - 1]) {
      assert n.rooms[i].used ==> e.rooms[i].sent[..|e.rooms[i].sent| - 1] == n.rooms[i].sent;
    }
  }

  lemma HandledTellsTheEnd(c: Config, m: Master, slot: nat, msg: UpMsg)
    requires slot < |m.rooms| && !m.matchEnded && Handled(c, m, slot, msg).matchEnded
    ensures AllToldTheEnd(m, Handled(c, m, slot, msg))
  {
    hide EndChecked, AllStarted, RouteOf, AllToldTheEnd;
    if msg.Joined? {
      var rec := PlayerRec(msg.id, slot, true);
      var ps := if |m.players| < c.maxRooms * c.lobby then m.players + [rec] else m.players;
      var room := m.rooms[slot];
      var n := RosterSent(m.(players := ps, rooms := m.rooms[slot := room.(joined := room.joined + 1)]));
      AllStartedCores(n, |n.rooms|);
      assert false;
    } else {
      CheckTellsTheEnd(m, RosterSent(m.(players := Killed(m.players, msg.id))));
    }
  }

  lemma ClosedTellsTheEnd(m: Master, slot: nat)
    requires slot < |m.rooms| && !m.matchEnded && RoomClosed(m, slot).matchEnded
    ensures AllToldTheEnd(m, RoomClosed(m, slot))
  {
    hide EndChecked, RoomKilled, AllToldTheEnd;
    var c := m.(rooms := m.rooms[slot := m.rooms[slot].(used := false)],
                closed := m.closed + m.rooms[slot].pending);
    CheckTellsTheEnd(m, RosterSent(c.(players := RoomKilled(m.players, slot))));
  }

  lemma StepTellsTheEnd(c: Config, s: System, e: Step)
    requires Enabled(c, s, e) && !s.master.matchEnded && Next(c, s, e).master.matchEnded
    ensures AllToldTheEnd(s.master, Next(c, s, e).master)
  {
    hide AllToldTheEnd, Handled, RoomClosed, AllStarted, TakenInMatch, TakenInLobby, Routed, GarbageFrom, FirstOpen,
        FirstUnused;
    match e
    case Enter => AllStartedCores(s.master, |s.master.rooms|);
    case Deliver(slot) =>
      var room, p := s.master.rooms[slot], Peeked(s, slot);
      HandledTellsTheEnd(c, p.master, slot, s.workers[room.worker].sent[room.seen]);
      PeekedToldTheEnd(s, slot, Next(c, s, e).master);
    case Close(slot) => ClosedTellsTheEnd(s.master, slot);
    case TakeInMatch(w) => TakenKeepsEnd(s, w);
    case Route(w, seat, victim) => RouteWorker(s, w, seat, victim);
    case TakeInLobby(w) => TakeInLobbyMaster(s, w);
    case _ =>
  }

  lemma PeekedToldTheEnd(s: System, slot: nat, n: Master)
    requires slot < |s.master.rooms| && AllToldTheEnd(Peeked(s, slot).master, n)
    ensures AllToldTheEnd(s.master, n)
  {
    var p := Peeked(s, slot).master;
    forall i | 0 <= i < |n.rooms| ensures ToldTheEnd(s.master.rooms[i], n.rooms[i], n.announced[|n.announced| - 1]) {
      assert ToldTheEnd(p.rooms[i], n.rooms[i], n.announced[|n.announced| - 1]);
    }
  }

  /** The step that ends the match announces one winner, the only one alive in the table if
      anybody is, and appends its announcement, and no other, to the channel of every used
      room. */
  lemma EndReachesEveryRoom(c: Config, states: seq<System>, steps: seq<Step>, n: nat)
    requires IsRun(c, states, steps) && n < |steps|
    requires !states[n].master.matchEnded && states[n + 1].master.matchEnded
    ensures var s, t := states[n].master, states[n + 1].master;
            && |t.announced| == 1 && |t.rooms| == |s.rooms|
            && var w := t.announced[0];
               && (forall r | r in t.players :: r.alive <==> r.id == w)
               && forall i | 0 <= i < |t.rooms| ::
                 && (t.rooms[i].used ==> t.rooms[i].sent != [] && t.rooms[i].sent[|t.rooms[i].sent| - 1] == GameOver(w)
                                         && s.rooms[i].sent <= t.rooms[i].sent[..|t.rooms[i].sent| - 1])
                 && forall p | 0 <= p < |t.rooms[i].sent| && t.rooms[i].sent[p].GameOver? ::
                   t.rooms[i].used && p == |t.rooms[i].sent| - 1
  {
    hide Next, Initial, OneStart, RostersKnown, UpToDate, Shape, AllWorkersOk, TableOk;
    EveryRunMail(c, states, steps, n);
    EveryRunMail(c, states, steps, n + 1);
    StepTellsTheEnd(c, states[n], steps[n]);
    EndTakesTable(c, states[n], steps[n]);
    var s, t := states[n].master, states[n + 1].master;
    var w := t.announced[0];
    forall i | 0 <= i < |t.rooms| ensures ToldTheEnd(s.rooms[i], t.rooms[i], w)
        && forall p | 0 <= p < |t.rooms[i].sent| && t.rooms[i].sent[p].GameOver? ::
          t.rooms[i].used && p == |t.rooms[i].sent| - 1
    {
      assert ToldTheEnd(s.rooms[i], t.rooms[i], w);
      assert ChannelOk(s.rooms[i], s.announced, Tables(states, n));
      assert ChannelOk(t.rooms[i], t.announced, Tables(states, n + 1));
    }
  }

  /** Whatever end of the match any room is ever sent, it names the one winner announced, who
      alone was alive in the table then; and no room is sent a second one. */
  lemma GameOverTellsTheWinner(c: Config, states: seq<System>, steps: seq<Step>, n: nat, i: nat, p: nat)
    requires IsRun(c, states, steps) && n < |states| && i < |states[n].master.rooms|
    requires p < |states[n].master.rooms[i].sent| && states[n].master.rooms[i].sent[p].GameOver?
    ensures var s, sent := states[n], states[n].master.rooms[i].sent;
            && s.master.matchEnded && s.master.announced == [sent[p].winner]
            && (forall r | r in s.finalTable :: r.alive <==> r.id == sent[p].winner)
            && forall q | 0 <= q < |sent| && sent[q].GameOver? :: q == p
  {
    hide Next, Initial, OneStart, RostersKnown, UpToDate, Shape, AllWorkersOk, TableOk;
    EveryRunMail(c, states, steps, n);
    assert ChannelOk(states[n].master.rooms[i], states[n].master.announced, Tables(states, n));
  }
}
