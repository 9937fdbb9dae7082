/** What the master tells its rooms over whole runs: start orders, rosters and the end of the
    match. Nothing here refers to the functions that build these messages. */
module HubMail {
  import opened Hub
  import opened HubSafety
  import opened HubMasterSteps
  import opened HubTable

  // ----- What a channel says -----

  /** Everybody's id and alive flag, in the order of the table. */
  ghost predicate Tells(standing: seq<(nat, bool)>, ps: seq<PlayerRec>) {
    |standing| == |ps| && forall i | 0 <= i < |ps| :: standing[i].0 == ps[i].id && standing[i].1 == ps[i].alive
  }

  ghost predicate Known(standing: seq<(nat, bool)>, tables: set<seq<PlayerRec>>) {
    exists ps :: ps in tables && Tells(standing, ps)
  }

  /** The last roster in the channel. */
  ghost predicate LatestRoster(sent: seq<DownMsg>, p: nat) {
    p < |sent| && sent[p].GlobalRoster? && forall q | p < q < |sent| :: !sent[q].GlobalRoster?
  }

  ghost predicate UpToDate(sent: seq<DownMsg>, ps: seq<PlayerRec>) {
    exists p: nat :: LatestRoster(sent, p) && Tells(sent[p].standing, ps)
  }

  ghost predicate HasStart(sent: seq<DownMsg>, n: nat) {
    exists p :: 0 <= p < n && p < |sent| && sent[p].Start?
  }

  /** A start order in exactly the rooms that count as started, and only one. */
  ghost predicate OneStart(r: Room) {
    && (r.started <==> HasStart(r.sent, |r.sent|))
    && forall p, q | 0 <= p < q < |r.sent| :: !(r.sent[p].Start? && r.sent[q].Start?)
  }

  /** At most one end of the match, with the winner announced. */
  ghost predicate OneEnd(sent: seq<DownMsg>, announced: seq<nat>) {
    && (forall p | 0 <= p < |sent| && sent[p].GameOver? :: announced == [sent[p].winner])
    && forall p, q | 0 <= p < q < |sent| :: !(sent[p].GameOver? && sent[q].GameOver?)
  }

  ghost predicate RostersKnown(sent: seq<DownMsg>, tables: set<seq<PlayerRec>>) {
    forall p | 0 <= p < |sent| && sent[p].GlobalRoster? :: Known(sent[p].standing, tables)
  }

  ghost predicate ChannelOk(r: Room, announced: seq<nat>, tables: set<seq<PlayerRec>>) {
    OneStart(r) && OneEnd(r.sent, announced) && RostersKnown(r.sent, tables)
  }

  ghost predicate ChannelsOk(m: Master, tables: set<seq<PlayerRec>>) {
    forall i | 0 <= i < |m.rooms| :: ChannelOk(m.rooms[i], m.announced, tables)
  }

  /** Every running room was last told the present table. */
  ghost predicate Fresh(m: Master) {
    forall i | 0 <= i < |m.rooms| :: Running(m.rooms[i]) ==> UpToDate(m.rooms[i].sent, m.players)
  }

  ghost predicate MailOk(m: Master, tables: set<seq<PlayerRec>>) {
    ChannelsOk(m, tables) && Fresh(m)
  }

  // ----- One more message -----

  lemma RosterTells(ps: seq<PlayerRec>)
    ensures RosterOf(ps).GlobalRoster? && Tells(RosterOf(ps).standing, ps)
  {}

  lemma AppendKeepsStart(r: Room, msg: DownMsg)
    requires OneStart(r) && !msg.Start?
    ensures OneStart(r.(sent := r.sent + [msg]))
  {
    var s := r.sent + [msg];
    if HasStart(r.sent, |r.sent|) {
      var p :| 0 <= p < |r.sent| && r.sent[p].Start?;
      assert s[p].Start?;
    }
  }

  lemma AppendKeepsChannel(r: Room, msg: DownMsg, announced: seq<nat>, tables: set<seq<PlayerRec>>)
    requires ChannelOk(r, announced, tables) && !msg.Start? && !msg.GameOver?
    requires msg.GlobalRoster? ==> Known(msg.standing, tables)
    ensures ChannelOk(r.(sent := r.sent + [msg]), announced, tables)
  {
    hide OneStart, Known;
    AppendKeepsStart(r, msg);
  }

  lemma AppendKeepsUpToDate(sent: seq<DownMsg>, msg: DownMsg, ps: seq<PlayerRec>)
    requires UpToDate(sent, ps) && !msg.GlobalRoster?
    ensures UpToDate(sent + [msg], ps)
  {
    hide Tells;
    var p: nat :| LatestRoster(sent, p) && Tells(sent[p].standing, ps);
    assert LatestRoster(sent + [msg], p);
  }

  lemma RosterIsUpToDate(sent: seq<DownMsg>, msg: DownMsg, ps: seq<PlayerRec>)
    requires msg.GlobalRoster? && Tells(msg.standing, ps)
    ensures UpToDate(sent + [msg], ps)
  {
    assert LatestRoster(sent + [msg], |sent|);
  }

  // ----- What the master does -----

  lemma RunningKeepsChannels(m: Master, msg: DownMsg, but: int, tables: set<seq<PlayerRec>>)
    requires ChannelsOk(m, tables) && !msg.Start? && !msg.GameOver?
    requires msg.GlobalRoster? ==> Known(msg.standing, tables)
    ensures ChannelsOk(m.(rooms := ToRunning(m.rooms, msg, but)), tables)
  {
    hide ChannelOk, Known;
    forall i | 0 <= i < |m.rooms| && Running(m.rooms[i])
      ensures ChannelOk(m.rooms[i].(sent := m.rooms[i].sent + [msg]), m.announced, tables) {
      AppendKeepsChannel(m.rooms[i], msg, m.announced, tables);
    }
  }

  /** Sending the roster brings every running room up to date. */
  lemma RosterSentMail(m: Master, tables: set<seq<PlayerRec>>)
    requires ChannelsOk(m, tables) && m.players in tables
    ensures MailOk(RosterSent(m), tables)
  {
    hide ChannelsOk, Tells, UpToDate, RosterOf;
    RosterTells(m.players);
    var msg := RosterOf(m.players);
    assert Known(msg.standing, tables);
    RunningKeepsChannels(m, msg, -1, tables);
    forall i | 0 <= i < |m.rooms| && Running(m.rooms[i]) ensures UpToDate(m.rooms[i].sent + [msg], m.players) {
      RosterIsUpToDate(m.rooms[i].sent, msg, m.players);
    }
  }

  lemma StartKeepsChannel(r: Room, n: nat, announced: seq<nat>, tables: set<seq<PlayerRec>>)
    requires ChannelOk(r, announced, tables) && !r.started
    ensures ChannelOk(r.(sent := r.sent + [Start(n)], started := true), announced, tables)
  {
    hide Known;
    var s := r.sent + [Start(n)];
    assert s[|r.sent|].Start?;
    assert !HasStart(r.sent, |r.sent|);
  }

  lemma OneRoomChannels(m: Master, slot: nat, r: Room, tables: set<seq<PlayerRec>>)
    requires slot < |m.rooms| && ChannelsOk(m, tables) && ChannelOk(r, m.announced, tables)
    ensures ChannelsOk(m.(rooms := m.rooms[slot := r]), tables)
  {}

  lemma RoomStartedMail(m: Master, slot: nat, tables: set<seq<PlayerRec>>)
    requires slot < |m.rooms| && MailOk(m, tables) && m.players in tables
    ensures MailOk(RoomStarted(m, slot), tables)
  {
    hide ChannelOk, RosterSent, Fresh, ChannelsOk;
    var room := m.rooms[slot];
    if room.used && !room.started && room.joined >= 1 {
      assert ChannelOk(room, m.announced, tables) by { ChannelAt(m, slot, tables); }
      StartKeepsChannel(room, room.redirected, m.announced, tables);
      var r := room.(sent := room.sent + [Start(room.redirected)], started := true);
      OneRoomChannels(m, slot, r, tables);
      RosterSentMail(m.(rooms := m.rooms[slot := r]), tables);
    }
  }

  lemma ChannelAt(m: Master, slot: nat, tables: set<seq<PlayerRec>>)
    requires slot < |m.rooms| && ChannelsOk(m, tables)
    ensures ChannelOk(m.rooms[slot], m.announced, tables)
  {}

  lemma {:induction false} AllStartedMail(m: Master, n: nat, tables: set<seq<PlayerRec>>)
    requires n <= |m.rooms| && MailOk(m, tables) && m.players in tables
    ensures MailOk(AllStarted(m, n), tables)
  {
    hide MailOk, RoomStarted;
    if n > 0 {
      AllStartedMail(m, n - 1, tables);
      AllStartedCores(m, n - 1);
      RoomStartedMail(AllStarted(m, n - 1), n - 1, tables);
    }
  }

  lemma EndKeepsChannel(r: Room, w: nat, tables: set<seq<PlayerRec>>)
    requires ChannelOk(r, [], tables)
    ensures ChannelOk(r, [w], tables) && ChannelOk(r.(sent := r.sent + [GameOver(w)]), [w], tables)
  {
    hide Known, OneStart;
    AppendKeepsStart(r, GameOver(w));
    forall p | 0 <= p < |r.sent| ensures !r.sent[p].GameOver? {}
  }

  lemma EndCheckedMail(m: Master, tables: set<seq<PlayerRec>>)
    requires MailOk(m, tables) && (!m.matchEnded ==> m.announced == [])
    ensures MailOk(EndChecked(m), tables)
  {
    hide ChannelOk, UpToDate, Decided, Winner;
    var n, w := EndChecked(m), Winner(m.players);
    if !m.matchEnded && m.players != [] && Decided(m.players) {
      assert n.announced == [w] && n.players == m.players;
      forall i | 0 <= i < |m.rooms| ensures ChannelOk(n.rooms[i], [w], tables)
          && (Running(n.rooms[i]) ==> UpToDate(n.rooms[i].sent, m.players)) {
        assert ChannelOk(m.rooms[i], m.announced, tables);
        EndKeepsChannel(m.rooms[i], w, tables);
        if Running(m.rooms[i]) {
          AppendKeepsUpToDate(m.rooms[i].sent, GameOver(w), m.players);
        }
      }
    }
  }

  /** Changes that no channel and no room's standing notices. */
  lemma SilentMail(m: Master, n: Master, tables: set<seq<PlayerRec>>)
    requires ChannelsOk(m, tables) && n.announced == m.announced && |n.rooms| == |m.rooms|
    requires forall i | 0 <= i < |m.rooms| ::
      n.rooms[i].sent == m.rooms[i].sent
      && n.rooms[i].started == m.rooms[i].started && (n.rooms[i].used ==> m.rooms[i].used)
    ensures ChannelsOk(n, tables)
    ensures Fresh(m) && n.players == m.players ==> Fresh(n)
  {
    hide OneEnd, RostersKnown, UpToDate;
    forall i | 0 <= i < |m.rooms| ensures ChannelOk(n.rooms[i], n.announced, tables) {
      assert ChannelOk(m.rooms[i], m.announced, tables);
    }
  }

  lemma FeedMail(m: Master, a: Attack, but: int, tables: set<seq<PlayerRec>>)
    requires MailOk(m, tables)
    ensures MailOk(m.(rooms := ToRunning(m.rooms, Feed(a), but)), tables)
  {
    hide ChannelsOk, UpToDate;
    RunningKeepsChannels(m, Feed(a), but, tables);
    forall i | 0 <= i < |m.rooms| && Running(m.rooms[i]) ensures UpToDate(m.rooms[i].sent + [Feed(a)], m.players) {
      AppendKeepsUpToDate(m.rooms[i].sent, Feed(a), m.players);
    }
  }

  lemma ForwardMail(m: Master, i: nat, a: Attack, tables: set<seq<PlayerRec>>)
    requires MailOk(m, tables) && i < |m.rooms|
    ensures MailOk(m.(rooms := m.rooms[i := m.rooms[i].(sent := m.rooms[i].sent + [Garbage(a)])]), tables)
  {
    hide ChannelsOk, UpToDate, ChannelOk;
    ChannelAt(m, i, tables);
    var r := m.rooms[i].(sent := m.rooms[i].sent + [Garbage(a)]);
    AppendKeepsChannel(m.rooms[i], Garbage(a), m.announced, tables);
    OneRoomChannels(m, i, r, tables);
    if Running(m.rooms[i]) {
      AppendKeepsUpToDate(m.rooms[i].sent, Garbage(a), m.players);
    }
  }

  lemma HandledMail(c: Config, m: Master, slot: nat, msg: UpMsg, tables: set<seq<PlayerRec>>)
    requires slot < |m.rooms| && MailOk(m, tables) && (!m.matchEnded ==> m.announced == [])
    requires Handled(c, m, slot, msg).players in tables
    ensures MailOk(Handled(c, m, slot, msg), tables)
  {
    hide ChannelsOk, Fresh, ToRunning, RosterOf, EndChecked, AllStarted, RouteOf;
    var room := m.rooms[slot];
    match msg
    case Ready => SilentMail(m, Handled(c, m, slot, msg), tables);
    case Joined(id) =>
      var ps := if |m.players| < c.maxRooms * c.lobby then m.players + [PlayerRec(id, slot, true)] else m.players;
      var a := m.(players := ps, rooms := m.rooms[slot := room.(joined := room.joined + 1)]);
      var n := RosterSent(a);
      AllStartedCores(n, |n.rooms|);
      SilentMail(m, a, tables);
      RosterSentMail(a, tables);
      AllStartedMail(n, |n.rooms|, tables);
    case Eliminated(id) =>
      var a := m.(players := Killed(m.players, id));
      EndKeepsPlayers(RosterSent(a));
      SilentMail(m, a, tables);
      RosterSentMail(a, tables);
      EndCheckedMail(RosterSent(a), tables);
    case AttackOut(a) =>
      if RouteOf(m, a.victim) < |m.rooms| {
        ForwardMail(m, RouteOf(m, a.victim), a, tables);
      }
    case FeedOut(a) => FeedMail(m, a, slot, tables);
  }

  lemma EndKeepsPlayers(m: Master)
    ensures EndChecked(m).players == m.players && (m.matchEnded ==> EndChecked(m).matchEnded)
  {
    hide ToUsed, Decided, Winner;
  }

  lemma ClosedMail(m: Master, slot: nat, tables: set<seq<PlayerRec>>)
    requires slot < |m.rooms| && MailOk(m, tables) && (!m.matchEnded ==> m.announced == [])
    requires RoomClosed(m, slot).players in tables
    ensures MailOk(RoomClosed(m, slot), tables)
  {
    hide ChannelsOk, Fresh, ToRunning, RosterOf, EndChecked, RoomKilled;
    var room, ps := m.rooms[slot], RoomKilled(m.players, slot);
    var b := m.(rooms := m.rooms[slot := room.(used := false)], closed := m.closed + room.pending);
    SilentMail(m, b, tables);
    if !m.matchEnded && ps != m.players {
      var a := b.(players := ps);
      SilentMail(b, a, tables);
      EndKeepsPlayers(RosterSent(a));
      RosterSentMail(a, tables);
      EndCheckedMail(RosterSent(a), tables);
    }
  }

  lemma SpawnedMail(m: Master, slot: nat, tables: set<seq<PlayerRec>>)
    requires slot < |m.rooms| && MailOk(m, tables)
    ensures MailOk(RoomSpawned(m, slot), tables)
  {
    hide UpToDate, Known;
  }

  lemma AcceptedMail(c: Config, m: Master, sock: nat, forkOk: bool, tables: set<seq<PlayerRec>>)
    requires MailOk(m, tables)
    ensures MailOk(Accepted(c, m, sock, forkOk), tables)
  {
    hide ChannelsOk, Fresh, RoomSpawned, FirstOpen, FirstUnused;
    var (n, slot) := Filling(c, m, forkOk);
    if FirstOpen(c, m.rooms, 0) == |m.rooms| && FirstUnused(m.rooms, 0) < |m.rooms| {
      SpawnedMail(m, FirstUnused(m.rooms, 0), tables);
    }
    SilentMail(n, Accepted(c, m, sock, forkOk), tables);
  }

  lemma StepMail(c: Config, s: System, e: Step, tables: set<seq<PlayerRec>>)
    requires Enabled(c, s, e) && MailOk(s.master, tables) && EndOk(c, s)
    requires Next(c, s, e).master.players in tables
    ensures MailOk(Next(c, s, e).master, tables)
  {
    hide MailOk, Handled, RoomClosed, AllStarted, TakenInMatch, TakenInLobby, Routed, GarbageFrom, Accepted, Filling;
    match e
    case Accept(forkOk) => AcceptedMail(c, s.master, s.accepted, forkOk, tables);
    case Enter => AllStartedCores(s.master, |s.master.rooms|); AllStartedMail(s.master, |s.master.rooms|, tables);
    case Deliver(slot) => DeliverMail(c, s, slot, tables);
    case Close(slot) => ClosedMail(s.master, slot, tables);
    case TakeInMatch(w) => TakenKeepsEnd(s, w);
    case Route(w, seat, victim) => RouteWorker(s, w, seat, victim);
    case TakeInLobby(w) => TakeInLobbyMaster(s, w);
    case _ =>
  }

  lemma TakeInLobbyMaster(s: System, w: nat)
    requires HasMail(s, w)
    ensures TakenInLobby(s, w).master == s.master && TakenInLobby(s, w).finalTable == s.finalTable
  {}

  lemma DeliverMail(c: Config, s: System, slot: nat, tables: set<seq<PlayerRec>>)
    requires Enabled(c, s, Deliver(slot)) && MailOk(s.master, tables) && EndOk(c, s)
    requires Delivered(c, s, slot).master.players in tables
    ensures MailOk(Delivered(c, s, slot).master, tables)
  {
    hide ChannelsOk, Fresh, Handled;
    var room := s.master.rooms[slot];
    var p := Peeked(s, slot);
    SilentMail(s.master, p.master, tables);
    HandledMail(c, p.master, slot, s.workers[room.worker].sent[room.seen], tables);
  }

  // ----- Every run -----

  /** The tables the master has had so far. */
  ghost function Tables(states: seq<System>, n: nat): set<seq<PlayerRec>>
    requires n < |states|
  {
    set k | 0 <= k <= n :: states[k].master.players
  }

  lemma MoreTables(m: Master, tables: set<seq<PlayerRec>>, more: set<seq<PlayerRec>>)
    requires MailOk(m, tables) && tables <= more
    ensures MailOk(m, more)
  {
    hide OneStart, OneEnd, UpToDate, Tells;
    forall i | 0 <= i < |m.rooms| ensures ChannelOk(m.rooms[i], m.announced, more) {
      assert ChannelOk(m.rooms[i], m.announced, tables);
    }
  }

  lemma {:induction false} EveryRunMail(c: Config, states: seq<System>, steps: seq<Step>, n: nat)
    requires IsRun(c, states, steps) && n < |states|
    ensures Safe(c, states[n]) && MailOk(states[n].master, Tables(states, n))
  {
    hide Shape, AllWorkersOk, TableOk, EndOk, MailOk, Next;
    EveryRunIsSafe(c, states, steps, n);
    if n == 0 {
      InitialMail(c, Tables(states, n));
    } else {
      EveryRunMail(c, states, steps, n - 1);
      MoreTables(states[n - 1].master, Tables(states, n - 1), Tables(states, n));
      StepMail(c, states[n - 1], steps[n - 1], Tables(states, n));
    }
  }

  lemma InitialMail(c: Config, tables: set<seq<PlayerRec>>)
    ensures MailOk(Initial(c).master, tables)
  {}
}
