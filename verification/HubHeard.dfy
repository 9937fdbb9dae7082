/** What a room's worker knows from the messages it has taken: its start order, the roster, the
    end of the match and the winner. */
module HubHeard {
  import opened Hub
  import opened HubSafety
  import opened HubMasterSteps
  import opened HubTable
  import opened HubMail
  import opened HubEnding
  import opened HubFullTable

  // ----- Taken messages -----

  /** The messages a worker has taken from its channel. */
  ghost function Heard(s: System, w: nat): seq<DownMsg>
    requires w < |s.workers|
  {
    if Current(s, w) && s.workers[w].taken <= |s.master.rooms[s.workers[w].slot].sent|
    then s.master.rooms[s.workers[w].slot].sent[..s.workers[w].taken] else []
  }

  ghost predicate HeardEnd(heard: seq<DownMsg>, from: nat) {
    exists p :: from <= p < |heard| && heard[p].GameOver?
  }

  /** The worker is ordered to start iff it took the order in the lobby, and knows of the end of
      the match iff it took the announcement after the lobby. */
  ghost predicate InStep(k: Worker, heard: seq<DownMsg>) {
    && k.early <= k.taken == |heard| && (!k.begun ==> k.early == k.taken)
    && (k.begun ==> k.ordered) && (k.ordered <==> HasStart(heard, k.early))
    && (k.matchOver <==> HeardEnd(heard, k.early))
  }

  ghost predicate Knows(s: System, w: nat)
    requires w < |s.workers|
  {
    && (s.workers[w].matchOver ==> s.master.announced == [s.workers[w].winner])
    && (Current(s, w) ==> InStep(s.workers[w], Heard(s, w)))
  }

  ghost predicate AllKnow(s: System) {
    forall w | 0 <= w < |s.workers| :: Knows(s, w)
  }

  // ----- The worker's own steps -----

  lemma OneMoreStart(heard: seq<DownMsg>, msg: DownMsg)
    ensures HasStart(heard + [msg], |heard| + 1) <==> HasStart(heard, |heard|) || msg.Start?
  {
    var more := heard + [msg];
    if HasStart(heard, |heard|) {
      var p :| 0 <= p < |heard| && heard[p].Start?;
      assert more[p].Start?;
    }
    if msg.Start? {
      assert more[|heard|].Start?;
    }
  }

  lemma OneMoreEnd(heard: seq<DownMsg>, msg: DownMsg, n: nat)
    requires n <= |heard|
    ensures HeardEnd(heard + [msg], n) <==> HeardEnd(heard, n) || msg.GameOver?
    ensures HasStart(heard + [msg], n) <==> HasStart(heard, n)
  {
    var more := heard + [msg];
    if HeardEnd(heard, n) {
      var p :| n <= p < |heard| && heard[p].GameOver?;
      assert more[p].GameOver?;
    }
    if HasStart(heard, n) {
      var p :| 0 <= p < n && p < |heard| && heard[p].Start?;
      assert more[p].Start?;
    }
    if msg.GameOver? {
      assert more[|heard|].GameOver?;
    }
  }

  /** Taking a message adds it to what was heard. */
  lemma TakenHeard(s: System, t: System, w: nat)
    requires HasMail(s, w) && |t.workers| == |s.workers| && t.master == s.master
    requires t.workers[w].slot == s.workers[w].slot && t.workers[w].taken == s.workers[w].taken + 1
    ensures Current(t, w) && Heard(t, w) == Heard(s, w) + [Mail(s, w)]
  {}

  lemma LobbyKnows(s: System, w: nat)
    requires HasMail(s, w) && Knows(s, w) && !s.workers[w].begun
    ensures Knows(TakenInLobby(s, w), w)
  {
    hide HasStart, HeardEnd, Heard;
    var t, heard := TakenInLobby(s, w), Heard(s, w);
    TakenHeard(s, t, w);
    OneMoreStart(heard, Mail(s, w));
    NoEnd(heard, heard + [Mail(s, w)]);
  }

  lemma NoEnd(a: seq<DownMsg>, b: seq<DownMsg>)
    ensures !HeardEnd(a, |a|) && !HeardEnd(b, |b|)
  {}

  lemma MatchKnows(s: System, w: nat, tables: set<seq<PlayerRec>>)
    requires HasMail(s, w) && Knows(s, w) && s.workers[w].begun && ChannelsOk(s.master, tables)
    ensures Knows(TakenInMatch(s, w), w)
  {
    hide HasStart, HeardEnd, Heard, SeatHit, SeatsHit, OneStart, RostersKnown;
    var t, k, msg := TakenInMatch(s, w), s.workers[w], Mail(s, w);
    TakenHeard(s, t, w);
    OneMoreEnd(Heard(s, w), msg, k.early);
    assert ChannelOk(s.master.rooms[k.slot], s.master.announced, tables);
    if msg.GameOver? {
      assert s.master.announced == [msg.winner];
    }
  }

  /** What a worker does besides taking messages leaves alone what it knows. */
  lemma QuietKnows(s: System, t: System, w: nat)
    requires w < |s.workers| && |t.workers| == |s.workers| && t.master == s.master && Knows(s, w)
    requires var k, n := s.workers[w], t.workers[w];
             && n.slot == k.slot && n.taken == k.taken && n.early == k.early && n.ordered == k.ordered
             && n.matchOver == k.matchOver && n.winner == k.winner
             && (n.begun == k.begun || (n.begun && k.ordered))
    ensures Knows(t, w)
  {}

  lemma WorkerStepKnows(c: Config, s: System, e: Step, tables: set<seq<PlayerRec>>)
    requires AllWorkersOk(c, s) && Enabled(c, s, e) && ByWorker(e) && AllKnow(s) && ChannelsOk(s.master, tables)
    ensures AllKnow(Next(c, s, e))
  {
    hide WorkerOk, ChannelsOk, Knows, Grows, TakenInLobby, TakenInMatch, OutcomeOf, SeatsAfter, News, FirstId;
    WorkerStepGrows(c, s, e);
    var t, w := Next(c, s, e), e.w;
    assert Knows(s, w);
    if e.TakeInLobby? {
      LobbyKnows(s, w);
    } else if e.TakeInMatch? {
      MatchKnows(s, w, tables);
    } else {
      QuietKnows(s, t, w);
    }
    hide Next;
    forall v | 0 <= v < |t.workers| ensures Knows(t, v) {
      assert Knows(s, v);
      if v != w {
        QuietKnows(s, t, v);
      }
    }
  }

  // ----- The master's steps -----

  /** The worker stays and its channel grows, or it is behind no slot any more. */
  ghost predicate ChannelGrew(s: System, t: System, w: nat) {
    && w < |s.workers| && w < |t.workers| && t.workers[w] == s.workers[w]
    && (Current(t, w) ==>
          Current(s, w) && s.master.rooms[s.workers[w].slot].sent <= t.master.rooms[s.workers[w].slot].sent)
  }

  lemma GrewKnows(s: System, t: System, w: nat)
    requires ChannelGrew(s, t, w) && Knows(s, w)
    requires s.workers[w].matchOver ==> t.master.announced == s.master.announced
    requires Current(s, w) ==> s.workers[w].taken <= |s.master.rooms[s.workers[w].slot].sent|
    ensures Knows(t, w)
  {
    hide HasStart, HeardEnd;
    if Current(t, w) {
      assert Heard(t, w) == Heard(s, w);
    }
  }

  lemma AlikeGrew(s: System, t: System, w: nat)
    requires Alike(s, t) && w < |s.workers|
    ensures ChannelGrew(s, t, w)
  {
    AlikeCurrent(s, t, w);
    var i := s.workers[w].slot;
    assert i < |s.master.rooms| ==> SameCore(s.master.rooms[i], t.master.rooms[i]);
  }

  lemma GrewCompose(s: System, t: System, u: System, w: nat)
    requires ChannelGrew(s, t, w) && ChannelGrew(t, u, w)
    ensures ChannelGrew(s, u, w)
  {}

  lemma HiredGrew(c: Config, s: System, slot: nat, w: nat)
    requires Shape(c, s) && slot < |s.master.rooms| && !s.master.rooms[slot].used && w < |s.workers|
    ensures ChannelGrew(s, Hired(c, s, slot), w)
  {
    HiredShape(c, s, slot);
  }

  /** In every step of the master each worker's channel only grows, or the worker is gone. */
  lemma MasterStepGrew(c: Config, s: System, e: Step, w: nat)
    requires Shape(c, s) && Enabled(c, s, e) && !ByWorker(e) && w < |s.workers|
    ensures ChannelGrew(s, Next(c, s, e), w)
  {
    hide Shape, ChannelGrew, Handled, RoomClosed, AllStarted, SameCores, Filling, Hired, GarbageFrom, Accepted;
    var t := Next(c, s, e);
    match e
    case Accept(forkOk) =>
      var (n, slot) := Filling(c, s.master, forkOk);
      AcceptSplits(c, s, forkOk);
      if n.roomSeq > s.master.roomSeq {
        HiredGrew(c, s, slot, w);
        assert Alike(Hired(c, s, slot), t);
        HiredWorkers(c, s, slot);
        AlikeGrew(Hired(c, s, slot), t, w);
        GrewCompose(s, Hired(c, s, slot), t, w);
      } else {
        AlikeGrew(s, t, w);
      }
    case Enter =>
      AllStartedCores(s.master, |s.master.rooms|);
      AlikeGrew(s, t, w);
    case Deliver(slot) =>
      var room, p := s.master.rooms[slot], Peeked(s, slot);
      HandledCores(c, p.master, slot, s.workers[room.worker].sent[room.seen]);
      AlikeGrew(p, t, w);
      PeekedGrew(c, s, slot, w);
      GrewCompose(s, p, t, w);
    case Close(slot) =>
      var v := Vacated(s, slot, s.master.players);
      ClosedCores(s.master, slot);
      VacatedGrew(c, s, slot, w);
      AlikeGrew(v, t, w);
      GrewCompose(s, v, t, w);
  }

  lemma HiredWorkers(c: Config, s: System, slot: nat)
    requires slot < |s.master.rooms|
    ensures |Hired(c, s, slot).workers| == |s.workers| + 1
  {}

  lemma PeekedGrew(c: Config, s: System, slot: nat, w: nat)
    requires slot < |s.master.rooms| && w < |s.workers|
    ensures ChannelGrew(s, Peeked(s, slot), w)
  {}

  lemma VacatedGrew(c: Config, s: System, slot: nat, w: nat)
    requires Shape(c, s) && Enabled(c, s, Close(slot)) && w < |s.workers|
    ensures ChannelGrew(s, Vacated(s, slot, s.master.players), w)
  {
    VacatedShape(c, s, slot, s.master.players);
  }

  lemma EndedWhenKnown(c: Config, s: System, w: nat)
    requires EndOk(c, s) && w < |s.workers| && Knows(s, w) && s.workers[w].matchOver
    ensures s.master.matchEnded
  {}

  lemma MasterStepKnows(c: Config, s: System, e: Step)
    requires Safe(c, s) && Enabled(c, s, e) && !ByWorker(e) && AllKnow(s)
    ensures AllKnow(Next(c, s, e))
  {
    hide Knows, ChannelGrew, AllWorkersOk, TableOk, Next;
    var t := Next(c, s, e);
    NewWorkers(c, s, e);
    forall w | 0 <= w < |t.workers| ensures Knows(t, w) {
      if w < |s.workers| {
        assert Knows(s, w);
        MasterStepGrew(c, s, e, w);
        TakenIsSent(c, s, w);
        if s.workers[w].matchOver {
          EndedWhenKnown(c, s, w);
          EndStays(c, s, e);
        }
        GrewKnows(s, t, w);
      } else {
        NewKnows(t, w);
      }
    }
  }

  lemma TakenIsSent(c: Config, s: System, w: nat)
    requires Shape(c, s) && w < |s.workers|
    ensures Current(s, w) ==> s.workers[w].taken <= |s.master.rooms[s.workers[w].slot].sent|
  {
    assert Current(s, w) ==> RoomOk(s, s.workers[w].slot);
  }

  /** A worker that has just been started. */
  ghost predicate Untouched(k: Worker) {
    && k.taken == 0 && k.early == 0 && !k.begun && !k.ordered && !k.matchOver
  }

  lemma NewKnows(s: System, w: nat)
    requires w < |s.workers| && Untouched(s.workers[w])
    ensures Knows(s, w)
  {}

  lemma NewWorkers(c: Config, s: System, e: Step)
    requires Enabled(c, s, e) && !ByWorker(e)
    ensures |Next(c, s, e).workers| >= |s.workers|
    ensures forall w | |s.workers| <= w < |Next(c, s, e).workers| :: Untouched(Next(c, s, e).workers[w])
  {
    hide Filling, Accepted, Handled, RoomClosed, AllStarted, GarbageFrom, RouteOf;
  }

  lemma {:induction false} EveryRunKnows(c: Config, states: seq<System>, steps: seq<Step>, n: nat)
    requires IsRun(c, states, steps) && n < |states|
    ensures Safe(c, states[n]) && MailOk(states[n].master, Tables(states, n)) && AllKnow(states[n])
  {
    hide Shape, AllWorkersOk, TableOk, EndOk, Next, ChannelsOk, Fresh, Knows;
    EveryRunMail(c, states, steps, n);
    if n > 0 {
      EveryRunKnows(c, states, steps, n - 1);
      if ByWorker(steps[n - 1]) {
        WorkerStepKnows(c, states[n - 1], steps[n - 1], Tables(states, n - 1));
      } else {
        MasterStepKnows(c, states[n - 1], steps[n - 1]);
      }
    }
  }

  // ----- The end of the match -----

  /** A worker that knows of the end of the match knows the one winner announced, who alone was
      alive in the master's table then. */
  lemma WorkerKnowsTheWinner(c: Config, states: seq<System>, steps: seq<Step>, n: nat, w: nat)
    requires IsRun(c, states, steps) && n < |states| && w < |states[n].workers| && states[n].workers[w].matchOver
    ensures var s, k := states[n], states[n].workers[w];
            && s.master.matchEnded && s.master.announced == [k.winner]
            && forall r | r in s.finalTable :: r.alive <==> r.id == k.winner
  {
    hide Shape, AllWorkersOk, TableOk, MailOk, Next, Initial, InStep;
    EveryRunKnows(c, states, steps, n);
    assert Knows(states[n], w);
  }

  /** A live worker knows of the end iff its channel says so among the messages it took after
      its lobby; what it took in the lobby does not count. */
  lemma WorkerHearsTheEnd(c: Config, states: seq<System>, steps: seq<Step>, n: nat, w: nat)
    requires IsRun(c, states, steps) && n < |states| && Alive(states[n], w)
    ensures var s, k := states[n], states[n].workers[w];
            && Current(s, w) && k.early <= k.taken <= |s.master.rooms[k.slot].sent|
            && (k.matchOver <==>
                exists p :: k.early <= p < k.taken && s.master.rooms[k.slot].sent[p].GameOver?)
  {
    hide AllWorkersOk, TableOk, EndOk, MailOk, Next, Initial, HasStart;
    EveryRunKnows(c, states, steps, n);
    var s, k := states[n], states[n].workers[w];
    assert Knows(s, w) && Current(s, w);
    TakenIsSent(c, s, w);
    var sent := s.master.rooms[k.slot].sent;
    if HeardEnd(Heard(s, w), k.early) {
      var p :| k.early <= p < |Heard(s, w)| && Heard(s, w)[p].GameOver?;
      assert sent[p].GameOver?;
    }
    if p :| k.early <= p < k.taken && sent[p].GameOver? {
      assert Heard(s, w)[p].GameOver?;
    }
  }

  /** Message `p` of the worker's channel is the end of the match, taken in the lobby. */
  ghost predicate MissedAt(s: System, w: nat, p: nat) {
    && Current(s, w) && p < s.workers[w].early && p < |s.master.rooms[s.workers[w].slot].sent|
    && s.master.rooms[s.workers[w].slot].sent[p].GameOver?
  }

  lemma EarlyStays(c: Config, s: System, e: Step, w: nat)
    requires Enabled(c, s, e) && ByWorker(e) && w < |s.workers|
    ensures var t := Next(c, s, e);
            && |t.workers| == |s.workers| && t.master == s.master
            && t.workers[w].slot == s.workers[w].slot && t.workers[w].early >= s.workers[w].early
            && (s.workers[w].exited ==> t.workers[w].exited)
  {
    hide OutcomeOf, SeatsAfter, News, SeatHit, SeatsHit, FirstId;
  }

  lemma MissedStays(c: Config, s: System, e: Step, w: nat, p: nat)
    requires Safe(c, s) && Enabled(c, s, e) && MissedAt(s, w, p) && Alive(s, w)
    ensures MissedAt(Next(c, s, e), w, p)
  {
    hide Shape, AllWorkersOk, TableOk, EndOk, Next, Enabled;
    if ByWorker(e) {
      EarlyStays(c, s, e, w);
    } else {
      MasterStepGrew(c, s, e, w);
      StepKeepsSafe(c, s, e);
      AliveIsBehindItsSlot(c, Next(c, s, e), w);
    }
  }

  lemma AliveIsBehindItsSlot(c: Config, s: System, w: nat)
    requires Shape(c, s)
    ensures Alive(s, w) ==> Current(s, w)
  {}

  lemma ExitedStays(c: Config, s: System, e: Step, w: nat)
    requires Safe(c, s) && Enabled(c, s, e) && w < |s.workers|
    ensures w < |Next(c, s, e).workers| && (s.workers[w].exited ==> Next(c, s, e).workers[w].exited)
  {
    hide Shape, AllWorkersOk, TableOk, EndOk, Next, Enabled;
    if ByWorker(e) {
      EarlyStays(c, s, e, w);
    } else {
      MasterStepGrew(c, s, e, w);
    }
  }

  /** A worker that took the end of the match in its lobby never knows of it, however long it
      lives. */
  lemma {:induction false} MissedForever(c: Config, states: seq<System>, steps: seq<Step>, n: nat, m: nat, w: nat,
                                         p: nat)
    requires IsRun(c, states, steps) && n <= m < |states| && MissedAt(states[n], w, p) && Alive(states[m], w)
    ensures MissedAt(states[m], w, p) && Alive(states[n], w) && !states[m].workers[w].matchOver
    decreases m - n
  {
    hide Next, Initial, Safe;
    if n < m {
      EveryRunIsSafe(c, states, steps, m - 1);
      StillThere(c, states, steps, n, m - 1, w);
      ExitedStays(c, states[m - 1], steps[m - 1], w);
      MissedForever(c, states, steps, n, m - 1, w, p);
      MissedStays(c, states[m - 1], steps[m - 1], w, p);
    }
    WorkerHearsTheEnd(c, states, steps, m, w);
    GameOverTellsTheWinner(c, states, steps, m, states[m].workers[w].slot, p);
  }

  lemma {:induction false} StillThere(c: Config, states: seq<System>, steps: seq<Step>, n: nat, m: nat, w: nat)
    requires IsRun(c, states, steps) && n <= m < |states| && w < |states[n].workers|
    ensures w < |states[m].workers|
    decreases m - n
  {
    hide Next, Initial, Safe;
    if n < m {
      StillThere(c, states, steps, n, m - 1, w);
      EveryRunIsSafe(c, states, steps, m - 1);
      ExitedStays(c, states[m - 1], steps[m - 1], w);
    }
  }

  // ----- Rosters and start orders -----

  /** Every running room's last roster is the master's present table, and every roster any room
      was ever sent is a table the master has had: exactly its ids and alive flags, in order. */
  lemma RostersAreTheTable(c: Config, states: seq<System>, steps: seq<Step>, n: nat, i: nat)
    requires IsRun(c, states, steps) && n < |states| && i < |states[n].master.rooms|
    ensures var m, sent := states[n].master, states[n].master.rooms[i].sent;
            && (Running(m.rooms[i]) ==> UpToDate(sent, m.players))
            && forall p | 0 <= p < |sent| && sent[p].GlobalRoster? ::
              exists k :: 0 <= k <= n && Tells(sent[p].standing, states[k].master.players)
  {
    hide Safe, Next, Initial, UpToDate, OneStart, OneEnd, Tells;
    EveryRunMail(c, states, steps, n);
    var m, sent := states[n].master, states[n].master.rooms[i].sent;
    assert ChannelOk(m.rooms[i], m.announced, Tables(states, n));
    forall p | 0 <= p < |sent| && sent[p].GlobalRoster?
      ensures exists k :: 0 <= k <= n && Tells(sent[p].standing, states[k].master.players)
    {
      var ps :| ps in Tables(states, n) && Tells(sent[p].standing, ps);
      var k :| 0 <= k <= n && states[k].master.players == ps;
      assert Tells(sent[p].standing, states[k].master.players);
    }
  }

  /** A live worker that plays and has taken all its mail last heard exactly the master's present
      table. */
  lemma HeardRosterIsTheTable(c: Config, states: seq<System>, steps: seq<Step>, n: nat, w: nat)
    requires IsRun(c, states, steps) && n < |states| && Alive(states[n], w) && states[n].workers[w].begun
    requires !HasMail(states[n], w)
    ensures UpToDate(Heard(states[n], w), states[n].master.players)
  {
    hide AllWorkersOk, TableOk, EndOk, Next, Initial, UpToDate, OneEnd, RostersKnown, HeardEnd;
    EveryRunKnows(c, states, steps, n);
    var s, k := states[n], states[n].workers[w];
    assert Knows(s, w) && Current(s, w);
    TakenIsSent(c, s, w);
    var r := s.master.rooms[k.slot];
    assert Heard(s, w) == r.sent;
    assert ChannelOk(r, s.master.announced, Tables(states, n));
    StartMeansStarted(r, k.early);
  }

  lemma StartMeansStarted(r: Room, n: nat)
    requires OneStart(r) && HasStart(r.sent, n)
    ensures r.started
  {
    var p :| 0 <= p < n && p < |r.sent| && r.sent[p].Start?;
    assert HasStart(r.sent, |r.sent|);
  }

  /** A room is sent a start order iff it counts as started, and never a second one. */
  lemma OneStartOrder(c: Config, states: seq<System>, steps: seq<Step>, n: nat, i: nat)
    requires IsRun(c, states, steps) && n < |states| && i < |states[n].master.rooms|
    ensures var r := states[n].master.rooms[i];
            && (r.started <==> exists p :: 0 <= p < |r.sent| && r.sent[p].Start?)
            && forall p, q | 0 <= p < |r.sent| && 0 <= q < |r.sent| && r.sent[p].Start? && r.sent[q].Start? :: p == q
  {
    hide Safe, Next, Initial, UpToDate, OneEnd, RostersKnown;
    EveryRunMail(c, states, steps, n);
    var m := states[n].master;
    assert ChannelOk(m.rooms[i], m.announced, Tables(states, n));
  }

  // ----- An end that is missed -----

  /** A worker can take all its mail in the lobby. */
  lemma LobbyTakesAll(c: Config, states: seq<System>, steps: seq<Step>, w: nat)
      returns (states': seq<System>, steps': seq<Step>)
    requires IsRun(c, states, steps) && |states| == |steps| + 1
    requires Alive(states[|steps|], w) && Current(states[|steps|], w)
    requires var k := states[|steps|].workers[w];
             k.open && !k.begun && k.taken <= |states[|steps|].master.rooms[k.slot].sent|
    ensures IsRun(c, states', steps') && |states'| == |steps'| + 1
    ensures var s, t := states[|steps|], states'[|steps'|];
            var k, n := s.workers[w], |s.master.rooms[s.workers[w].slot].sent|;
            && t.master == s.master && |t.workers| == |s.workers|
            && t.workers[w] == k.(taken := n, early := k.early + n - k.taken, ordered := t.workers[w].ordered)
    decreases |states[|steps|].master.rooms[states[|steps|].workers[w].slot].sent| - states[|steps|].workers[w].taken
  {
    hide IsRun, Next;
    var s := states[|steps|];
    states', steps' := states, steps;
    if HasMail(s, w) {
      states', steps' := Extend(c, states, steps, TakeInLobby(w));
      TakesOne(c, s, w);
      states', steps' := LobbyTakesAll(c, states', steps', w);
    }
  }

  lemma TakesOne(c: Config, s: System, w: nat)
    requires Alive(s, w) && HasMail(s, w) && s.workers[w].open && !s.workers[w].begun
    ensures var t, k := Next(c, s, TakeInLobby(w)), s.workers[w];
            && t.master == s.master && |t.workers| == |s.workers|
            && t.workers[w] == k.(taken := k.taken + 1, early := k.early + 1, ordered := t.workers[w].ordered)
  {}

  /** A run in which the announced winner's own room plays on: it took the end of the match in
      its lobby, has nothing more to take, and begins a match it will not see the end of. */
  lemma EndCanBeMissed(c: Config) returns (states: seq<System>, steps: seq<Step>)
    requires Small(c)
    ensures IsRun(c, states, steps) && |states| == |steps| + 1 && |states[|steps|].workers| > 1
    ensures var s, k := states[|steps|], states[|steps|].workers[1];
            && s.master.announced == [2] && k.session == [Slot(2, true, false, false, 0, 0)]
            && Alive(s, 1) && k.begun && !HasMail(s, 1) && !k.matchOver
            && exists p: nat :: MissedAt(s, 1, p)
  {
    hide IsRun, Next, Enabled, HasStart, HeardEnd, Knows, Safe, MailOk;
    states, steps := FullTableMisleads(c);
    EndReachesEveryRoom(c, states, steps, |steps| - 1);
    ghost var sent := states[|steps|].master.rooms[1].sent;
    assert sent[|sent| - 1].GameOver?;
    states, steps := LobbyTakesAll(c, states, steps, 1);
    var t := states[|steps|];
    EveryRunKnows(c, states, steps, |steps|);
    TookItsOrder(t, 1);
    states, steps := Extend(c, states, steps, Begin(1));
    BeginsAlone(c, t);
    assert MissedAt(states[|steps|], 1, |sent| - 1);
  }

  lemma TookItsOrder(s: System, w: nat)
    requires w < |s.workers| && Current(s, w) && AllKnow(s) && !s.workers[w].begun
    requires s.workers[w].taken == |s.master.rooms[s.workers[w].slot].sent| > 0
    requires s.master.rooms[s.workers[w].slot].sent[0].Start?
    ensures s.workers[w].ordered
  {
    assert Knows(s, w);
    assert Heard(s, w)[0].Start?;
  }

  lemma BeginsAlone(c: Config, s: System)
    requires |s.workers| > 1 && Current(s, 1) && !HasMail(s, 1)
    requires var k := s.workers[1];
             k == Lobbyist(1, 1).(taken := k.taken, early := k.taken, ordered := true)
    ensures Enabled(c, s, Begin(1))
    ensures var t, k := Next(c, s, Begin(1)), s.workers[1];
            && t.master == s.master && |t.workers| == |s.workers| && Current(t, 1) && !HasMail(t, 1)
            && t.workers[1] == k.(begun := true, session := [Slot(2, true, false, false, 0, 0)])
  {
    assert [2][..1] == [2] && Seats([2]) == [Slot(2, true, false, false, 0, 0)];
  }
}
