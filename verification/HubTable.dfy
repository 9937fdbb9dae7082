/** Who is in the master's table: everyone whose join was handled, as long as the table has
    room; and what that adds to the meaning of alive flags and winners. */
module HubTable {
  import opened Collections
  import opened Arith
  import opened Hub
  import opened HubSafety
  import opened HubMasterSteps

  /** The table's size. */
  function Capacity(c: Config): nat {
    c.maxRooms * c.lobby
  }

  ghost predicate Recorded(ps: seq<PlayerRec>, id: nat) {
    exists i :: 0 <= i < |ps| && ps[i].id == id
  }

  /** The master has handled this player's join. */
  ghost predicate JoinHandled(c: Config, s: System, id: nat) {
    var w := WorkerOf(c, id);
    0 <= w < |s.workers| && Among(Joined(id), s.workers[w].sent, Seen(s, w))
  }

  /** The players whose joins the master has handled. */
  ghost function Joiners(c: Config, s: System): set<nat> {
    set id: nat | id < 1 + |s.workers| * c.lobby && JoinHandled(c, s, id)
  }

  /** While the table has room, nobody whose join was handled is missing from it. */
  ghost predicate Complete(c: Config, s: System) {
    && |s.master.players| <= Capacity(c)
    && (|s.master.players| < Capacity(c) ==> forall id: nat | JoinHandled(c, s, id) :: Recorded(s.master.players, id))
  }

  // ----- Steps -----

  lemma GrowsKeepsRecorded(a: seq<PlayerRec>, b: seq<PlayerRec>, id: nat)
    requires TableGrows(a, b) && Recorded(a, id)
    ensures Recorded(b, id)
  {
    var i :| 0 <= i < |a| && a[i].id == id;
    assert b[i].id == id;
  }

  /** The only join that becomes handled is the one delivered. */
  ghost predicate OnlyNewJoin(c: Config, s: System, t: System, e: Step) {
    forall id: nat | JoinHandled(c, t, id) ::
      JoinHandled(c, s, id) || (e.Deliver? && Arrived(s, e.slot, Joined(id)))
  }

  lemma WorkerStepJoins(c: Config, s: System, e: Step)
    requires Safe(c, s) && Enabled(c, s, e) && ByWorker(e)
    ensures OnlyNewJoin(c, s, Next(c, s, e), e)
  {
    WorkerStepGrows(c, s, e);
    var t := Next(c, s, e);
    hide Next, WorkerOk, TableOk, EndOk;
    forall id: nat | JoinHandled(c, t, id) ensures JoinHandled(c, s, id) {
      GrowsJoins(c, s, t, e.w, id);
    }
  }

  lemma GrowsJoins(c: Config, s: System, t: System, w: nat, id: nat)
    requires Shape(c, s) && OneWorkerGrew(c, s, t, w) && !s.workers[w].exited && JoinHandled(c, t, id)
    ensures JoinHandled(c, s, id)
  {
    hide WorkerOk, Among;
    var v := WorkerOf(c, id);
    assert Current(s, v) || s.workers[v].exited;
    assert Current(s, v) ==> RoomOk(s, s.workers[v].slot);
    assert Seen(t, v) == Seen(s, v);
    PrefixAmong(Joined(id), s.workers[v].sent, t.workers[v].sent, Seen(s, v));
  }

  lemma AlikeJoins(c: Config, s: System, t: System, id: nat)
    requires Alike(s, t) && JoinHandled(c, t, id)
    ensures JoinHandled(c, s, id)
  {
    hide Among, SameCores;
    AlikeCurrent(s, t, WorkerOf(c, id));
  }

  lemma DeliverJoins(c: Config, s: System, slot: nat)
    requires Safe(c, s) && Enabled(c, s, Deliver(slot))
    ensures OnlyNewJoin(c, s, Next(c, s, Deliver(slot)), Deliver(slot))
  {
    hide Shape, WorkerOk, TableOk, EndOk, Among, SameCores, Handled;
    var p, t := Peeked(s, slot), Next(c, s, Deliver(slot));
    var room := s.master.rooms[slot];
    var msg := s.workers[room.worker].sent[room.seen];
    HandledCores(c, p.master, slot, msg);
    assert Alike(p, t);
    forall id: nat | JoinHandled(c, t, id) ensures JoinHandled(c, s, id) || Arrived(s, slot, Joined(id)) {
      AlikeJoins(c, p, t, id);
      PeekedAmong(c, s, slot, msg, WorkerOf(c, id), Joined(id));
    }
  }

  lemma CloseJoins(c: Config, s: System, slot: nat)
    requires Safe(c, s) && Enabled(c, s, Close(slot))
    ensures OnlyNewJoin(c, s, Next(c, s, Close(slot)), Close(slot))
  {
    hide Shape, WorkerOk, TableOk, EndOk, Among, SameCores, ToRunning, ToUsed, Decided, GarbageFrom;
    var t := Next(c, s, Close(slot));
    var v := Vacated(s, slot, s.master.players);
    VacatedShape(c, s, slot, s.master.players);
    ClosedCores(s.master, slot);
    assert Alike(v, t);
    forall id: nat | JoinHandled(c, t, id) ensures JoinHandled(c, s, id) {
      AlikeJoins(c, v, t, id);
      assert Seen(v, WorkerOf(c, id)) == Seen(s, WorkerOf(c, id));
    }
  }

  /** Closing a room frees its slot and otherwise only sends messages. */
  lemma ClosedCores(m: Master, slot: nat)
    requires slot < |m.rooms|
    ensures SameCores(m.rooms[slot := m.rooms[slot].(used := false)], RoomClosed(m, slot).rooms)
    ensures RoomClosed(m, slot).roomSeq == m.roomSeq
  {
    hide ToRunning, ToUsed, SameCores, Decided, Winner;
    var rooms, ps := m.rooms[slot := m.rooms[slot].(used := false)], RoomKilled(m.players, slot);
    var roster := RosterOf(ps);
    SameCoresRefl(rooms);
    ToRunningCores(rooms, roster, -1);
    var told := ToRunning(rooms, roster, -1);
    ToUsedCores(told, GameOver(Winner(ps)));
    CoresCompose(rooms, told, ToUsed(told, GameOver(Winner(ps))));
  }

  lemma AcceptJoins(c: Config, s: System, forkOk: bool)
    requires Safe(c, s)
    ensures OnlyNewJoin(c, s, Next(c, s, Accept(forkOk)), Accept(forkOk))
  {
    hide Shape, WorkerOk, TableOk, EndOk, Filling, Next, SameCores;
    var (n, slot) := Filling(c, s.master, forkOk);
    var t := Next(c, s, Accept(forkOk));
    AcceptSplits(c, s, forkOk);
    if n.roomSeq > s.master.roomSeq {
      HiredShape(c, s, slot);
      forall id: nat | JoinHandled(c, t, id) ensures JoinHandled(c, s, id) {
        AlikeJoins(c, Hired(c, s, slot), t, id);
        assert Hired(c, s, slot).workers[|s.workers|].sent == [];
      }
    } else {
      forall id: nat | JoinHandled(c, t, id) ensures JoinHandled(c, s, id) {
        AlikeJoins(c, s, t, id);
      }
    }
  }

  lemma EnterJoins(c: Config, s: System)
    ensures OnlyNewJoin(c, s, Next(c, s, Enter), Enter)
  {
    hide AllStarted, SameCores, JoinHandled;
    AllStartedCores(s.master, |s.master.rooms|);
    forall id: nat | JoinHandled(c, Next(c, s, Enter), id) ensures JoinHandled(c, s, id) {
      AlikeJoins(c, s, Next(c, s, Enter), id);
    }
  }

  lemma StepJoins(c: Config, s: System, e: Step)
    requires Safe(c, s) && Enabled(c, s, e)
    ensures OnlyNewJoin(c, s, Next(c, s, e), e)
  {
    hide Safe, Next, OnlyNewJoin, Enabled;
    match e
    case Accept(forkOk) => AcceptJoins(c, s, forkOk);
    case Enter => EnterJoins(c, s);
    case Deliver(slot) => DeliverJoins(c, s, slot);
    case Close(slot) => CloseJoins(c, s, slot);
    case _ => WorkerStepJoins(c, s, e);
  }

  /** A table with room takes the joining player in, and no table overflows. */
  lemma TableTakesJoin(c: Config, s: System, e: Step)
    requires Enabled(c, s, e) && |s.master.players| <= Capacity(c)
    ensures |Next(c, s, e).master.players| <= Capacity(c)
    ensures e.Deliver? && |s.master.players| < Capacity(c) ==>
              forall id: nat | Arrived(s, e.slot, Joined(id)) :: Recorded(Next(c, s, e).master.players, id)
  {
    hide ToRunning, ToUsed, AllStarted, Decided, Winner, FirstOpen, FirstUnused, GarbageFrom, RouteOf;
    match e
    case Enter => AllStartedCores(s.master, |s.master.rooms|);
    case Deliver(slot) =>
      var room := s.master.rooms[slot];
      HandledTakesJoin(c, Peeked(s, slot).master, slot, s.workers[room.worker].sent[room.seen]);
    case _ =>
  }

  lemma HandledTakesJoin(c: Config, m: Master, slot: nat, msg: UpMsg)
    requires slot < |m.rooms| && |m.players| <= Capacity(c)
    ensures var ps := Handled(c, m, slot, msg).players;
            |ps| <= Capacity(c) && (msg.Joined? && |m.players| < Capacity(c) ==> Recorded(ps, msg.id))
  {
    hide ToRunning, ToUsed, AllStarted, RouteOf, Decided, Winner;
    if msg.Joined? {
      var ps := if |m.players| < Capacity(c) then m.players + [PlayerRec(msg.id, slot, true)] else m.players;
      var room := m.rooms[slot];
      var n := RosterSent(m.(players := ps, rooms := m.rooms[slot := room.(joined := room.joined + 1)]));
      AllStartedCores(n, |n.rooms|);
      assert |m.players| < Capacity(c) ==> ps[|m.players|].id == msg.id;
    }
  }

  lemma StepKeepsComplete(c: Config, s: System, e: Step)
    requires Safe(c, s) && Complete(c, s) && Enabled(c, s, e)
    ensures Complete(c, Next(c, s, e))
  {
    hide Safe, Next, Enabled, JoinHandled, Recorded, TableGrows, Capacity;
    var t := Next(c, s, e);
    StepJoins(c, s, e);
    StepTableGrows(c, s, e);
    TableTakesJoin(c, s, e);
    if |t.master.players| < Capacity(c) {
      GrowsLonger(s.master.players, t.master.players);
      forall id: nat | JoinHandled(c, t, id) ensures Recorded(t.master.players, id) {
        if JoinHandled(c, s, id) {
          GrowsKeepsRecorded(s.master.players, t.master.players, id);
        }
      }
    }
  }

  lemma GrowsLonger(a: seq<PlayerRec>, b: seq<PlayerRec>)
    requires TableGrows(a, b)
    ensures |a| <= |b|
  {}

  lemma InitialComplete(c: Config)
    ensures Complete(c, Initial(c))
  {}

  lemma {:induction false} EveryRunIsComplete(c: Config, states: seq<System>, steps: seq<Step>, n: nat)
    requires IsRun(c, states, steps) && n < |states|
    ensures Complete(c, states[n])
  {
    hide Safe, Complete, Next, Initial;
    if n == 0 {
      InitialComplete(c);
    } else {
      EveryRunIsComplete(c, states, steps, n - 1);
      EveryRunIsSafe(c, states, steps, n - 1);
      StepKeepsComplete(c, states[n - 1], steps[n - 1]);
    }
  }

  // ----- When everybody is recorded -----

  lemma JoinerBound(c: Config, s: System, id: nat)
    requires AllWorkersOk(c, s) && JoinHandled(c, s, id)
    ensures id < 1 + |s.workers| * c.lobby && id in Joiners(c, s)
  {
    hide SentOk, ClientsOk, Among;
    var w := WorkerOf(c, id);
    DivModLaw(id - 1, c.lobby);
    TimesMonotone(w + 1, |s.workers|, c.lobby);
  }

  ghost function RecordedIds(ps: seq<PlayerRec>): set<nat> {
    set i | 0 <= i < |ps| :: ps[i].id
  }

  lemma {:induction false} OneIdEach(ps: seq<PlayerRec>)
    requires DistinctIds(ps)
    ensures |RecordedIds(ps)| == |ps|
    decreases |ps|
  {
    if ps != [] {
      var n := |ps| - 1;
      OneIdEach(ps[..n]);
      assert RecordedIds(ps) == RecordedIds(ps[..n]) + {ps[n].id};
    }
  }

  lemma RecordedJoined(c: Config, s: System)
    requires Safe(c, s)
    ensures RecordedIds(s.master.players) <= Joiners(c, s)
  {
    hide Shape, EndOk, WorkerOk, OutIn;
    forall id | id in RecordedIds(s.master.players) ensures id in Joiners(c, s) {
      var i :| 0 <= i < |s.master.players| && s.master.players[i].id == id;
      assert RecOk(c, s, s.master.players[i]);
      JoinerBound(c, s, id);
    }
  }

  /** In every run the master knows everybody whose join it has handled if and only if no more
      joins were handled than its table has room for. */
  lemma EverybodyIsRecorded(c: Config, states: seq<System>, steps: seq<Step>, n: nat)
    requires IsRun(c, states, steps) && n < |states|
    ensures var s := states[n];
            (forall id: nat | JoinHandled(c, s, id) :: Recorded(s.master.players, id))
            <==> |Joiners(c, s)| <= Capacity(c)
  {
    hide Next, Initial, JoinHandled, WorkerOk, RecOk, Shape, EndOk, Capacity;
    var s := states[n];
    var ps, joiners := s.master.players, Joiners(c, s);
    EveryRunIsSafe(c, states, steps, n);
    EveryRunIsComplete(c, states, steps, n);
    RecordedJoined(c, s);
    OneIdEach(ps);
    SubsetSize(RecordedIds(ps), joiners);
    if |joiners| <= Capacity(c) && |ps| == Capacity(c) {
      forall id: nat | JoinHandled(c, s, id) ensures Recorded(ps, id) {
        JoinerBound(c, s, id);
        assert id in RecordedIds(ps);
      }
    }
    if forall id: nat | JoinHandled(c, s, id) :: Recorded(ps, id) {
      forall id | id in joiners ensures id in RecordedIds(ps) {
        assert Recorded(ps, id);
      }
      SubsetSize(joiners, RecordedIds(ps));
    }
  }

  /** Joins can only be lost after a slot has been used again: up to `maxRooms` workers cannot
      fill the table beyond its size. */
  lemma NoReuseNoLoss(c: Config, s: System)
    requires AllWorkersOk(c, s) && |s.workers| <= c.maxRooms
    ensures |Joiners(c, s)| <= Capacity(c)
  {
    var ids := UpToId(|s.workers| * c.lobby);
    forall id | id in Joiners(c, s) ensures id in ids {
      assert id != 0 by {
        DivUnique(-1, c.lobby, -1);
      }
    }
    SubsetSize(Joiners(c, s), ids);
    TimesMonotone(|s.workers|, c.maxRooms, c.lobby);
  }

  ghost function UpToId(n: nat): (ids: set<nat>)
    ensures forall id: nat :: id in ids <==> 1 <= id <= n
    ensures |ids| == n
  {
    if n == 0 then {} else UpToId(n - 1) + {n}
  }

  // ----- Alive flags -----

  /** A join among the handled messages of any worker is a handled join. */
  lemma HandledMessage(c: Config, s: System, w: nat, id: nat)
    requires AllWorkersOk(c, s) && w < |s.workers| && Among(Joined(id), s.workers[w].sent, Seen(s, w))
    ensures WorkerOf(c, id) == w && JoinHandled(c, s, id)
  {
    hide Orderly, Increasing;
    var k := s.workers[w];
    assert WorkerOk(c, w, k);
    var p :| 0 <= p < Seen(s, w) && p < |k.sent| && k.sent[p] == Joined(id);
    assert k.sent[p].Joined?;
    var i :| 0 <= i < k.told && k.clients[..k.told][i] == id;
    assert k.clients[i] == id;
    OwnerIsWorkerOf(c, w, id);
  }

  /** The join of everyone with a seat has been sent. */
  lemma SeatHasJoined(c: Config, s: System, w: nat, j: nat)
    requires AllWorkersOk(c, s) && w < |s.workers| && j < |s.workers[w].session|
    requires Seen(s, w) == |s.workers[w].sent|
    ensures WorkerOf(c, s.workers[w].session[j].id) == w && JoinHandled(c, s, s.workers[w].session[j].id)
  {
    hide Orderly, Increasing;
    var k := s.workers[w];
    assert WorkerOk(c, w, k);
    assert k.session[j].id == k.clients[j];
    var p :| 0 <= p < |k.sent| && k.sent[p] == Joined(k.clients[j]);
    assert Among(Joined(k.clients[j]), k.sent, |k.sent|);
    HandledMessage(c, s, w, k.session[j].id);
  }

  lemma OutInSeat(c: Config, w: nat, k: Worker, j: nat)
    requires WorkerOk(c, w, k) && j < |k.session|
    ensures OutIn(k, k.session[j].id) == Out(k.session[j])
  {
    hide SentOk;
    if OutIn(k, k.session[j].id) {
      var i :| 0 <= i < |k.session| && k.session[i].id == k.session[j].id && Out(k.session[i]);
      OwnIdsDistinct(c, w, k, i, j);
    }
  }

  /** The master holds a record of this seat that says whether its player is still in. */
  ghost predicate FlagIs(ps: seq<PlayerRec>, seat: Slot) {
    exists i :: 0 <= i < |ps| && ps[i].id == seat.id && ps[i].alive == !Out(seat)
  }

  /** Once a live room has reported everybody who is out and the master has handled all its
      messages, the master's alive flags for that room are the room's own: every record of
      the room says of its player what the room says, and every seat of the room has one,
      unless more joins were handled than the table has room for. */
  lemma FlagsAgreeWhenDrained(c: Config, states: seq<System>, steps: seq<Step>, n: nat, w: nat)
    requires IsRun(c, states, steps) && n < |states| && Alive(states[n], w)
    requires forall j | 0 <= j < |states[n].workers[w].session| && Out(states[n].workers[w].session[j]) ::
      states[n].workers[w].session[j].reported
    requires Seen(states[n], w) == |states[n].workers[w].sent|
    ensures var s := states[n];
            && (forall r | r in s.master.players && WorkerOf(c, r.id) == w :: r.alive <==> !OutIn(s.workers[w], r.id))
            && (|Joiners(c, s)| <= Capacity(c) ==>
                  forall j | 0 <= j < |s.workers[w].session| :: FlagIs(s.master.players, s.workers[w].session[j]))
  {
    hide Next, Initial, Shape, TableOk, EndOk, WorkerOk, JoinHandled, OutIn, Joiners, Capacity;
    var s := states[n];
    var k, ps := s.workers[w], s.master.players;
    EveryRunIsSafe(c, states, steps, n);
    EverybodyIsRecorded(c, states, steps, n);
    forall r | r in ps && WorkerOf(c, r.id) == w ensures r.alive <==> !OutIn(k, r.id) {
      RecordAgreesWhenDrained(c, states, steps, n, w, r);
    }
    if |Joiners(c, s)| <= Capacity(c) {
      forall j | 0 <= j < |k.session| ensures FlagIs(ps, k.session[j]) {
        SeatHasJoined(c, s, w, j);
        assert WorkerOk(c, w, k);
        OutInSeat(c, w, k, j);
        var i :| 0 <= i < |ps| && ps[i].id == k.session[j].id;
        RecordAgreesWhenDrained(c, states, steps, n, w, ps[i]);
      }
    }
  }

  // ----- Winners -----

  lemma EndStays(c: Config, s: System, e: Step)
    requires Enabled(c, s, e) && s.master.matchEnded
    ensures Next(c, s, e).master.matchEnded && Next(c, s, e).finalTable == s.finalTable
    ensures Next(c, s, e).master.announced == s.master.announced
  {
    hide ToRunning, ToUsed, AllStarted, Decided, Winner, FirstOpen, FirstUnused, GarbageFrom, RouteOf, TakenInMatch,
        Routed;
    match e
    case Enter => AllStartedCores(s.master, |s.master.rooms|);
    case Deliver(slot) =>
      var room := s.master.rooms[slot];
      HandledKeepsEnd(c, Peeked(s, slot).master, slot, s.workers[room.worker].sent[room.seen]);
    case TakeInMatch(w) => TakenKeepsEnd(s, w);
    case Route(w, seat, victim) => RouteWorker(s, w, seat, victim);
    case _ =>
  }

  lemma TakenKeepsEnd(s: System, w: nat)
    requires HasMail(s, w)
    ensures TakenInMatch(s, w).master == s.master && TakenInMatch(s, w).finalTable == s.finalTable
  {}

  lemma HandledKeepsEnd(c: Config, m: Master, slot: nat, msg: UpMsg)
    requires slot < |m.rooms| && m.matchEnded
    ensures Handled(c, m, slot, msg).matchEnded && Handled(c, m, slot, msg).announced == m.announced
  {
    hide ToRunning, ToUsed, AllStarted, RouteOf, Decided, Winner;
    if msg.Joined? {
      var ps := if |m.players| < Capacity(c) then m.players + [PlayerRec(msg.id, slot, true)] else m.players;
      var room := m.rooms[slot];
      var n := RosterSent(m.(players := ps, rooms := m.rooms[slot := room.(joined := room.joined + 1)]));
      AllStartedCores(n, |n.rooms|);
    }
  }

  lemma {:induction false} FinalTableStays(c: Config, states: seq<System>, steps: seq<Step>, n: nat, m: nat)
    requires IsRun(c, states, steps) && n <= m < |states| && states[n].master.matchEnded
    ensures states[m].master.matchEnded && states[m].finalTable == states[n].finalTable
    decreases m - n
  {
    hide Next, Initial;
    if n < m {
      FinalTableStays(c, states, steps, n, m - 1);
      EndStays(c, states[m - 1], steps[m - 1]);
    }
  }

  lemma EndTakesTable(c: Config, s: System, e: Step)
    requires Enabled(c, s, e) && !s.master.matchEnded && Next(c, s, e).master.matchEnded
    ensures Next(c, s, e).finalTable == Next(c, s, e).master.players
  {
    hide ToRunning, ToUsed, AllStarted, Decided, Winner, FirstOpen, FirstUnused, GarbageFrom, RouteOf, TakenInMatch,
        Routed,
      Handled, RoomClosed;
    match e
    case TakeInMatch(w) => TakenKeepsEnd(s, w);
    case Route(w, seat, victim) => RouteWorker(s, w, seat, victim);
    case _ =>
  }

  /** Step `n` announces a winner. From then on everyone whose join had been handled, other
      than the winner, is really out: has quit or topped out in its own room, or that room's
      worker has exited. This needs a table with room for all the joins handled. */
  lemma WinnerBeatsEveryone(c: Config, states: seq<System>, steps: seq<Step>, n: nat, m: nat, id: nat)
    requires IsRun(c, states, steps) && n < m < |states|
    requires !states[n].master.matchEnded && states[n + 1].master.matchEnded
    requires |Joiners(c, states[n + 1])| <= Capacity(c) && JoinHandled(c, states[n + 1], id)
    ensures |states[m].master.announced| == 1
    ensures id != states[m].master.announced[0] ==> ReallyOut(c, states[m], id)
  {
    hide Next, Initial, Shape, AllWorkersOk, TableOk, JoinHandled, ReallyOut, Joiners, Capacity, Enabled;
    var t := states[n + 1];
    EndTakesTable(c, states[n], steps[n]);
    FinalTableStays(c, states, steps, n + 1, m);
    EverybodyIsRecorded(c, states, steps, n + 1);
    EveryRunIsSafe(c, states, steps, m);
    assert EndOk(c, states[m]);
    var i :| 0 <= i < |t.master.players| && t.master.players[i].id == id;
    assert t.master.players[i] in states[m].finalTable;
  }
}
