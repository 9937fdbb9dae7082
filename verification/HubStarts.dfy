/** Which rooms start: the operator's ENTER, and the join that fills the daemon, start exactly
    the used rooms from which a join was handled. */
module HubStarts {
  import opened Hub
  import opened HubSafety
  import opened HubMasterSteps
  import opened HubTable
  import opened HubMail

  // ----- Starting -----

  /** Somebody waits in a room that has not been started. */
  ghost predicate Waits(r: Room) {
    r.used && !r.started && r.joined >= 1
  }

  /** The room stays as it is but for messages, if it runs, and is told nothing about a start. */
  ghost predicate OnlyTold(a: Room, b: Room) {
    && b == a.(sent := b.sent) && a.sent <= b.sent && (!Running(a) ==> b == a)
    && forall p | |a.sent| <= p < |b.sent| :: !b.sent[p].Start?
  }

  /** The room is started, with an order that tells how many clients were dealt to it. */
  ghost predicate Started(a: Room, b: Room) {
    && b == a.(sent := b.sent, started := true) && a.sent <= b.sent
    && |a.sent| < |b.sent| && b.sent[|a.sent|] == Start(a.redirected)
  }

  ghost predicate StartedUpTo(rooms: seq<Room>, rooms': seq<Room>, n: nat) {
    && |rooms'| == |rooms|
    && forall i | 0 <= i < |rooms| ::
      if i < n && Waits(rooms[i]) then Started(rooms[i], rooms'[i]) else OnlyTold(rooms[i], rooms'[i])
  }

  lemma RosterOnlyTells(m: Master)
    ensures |RosterSent(m).rooms| == |m.rooms|
    ensures forall i | 0 <= i < |m.rooms| :: OnlyTold(m.rooms[i], RosterSent(m).rooms[i])
  {
    hide RosterOf;
    RosterTells(m.players);
  }

  lemma ToldTwice(a: Room, b: Room, d: Room)
    requires OnlyTold(b, d)
    ensures OnlyTold(a, b) ==> OnlyTold(a, d)
    ensures Started(a, b) ==> Started(a, d)
  {}

  lemma {:induction false} AllStartedUpTo(m: Master, n: nat)
    requires n <= |m.rooms|
    ensures StartedUpTo(m.rooms, AllStarted(m, n).rooms, n)
  {
    hide RosterSent, OnlyTold, Started;
    if n == 0 {
      SameTold(m.rooms);
    } else {
      AllStartedUpTo(m, n - 1);
      var b := AllStarted(m, n - 1);
      OneStarts(m, b, n - 1);
    }
  }

  lemma SameTold(rooms: seq<Room>)
    ensures forall i | 0 <= i < |rooms| :: OnlyTold(rooms[i], rooms[i])
  {}

  /** Starting the next room leaves those before it started and tells the others nothing. */
  lemma OneStarts(m: Master, b: Master, slot: nat)
    requires slot < |m.rooms| && StartedUpTo(m.rooms, b.rooms, slot)
    ensures StartedUpTo(m.rooms, RoomStarted(b, slot).rooms, slot + 1)
  {
    hide RosterSent;
    var room := b.rooms[slot];
    assert OnlyTold(m.rooms[slot], room);
    if Waits(m.rooms[slot]) {
      var r := room.(sent := room.sent + [Start(room.redirected)], started := true);
      var a := b.(rooms := b.rooms[slot := r]);
      RosterOnlyTells(a);
      var t := RosterSent(a);
      forall i | 0 <= i < |m.rooms| && i != slot
        ensures if i < slot && Waits(m.rooms[i]) then Started(m.rooms[i], t.rooms[i])
                else OnlyTold(m.rooms[i], t.rooms[i])
      {
        ToldTwice(m.rooms[i], b.rooms[i], t.rooms[i]);
      }
    }
  }

  // ----- Joins handled -----

  /** Joins among the first `n` messages of a worker. */
  function Joins(sent: seq<UpMsg>, n: nat): nat
    requires n <= |sent|
  {
    if n == 0 then 0 else Joins(sent, n - 1) + (if sent[n - 1].Joined? then 1 else 0)
  }

  lemma {:induction false} JoinsOfPrefix(a: seq<UpMsg>, b: seq<UpMsg>, n: nat)
    requires n <= |a| && a <= b
    ensures Joins(a, n) == Joins(b, n)
  {
    if n > 0 {
      JoinsOfPrefix(a, b, n - 1);
    }
  }

  ghost predicate JoinsCounted(s: System, i: nat)
    requires i < |s.master.rooms|
  {
    var r := s.master.rooms[i];
    r.used && r.worker < |s.workers| && r.seen <= |s.workers[r.worker].sent| ==>
      r.joined == Joins(s.workers[r.worker].sent, r.seen)
  }

  ghost predicate AllCounted(s: System) {
    forall i | 0 <= i < |s.master.rooms| :: JoinsCounted(s, i)
  }

  /** Only a handled join changes the number of joins, and only its own room's. */
  lemma HandledJoins(c: Config, m: Master, slot: nat, msg: UpMsg)
    requires slot < |m.rooms|
    ensures |Handled(c, m, slot, msg).rooms| == |m.rooms|
    ensures forall i | 0 <= i < |m.rooms| ::
      Handled(c, m, slot, msg).rooms[i].joined == m.rooms[i].joined + (if msg.Joined? && i == slot then 1 else 0)
  {
    hide AllStarted, RouteOf, Decided, Winner, OnlyTold, Started, Waits;
    if msg.Joined? {
      var ps := if |m.players| < c.maxRooms * c.lobby then m.players + [PlayerRec(msg.id, slot, true)] else m.players;
      var room := m.rooms[slot];
      var n := RosterSent(m.(players := ps, rooms := m.rooms[slot := room.(joined := room.joined + 1)]));
      AllStartedUpTo(n, |n.rooms|);
      forall i | 0 <= i < |n.rooms| ensures AllStarted(n, |n.rooms|).rooms[i].joined == n.rooms[i].joined {
        StartKeepsJoined(n.rooms[i], AllStarted(n, |n.rooms|).rooms[i]);
      }
    }
  }

  lemma StartKeepsJoined(a: Room, b: Room)
    requires OnlyTold(a, b) || Started(a, b)
    ensures b.joined == a.joined
  {}

  lemma SameCounts(s: System, t: System)
    requires AllCounted(s) && Alike(s, t)
    requires forall i | 0 <= i < |s.master.rooms| :: t.master.rooms[i].joined == s.master.rooms[i].joined
    ensures AllCounted(t)
  {
    hide Joins;
    forall i | 0 <= i < |t.master.rooms| ensures JoinsCounted(t, i) {
      assert JoinsCounted(s, i) && SameCore(s.master.rooms[i], t.master.rooms[i]);
    }
  }

  lemma DeliverCounts(c: Config, s: System, slot: nat)
    requires Shape(c, s) && AllCounted(s) && Enabled(c, s, Deliver(slot))
    ensures AllCounted(Next(c, s, Deliver(slot)))
  {
    hide Handled, SameCores, Shape;
    var room := s.master.rooms[slot];
    var msg := s.workers[room.worker].sent[room.seen];
    var p, t := Peeked(s, slot), Next(c, s, Deliver(slot));
    HandledCores(c, p.master, slot, msg);
    HandledJoins(c, p.master, slot, msg);
    forall i | 0 <= i < |t.master.rooms| ensures JoinsCounted(t, i) {
      assert JoinsCounted(s, i);
      CoreAt(p.master.rooms, t.master.rooms, i);
    }
  }

  lemma CoreAt(a: seq<Room>, b: seq<Room>, i: nat)
    requires SameCores(a, b) && i < |a|
    ensures SameCore(a[i], b[i])
  {}

  lemma ClosedCounts(c: Config, s: System, slot: nat)
    requires AllCounted(s) && Enabled(c, s, Close(slot))
    ensures AllCounted(Next(c, s, Close(slot)))
  {
    hide SameCores, Joins, RoomKilled, Decided, Winner, GarbageFrom;
    var v, t := Vacated(s, slot, s.master.players), Next(c, s, Close(slot));
    ClosedCores(s.master, slot);
    assert AllCounted(v) by {
      forall i | 0 <= i < |v.master.rooms| ensures JoinsCounted(v, i) {
        assert JoinsCounted(s, i);
      }
    }
    SameCounts(v, t);
  }

  lemma HiredCounts(c: Config, s: System, slot: nat)
    requires Shape(c, s) && AllCounted(s) && slot < |s.master.rooms|
    ensures AllCounted(Hired(c, s, slot))
  {
    var t := Hired(c, s, slot);
    forall i | 0 <= i < |t.master.rooms| ensures JoinsCounted(t, i) {
      assert RoomOk(s, i) && JoinsCounted(s, i);
    }
  }

  lemma AcceptCounts(c: Config, s: System, forkOk: bool)
    requires Shape(c, s) && AllCounted(s)
    ensures AllCounted(Next(c, s, Accept(forkOk)))
  {
    hide SameCores, Shape, AllCounted, Hired, FirstOpen, FirstUnused;
    var (n, slot) := Filling(c, s.master, forkOk);
    var t := Next(c, s, Accept(forkOk));
    AcceptSplits(c, s, forkOk);
    if n.roomSeq > s.master.roomSeq {
      HiredCounts(c, s, slot);
      SameCounts(Hired(c, s, slot), t);
    } else {
      SameCounts(s, t);
    }
  }

  lemma EnterCounts(c: Config, s: System)
    requires AllCounted(s)
    ensures AllCounted(Next(c, s, Enter))
  {
    hide AllStarted, SameCores, OnlyTold, Started, Waits, AllCounted;
    var m := s.master;
    AllStartedCores(m, |m.rooms|);
    AllStartedUpTo(m, |m.rooms|);
    forall i | 0 <= i < |m.rooms| ensures AllStarted(m, |m.rooms|).rooms[i].joined == m.rooms[i].joined {
      StartKeepsJoined(m.rooms[i], AllStarted(m, |m.rooms|).rooms[i]);
    }
    SameCounts(s, Next(c, s, Enter));
  }

  lemma WorkerCounts(c: Config, s: System, e: Step)
    requires Safe(c, s) && AllCounted(s) && Enabled(c, s, e) && ByWorker(e)
    ensures AllCounted(Next(c, s, e))
  {
    WorkerStepGrows(c, s, e);
    var t := Next(c, s, e);
    hide Next, Joins, AllWorkersOk, TableOk, EndOk, WorkerOk;
    forall i | 0 <= i < |t.master.rooms| ensures JoinsCounted(t, i) {
      assert JoinsCounted(s, i) && RoomOk(s, i);
      var r := s.master.rooms[i];
      if r.used {
        JoinsOfPrefix(s.workers[r.worker].sent, t.workers[r.worker].sent, r.seen);
      }
    }
  }

  lemma StepCounts(c: Config, s: System, e: Step)
    requires Safe(c, s) && AllCounted(s) && Enabled(c, s, e)
    ensures AllCounted(Next(c, s, e))
  {
    hide AllCounted, Next, Enabled, Shape, AllWorkersOk, TableOk, EndOk;
    match e
    case Accept(forkOk) => AcceptCounts(c, s, forkOk);
    case Enter => EnterCounts(c, s);
    case Deliver(slot) => DeliverCounts(c, s, slot);
    case Close(slot) => ClosedCounts(c, s, slot);
    case _ => WorkerCounts(c, s, e);
  }

  /** In every run the master's count of a used room's players is the number of that worker's
      joins it has handled. */
  lemma {:induction false} JoinsAreCounted(c: Config, states: seq<System>, steps: seq<Step>, n: nat)
    requires IsRun(c, states, steps) && n < |states|
    ensures AllCounted(states[n])
  {
    hide Next, Safe;
    if n > 0 {
      JoinsAreCounted(c, states, steps, n - 1);
      EveryRunIsSafe(c, states, steps, n - 1);
      StepCounts(c, states[n - 1], steps[n - 1]);
    }
  }

  // ----- Who starts -----

  /** From one master to the next, exactly the rooms somebody waits in are started, each told the
      number of clients dealt to it. */
  ghost predicate AllWaitingStart(m: Master, n: Master) {
    && |n.rooms| == |m.rooms|
    && forall i | 0 <= i < |m.rooms| ::
      && n.rooms[i].used == m.rooms[i].used
      && (n.rooms[i].started <==> m.rooms[i].started || Waits(m.rooms[i]))
      && (Waits(m.rooms[i]) ==>
            |n.rooms[i].sent| > |m.rooms[i].sent|
            && n.rooms[i].sent[|m.rooms[i].sent|] == Start(m.rooms[i].redirected))
  }

  lemma UpToAllWaiting(m: Master, n: Master)
    requires StartedUpTo(m.rooms, n.rooms, |m.rooms|)
    ensures AllWaitingStart(m, n)
  {}

  /** ENTER starts exactly the rooms that somebody waits in. */
  lemma EnterStartsEverybody(c: Config, s: System)
    ensures AllWaitingStart(s.master, Next(c, s, Enter).master)
  {
    hide AllStarted, StartedUpTo, AllWaitingStart;
    AllStartedUpTo(s.master, |s.master.rooms|);
    UpToAllWaiting(s.master, AllStarted(s.master, |s.master.rooms|));
  }

  /** A join that brings the table to the daemon's capacity starts every room that somebody then
      waits in, the joining player's among them; another join starts no room. */
  lemma FullHouseStarts(c: Config, s: System, slot: nat, id: nat)
    requires Enabled(c, s, Deliver(slot)) && Arrived(s, slot, Joined(id))
    ensures var m, n := s.master, Next(c, s, Deliver(slot)).master;
            && |n.rooms| == |m.rooms|
            && forall i | 0 <= i < |m.rooms| ::
              n.rooms[i].started <==>
              m.rooms[i].started
              || (|n.players| >= c.roomSize * c.maxRooms && m.rooms[i].used && (i == slot || m.rooms[i].joined >= 1))
  {
    hide AllStarted, StartedUpTo, OnlyTold, Started;
    var m := Peeked(s, slot).master;
    var ps := if |m.players| < c.maxRooms * c.lobby then m.players + [PlayerRec(id, slot, true)] else m.players;
    var room := m.rooms[slot];
    var a := m.(players := ps, rooms := m.rooms[slot := room.(joined := room.joined + 1)]);
    var n := RosterSent(a);
    AllStartedCores(n, |n.rooms|);
    AllStartedUpTo(n, |n.rooms|);
    UpToAllWaiting(n, AllStarted(n, |n.rooms|));
  }
}
