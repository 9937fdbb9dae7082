/** How clients are dealt into rooms: no room is overfilled, nobody is turned away by a full
    parking list, and every accepted socket is closed exactly once. */
module HubDealing {
  import opened Hub
  import opened HubSafety
  import opened HubMasterSteps
  import opened HubGarbage

  ghost predicate DealOk(c: Config, r: Room) {
    r.used ==> r.redirected <= c.roomSize && |r.pending| <= r.redirected && (r.ready ==> r.pending == [])
  }

  ghost function ParkedIn(r: Room): multiset<nat> {
    if r.used then multiset(r.pending) else multiset{}
  }

  ghost function ParkedLists(rooms: seq<Room>): (p: seq<multiset<nat>>)
    ensures |p| == |rooms|
  {
    seq(|rooms|, i requires 0 <= i < |rooms| => ParkedIn(rooms[i]))
  }

  /** Sockets waiting for their room's worker. */
  ghost function Parked(rooms: seq<Room>): multiset<nat> {
    Sum(ParkedLists(rooms))
  }

  function UpTo(n: nat): seq<nat> {
    seq(n, i => i)
  }

  /** Every accepted socket is closed or parked, once. */
  ghost predicate SocketsOk(m: Master, accepted: nat) {
    multiset(m.closed) + Parked(m.rooms) == multiset(UpTo(accepted))
  }

  ghost predicate Dealt(c: Config, m: Master, accepted: nat) {
    (forall i | 0 <= i < |m.rooms| :: DealOk(c, m.rooms[i])) && SocketsOk(m, accepted)
  }

  // ----- Steps that deal with nobody -----

  ghost predicate SameDeal(a: Room, b: Room) {
    b.used == a.used && b.ready == a.ready && b.redirected == a.redirected && b.pending == a.pending
  }

  ghost predicate SameDeals(a: seq<Room>, b: seq<Room>) {
    |b| == |a| && forall i | 0 <= i < |a| :: SameDeal(a[i], b[i])
  }

  lemma SameDealsCompose(a: seq<Room>, b: seq<Room>, d: seq<Room>)
    requires SameDeals(a, b) && SameDeals(b, d)
    ensures SameDeals(a, d)
  {
    forall i | 0 <= i < |a| ensures SameDeal(a[i], d[i]) {
      assert SameDeal(a[i], b[i]) && SameDeal(b[i], d[i]);
    }
  }

  lemma SameDealsDealt(c: Config, m: Master, n: Master, accepted: nat)
    requires Dealt(c, m, accepted) && SameDeals(m.rooms, n.rooms) && n.closed == m.closed
    ensures Dealt(c, n, accepted)
  {
    forall i | 0 <= i < |n.rooms| ensures DealOk(c, n.rooms[i]) && ParkedIn(n.rooms[i]) == ParkedIn(m.rooms[i]) {
      assert SameDeal(m.rooms[i], n.rooms[i]) && DealOk(c, m.rooms[i]);
    }
    assert ParkedLists(n.rooms) == ParkedLists(m.rooms);
  }

  lemma StartSameDeals(m: Master, slot: nat)
    requires slot < |m.rooms|
    ensures SameDeals(m.rooms, RoomStarted(m, slot).rooms)
  {}

  lemma {:induction false} AllStartedSameDeals(m: Master, n: nat)
    requires n <= |m.rooms|
    ensures SameDeals(m.rooms, AllStarted(m, n).rooms)
  {
    hide RoomStarted;
    if n > 0 {
      AllStartedSameDeals(m, n - 1);
      StartSameDeals(AllStarted(m, n - 1), n - 1);
      SameDealsCompose(m.rooms, AllStarted(m, n - 1).rooms, AllStarted(m, n).rooms);
    }
  }

  lemma EndCheckSameDeals(m: Master)
    ensures SameDeals(m.rooms, EndChecked(m).rooms) && EndChecked(m).closed == m.closed
  {
    hide Decided, Winner;
  }

  lemma RosterSameDeals(m: Master)
    ensures SameDeals(m.rooms, RosterSent(m).rooms) && RosterSent(m).closed == m.closed
  {}

  lemma HandledSameDeals(c: Config, m: Master, slot: nat, msg: UpMsg)
    requires slot < |m.rooms| && !msg.Ready?
    ensures SameDeals(m.rooms, Handled(c, m, slot, msg).rooms) && Handled(c, m, slot, msg).closed == m.closed
  {
    hide RosterSent, EndChecked, AllStarted, RouteOf, SameDeals;
    var room := m.rooms[slot];
    match msg
    case Joined(id) =>
      var ps := if |m.players| < c.maxRooms * c.lobby then m.players + [PlayerRec(id, slot, true)] else m.players;
      var a := m.(players := ps, rooms := m.rooms[slot := room.(joined := room.joined + 1)]);
      OneSameDeal(m.rooms, slot, a.rooms[slot]);
      var n := RosterSent(a);
      RosterSameDeals(a);
      SameDealsCompose(m.rooms, a.rooms, n.rooms);
      AllStartedSameDeals(n, |n.rooms|);
      AllStartedCores(n, |n.rooms|);
      SameDealsCompose(m.rooms, n.rooms, AllStarted(n, |n.rooms|).rooms);
    case Eliminated(id) =>
      var a := m.(players := Killed(m.players, id));
      RosterSameDeals(a);
      EndCheckSameDeals(RosterSent(a));
      SameDealsCompose(m.rooms, RosterSent(a).rooms, EndChecked(RosterSent(a)).rooms);
    case AttackOut(a) =>
      var t := RouteOf(m, a.victim);
      if t < |m.rooms| {
        OneSameDeal(m.rooms, t, m.rooms[t].(sent := m.rooms[t].sent + [Garbage(a)]));
      } else {
        OneSameDeal(m.rooms, slot, room);
        assert m.rooms[slot := room] == m.rooms;
      }
    case FeedOut(a) => FeedSameDeals(m.rooms, Feed(a), slot);
  }

  lemma FeedSameDeals(rooms: seq<Room>, msg: DownMsg, but: int)
    ensures SameDeals(rooms, ToRunning(rooms, msg, but))
  {}

  lemma OneSameDeal(rooms: seq<Room>, i: nat, r: Room)
    requires i < |rooms| && SameDeal(rooms[i], r)
    ensures SameDeals(rooms, rooms[i := r])
  {}

  // ----- Steps that move sockets -----

  lemma ParkedUpdate(rooms: seq<Room>, i: nat, r: Room)
    requires i < |rooms|
    ensures Parked(rooms[i := r]) + ParkedIn(rooms[i]) == Parked(rooms) + ParkedIn(r)
  {
    assert ParkedLists(rooms[i := r]) == ParkedLists(rooms)[i := ParkedIn(r)];
    SumUpdate(ParkedLists(rooms), i, ParkedIn(r));
  }

  ghost function Newcomer(accepted: nat, came: bool): multiset<nat> {
    if came then multiset{accepted} else multiset{}
  }

  lemma UpToNext(accepted: nat, came: bool)
    ensures multiset(UpTo(if came then accepted + 1 else accepted))
        == multiset(UpTo(accepted)) + Newcomer(accepted, came)
  {
    assert UpTo(accepted + 1) == UpTo(accepted) + [accepted];
  }

  /** One room changes; what leaves its parking list is closed. */
  lemma MoveSockets(c: Config, m: Master, i: nat, r: Room, gone: seq<nat>, came: bool, accepted: nat)
    requires Dealt(c, m, accepted) && i < |m.rooms| && DealOk(c, r)
    requires multiset(gone) + ParkedIn(r) == ParkedIn(m.rooms[i]) + Newcomer(accepted, came)
    ensures Dealt(c, m.(rooms := m.rooms[i := r], closed := m.closed + gone), if came then accepted + 1 else accepted)
  {
    hide Parked, ParkedIn, Newcomer, DealOk, UpTo;
    var n := m.(rooms := m.rooms[i := r], closed := m.closed + gone);
    ParkedUpdate(m.rooms, i, r);
    UpToNext(accepted, came);
    SocketBalance(multiset(m.closed), Parked(m.rooms), Parked(n.rooms), multiset(UpTo(accepted)),
                  ParkedIn(m.rooms[i]), ParkedIn(r), multiset(gone), Newcomer(accepted, came));
    assert multiset(n.closed) == multiset(m.closed) + multiset(gone);
  }

  lemma SocketBalance(cl: multiset<nat>, p: multiset<nat>, q: multiset<nat>, u: multiset<nat>,
                      x: multiset<nat>, y: multiset<nat>, g: multiset<nat>, f: multiset<nat>)
    requires cl + p == u && q + x == p + y && g + y == x + f
    ensures cl + g + q == u + f
  {
    forall z: nat ensures (cl + g + q)[z] == (u + f)[z] {
      assert (cl + p)[z] == u[z] && (q + x)[z] == (p + y)[z] && (g + y)[z] == (x + f)[z];
    }
  }

  /** A room that was not in use adds nothing when it is taken into use empty. */
  lemma SpawnDealt(c: Config, m: Master, slot: nat, accepted: nat)
    requires Dealt(c, m, accepted) && slot < |m.rooms| && !m.rooms[slot].used
    ensures Dealt(c, RoomSpawned(m, slot), accepted)
  {
    var r := Room(true, false, false, m.roomSeq, 0, 0, [], [], 0);
    assert ParkedIn(r) == multiset{};
    MoveSockets(c, m, slot, r, [], false, accepted);
    assert m.closed + [] == m.closed;
    SameDealsDealt(c, m.(rooms := m.rooms[slot := r], closed := m.closed + []), RoomSpawned(m, slot), accepted);
  }

  lemma FillingDealt(c: Config, m: Master, forkOk: bool, accepted: nat)
    requires Dealt(c, m, accepted)
    ensures var (n, slot) := Filling(c, m, forkOk);
            Dealt(c, n, accepted) && (slot < |n.rooms| ==> n.rooms[slot].used && n.rooms[slot].redirected < c.roomSize)
  {
    hide FirstOpen, FirstUnused, Dealt;
    var free := FirstUnused(m.rooms, 0);
    if free < |m.rooms| {
      SpawnDealt(c, m, free, accepted);
    }
  }

  /** The list of parked clients always has room: the branch that would turn a client away
      for lack of it is never taken. */
  lemma ParkingIsNeverFull(c: Config, m: Master, forkOk: bool, accepted: nat)
    requires Dealt(c, m, accepted)
    ensures var (n, slot) := Filling(c, m, forkOk);
            slot < |n.rooms| && !n.rooms[slot].ready ==> |n.rooms[slot].pending| < c.lobby
  {
    hide Filling;
    FillingDealt(c, m, forkOk, accepted);
    var (n, slot) := Filling(c, m, forkOk);
    if slot < |n.rooms| {
      assert DealOk(c, n.rooms[slot]);
    }
  }

  lemma RedirectDealt(c: Config, m: Master, slot: nat, accepted: nat)
    requires Dealt(c, m, accepted) && slot < |m.rooms| && m.rooms[slot].used && m.rooms[slot].ready
    requires m.rooms[slot].redirected < c.roomSize
    ensures var room := m.rooms[slot];
            var rooms := m.rooms[slot := room.(redirected := room.redirected + 1)];
            Dealt(c, m.(closed := m.closed + [accepted], rooms := rooms), accepted + 1)
  {
    hide SocketsOk;
    var room := m.rooms[slot];
    assert DealOk(c, room);
    MoveSockets(c, m, slot, room.(redirected := room.redirected + 1), [accepted], true, accepted);
  }

  lemma ParkDealt(c: Config, m: Master, slot: nat, accepted: nat)
    requires Dealt(c, m, accepted) && slot < |m.rooms| && m.rooms[slot].used && !m.rooms[slot].ready
    requires m.rooms[slot].redirected < c.roomSize
    ensures var room := m.rooms[slot];
            var parked := room.(pending := room.pending + [accepted], redirected := room.redirected + 1);
            Dealt(c, m.(rooms := m.rooms[slot := parked]), accepted + 1)
  {
    hide SocketsOk;
    var room := m.rooms[slot];
    assert DealOk(c, room);
    var r := room.(pending := room.pending + [accepted], redirected := room.redirected + 1);
    assert multiset([]) + ParkedIn(r) == ParkedIn(room) + Newcomer(accepted, true);
    MoveSockets(c, m, slot, r, [], true, accepted);
    assert m.closed + [] == m.closed;
  }

  lemma AcceptDealt(c: Config, m: Master, forkOk: bool, accepted: nat)
    requires Dealt(c, m, accepted)
    ensures Dealt(c, Accepted(c, m, accepted, forkOk), accepted + 1)
  {
    hide Filling, Dealt;
    var (n, slot) := Filling(c, m, forkOk);
    FillingDealt(c, m, forkOk, accepted);
    ParkingIsNeverFull(c, m, forkOk, accepted);
    if slot == |m.rooms| {
      RefuseDealt(c, n, accepted);
    } else if n.rooms[slot].ready {
      RedirectDealt(c, n, slot, accepted);
    } else {
      ParkDealt(c, n, slot, accepted);
    }
  }

  lemma RefuseDealt(c: Config, m: Master, accepted: nat)
    requires Dealt(c, m, accepted)
    ensures Dealt(c, m.(closed := m.closed + [accepted]), accepted + 1)
  {
    assert UpTo(accepted + 1) == UpTo(accepted) + [accepted];
  }

  lemma ReadyDealt(c: Config, m: Master, slot: nat, accepted: nat)
    requires Dealt(c, m, accepted) && slot < |m.rooms|
    ensures Dealt(c, Handled(c, m, slot, Ready), accepted) || !m.rooms[slot].used
  {
    var room := m.rooms[slot];
    if room.used {
      assert DealOk(c, room);
      MoveSockets(c, m, slot, room.(ready := true, pending := []), room.pending, false, accepted);
    }
  }

  lemma CloseDealt(c: Config, m: Master, slot: nat, accepted: nat)
    requires Dealt(c, m, accepted) && slot < |m.rooms| && m.rooms[slot].used
    ensures Dealt(c, RoomClosed(m, slot), accepted)
  {
    hide RosterSent, EndChecked, RoomKilled, Dealt;
    var room := m.rooms[slot];
    MoveSockets(c, m, slot, room.(used := false), room.pending, false, accepted);
    var v := m.(rooms := m.rooms[slot := room.(used := false)], closed := m.closed + room.pending);
    if !m.matchEnded && RoomKilled(m.players, slot) != m.players {
      var a := v.(players := RoomKilled(m.players, slot));
      RosterSameDeals(a);
      EndCheckSameDeals(RosterSent(a));
      SameDealsCompose(a.rooms, RosterSent(a).rooms, EndChecked(RosterSent(a)).rooms);
      SameDealsDealt(c, v, EndChecked(RosterSent(a)), accepted);
    }
  }

  lemma DeliverDealt(c: Config, s: System, slot: nat)
    requires Enabled(c, s, Deliver(slot)) && Dealt(c, s.master, s.accepted)
    ensures Dealt(c, Delivered(c, s, slot).master, s.accepted)
  {
    hide Dealt, Handled, SameDeals;
    var room := s.master.rooms[slot];
    var msg := s.workers[room.worker].sent[room.seen];
    var p := Peeked(s, slot);
    OneSameDeal(s.master.rooms, slot, p.master.rooms[slot]);
    SameDealsDealt(c, s.master, p.master, s.accepted);
    if msg.Ready? {
      ReadyDealt(c, p.master, slot, s.accepted);
    } else {
      HandledSameDeals(c, p.master, slot, msg);
      SameDealsDealt(c, p.master, Handled(c, p.master, slot, msg), s.accepted);
    }
  }

  lemma StepDealt(c: Config, s: System, e: Step)
    requires Enabled(c, s, e) && Dealt(c, s.master, s.accepted)
    ensures Dealt(c, Next(c, s, e).master, Next(c, s, e).accepted)
  {
    hide Dealt, Delivered, Accepted, Filling, RoomClosed, AllStarted, GarbageFrom, TakenInMatch;
    match e
    case Accept(forkOk) => AcceptDealt(c, s.master, forkOk, s.accepted);
    case Enter =>
      AllStartedSameDeals(s.master, |s.master.rooms|);
      AllStartedCores(s.master, |s.master.rooms|);
      SameDealsDealt(c, s.master, AllStarted(s.master, |s.master.rooms|), s.accepted);
    case Deliver(slot) =>
      DeliverDealt(c, s, slot);
      DeliverAccepts(c, s, slot);
    case Close(slot) => CloseDealt(c, s.master, slot, s.accepted);
    case TakeInMatch(w) => TakeKeepsMaster(s, w);
    case _ =>
  }

  lemma DeliverAccepts(c: Config, s: System, slot: nat)
    requires Enabled(c, s, Deliver(slot))
    ensures Delivered(c, s, slot).accepted == s.accepted
  {
    hide Handled, RouteOf;
  }

  lemma TakeKeepsMaster(s: System, w: nat)
    requires HasMail(s, w)
    ensures TakenInMatch(s, w).master == s.master && TakenInMatch(s, w).accepted == s.accepted
  {
    hide SeatHit, SeatsHit;
  }

  lemma {:induction false} EveryRunDeals(c: Config, states: seq<System>, steps: seq<Step>, n: nat)
    requires IsRun(c, states, steps) && n < |states|
    ensures Dealt(c, states[n].master, states[n].accepted)
  {
    if n == 0 {
      var m := Initial(c).master;
      SumOfEmpties(|m.rooms|, ParkedLists(m.rooms));
    } else {
      hide Next, Initial, Dealt;
      EveryRunDeals(c, states, steps, n - 1);
      StepDealt(c, states[n - 1], steps[n - 1]);
    }
  }

  lemma {:induction false} UpToOnce(n: nat, x: nat)
    ensures multiset(UpTo(n))[x] == if x < n then 1 else 0
  {
    if n > 0 {
      UpToOnce(n - 1, x);
      assert UpTo(n) == UpTo(n - 1) + [n - 1];
    }
  }

  /** In every run no room in use was dealt more clients than its size, every accepted socket
      is closed once or parked once but never both, and a client is never turned away
      because a parking list is full. */
  lemma ClientsAreDealtFairly(c: Config, states: seq<System>, steps: seq<Step>, n: nat, forkOk: bool)
    requires IsRun(c, states, steps) && n < |states|
    ensures var m := states[n].master;
            && (forall i | 0 <= i < |m.rooms| && m.rooms[i].used :: m.rooms[i].redirected <= c.roomSize)
            && (forall x: nat :: multiset(m.closed)[x] + Parked(m.rooms)[x] == if x < states[n].accepted then 1 else 0)
            && var (f, slot) := Filling(c, m, forkOk);
               slot < |f.rooms| && !f.rooms[slot].ready ==> |f.rooms[slot].pending| < c.lobby
  {
    hide Next, Initial, Filling, Parked;
    EveryRunDeals(c, states, steps, n);
    var m := states[n].master;
    ParkingIsNeverFull(c, m, forkOk, states[n].accepted);
    forall i | 0 <= i < |m.rooms| && m.rooms[i].used ensures m.rooms[i].redirected <= c.roomSize {
      assert DealOk(c, m.rooms[i]);
    }
    forall x: nat ensures multiset(m.closed)[x] + Parked(m.rooms)[x] == if x < states[n].accepted then 1 else 0 {
      UpToOnce(states[n].accepted, x);
      assert (multiset(m.closed) + Parked(m.rooms))[x] == multiset(UpTo(states[n].accepted))[x];
    }
  }

  // ----- Which room a client is dealt to -----

  ghost predicate OpenRoom(c: Config, r: Room) {
    r.used && !r.started && r.redirected < c.roomSize
  }

  /** Slot `i` is the first open one. */
  ghost predicate IsFirstOpen(c: Config, rooms: seq<Room>, i: nat) {
    i < |rooms| && OpenRoom(c, rooms[i]) && forall j | 0 <= j < i :: !OpenRoom(c, rooms[j])
  }

  ghost predicate IsFirstUnused(rooms: seq<Room>, i: nat) {
    i < |rooms| && !rooms[i].used && forall j | 0 <= j < i :: rooms[j].used
  }

  lemma {:induction false} OpenFrom(c: Config, rooms: seq<Room>, i: nat)
    requires i <= |rooms|
    ensures forall j | i <= j < FirstOpen(c, rooms, i) :: !OpenRoom(c, rooms[j])
    decreases |rooms| - i
  {
    if i < |rooms| && !OpenRoom(c, rooms[i]) {
      OpenFrom(c, rooms, i + 1);
    }
  }

  lemma {:induction false} UnusedFrom(rooms: seq<Room>, i: nat)
    requires i <= |rooms|
    ensures forall j | i <= j < FirstUnused(rooms, i) :: rooms[j].used
    decreases |rooms| - i
  {
    if i < |rooms| && rooms[i].used {
      UnusedFrom(rooms, i + 1);
    }
  }

  lemma FirstOpenIs(c: Config, rooms: seq<Room>)
    ensures forall i: nat :: IsFirstOpen(c, rooms, i) <==> i < |rooms| && FirstOpen(c, rooms, 0) == i
  {
    OpenFrom(c, rooms, 0);
    hide FirstOpen;
    var k := FirstOpen(c, rooms, 0);
    assert k < |rooms| ==> OpenRoom(c, rooms[k]);
  }

  lemma FirstUnusedIs(rooms: seq<Room>)
    ensures forall i: nat :: IsFirstUnused(rooms, i) <==> i < |rooms| && FirstUnused(rooms, 0) == i
  {
    UnusedFrom(rooms, 0);
    hide FirstUnused;
  }

  /** The client with this socket takes a place in a room: redirected at once if the worker is
      ready, and parked otherwise. */
  ghost predicate TakesPlace(m: Master, n: Master, i: nat, sock: nat) {
    && i < |m.rooms| && n.players == m.players
    && if m.rooms[i].ready
       then n.rooms == m.rooms[i := m.rooms[i].(redirected := m.rooms[i].redirected + 1)]
            && n.closed == m.closed + [sock]
       else n.rooms == m.rooms[i := m.rooms[i].(redirected := m.rooms[i].redirected + 1,
                                               pending := m.rooms[i].pending + [sock])]
            && n.closed == m.closed
  }

  /** A client is dealt to the first open room. Only when none is open a worker is started in the
      first unused slot, if there is one and the fork succeeds; otherwise the client is turned
      away and nothing else changes. */
  lemma ClientGoesToTheFirstOpenRoom(c: Config, states: seq<System>, steps: seq<Step>, n: nat)
    requires IsRun(c, states, steps) && n < |steps| && steps[n].Accept?
    ensures var s, t, sock := states[n], states[n + 1], states[n].accepted;
            && (forall i: nat | IsFirstOpen(c, s.master.rooms, i) ::
                  t.workers == s.workers && TakesPlace(s.master, t.master, i, sock))
            && ((forall i: nat :: !IsFirstOpen(c, s.master.rooms, i)) ==>
                  && (forall i: nat | IsFirstUnused(s.master.rooms, i) && steps[n].forkOk ::
                        && t.workers == s.workers + [NewWorker(c, |s.workers|, i)]
                        && t.master.closed == s.master.closed
                        && t.master.rooms == s.master.rooms[i :=
                             Room(true, false, false, |s.workers|, 1, 0, [sock], [], 0)])
                  && ((forall i: nat :: !IsFirstUnused(s.master.rooms, i)) || !steps[n].forkOk ==>
                        t.workers == s.workers && t.master == s.master.(closed := s.master.closed + [sock])))
  {
    hide Next, Initial, Shape, AllWorkersOk, TableOk, EndOk;
    EveryRunDeals(c, states, steps, n);
    EveryRunIsSafe(c, states, steps, n);
    RoomSeqIsWorkerCount(c, states[n]);
    AcceptDeals(c, states[n], steps[n].forkOk);
  }

  lemma AcceptDeals(c: Config, s: System, forkOk: bool)
    requires Dealt(c, s.master, s.accepted) && |s.workers| == s.master.roomSeq
    ensures var t, sock := Next(c, s, Accept(forkOk)), s.accepted;
            && (forall i: nat | IsFirstOpen(c, s.master.rooms, i) ::
                  t.workers == s.workers && TakesPlace(s.master, t.master, i, sock))
            && ((forall i: nat :: !IsFirstOpen(c, s.master.rooms, i)) ==>
                  && (forall i: nat | IsFirstUnused(s.master.rooms, i) && forkOk ::
                        && t.workers == s.workers + [NewWorker(c, |s.workers|, i)]
                        && t.master.closed == s.master.closed
                        && t.master.rooms == s.master.rooms[i :=
                             Room(true, false, false, |s.workers|, 1, 0, [sock], [], 0)])
                  && ((forall i: nat :: !IsFirstUnused(s.master.rooms, i)) || !forkOk ==>
                        t.workers == s.workers && t.master == s.master.(closed := s.master.closed + [sock])))
  {
    hide Dealt, IsFirstOpen, IsFirstUnused, FirstOpen, FirstUnused, FirstId;
    FirstOpenIs(c, s.master.rooms);
    FirstUnusedIs(s.master.rooms);
    ParkingIsNeverFull(c, s.master, forkOk, s.accepted);
    assert [] + [s.accepted] == [s.accepted];
    var k := FirstUnused(s.master.rooms, 0);
    if FirstOpen(c, s.master.rooms, 0) == |s.master.rooms| {
      assert k < |s.master.rooms| ==> IsFirstUnused(s.master.rooms, k);
    } else {
      assert IsFirstOpen(c, s.master.rooms, FirstOpen(c, s.master.rooms, 0));
    }
  }
}
