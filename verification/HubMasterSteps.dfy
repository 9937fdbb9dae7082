/** Every step of the master keeps the system safe, so every run does; and what that says
    about winners, reports and alive flags. */
module HubMasterSteps {
  import opened Arith
  import opened Hub
  import opened HubSafety

  // ----- Room changes the table does not notice -----

  ghost predicate SameCore(a: Room, b: Room) {
    b.used == a.used && b.worker == a.worker && b.seen == a.seen && a.sent <= b.sent
  }

  ghost predicate SameCores(rooms: seq<Room>, rooms': seq<Room>) {
    |rooms'| == |rooms| && forall i | 0 <= i < |rooms| :: SameCore(rooms[i], rooms'[i])
  }

  lemma CoresCompose(a: seq<Room>, b: seq<Room>, d: seq<Room>)
    requires SameCores(a, b) && SameCores(b, d)
    ensures SameCores(a, d)
  {
    forall i | 0 <= i < |a| ensures SameCore(a[i], d[i]) {
      assert SameCore(a[i], b[i]) && SameCore(b[i], d[i]);
    }
  }

  lemma ToRunningCores(rooms: seq<Room>, msg: DownMsg, but: int)
    ensures SameCores(rooms, ToRunning(rooms, msg, but))
  {}

  lemma ToUsedCores(rooms: seq<Room>, msg: DownMsg)
    ensures SameCores(rooms, ToUsed(rooms, msg))
  {}

  lemma OneRoomCores(rooms: seq<Room>, i: nat, r: Room)
    requires i < |rooms| && SameCore(rooms[i], r)
    ensures SameCores(rooms, rooms[i := r])
  {}

  /** Everything the table speaks about is the same in both systems. */
  ghost predicate Alike(s: System, t: System) {
    && SameCores(s.master.rooms, t.master.rooms)
    && t.workers == s.workers && t.master.roomSeq == s.master.roomSeq
  }

  lemma AlikeKeepsShape(c: Config, s: System, t: System)
    requires Shape(c, s) && Alike(s, t)
    ensures Shape(c, t)
  {
    forall i | 0 <= i < |t.master.rooms| ensures RoomOk(t, i) {
      assert RoomOk(s, i) && SameCore(s.master.rooms[i], t.master.rooms[i]);
    }
    forall w | 0 <= w < |t.workers| ensures Current(t, w) || t.workers[w].exited {
      AlikeCurrent(s, t, w);
      assert Current(s, w) || s.workers[w].exited;
    }
  }

  lemma AlikeCurrent(s: System, t: System, w: nat)
    requires Alike(s, t) && w < |s.workers|
    ensures Current(t, w) == Current(s, w) && Seen(t, w) == Seen(s, w)
  {
    var i := s.workers[w].slot;
    assert i < |s.master.rooms| ==> SameCore(s.master.rooms[i], t.master.rooms[i]);
  }

  lemma AlikeKeepsRec(c: Config, s: System, t: System, r: PlayerRec)
    requires Alike(s, t) && RecOk(c, s, r) && (s.master.matchEnded ==> t.master.matchEnded)
    ensures RecOk(c, t, r)
  {
    hide Among, OutIn, SameCores;
    AlikeCurrent(s, t, WorkerOf(c, r.id));
  }

  /** Same players, same end of match, same processes: still safe. */
  lemma AlikeKeepsSafe(c: Config, s: System, t: System)
    requires Safe(c, s) && Alike(s, t) && t.finalTable == s.finalTable
    requires t.master.players == s.master.players && t.master.matchEnded == s.master.matchEnded
    requires t.master.announced == s.master.announced
    ensures Safe(c, t)
  {
    hide RecOk, Shape, SameCores, WorkerOk, OutIn;
    AlikeKeepsShape(c, s, t);
    forall i | 0 <= i < |t.master.players| ensures RecOk(c, t, t.master.players[i]) {
      AlikeKeepsRec(c, s, t, s.master.players[i]);
    }
  }

  lemma StartedCores(m: Master, slot: nat)
    requires slot < |m.rooms|
    ensures SameCores(m.rooms, RoomStarted(m, slot).rooms)
    ensures RoomStarted(m, slot) == m.(rooms := RoomStarted(m, slot).rooms)
  {
    hide ToRunning;
    var room := m.rooms[slot];
    if room.used && !room.started && room.joined >= 1 {
      var a := m.rooms[slot := room.(sent := room.sent + [Start(room.redirected)], started := true)];
      OneRoomCores(m.rooms, slot, a[slot]);
      var msg := RosterOf(m.players);
      ToRunningCores(a, msg, -1);
      CoresCompose(m.rooms, a, ToRunning(a, msg, -1));
    }
  }

  lemma {:induction false} AllStartedCores(m: Master, n: nat)
    requires n <= |m.rooms|
    ensures SameCores(m.rooms, AllStarted(m, n).rooms)
    ensures AllStarted(m, n) == m.(rooms := AllStarted(m, n).rooms)
  {
    hide RoomStarted;
    if n > 0 {
      AllStartedCores(m, n - 1);
      StartedCores(AllStarted(m, n - 1), n - 1);
      CoresCompose(m.rooms, AllStarted(m, n - 1).rooms, AllStarted(m, n).rooms);
    }
  }

  // ----- Who wins -----

  lemma {:induction false} NobodyAlive(ps: seq<PlayerRec>)
    requires AliveCount(ps) == 0
    ensures forall i | 0 <= i < |ps| :: !ps[i].alive
  {
    if ps != [] {
      var n := |ps| - 1;
      NobodyAlive(ps[..n]);
      forall i | 0 <= i < |ps| ensures !ps[i].alive {
        if i < n {
          assert ps[..n][i] == ps[i];
        }
      }
    }
  }

  lemma {:induction false} OneAlive(ps: seq<PlayerRec>)
    requires AliveCount(ps) == 1
    ensures exists k :: 0 <= k < |ps| && ps[k].id == LastAlive(ps) && ps[k].alive
                        && forall i | 0 <= i < |ps| && i != k :: !ps[i].alive
  {
    var n := |ps| - 1;
    if ps[n].alive {
      NobodyAlive(ps[..n]);
      forall i | 0 <= i < |ps| && i != n ensures !ps[i].alive {
        assert ps[..n][i] == ps[i];
      }
    } else {
      OneAlive(ps[..n]);
      var k :| 0 <= k < n && ps[..n][k].id == LastAlive(ps[..n]) && ps[..n][k].alive
               && forall i | 0 <= i < n && i != k :: !ps[..n][i].alive;
      assert ps[k] == ps[..n][k];
      forall i | 0 <= i < |ps| && i != k ensures !ps[i].alive {
        if i < n {
          assert ps[..n][i] == ps[i];
        }
      }
    }
  }

  /** In a decided table with distinct positive ids, exactly the winner is alive. */
  lemma WinnerIsTheOneAlive(ps: seq<PlayerRec>)
    requires Decided(ps) && DistinctIds(ps) && forall i | 0 <= i < |ps| :: ps[i].id > 0
    ensures forall r | r in ps :: r.alive <==> r.id == Winner(ps)
    ensures Winner(ps) != 0 ==> exists r :: r in ps && r.id == Winner(ps)
  {
    if AliveCount(ps) == 1 {
      OneAlive(ps);
      var k :| 0 <= k < |ps| && ps[k].id == LastAlive(ps) && ps[k].alive && forall i | 0 <= i < |ps| && i != k ::
        !ps[i].alive;
      assert ps[k] in ps;
    } else {
      NobodyAlive(ps);
    }
  }

  lemma IdPositive(c: Config, s: System, r: PlayerRec)
    requires AllWorkersOk(c, s) && RecOk(c, s, r)
    ensures r.id > 0
  {
    hide SentOk;
    var w := WorkerOf(c, r.id);
    assert WorkerOk(c, w, s.workers[w]);
    if r.id == 0 {
      DivUnique(-1, c.lobby, -1);
    }
  }

  /** Checking for the end keeps a sound table sound. */
  lemma EndCheckKeepsSafe(c: Config, s: System, t: System)
    requires Shape(c, s) && AllWorkersOk(c, s) && TableOk(c, s) && EndOk(c, s)
    requires t == WithMaster(s, EndChecked(s.master))
    ensures Safe(c, t)
  {
    hide RecOk, Shape, WorkerOk, OutIn, Decided, Winner, ToUsed;
    var m := s.master;
    if !(m.matchEnded || m.players == [] || !Decided(m.players)) {
      ToUsedCores(m.rooms, GameOver(Winner(m.players)));
      AlikeKeepsShape(c, s, t);
      forall i | 0 <= i < |m.players| ensures RecOk(c, t, m.players[i]) && m.players[i].id > 0 {
        AlikeKeepsRec(c, s, t, m.players[i]);
        IdPositive(c, s, m.players[i]);
      }
      WinnerIsTheOneAlive(m.players);
      forall r | r in t.finalTable && !r.alive ensures ReallyOut(c, t, r.id) {
        RecOutIsOut(c, t, r);
      }
    }
  }

  lemma RecOutIsOut(c: Config, s: System, r: PlayerRec)
    requires RecOk(c, s, r) && !r.alive
    ensures ReallyOut(c, s, r.id)
  {}

  // ----- One message from a worker -----

  /** The system once the next message of a room counts as seen. */
  function Peeked(s: System, slot: nat): System
    requires slot < |s.master.rooms|
  {
    var room := s.master.rooms[slot];
    s.(master := s.master.(rooms := s.master.rooms[slot := room.(seen := room.seen + 1)]))
  }

  ghost predicate Arrived(s: System, slot: nat, msg: UpMsg) {
    && RoomHasWorker(s, slot)
    && s.master.rooms[slot].seen < |s.workers[s.master.rooms[slot].worker].sent|
    && msg == s.workers[s.master.rooms[slot].worker].sent[s.master.rooms[slot].seen]
  }

  lemma PeekedShape(c: Config, s: System, slot: nat, msg: UpMsg)
    requires Shape(c, s) && Arrived(s, slot, msg)
    ensures Shape(c, Peeked(s, slot))
    ensures forall w | 0 <= w < |s.workers| :: Current(Peeked(s, slot), w) == Current(s, w)
  {
    var t := Peeked(s, slot);
    forall i | 0 <= i < |t.master.rooms| ensures RoomOk(t, i) {
      assert RoomOk(s, i);
    }
    forall w | 0 <= w < |s.workers| ensures Current(t, w) == Current(s, w) && (Current(t, w) || t.workers[w].exited) {
      assert Current(s, w) || s.workers[w].exited;
    }
  }

  /** Seeing one more message only adds that message. */
  lemma PeekedAmong(c: Config, s: System, slot: nat, msg: UpMsg, w: nat, m: UpMsg)
    requires Shape(c, s) && Arrived(s, slot, msg) && w < |s.workers|
    ensures Among(m, s.workers[w].sent, Seen(s, w)) ==> Among(m, s.workers[w].sent, Seen(Peeked(s, slot), w))
    ensures Among(m, s.workers[w].sent, Seen(Peeked(s, slot), w)) ==>
              Among(m, s.workers[w].sent, Seen(s, w)) || (w == s.master.rooms[slot].worker && m == msg)
  {
    var t, sent := Peeked(s, slot), s.workers[w].sent;
    assert RoomOk(s, slot);
    var a, b := Seen(s, w), Seen(t, w);
    assert a <= b <= a + 1 && (b == a + 1 ==> w == s.master.rooms[slot].worker && sent[a] == msg);
    AmongNext(m, sent, a, b);
  }

  lemma AmongNext(m: UpMsg, sent: seq<UpMsg>, a: nat, b: nat)
    requires a <= b <= a + 1
    ensures Among(m, sent, a) ==> Among(m, sent, b)
    ensures Among(m, sent, b) ==> Among(m, sent, a) || (b == a + 1 && a < |sent| && sent[a] == m)
  {
    if Among(m, sent, b) {
      var p :| 0 <= p < b && p < |sent| && sent[p] == m;
      if p < a {
        assert Among(m, sent, a);
      }
    }
  }

  lemma PeekedRec(c: Config, s: System, slot: nat, msg: UpMsg, r: PlayerRec)
    requires Shape(c, s) && Arrived(s, slot, msg) && RecOk(c, s, r) && msg != Eliminated(r.id)
    ensures RecOk(c, Peeked(s, slot), r)
  {
    hide Among, OutIn, Shape;
    var w := WorkerOf(c, r.id);
    PeekedShape(c, s, slot, msg);
    PeekedAmong(c, s, slot, msg, w, Joined(r.id));
    PeekedAmong(c, s, slot, msg, w, Eliminated(r.id));
  }

  lemma MessageOwner(c: Config, s: System, slot: nat, msg: UpMsg)
    requires AllWorkersOk(c, s) && Arrived(s, slot, msg) && (msg.Joined? || msg.Eliminated?)
    ensures WorkerOf(c, msg.id) == s.master.rooms[slot].worker
    ensures msg.Eliminated? ==> OutIn(s.workers[s.master.rooms[slot].worker], msg.id)
  {
    hide Orderly, Increasing;
    var w := s.master.rooms[slot].worker;
    var k, p := s.workers[w], s.master.rooms[slot].seen;
    assert WorkerOk(c, w, k);
    if msg.Joined? {
      assert k.sent[p].Joined?;
      var i :| 0 <= i < k.told && k.clients[..k.told][i] == msg.id;
      assert k.clients[i] == msg.id;
    } else {
      assert k.sent[p].Eliminated?;
      var j :| 0 <= j < |k.session| && k.session[j].id == k.sent[p].id && k.session[j].reported;
      assert k.clients[j] == msg.id;
    }
    OwnerIsWorkerOf(c, w, msg.id);
  }

  /** A reported player's record, once marked, is in order. */
  lemma EliminatedRec(c: Config, s: System, slot: nat, r: PlayerRec)
    requires Shape(c, s) && AllWorkersOk(c, s) && Arrived(s, slot, Eliminated(r.id)) && RecOk(c, s, r)
    ensures RecOk(c, Peeked(s, slot), r.(alive := false))
  {
    hide Among, OutIn, Shape;
    PeekedShape(c, s, slot, Eliminated(r.id));
    PeekedAmong(c, s, slot, Eliminated(r.id), WorkerOf(c, r.id), Joined(r.id));
    MessageOwner(c, s, slot, Eliminated(r.id));
  }

  /** A player who joins is new to the table and its record is in order. */
  lemma JoinedRec(c: Config, s: System, slot: nat, id: nat)
    requires Shape(c, s) && AllWorkersOk(c, s) && TableOk(c, s) && Arrived(s, slot, Joined(id))
    ensures RecOk(c, Peeked(s, slot), PlayerRec(id, slot, true))
    ensures forall i | 0 <= i < |s.master.players| :: s.master.players[i].id != id
  {
    hide OutIn, SentOk, ClientsOk;
    var t, w := Peeked(s, slot), s.master.rooms[slot].worker;
    var k, p := s.workers[w], s.master.rooms[slot].seen;
    MessageOwner(c, s, slot, Joined(id));
    PeekedShape(c, s, slot, Joined(id));
    assert RoomOk(s, slot) && RoomOk(t, slot);
    assert Current(s, w) && Current(t, w) && Seen(t, w) == p + 1;
    assert k.sent[p] == Joined(id);
    assert Among(Joined(id), k.sent, p + 1);
    JoinIsFresh(c, w, k, p);
    forall i | 0 <= i < |s.master.players| ensures s.master.players[i].id != id {
      assert RecOk(c, s, s.master.players[i]);
    }
  }

  lemma JoinIsFresh(c: Config, w: nat, k: Worker, p: nat)
    requires WorkerOk(c, w, k) && p < |k.sent| && k.sent[p].Joined?
    ensures !Among(k.sent[p], k.sent, p) && !Among(Eliminated(k.sent[p].id), k.sent, p + 1)
  {
    hide ClientsOk;
    forall q | 0 <= q < p ensures k.sent[q] != k.sent[p] && !k.sent[q].Eliminated? {}
  }

  lemma HandledCores(c: Config, m: Master, slot: nat, msg: UpMsg)
    requires slot < |m.rooms|
    ensures SameCores(m.rooms, Handled(c, m, slot, msg).rooms)
    ensures Handled(c, m, slot, msg).roomSeq == m.roomSeq
  {
    hide ToRunning, ToUsed, AllStarted, RouteOf, SameCores, Decided, Winner;
    var room := m.rooms[slot];
    match msg
    case Ready => OneRoomCores(m.rooms, slot, room.(ready := true, pending := []));
    case Joined(id) =>
      var ps := if |m.players| < c.maxRooms * c.lobby then m.players + [PlayerRec(id, slot, true)] else m.players;
      var a := m.(players := ps, rooms := m.rooms[slot := room.(joined := room.joined + 1)]);
      OneRoomCores(m.rooms, slot, room.(joined := room.joined + 1));
      var n := RosterSent(a);
      ToRunningCores(a.rooms, RosterOf(ps), -1);
      CoresCompose(m.rooms, a.rooms, n.rooms);
      AllStartedCores(n, |n.rooms|);
      CoresCompose(m.rooms, n.rooms, AllStarted(n, |n.rooms|).rooms);
    case Eliminated(id) =>
      var ps := Killed(m.players, id);
      var n := RosterSent(m.(players := ps));
      ToRunningCores(m.rooms, RosterOf(ps), -1);
      ToUsedCores(n.rooms, GameOver(Winner(ps)));
      CoresCompose(m.rooms, n.rooms, ToUsed(n.rooms, GameOver(Winner(ps))));
    case AttackOut(a) =>
      var t := RouteOf(m, a.victim);
      if t < |m.rooms| {
        OneRoomCores(m.rooms, t, m.rooms[t].(sent := m.rooms[t].sent + [Garbage(a)]));
      } else {
        SameCoresRefl(m.rooms);
      }
    case FeedOut(a) => ToRunningCores(m.rooms, Feed(a), slot);
  }

  lemma SameCoresRefl(rooms: seq<Room>)
    ensures SameCores(rooms, rooms)
  {}

  /** All messages but joins and reports leave the table alone. */
  lemma QuietDeliverKeepsSafe(c: Config, s: System, slot: nat, msg: UpMsg)
    requires Safe(c, s) && Arrived(s, slot, msg) && !msg.Joined? && !msg.Eliminated?
    ensures Safe(c, Delivered(c, s, slot))
  {
    hide RecOk, Shape, WorkerOk, OutIn, SameCores, ToRunning, RouteOf;
    var p, t := Peeked(s, slot), Delivered(c, s, slot);
    PeekedShape(c, s, slot, msg);
    forall i | 0 <= i < |s.master.players| ensures RecOk(c, p, s.master.players[i]) {
      PeekedRec(c, s, slot, msg, s.master.players[i]);
    }
    assert Safe(c, p);
    HandledCores(c, p.master, slot, msg);
    AlikeKeepsSafe(c, p, t);
  }

  lemma JoinDeliverKeepsSafe(c: Config, s: System, slot: nat, id: nat)
    requires Safe(c, s) && Arrived(s, slot, Joined(id))
    ensures Safe(c, Delivered(c, s, slot))
  {
    hide RecOk, Shape, WorkerOk, OutIn, SameCores, AllStarted, ToRunning;
    var p, t := Peeked(s, slot), Delivered(c, s, slot);
    var m, msg := s.master, Joined(id);
    PeekedShape(c, s, slot, msg);
    JoinedRec(c, s, slot, id);
    HandledCores(c, p.master, slot, msg);
    var ps := if |m.players| < c.maxRooms * c.lobby then m.players + [PlayerRec(id, slot, true)] else m.players;
    var q := p.(master := p.master.(players := ps));
    forall i | 0 <= i < |ps| ensures RecOk(c, q, ps[i]) {
      if i < |m.players| {
        PeekedRec(c, s, slot, msg, m.players[i]);
        AlikeRefl(p, q);
        AlikeKeepsRec(c, p, q, m.players[i]);
      } else {
        AlikeRefl(p, q);
        AlikeKeepsRec(c, p, q, PlayerRec(id, slot, true));
      }
    }
    AlikeRefl(p, q);
    AlikeKeepsShape(c, p, q);
    assert Safe(c, q);
    var n := RosterSent(p.master.(players := ps,
        rooms := p.master.rooms[slot := p.master.rooms[slot].(joined := p.master.rooms[slot].joined + 1)]));
    AllStartedCores(n, |n.rooms|);
    AlikeKeepsSafe(c, q, t);
  }

  lemma AlikeRefl(s: System, t: System)
    requires t.master.rooms == s.master.rooms && t.workers == s.workers && t.master.roomSeq == s.master.roomSeq
    ensures Alike(s, t)
  {}

  lemma OutDeliverKeepsSafe(c: Config, s: System, slot: nat, id: nat)
    requires Safe(c, s) && Arrived(s, slot, Eliminated(id))
    ensures Safe(c, Delivered(c, s, slot))
  {
    hide RecOk, Shape, WorkerOk, OutIn, SameCores, ToRunning, EndChecked;
    var p, t := Peeked(s, slot), Delivered(c, s, slot);
    var m, msg := s.master, Eliminated(id);
    var ps := Killed(m.players, id);
    PeekedShape(c, s, slot, msg);
    var n := RosterSent(p.master.(players := ps));
    ToRunningCores(p.master.rooms, RosterOf(ps), -1);
    var q := p.(master := n);
    assert Alike(p, q);
    forall i | 0 <= i < |ps| ensures RecOk(c, q, ps[i]) {
      if m.players[i].id == id {
        EliminatedRec(c, s, slot, m.players[i]);
      } else {
        PeekedRec(c, s, slot, msg, m.players[i]);
      }
      AlikeKeepsRec(c, p, q, ps[i]);
    }
    AlikeKeepsShape(c, p, q);
    EndCheckKeepsSafe(c, q, WithMaster(q, EndChecked(n)));
    assert t == WithMaster(q, EndChecked(n));
  }

  lemma DeliverKeepsSafe(c: Config, s: System, slot: nat)
    requires Safe(c, s) && Enabled(c, s, Deliver(slot))
    ensures Safe(c, Delivered(c, s, slot))
  {
    hide Safe, Delivered;
    var msg := s.workers[s.master.rooms[slot].worker].sent[s.master.rooms[slot].seen];
    match msg
    case Joined(id) => JoinDeliverKeepsSafe(c, s, slot, id);
    case Eliminated(id) => OutDeliverKeepsSafe(c, s, slot, id);
    case _ => QuietDeliverKeepsSafe(c, s, slot, msg);
  }

  // ----- A worker's end -----

  /** The system once a slot is free again. */
  function Vacated(s: System, slot: nat, ps: seq<PlayerRec>): System
    requires slot < |s.master.rooms|
  {
    s.(master := s.master.(rooms := s.master.rooms[slot := s.master.rooms[slot].(used := false)], players := ps))
  }

  lemma VacatedShape(c: Config, s: System, slot: nat, ps: seq<PlayerRec>)
    requires Shape(c, s) && Enabled(c, s, Close(slot))
    ensures Shape(c, Vacated(s, slot, ps))
    ensures forall w | 0 <= w < |s.workers| ::
      Seen(Vacated(s, slot, ps), w) == Seen(s, w)
      && Current(Vacated(s, slot, ps), w) == (Current(s, w) && s.workers[w].slot != slot)
  {
    var t := Vacated(s, slot, ps);
    assert RoomOk(s, slot);
    forall i | 0 <= i < |t.master.rooms| ensures RoomOk(t, i) {
      assert RoomOk(s, i);
    }
    forall w | 0 <= w < |s.workers| ensures Current(t, w) || t.workers[w].exited {
      assert Current(s, w) || s.workers[w].exited;
    }
  }

  lemma VacatedRec(c: Config, s: System, slot: nat, ps: seq<PlayerRec>, r: PlayerRec)
    requires Shape(c, s) && Enabled(c, s, Close(slot)) && RecOk(c, s, r)
    ensures s.master.matchEnded || r.room != slot || !r.alive ==> RecOk(c, Vacated(s, slot, ps), r)
    ensures !s.master.matchEnded && r.room == slot ==> RecOk(c, Vacated(s, slot, ps), r.(alive := false))
  {
    hide Among, OutIn, Shape;
    VacatedShape(c, s, slot, ps);
    var w := WorkerOf(c, r.id);
    assert Seen(Vacated(s, slot, ps), w) == Seen(s, w);
    if r.room == slot && r.alive && !s.master.matchEnded {
      assert Current(s, w);
    }
  }

  lemma CloseKeepsSafe(c: Config, s: System, slot: nat)
    requires Safe(c, s) && Enabled(c, s, Close(slot))
    ensures Safe(c, Next(c, s, Close(slot)))
  {
    hide RecOk, Shape, WorkerOk, OutIn, ToRunning, EndChecked, SameCores, GarbageFrom;
    var m, t := s.master, Next(c, s, Close(slot));
    var killed := RoomKilled(m.players, slot);
    var ps := if m.matchEnded then m.players else killed;
    var v := Vacated(s, slot, ps);
    VacatedShape(c, s, slot, ps);
    forall i | 0 <= i < |ps| ensures RecOk(c, v, ps[i]) {
      VacatedRec(c, s, slot, ps, m.players[i]);
    }
    assert Safe(c, v);
    if m.matchEnded || killed == m.players {
      AlikeRefl(v, t);
      AlikeKeepsSafe(c, v, t);
    } else {
      var n := RosterSent(v.master.(closed := m.closed + m.rooms[slot].pending));
      ToRunningCores(v.master.rooms, RosterOf(ps), -1);
      var q := v.(master := n);
      assert Alike(v, q);
      AlikeKeepsSafe(c, v, q);
      var u := WithMaster(q, EndChecked(n));
      EndCheckKeepsSafe(c, q, u);
      AlikeRefl(u, t);
      AlikeKeepsSafe(c, u, t);
    }
  }

  // ----- A client is dealt -----

  lemma NewWorkerOk(c: Config, w: nat, slot: nat)
    ensures WorkerOk(c, w, NewWorker(c, w, slot))
  {}

  /** The system with a fresh worker in a free slot. */
  function Hired(c: Config, s: System, slot: nat): System
    requires slot < |s.master.rooms|
  {
    s.(master := RoomSpawned(s.master, slot), workers := s.workers + [NewWorker(c, s.master.roomSeq, slot)])
  }

  lemma HiredShape(c: Config, s: System, slot: nat)
    requires Shape(c, s) && slot < |s.master.rooms| && !s.master.rooms[slot].used
    ensures Shape(c, Hired(c, s, slot))
    ensures forall w | 0 <= w < |s.workers| ::
      Current(Hired(c, s, slot), w) == Current(s, w) && Seen(Hired(c, s, slot), w) == Seen(s, w)
  {
    var t := Hired(c, s, slot);
    forall w | 0 <= w < |s.workers| ensures Current(t, w) == Current(s, w) && (Current(t, w) || t.workers[w].exited) {
      assert Current(s, w) || s.workers[w].exited;
    }
    forall i | 0 <= i < |t.master.rooms| ensures RoomOk(t, i) {
      assert RoomOk(s, i);
    }
    assert Current(t, |s.workers|);
  }

  lemma HiredRec(c: Config, s: System, slot: nat, r: PlayerRec)
    requires Shape(c, s) && slot < |s.master.rooms| && !s.master.rooms[slot].used && RecOk(c, s, r)
    ensures RecOk(c, Hired(c, s, slot), r)
  {
    hide Among, OutIn, Shape;
    HiredShape(c, s, slot);
    var w := WorkerOf(c, r.id);
    assert Seen(Hired(c, s, slot), w) == Seen(s, w);
  }

  lemma HiredOut(c: Config, s: System, slot: nat, id: nat)
    requires slot < |s.master.rooms| && ReallyOut(c, s, id)
    ensures ReallyOut(c, Hired(c, s, slot), id)
  {}

  lemma HiredKeepsSafe(c: Config, s: System, slot: nat)
    requires Safe(c, s) && slot < |s.master.rooms| && !s.master.rooms[slot].used
    ensures Safe(c, Hired(c, s, slot))
  {
    hide RecOk, Shape, WorkerOk, ReallyOut, NewWorker;
    var t := Hired(c, s, slot);
    HiredShape(c, s, slot);
    forall i | 0 <= i < |s.master.players| ensures RecOk(c, t, s.master.players[i]) {
      HiredRec(c, s, slot, s.master.players[i]);
    }
    forall w | 0 <= w < |t.workers| ensures WorkerOk(c, w, t.workers[w]) {
      if w < |s.workers| {
        assert WorkerOk(c, w, s.workers[w]);
      } else {
        RoomSeqIsWorkerCount(c, s);
        NewWorkerOk(c, w, slot);
      }
    }
    forall r | r in s.finalTable && ReallyOut(c, s, r.id) ensures ReallyOut(c, t, r.id) {
      HiredOut(c, s, slot, r.id);
    }
  }

  lemma RoomSeqIsWorkerCount(c: Config, s: System)
    requires Shape(c, s)
    ensures |s.workers| == s.master.roomSeq
  {}

  /** Dealing a client is hiring a worker, if one is needed, and seating the client. */
  lemma AcceptSplits(c: Config, s: System, forkOk: bool)
    ensures var (n, slot) := Filling(c, s.master, forkOk);
            var h := if n.roomSeq > s.master.roomSeq then Hired(c, s, slot) else s;
            var t := Next(c, s, Accept(forkOk));
            && n == h.master && (n.roomSeq > s.master.roomSeq ==> slot < |s.master.rooms| && !s.master.rooms[slot].used)
            && t == h.(master := t.master, accepted := t.accepted)
            && SameCores(h.master.rooms, t.master.rooms)
            && t.master == h.master.(rooms := t.master.rooms, closed := t.master.closed)
  {
    hide FirstOpen, FirstUnused;
    var (n, slot) := Filling(c, s.master, forkOk);
  }

  lemma AcceptKeepsSafe(c: Config, s: System, forkOk: bool)
    requires Safe(c, s)
    ensures Safe(c, Next(c, s, Accept(forkOk)))
  {
    hide Safe, Filling, Next, Hired, SameCores;
    var (n, slot) := Filling(c, s.master, forkOk);
    var t := Next(c, s, Accept(forkOk));
    AcceptSplits(c, s, forkOk);
    if n.roomSeq > s.master.roomSeq {
      HiredKeepsSafe(c, s, slot);
      AlikeKeepsSafe(c, Hired(c, s, slot), t);
    } else {
      AlikeKeepsSafe(c, s, t);
    }
  }

  lemma EnterKeepsSafe(c: Config, s: System)
    requires Safe(c, s)
    ensures Safe(c, Next(c, s, Enter))
  {
    hide Safe, AllStarted, SameCores;
    AllStartedCores(s.master, |s.master.rooms|);
    AlikeKeepsSafe(c, s, Next(c, s, Enter));
  }

  // ----- Whole runs -----

  lemma StepKeepsSafe(c: Config, s: System, e: Step)
    requires Safe(c, s) && Enabled(c, s, e)
    ensures Safe(c, Next(c, s, e))
  {
    hide Safe, Delivered;
    if ByWorker(e) {
      WorkerStepKeepsSafe(c, s, e);
    } else {
      match e
      case Accept(forkOk) => AcceptKeepsSafe(c, s, forkOk);
      case Enter => EnterKeepsSafe(c, s);
      case Deliver(slot) => DeliverKeepsSafe(c, s, slot);
      case Close(slot) => CloseKeepsSafe(c, s, slot);
    }
  }

  lemma InitialSafe(c: Config)
    ensures Safe(c, Initial(c))
  {}

  lemma {:induction false} EveryRunIsSafe(c: Config, states: seq<System>, steps: seq<Step>, n: nat)
    requires IsRun(c, states, steps) && n < |states|
    ensures Safe(c, states[n])
  {
    hide Safe, Next, Initial;
    if n == 0 {
      InitialSafe(c);
    } else {
      EveryRunIsSafe(c, states, steps, n - 1);
      StepKeepsSafe(c, states[n - 1], steps[n - 1]);
    }
  }

  /** In every run at most one winner is announced. If it is w != 0, then w was the only
      player alive in the master's table, and every other player of that table has quit or
      topped out in its own room or its room's worker has exited. If it is 0, nobody was
      alive. */
  lemma AtMostOneTrueWinner(c: Config, states: seq<System>, steps: seq<Step>, n: nat)
    requires IsRun(c, states, steps) && n < |states|
    ensures var s := states[n];
            && |s.master.announced| <= 1
            && (forall w | w in s.master.announced ::
                  && (forall r | r in s.finalTable :: r.alive <==> r.id == w)
                  && (forall r | r in s.finalTable && r.id != w :: ReallyOut(c, s, r.id))
                  && (w != 0 ==> exists r :: r in s.finalTable && r.id == w))
  {
    hide Shape, AllWorkersOk, TableOk, ReallyOut, Next, Initial;
    EveryRunIsSafe(c, states, steps, n);
    var s := states[n];
    assert EndOk(c, s);
    forall w | w in s.master.announced ensures w == s.master.announced[0] {}
  }

  /** Over a whole run each player is reported out at most once, only when it is out, and
      always behind its own join. */
  lemma ReportedOnceAfterJoin(c: Config, states: seq<System>, steps: seq<Step>, n: nat, w: nat, q: nat)
    requires IsRun(c, states, steps) && n < |states| && w < |states[n].workers|
    requires q < |states[n].workers[w].sent| && states[n].workers[w].sent[q].Eliminated?
    ensures var k := states[n].workers[w];
            && OutIn(k, k.sent[q].id)
            && Among(Joined(k.sent[q].id), k.sent, q)
            && forall p | 0 <= p < |k.sent| && k.sent[p] == k.sent[q] :: p == q
  {
    hide Shape, TableOk, EndOk, Next, Initial;
    EveryRunIsSafe(c, states, steps, n);
    var k := states[n].workers[w];
    assert WorkerOk(c, w, k);
    var j :| 0 <= j < |k.session| && k.session[j].id == k.sent[q].id && k.session[j].reported;
    assert k.clients[j] == k.sent[q].id;
    assert Joined(k.clients[j]) in k.sent;
    var p :| 0 <= p < |k.sent| && k.sent[p] == Joined(k.sent[q].id);
    assert p < q;
    forall p | 0 <= p < |k.sent| && k.sent[p] == k.sent[q] ensures p == q {}
  }

  /** Once a live room has reported everybody who is out and the master has handled all its
      messages, a record of that room is alive iff its player is not out. */
  lemma RecordAgreesWhenDrained(c: Config, states: seq<System>, steps: seq<Step>, n: nat, w: nat, r: PlayerRec)
    requires IsRun(c, states, steps) && n < |states| && Alive(states[n], w)
    requires forall j | 0 <= j < |states[n].workers[w].session| && Out(states[n].workers[w].session[j]) ::
      states[n].workers[w].session[j].reported
    requires Seen(states[n], w) == |states[n].workers[w].sent|
    requires r in states[n].master.players && WorkerOf(c, r.id) == w
    ensures r.alive <==> !OutIn(states[n].workers[w], r.id)
  {
    hide Shape, EndOk, Next, Initial;
    EveryRunIsSafe(c, states, steps, n);
    var s := states[n];
    var k := s.workers[w];
    var i :| 0 <= i < |s.master.players| && s.master.players[i] == r;
    assert RecOk(c, s, s.master.players[i]) && WorkerOk(c, w, k);
    if OutIn(k, r.id) {
      var j :| 0 <= j < |k.session| && k.session[j].id == r.id && Out(k.session[j]);
      assert Eliminated(r.id) in k.sent;
      var p :| 0 <= p < |k.sent| && k.sent[p] == Eliminated(r.id);
      assert Among(Eliminated(r.id), k.sent, |k.sent|);
    }
  }

  // ----- Alive flags -----

  /** Records stay, and a flag that is down stays down. */
  ghost predicate TableGrows(a: seq<PlayerRec>, b: seq<PlayerRec>) {
    |a| <= |b| && forall i | 0 <= i < |a| :: b[i].id == a[i].id && b[i].room == a[i].room && (b[i].alive ==> a[i].alive)
  }

  lemma HandledTableGrows(c: Config, m: Master, slot: nat, msg: UpMsg)
    requires slot < |m.rooms|
    ensures TableGrows(m.players, Handled(c, m, slot, msg).players)
  {
    hide ToRunning, ToUsed, AllStarted, RouteOf, Decided, Winner;
    if msg.Joined? {
      var ps := if |m.players| < c.maxRooms * c.lobby then m.players + [PlayerRec(msg.id, slot, true)] else m.players;
      var room := m.rooms[slot];
      var n := RosterSent(m.(players := ps, rooms := m.rooms[slot := room.(joined := room.joined + 1)]));
      AllStartedCores(n, |n.rooms|);
    }
  }

  lemma StepTableGrows(c: Config, s: System, e: Step)
    requires Enabled(c, s, e)
    ensures TableGrows(s.master.players, Next(c, s, e).master.players)
  {
    hide ToRunning, ToUsed, AllStarted, Decided, Winner, Handled, FirstOpen, FirstUnused, TableGrows, GarbageFrom;
    TableGrowsRefl(s.master.players);
    match e
    case Enter => AllStartedCores(s.master, |s.master.rooms|);
    case Deliver(slot) =>
      var room := s.master.rooms[slot];
      HandledTableGrows(c, Peeked(s, slot).master, slot, s.workers[room.worker].sent[room.seen]);
    case Close(slot) => RoomKilledGrows(s.master.players, slot);
    case _ =>
  }

  lemma TableGrowsRefl(ps: seq<PlayerRec>)
    ensures TableGrows(ps, ps)
  {}

  lemma RoomKilledGrows(ps: seq<PlayerRec>, slot: nat)
    ensures TableGrows(ps, RoomKilled(ps, slot))
  {}

  /** From any point of a run to any later point, no record disappears or moves and no alive
      flag returns to true. */
  lemma {:induction false} FlagsNeverReturn(c: Config, states: seq<System>, steps: seq<Step>, n: nat, m: nat)
    requires IsRun(c, states, steps) && n <= m < |states|
    ensures TableGrows(states[n].master.players, states[m].master.players)
    decreases m - n
  {
    hide Next, Initial;
    if n < m {
      FlagsNeverReturn(c, states, steps, n, m - 1);
      StepTableGrows(c, states[m - 1], steps[m - 1]);
    }
  }
}
