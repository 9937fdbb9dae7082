/** Safety of the master and its workers over whole runs: who is in the table, who is out,
    and what an announced winner means. */
module HubSafety {
  import opened Arith
  import opened Hub

  // ----- Workers -----

  ghost predicate Increasing(s: seq<nat>) {
    forall i, j | 0 <= i < j < |s| :: s[i] < s[j]
  }

  /** Joins go out in increasing id order, each player is reported out at most once, and no
      join follows a report. */
  ghost predicate Orderly(sent: seq<UpMsg>) {
    && (forall p, q | 0 <= p < q < |sent| && sent[p].Joined? && sent[q].Joined? :: sent[p].id < sent[q].id)
    && (forall p, q | 0 <= p < q < |sent| && sent[p].Eliminated? && sent[q].Eliminated? :: sent[p].id != sent[q].id)
    && (forall p, q | 0 <= p < q < |sent| && sent[p].Eliminated? :: !sent[q].Joined?)
  }

  ghost predicate ClientsOk(c: Config, w: nat, k: Worker) {
    && FirstId(c, w) <= k.nextId <= FirstId(c, w) + c.lobby
    && (forall i | 0 <= i < |k.clients| :: FirstId(c, w) <= k.clients[i] < k.nextId)
    && Increasing(k.clients)
    && k.told <= |k.clients|
    && (if k.begun then |k.session| == k.told && (forall j | 0 <= j < k.told :: k.session[j].id == k.clients[j])
        else k.session == [])
  }

  /** What was sent agrees with what happened: exactly the told clients were announced, and
      exactly the players marked as reported, all of them out, were reported. */
  ghost predicate SentOk(k: Worker)
    requires k.told <= |k.clients|
  {
    && Orderly(k.sent)
    && (forall i | 0 <= i < k.told :: Joined(k.clients[i]) in k.sent)
    && (forall p | 0 <= p < |k.sent| && k.sent[p].Joined? :: k.sent[p].id in k.clients[..k.told])
    && (forall j | 0 <= j < |k.session| && k.session[j].reported ::
          Eliminated(k.session[j].id) in k.sent && Out(k.session[j]))
    && (forall p | 0 <= p < |k.sent| && k.sent[p].Eliminated? ::
          exists j :: 0 <= j < |k.session| && k.session[j].id == k.sent[p].id && k.session[j].reported)
  }

  ghost predicate WorkerOk(c: Config, w: nat, k: Worker) {
    ClientsOk(c, w, k) && SentOk(k)
  }

  function WorkerOf(c: Config, id: nat): int {
    (id - 1) / c.lobby
  }

  /** Rooms hand out ids from ranges that do not meet. */
  lemma OwnerIsWorkerOf(c: Config, w: nat, id: nat)
    requires FirstId(c, w) <= id < FirstId(c, w) + c.lobby
    ensures WorkerOf(c, id) == w
  {
    assert (w + 1) * c.lobby == w * c.lobby + c.lobby;
    DivUnique(id - 1, c.lobby, w);
  }

  /** What no worker step takes back. */
  ghost predicate Grows(k: Worker, n: Worker) {
    && n.slot == k.slot && k.sent <= n.sent && (k.exited ==> n.exited)
    && |k.session| <= |n.session|
    && forall j | 0 <= j < |k.session| ::
      n.session[j].id == k.session[j].id && (Out(k.session[j]) ==> Out(n.session[j]))
  }

  lemma SilentKeepsSent(k: Worker, n: Worker)
    requires k.told <= |k.clients| && n.told <= |n.clients| && SentOk(k)
    requires n.sent == k.sent && n.told == k.told && k.clients <= n.clients && |n.session| == |k.session|
    requires forall j | 0 <= j < |k.session| ::
      n.session[j].id == k.session[j].id && n.session[j].reported == k.session[j].reported
          && (Out(k.session[j]) ==> Out(n.session[j]))
    ensures SentOk(n)
  {
    assert n.clients[..n.told] == k.clients[..k.told];
    forall p | 0 <= p < |n.sent| && n.sent[p].Eliminated?
      ensures exists j :: 0 <= j < |n.session| && n.session[j].id == n.sent[p].id && n.session[j].reported
    {
      var j :| 0 <= j < |k.session| && k.session[j].id == k.sent[p].id && k.session[j].reported;
      assert n.session[j].reported;
    }
  }

  /** Messages about attacks and the lobby say nothing about joins and reports. */
  lemma ChatterKeepsSent(k: Worker, n: Worker, msgs: seq<UpMsg>)
    requires k.told <= |k.clients| && SentOk(k)
    requires n == k.(sent := k.sent + msgs)
    requires forall m | m in msgs :: !m.Joined? && !m.Eliminated?
    ensures SentOk(n)
  {
    forall p | |k.sent| <= p < |n.sent| ensures !n.sent[p].Joined? && !n.sent[p].Eliminated? {
      assert n.sent[p] in msgs;
    }
    forall p | 0 <= p < |n.sent| && n.sent[p].Eliminated?
      ensures exists j :: 0 <= j < |n.session| && n.session[j].id == n.sent[p].id && n.session[j].reported
    {
      assert n.sent[p] == k.sent[p];
    }
  }

  lemma TellJoinKeepsWorker(c: Config, w: nat, k: Worker)
    requires WorkerOk(c, w, k) && !k.begun && k.told < |k.clients|
    ensures WorkerOk(c, w, k.(told := k.told + 1, sent := k.sent + [Joined(k.clients[k.told])]))
  {
    var n := k.(told := k.told + 1, sent := k.sent + [Joined(k.clients[k.told])]);
    assert n.clients[..n.told] == k.clients[..k.told] + [k.clients[k.told]];
    forall p | 0 <= p < |k.sent| ensures !k.sent[p].Eliminated?
        && (k.sent[p].Joined? ==> k.sent[p].id < k.clients[k.told]) {
      if k.sent[p].Eliminated? {
        assert false;
      }
      if k.sent[p].Joined? {
        var i :| 0 <= i < k.told && k.clients[..k.told][i] == k.sent[p].id;
        assert k.clients[i] < k.clients[k.told];
      }
    }
  }

  lemma OrderlyReport(sent: seq<UpMsg>, id: nat)
    requires Orderly(sent) && Eliminated(id) !in sent
    ensures Orderly(sent + [Eliminated(id)])
  {}

  lemma NotYetReported(c: Config, w: nat, k: Worker, seat: nat)
    requires WorkerOk(c, w, k) && seat < |k.session| && !k.session[seat].reported
    ensures Eliminated(k.session[seat].id) !in k.sent
  {}

  lemma TellOutKeepsWorker(c: Config, w: nat, k: Worker, seat: nat)
    requires WorkerOk(c, w, k) && k.begun && seat < |k.session| && Out(k.session[seat]) && !k.session[seat].reported
    ensures WorkerOk(c, w, k.(session := k.session[seat := k.session[seat].(reported := true)],
                              sent := k.sent + [Eliminated(k.session[seat].id)]))
  {
    var id := k.session[seat].id;
    var n := k.(session := k.session[seat := k.session[seat].(reported := true)], sent := k.sent + [Eliminated(id)]);
    NotYetReported(c, w, k, seat);
    OrderlyReport(k.sent, id);
    hide Orderly, Increasing;
    assert n.sent[|k.sent|] == Eliminated(id);
    forall p | 0 <= p < |n.sent| && n.sent[p].Eliminated?
      ensures exists j :: 0 <= j < |n.session| && n.session[j].id == n.sent[p].id && n.session[j].reported
    {
      if p < |k.sent| {
        var j :| 0 <= j < |k.session| && k.session[j].id == k.sent[p].id && k.session[j].reported;
        assert n.session[j].reported && n.session[j].id == n.sent[p].id;
      } else {
        assert n.session[seat].reported && n.session[seat].id == n.sent[p].id;
      }
    }
  }

  lemma BeginKeepsWorker(c: Config, w: nat, k: Worker)
    requires WorkerOk(c, w, k) && !k.begun
    ensures WorkerOk(c, w, k.(begun := true, session := Seats(k.clients[..k.told])))
  {
    var n := k.(begun := true, session := Seats(k.clients[..k.told]));
    forall p | 0 <= p < |k.sent| ensures !k.sent[p].Eliminated? {
      if k.sent[p].Eliminated? {
        assert false;
      }
    }
  }

  ghost predicate AllWorkersOk(c: Config, s: System) {
    forall w | 0 <= w < |s.workers| :: WorkerOk(c, w, s.workers[w])
  }

  // ----- Rooms and workers belong together -----

  ghost predicate RoomOk(s: System, i: nat)
    requires i < |s.master.rooms|
  {
    var r := s.master.rooms[i];
    r.used ==>
      && r.worker < |s.workers| && s.workers[r.worker].slot == i
      && r.seen <= |s.workers[r.worker].sent| && s.workers[r.worker].taken <= |r.sent|
  }

  /** Every worker that still runs is the one behind its slot. */
  ghost predicate Shape(c: Config, s: System) {
    && |s.master.rooms| == c.maxRooms && |s.workers| == s.master.roomSeq
    && (forall i | 0 <= i < |s.master.rooms| :: RoomOk(s, i))
    && (forall w | 0 <= w < |s.workers| :: Current(s, w) || s.workers[w].exited)
  }

  /** How many of a worker's messages the master has handled. */
  function Seen(s: System, w: nat): nat
    requires w < |s.workers|
  {
    if Current(s, w) then s.master.rooms[s.workers[w].slot].seen else |s.workers[w].sent|
  }

  // ----- The player table -----

  ghost predicate OutIn(k: Worker, id: nat) {
    exists j :: 0 <= j < |k.session| && k.session[j].id == id && Out(k.session[j])
  }

  /** The player has quit or topped out in its own room, or that room's worker is gone. */
  ghost predicate ReallyOut(c: Config, s: System, id: nat) {
    var w := WorkerOf(c, id);
    0 <= w < |s.workers| && (s.workers[w].exited || OutIn(s.workers[w], id))
  }

  ghost predicate Among(m: UpMsg, sent: seq<UpMsg>, n: nat) {
    exists p :: 0 <= p < n && p < |sent| && sent[p] == m
  }

  ghost predicate RecOk(c: Config, s: System, r: PlayerRec) {
    var w := WorkerOf(c, r.id);
    && 0 <= w < |s.workers| && r.room == s.workers[w].slot
    && Among(Joined(r.id), s.workers[w].sent, Seen(s, w))
    && (Among(Eliminated(r.id), s.workers[w].sent, Seen(s, w)) ==> !r.alive)
    && (!r.alive ==> ReallyOut(c, s, r.id))
    && (r.alive && !s.master.matchEnded ==> Current(s, w))
  }

  ghost predicate DistinctIds(ps: seq<PlayerRec>) {
    forall i, j | 0 <= i < j < |ps| :: ps[i].id != ps[j].id
  }

  ghost predicate TableOk(c: Config, s: System) {
    DistinctIds(s.master.players) && forall i | 0 <= i < |s.master.players| :: RecOk(c, s, s.master.players[i])
  }

  /** At most one announcement. The winner it names, if any, was the one player alive in the
      table at that moment, and everybody else in that table is really out. */
  ghost predicate EndOk(c: Config, s: System) {
    && |s.master.announced| == (if s.master.matchEnded then 1 else 0)
    && (s.master.matchEnded ==>
          && (forall r | r in s.finalTable :: r.alive <==> r.id == s.master.announced[0])
          && (forall r | r in s.finalTable :: r.id != s.master.announced[0] ==> ReallyOut(c, s, r.id))
          && (s.master.announced[0] != 0 ==> exists r :: r in s.finalTable && r.id == s.master.announced[0]))
  }

  ghost predicate Safe(c: Config, s: System) {
    Shape(c, s) && AllWorkersOk(c, s) && TableOk(c, s) && EndOk(c, s)
  }

  // ----- Worker steps -----

  predicate ByWorker(e: Step) {
    !(e.Accept? || e.Enter? || e.Deliver? || e.Close?)
  }

  /** What a step of worker `e.w` does, as far as the master and the table can tell. */
  ghost predicate OneWorkerGrew(c: Config, s: System, t: System, w: nat) {
    && w < |s.workers| && |t.workers| == |s.workers| && t.master == s.master && t.finalTable == s.finalTable
    && (forall v | 0 <= v < |s.workers| && v != w :: t.workers[v] == s.workers[v])
    && Grows(s.workers[w], t.workers[w]) && WorkerOk(c, w, t.workers[w])
    && (t.workers[w].taken == s.workers[w].taken || (HasMail(s, w) && t.workers[w].taken == s.workers[w].taken + 1))
  }

  lemma OwnIdsDistinct(c: Config, w: nat, k: Worker, i: nat, j: nat)
    requires ClientsOk(c, w, k) && i < |k.session| && j < |k.session| && k.session[i].id == k.session[j].id
    ensures i == j
  {}

  lemma OtherSeatOtherId(c: Config, w: nat, k: Worker, i: nat, j: nat)
    requires ClientsOk(c, w, k) && i < |k.session| && j < |k.session| && i != j
    ensures k.session[i].id != k.session[j].id
  {}

  lemma ArriveGrows(c: Config, w: nat, k: Worker, id: nat)
    requires WorkerOk(c, w, k) && !k.begun && k.nextId <= id < FirstId(c, w) + c.lobby
    ensures WorkerOk(c, w, k.(clients := k.clients + [id], nextId := id + 1))
  {
    hide Orderly;
    SilentKeepsSent(k, k.(clients := k.clients + [id], nextId := id + 1));
  }

  /** Changing what the books of a seat say, but not who is reported, is no news. */
  lemma SeatChangeGrows(c: Config, w: nat, k: Worker, n: Worker)
    requires WorkerOk(c, w, k)
    requires n == k.(session := n.session, taken := n.taken, matchOver := n.matchOver, winner := n.winner)
    requires |n.session| == |k.session|
    requires forall j | 0 <= j < |k.session| ::
      n.session[j].id == k.session[j].id && n.session[j].reported == k.session[j].reported
          && (Out(k.session[j]) ==> Out(n.session[j]))
    ensures WorkerOk(c, w, n) && Grows(k, n)
  {
    hide Orderly;
    SilentKeepsSent(k, n);
  }

  /** The session and the message list after an attack was consumed. */
  lemma RouteWorker(s: System, w: nat, seat: nat, victim: nat)
    requires w < |s.workers| && seat < |s.workers[w].session|
    ensures var k, t := s.workers[w], Routed(s, w, seat, victim);
            var n := t.workers[w];
            && t.workers == s.workers[w := n] && t.master == s.master && t.finalTable == s.finalTable
            && k.sent <= n.sent && (forall m | m in n.sent[|k.sent|..] :: !m.Joined? && !m.Eliminated?)
            && n == k.(session := n.session, sent := n.sent) && |n.session| == |k.session|
            && forall j | 0 <= j < |k.session| ::
                 n.session[j] == k.session[j].(outgoing := n.session[j].outgoing, queued := n.session[j].queued)
  {
    hide OutcomeOf;
  }

  lemma RouteGrows(c: Config, s: System, w: nat, seat: nat, victim: nat)
    requires w < |s.workers| && seat < |s.workers[w].session| && WorkerOk(c, w, s.workers[w])
    ensures OneWorkerGrew(c, s, Routed(s, w, seat, victim), w)
  {
    hide WorkerOk, Routed;
    RouteWorker(s, w, seat, victim);
    var k, n := s.workers[w], Routed(s, w, seat, victim).workers[w];
    var q := k.(session := n.session);
    SeatChangeGrows(c, w, k, q);
    WorkerChatter(c, w, q, n.sent[|k.sent|..]);
    assert n == q.(sent := q.sent + n.sent[|k.sent|..]);
  }

  lemma WorkerChatter(c: Config, w: nat, k: Worker, msgs: seq<UpMsg>)
    requires WorkerOk(c, w, k)
    requires forall m | m in msgs :: !m.Joined? && !m.Eliminated?
    ensures WorkerOk(c, w, k.(sent := k.sent + msgs))
  {
    hide Orderly;
    ChatterKeepsSent(k, k.(sent := k.sent + msgs), msgs);
  }

  lemma TakeInMatchGrows(c: Config, s: System, w: nat)
    requires HasMail(s, w) && WorkerOk(c, w, s.workers[w])
    ensures OneWorkerGrew(c, s, TakenInMatch(s, w), w)
  {
    hide WorkerOk, SeatHit;
    SeatChangeGrows(c, w, s.workers[w], TakenInMatch(s, w).workers[w]);
  }

  lemma TakeInLobbyGrows(c: Config, s: System, w: nat)
    requires HasMail(s, w) && WorkerOk(c, w, s.workers[w])
    ensures OneWorkerGrew(c, s, TakenInLobby(s, w), w)
  {
    hide Orderly;
    SilentKeepsSent(s.workers[w], TakenInLobby(s, w).workers[w]);
  }

  predicate InLobby(e: Step) {
    e.OpenLobby? || e.Arrive? || e.TellJoin? || e.TakeInLobby? || e.Begin?
  }

  lemma LobbyStepGrows(c: Config, s: System, e: Step)
    requires AllWorkersOk(c, s) && Enabled(c, s, e) && InLobby(e)
    ensures OneWorkerGrew(c, s, Next(c, s, e), e.w)
  {
    hide WorkerOk, TakenInLobby, FirstId;
    var k := s.workers[e.w];
    assert WorkerOk(c, e.w, k);
    match e
    case OpenLobby(w) =>
      WorkerChatter(c, w, k, [Ready]);
      OpenIsNoNews(c, w, k.(sent := k.sent + [Ready]));
    case Arrive(w, id) => ArriveGrows(c, w, k, id);
    case TellJoin(w) => TellJoinKeepsWorker(c, w, k);
    case TakeInLobby(w) => TakeInLobbyGrows(c, s, w);
    case Begin(w) =>
      BeginKeepsWorker(c, w, k);
      NotBegunNoSession(c, w, k);
  }

  lemma WorkerStepGrows(c: Config, s: System, e: Step)
    requires AllWorkersOk(c, s) && Enabled(c, s, e) && ByWorker(e)
    ensures OneWorkerGrew(c, s, Next(c, s, e), e.w)
  {
    hide OneWorkerGrew, Next, AllWorkersOk, Enabled;
    if InLobby(e) {
      LobbyStepGrows(c, s, e);
    } else {
      MatchStepGrows(c, s, e);
    }
  }

  lemma MatchStepGrows(c: Config, s: System, e: Step)
    requires AllWorkersOk(c, s) && Enabled(c, s, e) && ByWorker(e) && !InLobby(e)
    ensures OneWorkerGrew(c, s, Next(c, s, e), e.w)
  {
    hide WorkerOk, Routed, TakenInMatch, FirstId;
    var k := s.workers[e.w];
    assert WorkerOk(c, e.w, k);
    match e
    case Play(w, seat, active, over, outgoing) =>
      SeatChangeGrows(c, w, k, Next(c, s, e).workers[w]);
    case TakeInMatch(w) => TakeInMatchGrows(c, s, w);
    case TellOut(w, seat) => TellOutKeepsWorker(c, w, k, seat);
    case Route(w, seat, victim) => RouteGrows(c, s, w, seat, victim);
    case Exit(w) => ExitIsNoNews(c, w, k);
  }

  lemma NotBegunNoSession(c: Config, w: nat, k: Worker)
    requires WorkerOk(c, w, k) && !k.begun
    ensures k.session == []
  {}

  lemma OpenIsNoNews(c: Config, w: nat, k: Worker)
    requires WorkerOk(c, w, k)
    ensures WorkerOk(c, w, k.(open := true))
  {
    hide Orderly;
    SilentKeepsSent(k, k.(open := true));
  }

  lemma ExitIsNoNews(c: Config, w: nat, k: Worker)
    requires WorkerOk(c, w, k)
    ensures WorkerOk(c, w, k.(exited := true))
  {
    hide Orderly;
    SilentKeepsSent(k, k.(exited := true));
  }

  // ----- Worker steps keep the system safe -----

  lemma GrowsOut(k: Worker, n: Worker, id: nat)
    requires Grows(k, n) && OutIn(k, id)
    ensures OutIn(n, id)
  {
    var j :| 0 <= j < |k.session| && k.session[j].id == id && Out(k.session[j]);
    assert n.session[j].id == id && Out(n.session[j]);
  }

  lemma GrowsKeepsOut(c: Config, s: System, t: System, w: nat, id: nat)
    requires OneWorkerGrew(c, s, t, w) && ReallyOut(c, s, id)
    ensures ReallyOut(c, t, id)
  {
    hide WorkerOk, OutIn;
    var v := WorkerOf(c, id);
    if v == w && OutIn(s.workers[v], id) {
      GrowsOut(s.workers[v], t.workers[v], id);
    }
  }

  lemma PrefixAmong(m: UpMsg, a: seq<UpMsg>, b: seq<UpMsg>, n: nat)
    requires a <= b && n <= |a|
    ensures Among(m, a, n) == Among(m, b, n)
  {
    if Among(m, a, n) {
      var p :| 0 <= p < n && p < |a| && a[p] == m;
      assert b[p] == m;
    }
    if Among(m, b, n) {
      var p :| 0 <= p < n && p < |b| && b[p] == m;
      assert a[p] == m;
    }
  }

  lemma GrowsKeepsShape(c: Config, s: System, t: System, w: nat)
    requires Shape(c, s) && OneWorkerGrew(c, s, t, w)
    ensures Shape(c, t)
  {
    hide WorkerOk;
    forall i | 0 <= i < |t.master.rooms| ensures RoomOk(t, i) {
      assert RoomOk(s, i);
    }
    forall v | 0 <= v < |t.workers| ensures Current(t, v) || t.workers[v].exited {
      assert Current(s, v) || s.workers[v].exited;
    }
  }

  lemma GrowsKeepsRec(c: Config, s: System, t: System, w: nat, r: PlayerRec)
    requires Shape(c, s) && OneWorkerGrew(c, s, t, w) && !s.workers[w].exited && RecOk(c, s, r)
    ensures RecOk(c, t, r)
  {
    hide WorkerOk, ReallyOut, Among;
    var v := WorkerOf(c, r.id);
    assert Current(s, v) || s.workers[v].exited;
    assert Current(s, v) ==> RoomOk(s, s.workers[v].slot);
    assert Seen(t, v) == Seen(s, v);
    PrefixAmong(Joined(r.id), s.workers[v].sent, t.workers[v].sent, Seen(s, v));
    PrefixAmong(Eliminated(r.id), s.workers[v].sent, t.workers[v].sent, Seen(s, v));
    if !r.alive {
      GrowsKeepsOut(c, s, t, w, r.id);
    }
  }

  lemma WorkerStepKeepsSafe(c: Config, s: System, e: Step)
    requires Safe(c, s) && Enabled(c, s, e) && ByWorker(e)
    ensures Safe(c, Next(c, s, e))
  {
    hide WorkerOk, RecOk, ReallyOut, Shape;
    var t, w := Next(c, s, e), e.w;
    WorkerStepGrows(c, s, e);
    hide Next;
    GrowsKeepsShape(c, s, t, w);
    forall i | 0 <= i < |t.master.players| ensures RecOk(c, t, t.master.players[i]) {
      GrowsKeepsRec(c, s, t, w, s.master.players[i]);
    }
    forall r | r in s.finalTable && ReallyOut(c, s, r.id) ensures ReallyOut(c, t, r.id) {
      GrowsKeepsOut(c, s, t, w, r.id);
    }
  }
}
