/** Where garbage goes over a whole run: every consumed attack is, at any time, in exactly
    one place. */
module HubGarbage {
  import opened Hub
  import opened HubSafety
  import opened HubMasterSteps

  // ----- Sums of multisets -----

  ghost function Sum<T>(ms: seq<multiset<T>>): multiset<T> {
    if ms == [] then multiset{} else Sum(ms[..|ms| - 1]) + ms[|ms| - 1]
  }

  lemma {:induction false} SumUpdate<T>(ms: seq<multiset<T>>, i: nat, m: multiset<T>)
    requires i < |ms|
    ensures Sum(ms[i := m]) + ms[i] == Sum(ms) + m
  {
    var n := |ms| - 1;
    if i == n {
      assert ms[i := m][..n] == ms[..n];
    } else {
      assert ms[i := m][..n] == ms[..n][i := m];
      SumUpdate(ms[..n], i, m);
      assert ms[..n][i] == ms[i];
      calc {
        Sum(ms[i := m]) + ms[i];
        Sum(ms[..n][i := m]) + ms[i] + ms[n];
        Sum(ms[..n]) + m + ms[n];
        Sum(ms) + m;
      }
    }
  }

  lemma {:induction false} SumOfEmpties<T>(n: nat, ms: seq<multiset<T>>)
    requires |ms| == n && forall i | 0 <= i < n :: ms[i] == multiset{}
    ensures Sum(ms) == multiset{}
  {
    if n > 0 {
      SumOfEmpties(n - 1, ms[..n - 1]);
    }
  }

  // ----- In flight -----

  /** Attacks among a worker's messages from position `i` on. */
  function AttacksFrom(sent: seq<UpMsg>, i: nat): seq<Attack>
    decreases |sent| - i
  {
    if i >= |sent| then []
    else if sent[i].AttackOut? then [sent[i].attack] + AttacksFrom(sent, i + 1)
    else AttacksFrom(sent, i + 1)
  }

  /** Attacks in the two channels of one room. */
  ghost function FlightIn(r: Room, workers: seq<Worker>): multiset<Attack> {
    if r.used && r.worker < |workers|
    then multiset(AttacksFrom(workers[r.worker].sent, r.seen)) + multiset(GarbageFrom(r.sent, workers[r.worker].taken))
    else multiset{}
  }

  ghost function Flights(s: System): (f: seq<multiset<Attack>>)
    ensures |f| == |s.master.rooms|
  {
    seq(|s.master.rooms|, i requires 0 <= i < |s.master.rooms| => FlightIn(s.master.rooms[i], s.workers))
  }

  ghost function InFlight(s: System): multiset<Attack> {
    Sum(Flights(s))
  }

  function Attacks(ds: seq<Delivery>): seq<Attack> {
    if ds == [] then [] else Attacks(ds[..|ds| - 1]) + [ds[|ds| - 1].attack]
  }

  /** Attacks that have come to an end: delivered, dropped, or lost with a worker. */
  ghost function Settled(s: System): multiset<Attack> {
    multiset(Attacks(s.delivered)) + multiset(s.dropped) + multiset(s.lost)
  }

  /** Every consumed attack is settled or in flight, once. */
  ghost predicate Conserved(s: System) {
    && multiset(s.consumed) == Settled(s) + InFlight(s)
    && forall i | 0 <= i < |s.consumed| :: s.consumed[i].serial == i
  }

  lemma {:induction false} AttacksAppend(sent: seq<UpMsg>, msgs: seq<UpMsg>, i: nat)
    requires i <= |sent|
    ensures AttacksFrom(sent + msgs, i) == AttacksFrom(sent, i) + AttacksFrom(msgs, 0)
    decreases |sent| - i
  {
    if i == |sent| {
      AttacksShift(sent, msgs, 0);
    } else {
      AttacksAppend(sent, msgs, i + 1);
    }
  }

  lemma {:induction false} AttacksShift(sent: seq<UpMsg>, msgs: seq<UpMsg>, i: nat)
    requires i <= |msgs|
    ensures AttacksFrom(sent + msgs, |sent| + i) == AttacksFrom(msgs, i)
    decreases |msgs| - i
  {
    if i < |msgs| {
      AttacksShift(sent, msgs, i + 1);
    }
  }

  lemma {:induction false} GarbageQuiet(a: seq<DownMsg>, b: seq<DownMsg>, i: nat)
    requires a <= b && forall p | |a| <= p < |b| :: !b[p].Garbage?
    ensures GarbageFrom(b, i) == GarbageFrom(a, i)
    decreases |b| - i
  {
    if i < |b| {
      GarbageQuiet(a, b, i + 1);
    }
  }

  lemma {:induction false} GarbageAppend(a: seq<DownMsg>, x: Attack, i: nat)
    requires i <= |a|
    ensures GarbageFrom(a + [Garbage(x)], i) == GarbageFrom(a, i) + [x]
    decreases |a| - i
  {
    if i < |a| {
      GarbageAppend(a, x, i + 1);
    }
  }

  // ----- Steps that move no garbage -----

  ghost predicate QuietRoom(a: Room, b: Room) {
    SameCore(a, b) && forall p | |a.sent| <= p < |b.sent| :: !b.sent[p].Garbage?
  }

  ghost predicate QuietRooms(a: seq<Room>, b: seq<Room>) {
    |b| == |a| && forall i | 0 <= i < |a| :: QuietRoom(a[i], b[i])
  }

  lemma QuietCompose(a: seq<Room>, b: seq<Room>, d: seq<Room>)
    requires QuietRooms(a, b) && QuietRooms(b, d)
    ensures QuietRooms(a, d)
  {
    forall i | 0 <= i < |a| ensures QuietRoom(a[i], d[i]) {
      assert QuietRoom(a[i], b[i]) && QuietRoom(b[i], d[i]);
    }
  }

  lemma QuietRunning(rooms: seq<Room>, msg: DownMsg, but: int)
    requires !msg.Garbage?
    ensures QuietRooms(rooms, ToRunning(rooms, msg, but))
  {}

  lemma QuietUsed(rooms: seq<Room>, msg: DownMsg)
    requires !msg.Garbage?
    ensures QuietRooms(rooms, ToUsed(rooms, msg))
  {}

  lemma QuietOne(rooms: seq<Room>, i: nat, r: Room)
    requires i < |rooms| && QuietRoom(rooms[i], r)
    ensures QuietRooms(rooms, rooms[i := r])
  {}

  lemma QuietStart(m: Master, slot: nat)
    requires slot < |m.rooms|
    ensures QuietRooms(m.rooms, RoomStarted(m, slot).rooms)
  {
    hide ToRunning;
    var room := m.rooms[slot];
    if room.used && !room.started && room.joined >= 1 {
      var a := m.rooms[slot := room.(sent := room.sent + [Start(room.redirected)], started := true)];
      QuietOne(m.rooms, slot, a[slot]);
      var msg := RosterOf(m.players);
      QuietRunning(a, msg, -1);
      QuietCompose(m.rooms, a, ToRunning(a, msg, -1));
    }
  }

  lemma {:induction false} QuietAllStarted(m: Master, n: nat)
    requires n <= |m.rooms|
    ensures QuietRooms(m.rooms, AllStarted(m, n).rooms)
  {
    hide RoomStarted;
    if n > 0 {
      QuietAllStarted(m, n - 1);
      QuietStart(AllStarted(m, n - 1), n - 1);
      QuietCompose(m.rooms, AllStarted(m, n - 1).rooms, AllStarted(m, n).rooms);
    }
  }

  lemma QuietEndCheck(m: Master)
    ensures QuietRooms(m.rooms, EndChecked(m).rooms)
  {
    hide Decided, Winner, ToUsed;
    QuietUsed(m.rooms, GameOver(Winner(m.players)));
  }

  /** Only a forwarded attack puts garbage into a channel. */
  lemma QuietHandled(c: Config, m: Master, slot: nat, msg: UpMsg)
    requires slot < |m.rooms| && !msg.AttackOut?
    ensures QuietRooms(m.rooms, Handled(c, m, slot, msg).rooms)
  {
    hide ToRunning, EndChecked, AllStarted, QuietRooms;
    var room := m.rooms[slot];
    match msg
    case Ready => QuietOne(m.rooms, slot, room.(ready := true, pending := []));
    case Joined(id) =>
      var ps := if |m.players| < c.maxRooms * c.lobby then m.players + [PlayerRec(id, slot, true)] else m.players;
      var a := m.(players := ps, rooms := m.rooms[slot := room.(joined := room.joined + 1)]);
      QuietOne(m.rooms, slot, room.(joined := room.joined + 1));
      var n := RosterSent(a);
      QuietRunning(a.rooms, RosterOf(ps), -1);
      QuietCompose(m.rooms, a.rooms, n.rooms);
      QuietAllStarted(n, |n.rooms|);
      QuietCompose(m.rooms, n.rooms, AllStarted(n, |n.rooms|).rooms);
    case Eliminated(id) =>
      var ps := Killed(m.players, id);
      var n := RosterSent(m.(players := ps));
      QuietRunning(m.rooms, RosterOf(ps), -1);
      QuietEndCheck(n);
      QuietCompose(m.rooms, n.rooms, EndChecked(n).rooms);
    case FeedOut(a) => QuietRunning(m.rooms, Feed(a), slot);
  }

  lemma QuietFlights(s: System, t: System)
    requires QuietRooms(s.master.rooms, t.master.rooms) && t.workers == s.workers
    ensures Flights(t) == Flights(s)
  {
    forall i | 0 <= i < |s.master.rooms|
      ensures FlightIn(t.master.rooms[i], t.workers) == FlightIn(s.master.rooms[i], s.workers)
    {
      var a, b := s.master.rooms[i], t.master.rooms[i];
      assert QuietRoom(a, b);
      if a.used && a.worker < |s.workers| {
        GarbageQuiet(a.sent, b.sent, s.workers[a.worker].taken);
      }
    }
  }

  // ----- Worker steps -----

  /** A worker step that changes one worker changes at most the flights of its own room. */
  lemma WorkerFlights(c: Config, s: System, t: System, w: nat)
    requires Shape(c, s) && OneWorkerGrew(c, s, t, w) && Current(s, w)
    ensures var i := s.workers[w].slot;
            Flights(t) == Flights(s)[i := FlightIn(s.master.rooms[i], t.workers)]
  {
    hide WorkerOk, Grows;
    forall i | 0 <= i < |s.master.rooms| && i != s.workers[w].slot
      ensures FlightIn(s.master.rooms[i], t.workers) == FlightIn(s.master.rooms[i], s.workers)
    {
      assert RoomOk(s, i);
    }
  }

  lemma AliveIsCurrent(c: Config, s: System, w: nat)
    requires Shape(c, s) && Alive(s, w)
    ensures Current(s, w) && RoomOk(s, s.workers[w].slot)
  {}

  /** News without attacks, and taking mail without garbage, moves nothing. */
  lemma QuietWorkerFlights(c: Config, s: System, t: System, w: nat)
    requires Shape(c, s) && OneWorkerGrew(c, s, t, w) && Alive(s, w)
    requires AttacksFrom(t.workers[w].sent, s.master.rooms[s.workers[w].slot].seen)
          == AttacksFrom(s.workers[w].sent, s.master.rooms[s.workers[w].slot].seen)
    requires t.workers[w].taken == s.workers[w].taken || !Mail(s, w).Garbage?
    ensures InFlight(t) == InFlight(s)
  {
    hide WorkerOk, Grows, Shape;
    AliveIsCurrent(c, s, w);
    WorkerFlights(c, s, t, w);
    var i := s.workers[w].slot;
    var r := s.master.rooms[i];
    assert GarbageFrom(r.sent, t.workers[w].taken) == GarbageFrom(r.sent, s.workers[w].taken);
    assert Flights(t) == Flights(s);
  }

  lemma SentNothingNew(c: Config, s: System, w: nat, msgs: seq<UpMsg>)
    requires Shape(c, s) && Alive(s, w) && AttacksFrom(msgs, 0) == []
    ensures var i := s.workers[w].slot;
            AttacksFrom(s.workers[w].sent + msgs, s.master.rooms[i].seen)
                == AttacksFrom(s.workers[w].sent, s.master.rooms[i].seen)
  {
    AliveIsCurrent(c, s, w);
    AttacksAppend(s.workers[w].sent, msgs, s.master.rooms[s.workers[w].slot].seen);
  }

  lemma OneMessage(m: UpMsg)
    ensures AttacksFrom([m], 0) == if m.AttackOut? then [m.attack] else []
  {}

  lemma QuietStepConserves(c: Config, s: System, e: Step)
    requires Safe(c, s) && Conserved(s) && Enabled(c, s, e) && ByWorker(e)
    requires !e.Route? && !e.TakeInMatch? && !e.TakeInLobby?
    ensures Conserved(Next(c, s, e))
  {
    hide WorkerOk, Shape, TableOk, EndOk, Grows, InFlight, Settled, Out, AttacksFrom;
    WorkerStepGrows(c, s, e);
    var t, w := Next(c, s, e), e.w;
    var k := s.workers[w];
    match e {
      case OpenLobby(w) =>
        OneMessage(Ready);
        SentNothingNew(c, s, w, [Ready]);
      case TellJoin(w) =>
        OneMessage(Joined(k.clients[k.told]));
        SentNothingNew(c, s, w, [Joined(k.clients[k.told])]);
      case TellOut(w, seat) =>
        OneMessage(Eliminated(k.session[seat].id));
        SentNothingNew(c, s, w, [Eliminated(k.session[seat].id)]);
      case _ =>
    }
    QuietWorkerFlights(c, s, t, w);
    assert Settled(t) == Settled(s) by { SameBooks(s, t); }
  }

  lemma SameBooks(s: System, t: System)
    requires t.delivered == s.delivered && t.dropped == s.dropped && t.lost == s.lost
    ensures Settled(t) == Settled(s)
  {}

  /** The room's flights after its worker changed. */
  lemma WorkerMoves(c: Config, s: System, t: System, w: nat, m: multiset<Attack>, n: multiset<Attack>)
    requires Shape(c, s) && OneWorkerGrew(c, s, t, w) && Alive(s, w)
    requires FlightIn(s.master.rooms[s.workers[w].slot], t.workers) + m
        == FlightIn(s.master.rooms[s.workers[w].slot], s.workers) + n
    ensures InFlight(t) + m == InFlight(s) + n
  {
    hide WorkerOk, Grows, Shape, FlightIn;
    AliveIsCurrent(c, s, w);
    WorkerFlights(c, s, t, w);
    var i := s.workers[w].slot;
    SumUpdate(Flights(s), i, FlightIn(s.master.rooms[i], t.workers));
    Balance(InFlight(t), InFlight(s), Flights(s)[i], FlightIn(s.master.rooms[i], t.workers), m, n);
  }

  lemma Balance(a: multiset<Attack>, b: multiset<Attack>, x: multiset<Attack>, y: multiset<Attack>,
                m: multiset<Attack>, n: multiset<Attack>)
    requires a + x == b + y && y + m == x + n
    ensures a + m == b + n
  {
    forall z: Attack ensures (a + m)[z] == (b + n)[z] {
      assert (a + x)[z] == a[z] + x[z] && (b + y)[z] == b[z] + y[z];
      assert (y + m)[z] == y[z] + m[z] && (x + n)[z] == x[z] + n[z];
    }
  }

  lemma AttacksOfAppend(ds: seq<Delivery>, d: Delivery)
    ensures Attacks(ds + [d]) == Attacks(ds) + [d.attack]
  {
    assert (ds + [d])[..|ds|] == ds;
  }

  /** Taking one message settles the garbage in it, if any. */
  lemma TakeMoves(c: Config, s: System, t: System, w: nat)
    requires Shape(c, s) && OneWorkerGrew(c, s, t, w) && Alive(s, w) && HasMail(s, w)
    requires t.workers[w].sent == s.workers[w].sent && t.workers[w].taken == s.workers[w].taken + 1
    ensures var m := if Mail(s, w).Garbage? then multiset{Mail(s, w).attack} else multiset{};
            InFlight(t) + m == InFlight(s)
  {
    hide WorkerOk, Grows, Shape, AttacksFrom, InFlight;
    AliveIsCurrent(c, s, w);
    var i := s.workers[w].slot;
    var r, k := s.master.rooms[i], s.workers[w];
    var m := if Mail(s, w).Garbage? then multiset{Mail(s, w).attack} else multiset{};
    assert multiset(GarbageFrom(r.sent, k.taken)) == m + multiset(GarbageFrom(r.sent, k.taken + 1));
    WorkerMoves(c, s, t, w, m, multiset{});
    assert InFlight(s) + multiset{} == InFlight(s);
  }

  /** Taking one message settles the attack in it, or changes nothing. */
  lemma TakeBalances(c: Config, s: System, t: System, w: nat)
    requires Shape(c, s) && Conserved(s) && OneWorkerGrew(c, s, t, w) && Alive(s, w) && HasMail(s, w)
    requires t.workers[w].sent == s.workers[w].sent && t.workers[w].taken == s.workers[w].taken + 1
    requires t.consumed == s.consumed
    requires Settled(t) == Settled(s) + (if Mail(s, w).Garbage? then multiset{Mail(s, w).attack} else multiset{})
    ensures Conserved(t)
  {
    hide WorkerOk, Shape, Grows, InFlight, Settled;
    TakeMoves(c, s, t, w);
  }

  lemma TakeInMatchConserves(c: Config, s: System, w: nat)
    requires Safe(c, s) && Conserved(s) && Enabled(c, s, TakeInMatch(w))
    ensures Conserved(TakenInMatch(s, w))
  {
    hide Safe, SeatHit, SeatsHit, WorkerOk, Grows, Shape, Conserved;
    assert Shape(c, s) && WorkerOk(c, w, s.workers[w]) by { SafeParts(c, s, w); }
    var t, a := TakenInMatch(s, w), Mail(s, w);
    TakeInMatchGrows(c, s, w);
    if a.Garbage? {
      AttacksOfAppend(s.delivered, Delivery(a.attack, w));
    }
    TakeBalances(c, s, t, w);
  }

  lemma SafeParts(c: Config, s: System, w: nat)
    requires Safe(c, s) && w < |s.workers|
    ensures Shape(c, s) && WorkerOk(c, w, s.workers[w])
  {}

  lemma TakeInLobbyConserves(c: Config, s: System, w: nat)
    requires Safe(c, s) && Conserved(s) && Enabled(c, s, TakeInLobby(w))
    ensures Conserved(TakenInLobby(s, w))
  {
    hide Safe, WorkerOk, Grows, Shape, Conserved;
    assert Shape(c, s) && WorkerOk(c, w, s.workers[w]) by { SafeParts(c, s, w); }
    TakeInLobbyGrows(c, s, w);
    TakeBalances(c, s, TakenInLobby(s, w), w);
  }

  lemma RouteMoves(c: Config, s: System, w: nat, seat: nat, victim: nat)
    requires Shape(c, s) && Enabled(c, s, Route(w, seat, victim)) && WorkerOk(c, w, s.workers[w])
    ensures var t, a, o := Routed(s, w, seat, victim), AttackOf(s, w, seat, victim),
        OutcomeOf(s.workers[w].session, seat, victim);
            InFlight(t) == InFlight(s) + (if o.Forwarded? then multiset{a} else multiset{})
  {
    hide WorkerOk, Shape, Grows, InFlight, OutcomeOf, SeatsAfter, AttacksFrom, News;
    var t, k := Routed(s, w, seat, victim), s.workers[w];
    var a, o := AttackOf(s, w, seat, victim), OutcomeOf(k.session, seat, victim);
    AliveIsCurrent(c, s, w);
    RouteGrows(c, s, w, seat, victim);
    var r := s.master.rooms[k.slot];
    NewsAttacks(o, a);
    AttacksAppend(k.sent, News(o, a), r.seen);
    var n := if o.Forwarded? then multiset{a} else multiset{};
    assert multiset(AttacksFrom(t.workers[w].sent, r.seen)) == multiset(AttacksFrom(k.sent, r.seen)) + n;
    WorkerMoves(c, s, t, w, multiset{}, n);
    assert InFlight(t) + multiset{} == InFlight(t);
  }

  lemma RouteSettles(s: System, w: nat, seat: nat, victim: nat)
    requires w < |s.workers| && seat < |s.workers[w].session|
    ensures var t, a, o := Routed(s, w, seat, victim), AttackOf(s, w, seat, victim),
        OutcomeOf(s.workers[w].session, seat, victim);
            Settled(t) == Settled(s) + (if o.Forwarded? then multiset{} else multiset{a})
  {
    hide OutcomeOf, SeatsAfter, News;
    AttacksOfAppend(s.delivered, Delivery(AttackOf(s, w, seat, victim), w));
  }

  /** Consuming an attack puts it into exactly one place. */
  lemma RouteConserves(c: Config, s: System, w: nat, seat: nat, victim: nat)
    requires Safe(c, s) && Conserved(s) && Enabled(c, s, Route(w, seat, victim))
    ensures Conserved(Routed(s, w, seat, victim))
  {
    hide Safe, InFlight, Settled, OutcomeOf, SeatsAfter, News;
    SafeParts(c, s, w);
    RouteMoves(c, s, w, seat, victim);
    RouteSettles(s, w, seat, victim);
    var t := Routed(s, w, seat, victim);
    assert multiset(t.consumed) == multiset(s.consumed) + multiset{AttackOf(s, w, seat, victim)};
  }

  lemma NewsAttacks(o: Outcome, a: Attack)
    ensures AttacksFrom(News(o, a), 0) == if o.Forwarded? then [a] else []
  {
    if o.Forwarded? {
      var n := News(o, a);
      assert n[0] == AttackOut(a) && n[1] == FeedOut(a);
      assert AttacksFrom(n, 2) == [];
      assert AttacksFrom(n, 1) == [];
    }
  }

  // ----- Master steps -----

  lemma FirstAttack(sent: seq<UpMsg>, i: nat)
    requires i < |sent|
    ensures multiset(AttacksFrom(sent, i))
         == multiset(AttacksFrom(sent, i + 1)) + (if sent[i].AttackOut? then multiset{sent[i].attack} else multiset{})
  {
  }

  ghost function Carried(msg: UpMsg): multiset<Attack> {
    if msg.AttackOut? then multiset{msg.attack} else multiset{}
  }

  lemma PeekedRoom(c: Config, s: System, slot: nat, msg: UpMsg)
    requires Shape(c, s) && Arrived(s, slot, msg)
    ensures var t := Peeked(s, slot);
            FlightIn(t.master.rooms[slot], t.workers) + Carried(msg)
                == FlightIn(s.master.rooms[slot], s.workers) + multiset{}
  {
    hide Shape, AttacksFrom, GarbageFrom;
    var r := s.master.rooms[slot];
    var k := s.workers[r.worker];
    FirstAttack(k.sent, r.seen);
    Reshuffle(multiset(AttacksFrom(k.sent, r.seen + 1)), multiset(GarbageFrom(r.sent, k.taken)), Carried(msg));
  }

  lemma PeekedOthers(s: System, slot: nat, msg: UpMsg)
    requires Arrived(s, slot, msg)
    ensures var t := Peeked(s, slot); Flights(t) == Flights(s)[slot := FlightIn(t.master.rooms[slot], t.workers)]
  {
    hide FlightIn;
  }

  lemma PeekedFlights(c: Config, s: System, slot: nat, msg: UpMsg)
    requires Shape(c, s) && Arrived(s, slot, msg)
    ensures InFlight(Peeked(s, slot)) + Carried(msg) == InFlight(s)
  {
    hide Shape, FlightIn, Carried;
    var t := Peeked(s, slot);
    var y := FlightIn(t.master.rooms[slot], t.workers);
    PeekedOthers(s, slot, msg);
    PeekedRoom(c, s, slot, msg);
    SumUpdate(Flights(s), slot, y);
    Balance(InFlight(t), InFlight(s), Flights(s)[slot], y, Carried(msg), multiset{});
  }

  lemma Reshuffle(a: multiset<Attack>, g: multiset<Attack>, m: multiset<Attack>)
    ensures (a + g) + m == (a + m) + g + multiset{}
  {}

  /** Forwarding an attack puts it into the channel of the victim's room. */
  lemma ForwardFlights(c: Config, s: System, i: nat, a: Attack)
    requires Shape(c, s) && i < |s.master.rooms| && s.master.rooms[i].used
    ensures var r := s.master.rooms[i];
            var t := s.(master := s.master.(rooms := s.master.rooms[i := r.(sent := r.sent + [Garbage(a)])]));
            InFlight(t) == InFlight(s) + multiset{a}
  {
    var r := s.master.rooms[i];
    var t := s.(master := s.master.(rooms := s.master.rooms[i := r.(sent := r.sent + [Garbage(a)])]));
    assert RoomOk(s, i);
    hide Shape, AttacksFrom;
    var y := FlightIn(t.master.rooms[i], t.workers);
    assert Flights(t) == Flights(s)[i := y];
    SumUpdate(Flights(s), i, y);
    GarbageAppend(r.sent, a, s.workers[r.worker].taken);
    Balance(InFlight(t), InFlight(s), Flights(s)[i], y, multiset{}, multiset{a});
    assert InFlight(t) + multiset{} == InFlight(t);
  }

  /** What an attack leaves the channel as, it is forwarded or dropped as. */
  lemma AttackDelivered(c: Config, s: System, slot: nat, a: Attack)
    requires Safe(c, s) && Enabled(c, s, Deliver(slot)) && Arrived(s, slot, AttackOut(a))
    ensures var t := Delivered(c, s, slot); Settled(t) + InFlight(t) == Settled(s) + InFlight(s)
  {
    hide InFlight, WorkerOk, TableOk, EndOk, Shape, RouteOf;
    var p, t := Peeked(s, slot), Delivered(c, s, slot);
    PeekedFlights(c, s, slot, AttackOut(a));
    PeekedShape(c, s, slot, AttackOut(a));
    var i := RouteOf(p.master, a.victim);
    if i < |p.master.rooms| {
      RouteIsUsed(p.master, a.victim);
      ForwardFlights(c, p, i, a);
      SameFlights(p.(master := t.master), t);
      SameBooks(s, t);
    } else {
      SameFlights(p, t);
      OneDropped(s, t, a);
    }
  }

  lemma OneDropped(s: System, t: System, a: Attack)
    requires t.delivered == s.delivered && t.dropped == s.dropped + [a] && t.lost == s.lost
    requires InFlight(t) + multiset{a} == InFlight(s)
    ensures Settled(t) + InFlight(t) == Settled(s) + InFlight(s)
  {
    hide InFlight, Attacks;
    var d, l := multiset(Attacks(s.delivered)), multiset(s.lost);
    assert multiset(t.dropped) == multiset(s.dropped) + multiset{a};
    assert Settled(t) == d + multiset(s.dropped) + l + multiset{a};
  }

  lemma QuietDelivered(c: Config, s: System, slot: nat, msg: UpMsg)
    requires Safe(c, s) && Enabled(c, s, Deliver(slot)) && Arrived(s, slot, msg) && !msg.AttackOut?
    ensures var t := Delivered(c, s, slot); Settled(t) + InFlight(t) == Settled(s) + InFlight(s)
  {
    hide InFlight, WorkerOk, TableOk, EndOk, Shape, Handled, Settled;
    var p, t := Peeked(s, slot), Delivered(c, s, slot);
    PeekedFlights(c, s, slot, msg);
    PeekedShape(c, s, slot, msg);
    QuietHandled(c, p.master, slot, msg);
    QuietFlights(p, t);
    SumSame(p, t);
    SameBooks(s, t);
  }

  lemma DeliverConserves(c: Config, s: System, slot: nat)
    requires Safe(c, s) && Conserved(s) && Enabled(c, s, Deliver(slot))
    ensures Conserved(Delivered(c, s, slot))
  {
    hide InFlight, Safe, Handled, Settled;
    var room := s.master.rooms[slot];
    var msg := s.workers[room.worker].sent[room.seen];
    if msg.AttackOut? {
      AttackDelivered(c, s, slot, msg.attack);
    } else {
      QuietDelivered(c, s, slot, msg);
    }
  }

  lemma RouteIsUsed(m: Master, victim: nat)
    requires RouteOf(m, victim) < |m.rooms|
    ensures m.rooms[RouteOf(m, victim)].used
  {
    hide FindAlive;
  }

  lemma SameFlights(s: System, t: System)
    requires t.master.rooms == s.master.rooms && t.workers == s.workers
    ensures InFlight(t) == InFlight(s)
  {
    assert Flights(t) == Flights(s);
  }

  lemma SumSame(s: System, t: System)
    requires Flights(t) == Flights(s)
    ensures InFlight(t) == InFlight(s)
  {}

  /** Closing a room writes off what its worker had not taken. */
  lemma VacatedFlights(c: Config, s: System, slot: nat, ps: seq<PlayerRec>)
    requires Shape(c, s) && Enabled(c, s, Close(slot))
    ensures var r := s.master.rooms[slot];
            InFlight(Vacated(s, slot, ps)) + multiset(GarbageFrom(r.sent, s.workers[r.worker].taken)) == InFlight(s)
  {
    hide Shape, GarbageFrom;
    var t, r := Vacated(s, slot, ps), s.master.rooms[slot];
    assert FlightIn(t.master.rooms[slot], t.workers) == multiset{};
    assert Flights(t) == Flights(s)[slot := multiset{}];
    SumUpdate(Flights(s), slot, multiset{});
    assert AttacksFrom(s.workers[r.worker].sent, r.seen) == [];
    var g := multiset(GarbageFrom(r.sent, s.workers[r.worker].taken));
    assert Flights(s)[slot] == g;
  }

  lemma CloseConserves(c: Config, s: System, slot: nat)
    requires Safe(c, s) && Conserved(s) && Enabled(c, s, Close(slot))
    ensures Conserved(Next(c, s, Close(slot)))
  {
    hide InFlight, WorkerOk, TableOk, EndOk, Shape, GarbageFrom, EndChecked, RoomKilled, ToRunning, QuietRooms;
    var m, t, r := s.master, Next(c, s, Close(slot)), s.master.rooms[slot];
    var ps := RoomKilled(m.players, slot);
    var v := Vacated(s, slot, ps);
    VacatedFlights(c, s, slot, ps);
    if m.matchEnded || ps == m.players {
      SameFlights(v, t);
    } else {
      var n := RosterSent(v.master.(closed := m.closed + r.pending));
      QuietRunning(v.master.rooms, RosterOf(ps), -1);
      QuietEndCheck(n);
      QuietCompose(v.master.rooms, n.rooms, EndChecked(n).rooms);
      QuietFlights(v, t);
      SumSame(v, t);
    }
    assert multiset(s.lost + GarbageFrom(r.sent, s.workers[r.worker].taken))
        == multiset(s.lost) + multiset(GarbageFrom(r.sent, s.workers[r.worker].taken));
  }

  lemma HiredFlights(c: Config, s: System, slot: nat)
    requires Shape(c, s) && slot < |s.master.rooms| && !s.master.rooms[slot].used
    ensures InFlight(Hired(c, s, slot)) == InFlight(s)
  {
    var t := Hired(c, s, slot);
    forall i | 0 <= i < |s.master.rooms| ensures Flights(t)[i] == Flights(s)[i] {
      assert RoomOk(s, i);
    }
    assert Flights(t) == Flights(s);
  }

  lemma AcceptConserves(c: Config, s: System, forkOk: bool)
    requires Safe(c, s) && Conserved(s)
    ensures Conserved(Next(c, s, Accept(forkOk)))
  {
    hide InFlight, WorkerOk, TableOk, EndOk, Shape, Filling, Next, Hired, SameCores;
    var (n, slot) := Filling(c, s.master, forkOk);
    var t := Next(c, s, Accept(forkOk));
    AcceptSplits(c, s, forkOk);
    var h := if n.roomSeq > s.master.roomSeq then Hired(c, s, slot) else s;
    if n.roomSeq > s.master.roomSeq {
      HiredFlights(c, s, slot);
      HiredBooks(c, s, slot);
    }
    AcceptIsQuiet(c, s, forkOk, h);
    QuietFlights(h, t);
    SumSame(h, t);
  }

  lemma HiredBooks(c: Config, s: System, slot: nat)
    requires slot < |s.master.rooms|
    ensures var t := Hired(c, s, slot);
            t.consumed == s.consumed && t.delivered == s.delivered && t.dropped == s.dropped && t.lost == s.lost
  {}

  lemma AcceptIsQuiet(c: Config, s: System, forkOk: bool, h: System)
    requires h.master == Filling(c, s.master, forkOk).0
    ensures QuietRooms(h.master.rooms, Next(c, s, Accept(forkOk)).master.rooms)
  {
    hide FirstOpen, FirstUnused;
  }

  lemma EnterConserves(c: Config, s: System)
    requires Conserved(s)
    ensures Conserved(Next(c, s, Enter))
  {
    hide InFlight, AllStarted, QuietRooms;
    QuietAllStarted(s.master, |s.master.rooms|);
    QuietFlights(s, Next(c, s, Enter));
    SumSame(s, Next(c, s, Enter));
  }

  lemma StepConserves(c: Config, s: System, e: Step)
    requires Safe(c, s) && Conserved(s) && Enabled(c, s, e)
    ensures Conserved(Next(c, s, e))
  {
    hide Safe, Conserved, Delivered, TakenInMatch, TakenInLobby, Routed;
    match e
    case Accept(forkOk) => AcceptConserves(c, s, forkOk);
    case Enter => EnterConserves(c, s);
    case Deliver(slot) => DeliverConserves(c, s, slot);
    case Close(slot) => CloseConserves(c, s, slot);
    case TakeInMatch(w) => TakeInMatchConserves(c, s, w);
    case TakeInLobby(w) => TakeInLobbyConserves(c, s, w);
    case Route(w, seat, victim) => RouteConserves(c, s, w, seat, victim);
    case _ => QuietStepConserves(c, s, e);
  }
}
