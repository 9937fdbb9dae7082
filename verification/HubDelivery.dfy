/** Which player garbage reaches, and the accounts of a whole run. */
module HubDelivery {
  import opened Hub
  import opened HubSafety
  import opened HubMasterSteps
  import opened HubGarbage

  /** Lines delivered to a player. */
  function LinesTo(ds: seq<Delivery>, id: nat): nat {
    if ds == [] then 0
    else LinesTo(ds[..|ds| - 1], id) + (if ds[|ds| - 1].attack.victim == id then ds[|ds| - 1].attack.lines else 0)
  }

  ghost predicate AimedUp(k: Worker) {
    forall p | 0 <= p < |k.sent| && k.sent[p].AttackOut? :: k.sent[p].attack.attacker != k.sent[p].attack.victim
  }

  ghost predicate AimedDown(r: Room) {
    forall p | 0 <= p < |r.sent| && r.sent[p].Garbage? :: r.sent[p].attack.attacker != r.sent[p].attack.victim
  }

  /** No attack on its way is aimed at its own attacker. */
  ghost predicate Aimed(s: System) {
    && (forall w | 0 <= w < |s.workers| :: AimedUp(s.workers[w]))
    && (forall i | 0 <= i < |s.master.rooms| :: AimedDown(s.master.rooms[i]))
  }

  /** Delivered in the victim's own room, where the match has begun, and not to the attacker. */
  ghost predicate DeliveryOk(c: Config, s: System, d: Delivery) {
    && d.worker < |s.workers| && s.workers[d.worker].begun
    && WorkerOf(c, d.attack.victim) == d.worker && d.attack.attacker != d.attack.victim
  }

  ghost predicate DeliveriesOk(c: Config, s: System) {
    forall i | 0 <= i < |s.delivered| :: DeliveryOk(c, s, s.delivered[i])
  }

  /** What a player's garbage queue was given is what was delivered to that player. */
  ghost predicate QueuesOk(s: System) {
    forall w, j | 0 <= w < |s.workers| && 0 <= j < |s.workers[w].session| ::
      s.workers[w].session[j].queued == LinesTo(s.delivered, s.workers[w].session[j].id)
  }

  ghost predicate Accounted(c: Config, s: System) {
    Aimed(s) && DeliveriesOk(c, s) && QueuesOk(s)
  }

  lemma {:induction false} NoneTo(ds: seq<Delivery>, id: nat)
    requires forall i | 0 <= i < |ds| :: ds[i].attack.victim != id
    ensures LinesTo(ds, id) == 0
  {
    if ds != [] {
      NoneTo(ds[..|ds| - 1], id);
    }
  }

  lemma LinesToAppend(ds: seq<Delivery>, d: Delivery, id: nat)
    ensures LinesTo(ds + [d], id) == LinesTo(ds, id) + (if d.attack.victim == id then d.attack.lines else 0)
  {
    assert (ds + [d])[..|ds|] == ds;
  }

  lemma SeatOwner(c: Config, w: nat, k: Worker, j: nat)
    requires ClientsOk(c, w, k) && j < |k.session|
    ensures WorkerOf(c, k.session[j].id) == w
  {
    OwnerIsWorkerOf(c, w, k.session[j].id);
  }

  /** One worker changed, nothing was delivered, and its queues stand. */
  lemma NoDelivery(c: Config, s: System, t: System, w: nat)
    requires Accounted(c, s) && OneWorkerGrew(c, s, t, w) && t.delivered == s.delivered
    requires AimedUp(t.workers[w]) && (s.workers[w].begun ==> t.workers[w].begun)
    requires forall j | 0 <= j < |t.workers[w].session| ::
      t.workers[w].session[j].queued == LinesTo(t.delivered, t.workers[w].session[j].id)
    ensures Accounted(c, t)
  {
    hide WorkerOk, Grows, LinesTo, AimedUp, AimedDown;
    forall i | 0 <= i < |t.delivered| ensures DeliveryOk(c, t, t.delivered[i]) {
      assert DeliveryOk(c, s, s.delivered[i]);
    }
  }

  /** One delivery to one seat. */
  lemma OneDelivery(c: Config, s: System, t: System, w: nat, seat: nat, a: Attack)
    requires AllWorkersOk(c, s) && Accounted(c, s) && OneWorkerGrew(c, s, t, w)
    requires t.delivered == s.delivered + [Delivery(a, w)] && AimedUp(t.workers[w])
    requires s.workers[w].begun && t.workers[w].begun && seat < |s.workers[w].session|
    requires a.victim == s.workers[w].session[seat].id && a.attacker != a.victim
    requires |t.workers[w].session| == |s.workers[w].session|
    requires forall j | 0 <= j < |s.workers[w].session| ::
      t.workers[w].session[j].id == s.workers[w].session[j].id
      && t.workers[w].session[j].queued == s.workers[w].session[j].queued + (if j == seat then a.lines else 0)
    ensures Accounted(c, t)
  {
    hide SentOk, Grows, LinesTo, AimedUp, AimedDown;
    assert WorkerOk(c, w, s.workers[w]);
    SeatOwner(c, w, s.workers[w], seat);
    forall i | 0 <= i < |t.delivered| ensures DeliveryOk(c, t, t.delivered[i]) {
      assert i < |s.delivered| ==> DeliveryOk(c, s, s.delivered[i]);
    }
    forall v, j | 0 <= v < |t.workers| && 0 <= j < |t.workers[v].session|
      ensures t.workers[v].session[j].queued == LinesTo(t.delivered, t.workers[v].session[j].id)
    {
      var id := t.workers[v].session[j].id;
      LinesToAppend(s.delivered, Delivery(a, w), id);
      assert id == s.workers[v].session[j].id;
      assert s.workers[v].session[j].queued == LinesTo(s.delivered, id);
      assert WorkerOk(c, v, s.workers[v]);
      SeatOwner(c, v, s.workers[v], j);
      if v == w && id == a.victim {
        OwnIdsDistinct(c, w, s.workers[w], j, seat);
      }
    }
  }

  lemma QuietNews(k: Worker, n: Worker, msgs: seq<UpMsg>)
    requires AimedUp(k) && n.sent == k.sent + msgs
    requires forall m | m in msgs :: m.AttackOut? ==> m.attack.attacker != m.attack.victim
    ensures AimedUp(n)
  {
    forall p | 0 <= p < |n.sent| && n.sent[p].AttackOut?
      ensures n.sent[p].attack.attacker != n.sent[p].attack.victim
    {
      if p < |k.sent| {
        assert n.sent[p] == k.sent[p];
      } else {
        assert n.sent[p] in msgs;
      }
    }
  }

  /** A room that has not begun has received nothing. */
  lemma NothingBeforeBegin(c: Config, s: System, w: nat, id: nat)
    requires DeliveriesOk(c, s) && w < |s.workers| && !s.workers[w].begun && WorkerOf(c, id) == w
    ensures LinesTo(s.delivered, id) == 0
  {
    hide LinesTo;
    forall i | 0 <= i < |s.delivered| ensures s.delivered[i].attack.victim != id {
      assert DeliveryOk(c, s, s.delivered[i]);
    }
    NoneTo(s.delivered, id);
  }

  lemma BeginAccounts(c: Config, s: System, w: nat)
    requires AllWorkersOk(c, s) && Accounted(c, s) && Enabled(c, s, Begin(w))
    ensures Accounted(c, Next(c, s, Begin(w)))
  {
    hide SentOk, Grows, LinesTo;
    var t, k := Next(c, s, Begin(w)), s.workers[w];
    WorkerStepGrows(c, s, Begin(w));
    assert WorkerOk(c, w, k);
    forall j | 0 <= j < |t.workers[w].session|
      ensures t.workers[w].session[j].queued == LinesTo(t.delivered, t.workers[w].session[j].id)
    {
      OwnerIsWorkerOf(c, w, k.clients[j]);
      NothingBeforeBegin(c, s, w, k.clients[j]);
    }
    NoDelivery(c, s, t, w);
  }

  lemma QuietWorkerAccounts(c: Config, s: System, e: Step)
    requires AllWorkersOk(c, s) && Accounted(c, s) && Enabled(c, s, e) && ByWorker(e)
    requires !e.Route? && !e.TakeInMatch? && !e.Begin?
    ensures Accounted(c, Next(c, s, e))
  {
    hide WorkerOk, Grows, LinesTo, Out, FirstId;
    var t, w, k := Next(c, s, e), e.w, s.workers[e.w];
    WorkerStepGrows(c, s, e);
    if e.OpenLobby? {
      QuietNews(k, t.workers[w], [Ready]);
    } else if e.TellJoin? {
      QuietNews(k, t.workers[w], [Joined(k.clients[k.told])]);
    } else if e.TellOut? {
      QuietNews(k, t.workers[w], [Eliminated(k.session[e.seat].id)]);
    } else {
      QuietNews(k, t.workers[w], []);
    }
    NoDelivery(c, s, t, w);
  }

  lemma TakeInMatchAccounts(c: Config, s: System, w: nat)
    requires AllWorkersOk(c, s) && Accounted(c, s) && Enabled(c, s, TakeInMatch(w))
    ensures Accounted(c, TakenInMatch(s, w))
  {
    hide WorkerOk, Grows, LinesTo, SeatHit;
    var t, k, msg := TakenInMatch(s, w), s.workers[w], Mail(s, w);
    assert WorkerOk(c, w, k);
    TakeInMatchGrows(c, s, w);
    QuietNews(k, t.workers[w], []);
    if SeatHit(k.session, msg) < |k.session| {
      assert AimedDown(s.master.rooms[k.slot]);
      OneDelivery(c, s, t, w, SeatHit(k.session, msg), msg.attack);
    } else {
      NoDelivery(c, s, t, w);
    }
  }

  lemma RouteAccounts(c: Config, s: System, w: nat, seat: nat, victim: nat)
    requires AllWorkersOk(c, s) && Accounted(c, s) && Enabled(c, s, Route(w, seat, victim))
    ensures Accounted(c, Routed(s, w, seat, victim))
  {
    hide SentOk, Grows, LinesTo, FindPlayer;
    var t, k := Routed(s, w, seat, victim), s.workers[w];
    var a, o := AttackOf(s, w, seat, victim), OutcomeOf(k.session, seat, victim);
    assert WorkerOk(c, w, k);
    RouteGrows(c, s, w, seat, victim);
    QuietNews(k, t.workers[w], News(o, a));
    hide OutcomeOf;
    if o.Landed? {
      OtherSeatOtherId(c, w, k, seat, o.seat);
      OneDelivery(c, s, t, w, o.seat, a);
    } else {
      NoDelivery(c, s, t, w);
    }
  }

  // ----- Master steps -----

  lemma QuietAimed(a: seq<Room>, b: seq<Room>)
    requires QuietRooms(a, b) && forall i | 0 <= i < |a| :: AimedDown(a[i])
    ensures forall i | 0 <= i < |b| :: AimedDown(b[i])
  {
    forall i | 0 <= i < |b| ensures AimedDown(b[i]) {
      assert QuietRoom(a[i], b[i]) && AimedDown(a[i]);
    }
  }

  lemma MasterAccounts(c: Config, s: System, t: System)
    requires Accounted(c, s) && t.workers == s.workers && t.delivered == s.delivered
    requires forall i | 0 <= i < |t.master.rooms| :: AimedDown(t.master.rooms[i])
    ensures Accounted(c, t)
  {
    hide LinesTo, AimedUp, AimedDown;
    forall i | 0 <= i < |t.delivered| ensures DeliveryOk(c, t, t.delivered[i]) {
      assert DeliveryOk(c, s, s.delivered[i]);
    }
  }

  lemma DeliverAccounts(c: Config, s: System, slot: nat)
    requires Accounted(c, s) && Enabled(c, s, Deliver(slot))
    ensures Accounted(c, Delivered(c, s, slot))
  {
    hide LinesTo, RouteOf;
    var room := s.master.rooms[slot];
    var msg := s.workers[room.worker].sent[room.seen];
    var p, t := Peeked(s, slot), Delivered(c, s, slot);
    forall i | 0 <= i < |p.master.rooms| ensures AimedDown(p.master.rooms[i]) {
      assert AimedDown(s.master.rooms[i]);
    }
    if msg.AttackOut? {
      assert AimedUp(s.workers[room.worker]);
      forall i | 0 <= i < |t.master.rooms| ensures AimedDown(t.master.rooms[i]) {
        assert AimedDown(p.master.rooms[i]);
      }
    } else {
      QuietHandled(c, p.master, slot, msg);
      hide Handled;
      QuietAimed(p.master.rooms, t.master.rooms);
    }
    MasterAccounts(c, s, t);
  }

  lemma CloseAccounts(c: Config, s: System, slot: nat)
    requires Accounted(c, s) && Enabled(c, s, Close(slot))
    ensures Accounted(c, Next(c, s, Close(slot)))
  {
    hide LinesTo, GarbageFrom, EndChecked, RoomKilled, ToRunning, QuietRooms;
    var m, t := s.master, Next(c, s, Close(slot));
    var ps := RoomKilled(m.players, slot);
    var v := Vacated(s, slot, ps);
    forall i | 0 <= i < |v.master.rooms| ensures AimedDown(v.master.rooms[i]) {
      assert AimedDown(s.master.rooms[i]);
    }
    if !m.matchEnded && ps != m.players {
      var n := RosterSent(v.master.(closed := m.closed + m.rooms[slot].pending));
      QuietRunning(v.master.rooms, RosterOf(ps), -1);
      QuietEndCheck(n);
      QuietCompose(v.master.rooms, n.rooms, EndChecked(n).rooms);
      QuietAimed(v.master.rooms, t.master.rooms);
    }
    MasterAccounts(c, s, t);
  }

  lemma HiredAccounts(c: Config, s: System, slot: nat)
    requires Accounted(c, s) && slot < |s.master.rooms|
    ensures Accounted(c, Hired(c, s, slot))
  {
    hide LinesTo;
    var t := Hired(c, s, slot);
    forall w | 0 <= w < |t.workers| ensures AimedUp(t.workers[w]) {
      assert w < |s.workers| ==> AimedUp(s.workers[w]);
    }
    forall i | 0 <= i < |t.master.rooms| ensures AimedDown(t.master.rooms[i]) {
      assert AimedDown(s.master.rooms[i]);
    }
    forall i | 0 <= i < |t.delivered| ensures DeliveryOk(c, t, t.delivered[i]) {
      assert DeliveryOk(c, s, s.delivered[i]);
    }
  }

  lemma AcceptAccounts(c: Config, s: System, forkOk: bool)
    requires Accounted(c, s)
    ensures Accounted(c, Next(c, s, Accept(forkOk)))
  {
    hide Aimed, DeliveriesOk, QueuesOk, Filling, Next, Hired, SameCores;
    var (n, slot) := Filling(c, s.master, forkOk);
    var t := Next(c, s, Accept(forkOk));
    AcceptSplits(c, s, forkOk);
    var h := if n.roomSeq > s.master.roomSeq then Hired(c, s, slot) else s;
    if n.roomSeq > s.master.roomSeq {
      HiredAccounts(c, s, slot);
    }
    AcceptIsQuiet(c, s, forkOk, h);
    AimedRooms(h);
    QuietAimed(h.master.rooms, t.master.rooms);
    MasterAccounts(c, h, t);
  }

  lemma AimedRooms(s: System)
    requires Aimed(s)
    ensures forall i | 0 <= i < |s.master.rooms| :: AimedDown(s.master.rooms[i])
  {}

  lemma EnterAccounts(c: Config, s: System)
    requires Accounted(c, s)
    ensures Accounted(c, Next(c, s, Enter))
  {
    hide LinesTo, AllStarted, QuietRooms;
    QuietAllStarted(s.master, |s.master.rooms|);
    QuietAimed(s.master.rooms, AllStarted(s.master, |s.master.rooms|).rooms);
    MasterAccounts(c, s, Next(c, s, Enter));
  }

  lemma StepAccounts(c: Config, s: System, e: Step)
    requires Safe(c, s) && Accounted(c, s) && Enabled(c, s, e)
    ensures Accounted(c, Next(c, s, e))
  {
    hide Accounted, Delivered, TakenInMatch, TakenInLobby, Routed, Shape, TableOk, EndOk, AllWorkersOk;
    match e
    case Accept(forkOk) => AcceptAccounts(c, s, forkOk);
    case Enter => EnterAccounts(c, s);
    case Deliver(slot) => DeliverAccounts(c, s, slot);
    case Close(slot) => CloseAccounts(c, s, slot);
    case Begin(w) => BeginAccounts(c, s, w);
    case TakeInMatch(w) => TakeInMatchAccounts(c, s, w);
    case Route(w, seat, victim) => RouteAccounts(c, s, w, seat, victim);
    case _ => QuietWorkerAccounts(c, s, e);
  }

  // ----- Whole runs -----

  lemma InitialAccounts(c: Config)
    ensures Conserved(Initial(c)) && Accounted(c, Initial(c))
  {
    var s := Initial(c);
    SumOfEmpties(|s.master.rooms|, Flights(s));
  }

  lemma {:induction false} EveryRunAccounts(c: Config, states: seq<System>, steps: seq<Step>, n: nat)
    requires IsRun(c, states, steps) && n < |states|
    ensures Safe(c, states[n]) && Conserved(states[n]) && Accounted(c, states[n])
  {
    hide Safe, Conserved, Accounted, Next, Initial;
    EveryRunIsSafe(c, states, steps, n);
    if n == 0 {
      InitialAccounts(c);
    } else {
      EveryRunAccounts(c, states, steps, n - 1);
      StepConserves(c, states[n - 1], steps[n - 1]);
      StepAccounts(c, states[n - 1], steps[n - 1]);
    }
  }

  lemma {:induction false} SerialsAreUnique(consumed: seq<Attack>, a: Attack)
    requires forall i | 0 <= i < |consumed| :: consumed[i].serial == i
    ensures multiset(consumed)[a] <= 1
  {
    if consumed != [] {
      var n := |consumed| - 1;
      SerialsAreUnique(consumed[..n], a);
      assert consumed == consumed[..n] + [consumed[n]];
      assert consumed[n] !in consumed[..n];
    }
  }

  /** Over every run each consumed attack is in exactly one place: delivered, dropped, lost
      with its worker, or still in flight. It was delivered at most once, in the victim's
      own room, and never to its attacker; and the garbage a player was ever given is
      exactly what attacks delivered to it. */
  lemma GarbageLandsOnceOrNever(c: Config, states: seq<System>, steps: seq<Step>, n: nat)
    requires IsRun(c, states, steps) && n < |states|
    ensures var s := states[n];
            && multiset(s.consumed)
               == multiset(Attacks(s.delivered)) + multiset(s.dropped) + multiset(s.lost) + InFlight(s)
            && (forall a: Attack :: multiset(s.consumed)[a] <= 1)
            && (forall d | d in s.delivered ::
                  WorkerOf(c, d.attack.victim) == d.worker && d.attack.attacker != d.attack.victim)
            && (forall w, j | 0 <= w < |s.workers| && 0 <= j < |s.workers[w].session| ::
                  s.workers[w].session[j].queued == LinesTo(s.delivered, s.workers[w].session[j].id))
  {
    hide Safe, InFlight, LinesTo, Next, Initial, Aimed;
    EveryRunAccounts(c, states, steps, n);
    var s := states[n];
    forall a: Attack ensures multiset(s.consumed)[a] <= 1 {
      SerialsAreUnique(s.consumed, a);
    }
    forall d | d in s.delivered ensures WorkerOf(c, d.attack.victim) == d.worker
        && d.attack.attacker != d.attack.victim {
      var i :| 0 <= i < |s.delivered| && s.delivered[i] == d;
      assert DeliveryOk(c, s, s.delivered[i]);
    }
  }

  // ----- In lines -----

  ghost function Lines(m: multiset<Attack>): nat
    decreases |m|
  {
    if m == multiset{} then 0
    else
      var a :| a in m;
      a.lines + Lines(m - multiset{a})
  }

  lemma LinesPick(m: multiset<Attack>) returns (b: Attack)
    requires m != multiset{}
    ensures b in m && Lines(m) == b.lines + Lines(m - multiset{b})
  {
    b :| b in m && Lines(m) == b.lines + Lines(m - multiset{b});
  }

  lemma TakeOther(m: multiset<Attack>, a: Attack, b: Attack)
    requires b in m + multiset{a} && b != a
    ensures b in m && m + multiset{a} - multiset{b} == m - multiset{b} + multiset{a}
        && m - multiset{b} + multiset{b} == m
  {}

  lemma {:induction false} LinesAdd(m: multiset<Attack>, a: Attack)
    ensures Lines(m + multiset{a}) == Lines(m) + a.lines
    decreases |m|
  {
    var s := m + multiset{a};
    assert a in s;
    var b := LinesPick(s);
    hide Lines;
    if b == a {
      assert s - multiset{a} == m;
    } else {
      TakeOther(m, a, b);
      LinesAdd(m - multiset{b}, a);
      LinesAdd(m - multiset{b}, b);
    }
  }

  lemma {:induction false} LinesUnion(m: multiset<Attack>, n: multiset<Attack>)
    ensures Lines(m + n) == Lines(m) + Lines(n)
    decreases |n|
  {
    if n == multiset{} {
      assert m + n == m;
    } else {
      var a :| a in n;
      var r := n - multiset{a};
      assert n == r + multiset{a};
      LinesUnion(m, r);
      LinesAdd(m + r, a);
      LinesAdd(r, a);
      assert m + n == m + r + multiset{a};
    }
  }

  /** Over every run: lines consumed = lines delivered + dropped + lost with a worker
      + in flight. */
  lemma LinesAreConserved(c: Config, states: seq<System>, steps: seq<Step>, n: nat)
    requires IsRun(c, states, steps) && n < |states|
    ensures var s := states[n];
            Lines(multiset(s.consumed)) == Lines(multiset(Attacks(s.delivered))) + Lines(multiset(s.dropped))
                                         + Lines(multiset(s.lost)) + Lines(InFlight(s))
  {
    hide InFlight, Lines, Next, Initial, Attacks;
    GarbageLandsOnceOrNever(c, states, steps, n);
    var s := states[n];
    var d, x, l := multiset(Attacks(s.delivered)), multiset(s.dropped), multiset(s.lost);
    LinesUnion(d + x + l, InFlight(s));
    LinesUnion(d + x, l);
    LinesUnion(d, x);
  }
}
