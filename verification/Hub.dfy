/** The master and its room workers (tetrisd/main.c, room.c, hub.h) as a state machine.
    Each room has two first-in first-out channels, kept as everything ever sent and how
    much of it the other side has taken. Steps are as small as one message, one report or
    one attack, so every interleaving of the processes is a run. */
module Hub {

  /** Room count, seats per lobby and clients dealt per room. */
  datatype Limits = Limits(maxRooms: nat, lobby: nat, roomSize: nat)

  type Config = c: Limits | 1 <= c.roomSize <= c.lobby witness Limits(32, 2, 2)

  /** One consumed attack; `serial` tells equal attacks apart and is not sent. */
  datatype Attack = Attack(serial: nat, attacker: nat, victim: nat, lines: nat)

  datatype PlayerRec = PlayerRec(id: nat, room: nat, alive: bool)

  datatype UpMsg = Ready | Joined(id: nat) | AttackOut(attack: Attack) | Eliminated(id: nat) | FeedOut(attack: Attack)

  datatype DownMsg =
    | Start(expected: nat)
    | Garbage(attack: Attack)
    | Feed(attack: Attack)
    | GlobalRoster(standing: seq<(nat, bool)>)
    | GameOver(winner: nat)

  /** A room as the master sees it. `sent` is everything sent to its worker and `seen` the
      number of the worker's messages handled. */
  datatype Room = Room(
    used: bool,
    ready: bool,
    started: bool,
    worker: nat,
    redirected: nat,
    joined: nat,
    pending: seq<nat>,
    sent: seq<DownMsg>,
    seen: nat)

  /** `closed` lists the client sockets closed so far, `announced` the winners announced. */
  datatype Master = Master(
    rooms: seq<Room>,
    players: seq<PlayerRec>,
    roomSeq: nat,
    matchEnded: bool,
    closed: seq<nat>,
    announced: seq<nat>)

  // ----- Master: broadcasting -----

  /** Everybody's id and whether they are alive. */
  function RosterOf(ps: seq<PlayerRec>): DownMsg {
    GlobalRoster(seq(|ps|, i requires 0 <= i < |ps| => (ps[i].id, ps[i].alive)))
  }

  predicate Running(r: Room) {
    r.used && r.started
  }

  function SentTo(r: Room, msg: DownMsg, yes: bool): Room {
    if yes then r.(sent := r.sent + [msg]) else r
  }

  /** Every running room receives `msg`, except the one in slot `but`. */
  function ToRunning(rooms: seq<Room>, msg: DownMsg, but: int): (r: seq<Room>)
    ensures |r| == |rooms|
  {
    seq(|rooms|, i requires 0 <= i < |rooms| => SentTo(rooms[i], msg, Running(rooms[i]) && i != but))
  }

  function ToUsed(rooms: seq<Room>, msg: DownMsg): (r: seq<Room>)
    ensures |r| == |rooms|
  {
    seq(|rooms|, i requires 0 <= i < |rooms| => SentTo(rooms[i], msg, rooms[i].used))
  }

  function RosterSent(m: Master): Master {
    m.(rooms := ToRunning(m.rooms, RosterOf(m.players), -1))
  }

  // ----- Master: starting and ending -----

  function RoomStarted(m: Master, slot: nat): (r: Master)
    requires slot < |m.rooms|
    ensures |r.rooms| == |m.rooms|
  {
    var room := m.rooms[slot];
    if !room.used || room.started || room.joined < 1 then m
    else RosterSent(m.(rooms := m.rooms[slot := room.(sent := room.sent + [Start(room.redirected)], started := true)]))
  }

  function AllStarted(m: Master, n: nat): (r: Master)
    requires n <= |m.rooms|
    ensures |r.rooms| == |m.rooms|
  {
    if n == 0 then m else RoomStarted(AllStarted(m, n - 1), n - 1)
  }

  function AliveCount(ps: seq<PlayerRec>): (n: nat)
    ensures n <= |ps|
  {
    if ps == [] then 0 else AliveCount(ps[..|ps| - 1]) + (if ps[|ps| - 1].alive then 1 else 0)
  }

  function LastAlive(ps: seq<PlayerRec>): nat {
    if ps == [] then 0
    else if ps[|ps| - 1].alive then ps[|ps| - 1].id
    else LastAlive(ps[..|ps| - 1])
  }

  predicate Decided(ps: seq<PlayerRec>) {
    if |ps| >= 2 then AliveCount(ps) <= 1 else AliveCount(ps) == 0
  }

  function Winner(ps: seq<PlayerRec>): nat {
    if AliveCount(ps) == 1 then LastAlive(ps) else 0
  }

  /** The match ends once, when at most one player is left (none, in a solo match). */
  function EndChecked(m: Master): Master {
    if m.matchEnded || m.players == [] || !Decided(m.players) then m
    else m.(matchEnded := true,
            rooms := ToUsed(m.rooms, GameOver(Winner(m.players))),
            announced := m.announced + [Winner(m.players)])
  }

  function Killed(ps: seq<PlayerRec>, id: nat): (r: seq<PlayerRec>)
    ensures |r| == |ps|
  {
    seq(|ps|, i requires 0 <= i < |ps| => if ps[i].id == id then ps[i].(alive := false) else ps[i])
  }

  function RoomKilled(ps: seq<PlayerRec>, slot: nat): (r: seq<PlayerRec>)
    ensures |r| == |ps|
  {
    seq(|ps|, i requires 0 <= i < |ps| => if ps[i].room == slot then ps[i].(alive := false) else ps[i])
  }

  /** The worker is gone: its parked clients are dropped and, before the end of the match,
      its players are out. */
  function RoomClosed(m: Master, slot: nat): Master
    requires slot < |m.rooms|
  {
    var room := m.rooms[slot];
    var c := m.(rooms := m.rooms[slot := room.(used := false)], closed := m.closed + room.pending);
    if m.matchEnded || RoomKilled(m.players, slot) == m.players then c
    else EndChecked(RosterSent(c.(players := RoomKilled(m.players, slot))))
  }

  // ----- Master: worker traffic -----

  /** The first living player with this id, or the number of players. */
  function FindAlive(ps: seq<PlayerRec>, id: nat, i: nat): (k: nat)
    requires i <= |ps|
    ensures i <= k <= |ps|
    ensures k < |ps| ==> ps[k].id == id && ps[k].alive
    decreases |ps| - i
  {
    if i == |ps| || (ps[i].id == id && ps[i].alive) then i else FindAlive(ps, id, i + 1)
  }

  /** The slot an attack is forwarded to, or the number of slots when it is dropped. */
  function RouteOf(m: Master, victim: nat): (slot: nat)
    ensures slot <= |m.rooms|
  {
    var k := FindAlive(m.players, victim, 0);
    if k < |m.players| && m.players[k].room < |m.rooms| && Running(m.rooms[m.players[k].room])
    then m.players[k].room else |m.rooms|
  }

  function Handled(c: Config, m: Master, slot: nat, msg: UpMsg): Master
    requires slot < |m.rooms|
  {
    var room := m.rooms[slot];
    match msg
    case Ready =>
      m.(rooms := m.rooms[slot := room.(ready := true, pending := [])], closed := m.closed + room.pending)
    case Joined(id) =>
      var ps := if |m.players| < c.maxRooms * c.lobby then m.players + [PlayerRec(id, slot, true)] else m.players;
      var n := RosterSent(m.(players := ps, rooms := m.rooms[slot := room.(joined := room.joined + 1)]));
      if |ps| >= c.roomSize * c.maxRooms then AllStarted(n, |n.rooms|) else n
    case Eliminated(id) =>
      EndChecked(RosterSent(m.(players := Killed(m.players, id))))
    case AttackOut(a) =>
      var t := RouteOf(m, a.victim);
      if t < |m.rooms| then m.(rooms := m.rooms[t := m.rooms[t].(sent := m.rooms[t].sent + [Garbage(a)])]) else m
    case FeedOut(a) =>
      m.(rooms := ToRunning(m.rooms, Feed(a), slot))
  }

  // ----- Master: dealing clients -----

  function FirstOpen(c: Config, rooms: seq<Room>, i: nat): (k: nat)
    requires i <= |rooms|
    ensures i <= k <= |rooms|
    ensures k < |rooms| ==> rooms[k].used && !rooms[k].started && rooms[k].redirected < c.roomSize
    decreases |rooms| - i
  {
    if i == |rooms| || (rooms[i].used && !rooms[i].started && rooms[i].redirected < c.roomSize) then i
    else FirstOpen(c, rooms, i + 1)
  }

  function FirstUnused(rooms: seq<Room>, i: nat): (k: nat)
    requires i <= |rooms|
    ensures i <= k <= |rooms|
    ensures k < |rooms| ==> !rooms[k].used
    decreases |rooms| - i
  {
    if i == |rooms| || !rooms[i].used then i else FirstUnused(rooms, i + 1)
  }

  function RoomSpawned(m: Master, slot: nat): Master
    requires slot < |m.rooms|
  {
    m.(rooms := m.rooms[slot := Room(true, false, false, m.roomSeq, 0, 0, [], [], 0)], roomSeq := m.roomSeq + 1)
  }

  /** Slot that takes the next client, after spawning a room if none is open; the number of
      slots when no room can be had. */
  function Filling(c: Config, m: Master, forkOk: bool): (r: (Master, nat))
    ensures |r.0.rooms| == |m.rooms| && r.1 <= |m.rooms|
  {
    var open := FirstOpen(c, m.rooms, 0);
    if open < |m.rooms| then (m, open)
    else
      var free := FirstUnused(m.rooms, 0);
      if free < |m.rooms| && forkOk then (RoomSpawned(m, free), free) else (m, |m.rooms|)
  }

  function Accepted(c: Config, m: Master, sock: nat, forkOk: bool): Master {
    var (n, slot) := Filling(c, m, forkOk);
    if slot == |m.rooms| then n.(closed := n.closed + [sock])
    else
      var room := n.rooms[slot];
      if room.ready then
        n.(closed := n.closed + [sock], rooms := n.rooms[slot := room.(redirected := room.redirected + 1)])
      else if |room.pending| < c.lobby then
        n.(rooms := n.rooms[slot := room.(pending := room.pending + [sock], redirected := room.redirected + 1)])
      else n.(closed := n.closed + [sock])
  }

  // ----- Workers -----

  datatype Slot = Slot(id: nat, active: bool, over: bool, reported: bool, outgoing: nat, queued: nat)

  /** A player is out when it has quit or topped out. */
  predicate Out(s: Slot) {
    s.over || !s.active
  }

  /** A room's process. `clients` are the ids handed out, `told` how many of them the master
      was told about, `winner` the last winner it heard of in the match, `session` the players
      of the running match, `sent` everything sent to the master, `taken` the number of the
      master's messages taken and `early` how many of those it took in the lobby. */
  datatype Worker = Worker(
    slot: nat,
    open: bool,
    exited: bool,
    begun: bool,
    ordered: bool,
    matchOver: bool,
    winner: nat,
    clients: seq<nat>,
    nextId: nat,
    told: nat,
    session: seq<Slot>,
    sent: seq<UpMsg>,
    taken: nat,
    early: nat)

  function FirstId(c: Config, w: nat): nat {
    1 + w * c.lobby
  }

  function NewWorker(c: Config, w: nat, slot: nat): Worker {
    Worker(slot, false, false, false, false, false, 0, [], FirstId(c, w), 0, [], [], 0, 0)
  }

  function Seats(ids: seq<nat>): seq<Slot> {
    seq(|ids|, i requires 0 <= i < |ids| => Slot(ids[i], true, false, false, 0, 0))
  }

  /** Seat of the active player with this id, or the number of seats. */
  function FindPlayer(ss: seq<Slot>, id: nat, i: nat): (k: nat)
    requires i <= |ss|
    ensures i <= k <= |ss|
    ensures k < |ss| ==> ss[k].active && ss[k].id == id
    decreases |ss| - i
  {
    if i == |ss| || (ss[i].active && ss[i].id == id) then i else FindPlayer(ss, id, i + 1)
  }

  /** Garbage reaches the seat of an active player that has not topped out. */
  function Landing(ss: seq<Slot>, id: nat): (k: nat)
    ensures k <= |ss|
    ensures k < |ss| ==> ss[k].id == id && !Out(ss[k])
  {
    var k := FindPlayer(ss, id, 0);
    if k < |ss| && !ss[k].over then k else |ss|
  }

  function QueuedAt(ss: seq<Slot>, k: nat, lines: nat): (r: seq<Slot>)
    requires k < |ss|
    ensures |r| == |ss|
  {
    ss[k := ss[k].(queued := ss[k].queued + lines)]
  }

  // ----- The whole system -----

  datatype Delivery = Delivery(attack: Attack, worker: nat)

  /** The processes and the books: attacks consumed, delivered, dropped, lost with a worker,
      sockets accepted, and the player table at the end of the match. */
  datatype System = System(
    master: Master,
    workers: seq<Worker>,
    consumed: seq<Attack>,
    delivered: seq<Delivery>,
    dropped: seq<Attack>,
    lost: seq<Attack>,
    accepted: nat,
    finalTable: seq<PlayerRec>)

  datatype Step =
    | Accept(forkOk: bool)
    | Enter
    | Deliver(slot: nat)
    | Close(slot: nat)
    | OpenLobby(w: nat)
    | Arrive(w: nat, id: nat)
    | TellJoin(w: nat)
    | TakeInLobby(w: nat)
    | Begin(w: nat)
    | Play(w: nat, seat: nat, active: bool, over: bool, outgoing: nat)
    | TakeInMatch(w: nat)
    | TellOut(w: nat, seat: nat)
    | Route(w: nat, seat: nat, victim: nat)
    | Exit(w: nat)

  function Initial(c: Config): System {
    System(
      Master(seq(c.maxRooms, _ => Room(false, false, false, 0, 0, 0, [], [], 0)), [], 0, false, [], []),
      [], [], [], [], [], 0, [])
  }

  predicate Alive(s: System, w: nat) {
    w < |s.workers| && !s.workers[w].exited
  }

  /** Worker `w` is the one behind its slot. */
  predicate Current(s: System, w: nat) {
    && w < |s.workers| && s.workers[w].slot < |s.master.rooms|
    && s.master.rooms[s.workers[w].slot].used && s.master.rooms[s.workers[w].slot].worker == w
  }

  /** Messages from the master waiting for a worker. */
  predicate HasMail(s: System, w: nat) {
    Current(s, w) && s.workers[w].taken < |s.master.rooms[s.workers[w].slot].sent|
  }

  function Mail(s: System, w: nat): DownMsg
    requires HasMail(s, w)
  {
    s.master.rooms[s.workers[w].slot].sent[s.workers[w].taken]
  }

  predicate RoomHasWorker(s: System, slot: nat) {
    slot < |s.master.rooms| && s.master.rooms[slot].used && s.master.rooms[slot].worker < |s.workers|
  }

  predicate Enabled(c: Config, s: System, e: Step) {
    match e
    case Accept(_) => true
    case Enter => true
    case Deliver(slot) =>
      RoomHasWorker(s, slot) && s.master.rooms[slot].seen < |s.workers[s.master.rooms[slot].worker].sent|
    case Close(slot) =>
      && RoomHasWorker(s, slot)
      && s.workers[s.master.rooms[slot].worker].exited
      && s.master.rooms[slot].seen == |s.workers[s.master.rooms[slot].worker].sent|
    case OpenLobby(w) => Alive(s, w) && !s.workers[w].open
    case Arrive(w, id) =>
      Alive(s, w) && s.workers[w].open && !s.workers[w].begun
      && s.workers[w].nextId <= id < FirstId(c, w) + c.lobby
    case TellJoin(w) =>
      Alive(s, w) && s.workers[w].open && !s.workers[w].begun && s.workers[w].told < |s.workers[w].clients|
    case TakeInLobby(w) => Alive(s, w) && s.workers[w].open && !s.workers[w].begun && HasMail(s, w)
    case Begin(w) => Alive(s, w) && !s.workers[w].begun && s.workers[w].ordered
        && 0 < s.workers[w].told <= |s.workers[w].clients|
    case Play(w, seat, active, over, _) =>
      && Alive(s, w) && s.workers[w].begun && seat < |s.workers[w].session|
      && (s.workers[w].session[seat].over ==> over) && (active ==> s.workers[w].session[seat].active)
    case TakeInMatch(w) => Alive(s, w) && s.workers[w].begun && HasMail(s, w)
    case TellOut(w, seat) =>
      && Alive(s, w) && s.workers[w].begun && seat < |s.workers[w].session|
      && Out(s.workers[w].session[seat]) && !s.workers[w].session[seat].reported
    case Route(w, seat, _) =>
      Alive(s, w) && s.workers[w].begun && seat < |s.workers[w].session| && s.workers[w].session[seat].outgoing > 0
    case Exit(w) => Alive(s, w)
  }

  function WithMaster(s: System, m: Master): System {
    s.(master := m,
       finalTable := if !s.master.matchEnded && m.matchEnded then m.players else s.finalTable)
  }

  function WithWorker(s: System, w: nat, k: Worker): System
    requires w < |s.workers|
  {
    s.(workers := s.workers[w := k])
  }

  /** The master takes one message; an attack it does not forward is dropped. */
  function Delivered(c: Config, s: System, slot: nat): System
    requires Enabled(c, s, Deliver(slot))
  {
    var room := s.master.rooms[slot];
    var msg := s.workers[room.worker].sent[room.seen];
    var m := s.master.(rooms := s.master.rooms[slot := room.(seen := room.seen + 1)]);
    var t := WithMaster(s, Handled(c, m, slot, msg));
    if msg.AttackOut? && RouteOf(m, msg.attack.victim) == |m.rooms| then t.(dropped := s.dropped + [msg.attack]) else t
  }

  /** Garbage among the messages from position `i` on. */
  function GarbageFrom(sent: seq<DownMsg>, i: nat): seq<Attack>
    decreases |sent| - i
  {
    if i >= |sent| then []
    else if sent[i].Garbage? then [sent[i].attack] + GarbageFrom(sent, i + 1)
    else GarbageFrom(sent, i + 1)
  }

  /** The seat a message from the master adds garbage to, or the number of seats. */
  function SeatHit(ss: seq<Slot>, msg: DownMsg): (k: nat)
    ensures k <= |ss|
    ensures k < |ss| ==> msg.Garbage? && ss[k].id == msg.attack.victim && !Out(ss[k])
  {
    if msg.Garbage? then Landing(ss, msg.attack.victim) else |ss|
  }

  function SeatsHit(ss: seq<Slot>, msg: DownMsg): (r: seq<Slot>)
    ensures |r| == |ss|
  {
    if SeatHit(ss, msg) < |ss| then QueuedAt(ss, SeatHit(ss, msg), msg.attack.lines) else ss
  }

  /** A worker takes one message during the match. Only garbage touches a player, and only
      a live one; other garbage is dropped. */
  function TakenInMatch(s: System, w: nat): System
    requires HasMail(s, w)
  {
    var k, msg := s.workers[w], Mail(s, w);
    var hit := SeatHit(k.session, msg) < |k.session|;
    s.(workers := s.workers[w := k.(taken := k.taken + 1, matchOver := k.matchOver || msg.GameOver?,
                                    winner := if msg.GameOver? then msg.winner else k.winner,
                                    session := SeatsHit(k.session, msg))],
       delivered := if hit then s.delivered + [Delivery(msg.attack, w)] else s.delivered,
       dropped := if msg.Garbage? && !hit then s.dropped + [msg.attack] else s.dropped)
  }

  /** A worker takes one message in the lobby, where only the start order counts. */
  function TakenInLobby(s: System, w: nat): System
    requires HasMail(s, w)
  {
    var k := s.workers[w];
    var msg := Mail(s, w);
    var t := WithWorker(s, w, k.(taken := k.taken + 1, early := k.early + 1, ordered := k.ordered || msg.Start?));
    if msg.Garbage? then t.(dropped := s.dropped + [msg.attack]) else t
  }

  /** Where an attack goes from its room. */
  datatype Outcome = Landed(seat: nat) | Forwarded | Ignored

  function OutcomeOf(ss: seq<Slot>, seat: nat, victim: nat): (o: Outcome)
    requires seat < |ss|
    ensures o.Landed? ==> o.seat < |ss| && o.seat != seat && ss[o.seat].id == victim && !Out(ss[o.seat])
  {
    var found := FindPlayer(ss, victim, 0);
    if found < |ss| && found != seat && !ss[found].over then Landed(found)
    else if found == |ss| && victim != 0 && victim != ss[seat].id then Forwarded
    else Ignored
  }

  function AttackOf(s: System, w: nat, seat: nat, victim: nat): Attack
    requires w < |s.workers| && seat < |s.workers[w].session|
  {
    Attack(|s.consumed|, s.workers[w].session[seat].id, victim, s.workers[w].session[seat].outgoing)
  }

  function News(o: Outcome, a: Attack): seq<UpMsg> {
    match o
    case Landed(_) => [FeedOut(a)]
    case Forwarded => [AttackOut(a), FeedOut(a)]
    case Ignored => []
  }

  function SeatsAfter(ss: seq<Slot>, seat: nat, o: Outcome): (r: seq<Slot>)
    requires seat < |ss| && (o.Landed? ==> o.seat < |ss|)
    ensures |r| == |ss|
  {
    var spent := ss[seat := ss[seat].(outgoing := 0)];
    if o.Landed? then QueuedAt(spent, o.seat, ss[seat].outgoing) else spent
  }

  /** A worker consumes one player's attack: it lands in the room, leaves for the master, or
      is dropped. */
  function Routed(s: System, w: nat, seat: nat, victim: nat): System
    requires w < |s.workers| && seat < |s.workers[w].session|
  {
    var k := s.workers[w];
    var a := AttackOf(s, w, seat, victim);
    var o := OutcomeOf(k.session, seat, victim);
    s.(workers := s.workers[w := k.(session := SeatsAfter(k.session, seat, o), sent := k.sent + News(o, a))],
       consumed := s.consumed + [a],
       delivered := if o.Landed? then s.delivered + [Delivery(a, w)] else s.delivered,
       dropped := if o.Ignored? then s.dropped + [a] else s.dropped)
  }

  function Next(c: Config, s: System, e: Step): System
    requires Enabled(c, s, e)
  {
    match e
    case Accept(forkOk) =>
      var (n, slot) := Filling(c, s.master, forkOk);
      var t := s.(master := Accepted(c, s.master, s.accepted, forkOk), accepted := s.accepted + 1);
      if n.roomSeq > s.master.roomSeq then t.(workers := s.workers + [NewWorker(c, s.master.roomSeq, slot)]) else t
    case Enter => WithMaster(s, AllStarted(s.master, |s.master.rooms|))
    case Deliver(slot) => Delivered(c, s, slot)
    case Close(slot) =>
      var room := s.master.rooms[slot];
      WithMaster(s, RoomClosed(s.master, slot))
        .(lost := s.lost + GarbageFrom(room.sent, s.workers[room.worker].taken))
    case OpenLobby(w) =>
      WithWorker(s, w, s.workers[w].(open := true, sent := s.workers[w].sent + [Ready]))
    case Arrive(w, id) =>
      WithWorker(s, w, s.workers[w].(clients := s.workers[w].clients + [id], nextId := id + 1))
    case TellJoin(w) =>
      var k := s.workers[w];
      WithWorker(s, w, k.(told := k.told + 1, sent := k.sent + [Joined(k.clients[k.told])]))
    case TakeInLobby(w) => TakenInLobby(s, w)
    case Begin(w) =>
      var k := s.workers[w];
      WithWorker(s, w, k.(begun := true, session := Seats(k.clients[..k.told])))
    case Play(w, seat, active, over, outgoing) =>
      var k := s.workers[w];
      WithWorker(s, w, k.(session := k.session[seat := k.session[seat].(active := active, over := over,
          outgoing := outgoing)]))
    case TakeInMatch(w) => TakenInMatch(s, w)
    case TellOut(w, seat) =>
      var k := s.workers[w];
      WithWorker(s, w, k.(session := k.session[seat := k.session[seat].(reported := true)],
                          sent := k.sent + [Eliminated(k.session[seat].id)]))
    case Route(w, seat, victim) => Routed(s, w, seat, victim)
    case Exit(w) => WithWorker(s, w, s.workers[w].(exited := true))
  }

  /** States that some run of enabled steps leads to. */
  ghost predicate IsRun(c: Config, states: seq<System>, steps: seq<Step>) {
    && |states| == |steps| + 1 && states[0] == Initial(c)
    && forall i | 0 <= i < |steps| :: Enabled(c, states[i], steps[i]) && states[i + 1] == Next(c, states[i], steps[i])
  }

  /** A run goes on with any enabled step. */
  lemma RunExtends(c: Config, states: seq<System>, steps: seq<Step>, e: Step)
    requires IsRun(c, states, steps) && Enabled(c, states[|steps|], e)
    ensures IsRun(c, states + [Next(c, states[|steps|], e)], steps + [e])
  {
    hide Enabled, Next, Initial;
    var ss, es := states + [Next(c, states[|steps|], e)], steps + [e];
    forall i | 0 <= i < |es| ensures Enabled(c, ss[i], es[i]) && ss[i + 1] == Next(c, ss[i], es[i]) {
      if i < |steps| {
        assert ss[i] == states[i] && ss[i + 1] == states[i + 1] && es[i] == steps[i];
      }
    }
  }
}
