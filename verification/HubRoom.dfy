/** A room worker as it runs (tetrisd/room.c): the lobby loop and the tick loop update the
    session in place. The object carries, as history, the run of the whole system it is part
    of; every pass is proved to extend that run by steps that module Hub allows, so what is
    proved of every run holds of the running worker. */
module HubRoom {
  import opened Hub
  import opened HubSafety
  import opened HubMasterSteps
  import opened HubMail
  import opened HubHeard
  import opened Targeting
  import Engine

  // ----- Messages on the wire -----

  /** What is really sent: serial numbers are not. */
  datatype Wire =
    | WireReady | WireJoined(id: nat) | WireOut(id: nat)
    | WireAttack(attacker: nat, victim: nat, lines: nat)
    | WireFeed(attacker: nat, victim: nat, lines: nat)

  function WireOf(m: UpMsg): Wire {
    match m
    case Ready => WireReady
    case Joined(id) => WireJoined(id)
    case Eliminated(id) => WireOut(id)
    case AttackOut(a) => WireAttack(a.attacker, a.victim, a.lines)
    case FeedOut(a) => WireFeed(a.attacker, a.victim, a.lines)
  }

  ghost function Wires(ms: seq<UpMsg>): (r: seq<Wire>)
    ensures |r| == |ms|
  {
    seq(|ms|, i requires 0 <= i < |ms| => WireOf(ms[i]))
  }

  lemma WiresConcat(a: seq<UpMsg>, b: seq<UpMsg>)
    ensures Wires(a + b) == Wires(a) + Wires(b)
  {
  }

  // ----- What the passes amount to -----

  /** The messages of a report pass over the first `n` seats. */
  function Obituaries(ss: seq<Slot>, n: nat): seq<Wire>
    requires n <= |ss|
  {
    if n == 0 then []
    else Obituaries(ss, n - 1) + (if Out(ss[n - 1]) && !ss[n - 1].reported then [WireOut(ss[n - 1].id)] else [])
  }

  function ReportedSeat(s: Slot): Slot {
    s.(reported := s.reported || Out(s))
  }

  /** The seats once the mail has been taken in. */
  function AllHit(ss: seq<Slot>, mail: seq<DownMsg>): (r: seq<Slot>)
    ensures |r| == |ss|
  {
    if mail == [] then ss else SeatsHit(AllHit(ss, mail[..|mail| - 1]), mail[|mail| - 1])
  }

  /** The roster in force once the mail has been taken in. */
  function RosterAfter(r: Standing, mail: seq<DownMsg>): Standing {
    if mail == [] then r
    else
      var m := mail[|mail| - 1];
      if m.GlobalRoster? then StandingOf(m.standing) else RosterAfter(r, mail[..|mail| - 1])
  }

  /** A player that garbage reaches remembers who sent it. */
  function Remembered(ss: seq<Slot>, aims: seq<Aim>, msg: DownMsg): (r: seq<Aim>)
    requires |aims| == |ss|
    ensures |r| == |aims|
  {
    var k := SeatHit(ss, msg);
    if k < |ss| then aims[k := aims[k].(lastAttacker := msg.attack.attacker)] else aims
  }

  function AllRemembered(ss: seq<Slot>, aims: seq<Aim>, mail: seq<DownMsg>): (r: seq<Aim>)
    requires |aims| == |ss|
    ensures |r| == |aims|
  {
    if mail == [] then aims
    else
      var n := |mail| - 1;
      Remembered(AllHit(ss, mail[..n]), AllRemembered(ss, aims, mail[..n]), mail[n])
  }

  /** What one tick of the simulation did to a player, as far as the room can tell. */
  datatype Played = Played(active: bool, over: bool, outgoing: nat)

  /** Nobody comes back. */
  ghost predicate OneWay(s: Slot, p: Played) {
    (s.over ==> p.over) && (p.active ==> s.active)
  }

  function PlayedSeat(s: Slot, p: Played): Slot {
    s.(active := p.active, over := p.over, outgoing := p.outgoing)
  }

  /** Messages from the master not taken yet. */
  ghost function Pending(s: System, w: nat): seq<DownMsg>
    requires w < |s.workers|
  {
    if HasMail(s, w) then s.master.rooms[s.workers[w].slot].sent[s.workers[w].taken..] else []
  }

  ghost predicate SameButFlow(a: Slot, b: Slot) {
    b == a.(outgoing := b.outgoing, queued := b.queued)
  }

  // ----- What one step does to the worker that makes it -----

  ghost predicate Becomes(c: Config, s: System, e: Step, w: nat, k: Worker) {
    && Alive(s, w) && Enabled(c, s, e) && Alive(Next(c, s, e), w) && Next(c, s, e).workers[w] == k
  }

  /** The step changes the worker to `k` and leaves its mail alone. */
  ghost predicate Works(c: Config, s: System, e: Step, w: nat, k: Worker) {
    && Becomes(c, s, e, w, k) && Pending(Next(c, s, e), w) == Pending(s, w)
    && Heard(Next(c, s, e), w) == Heard(s, w)
  }

  lemma JoinWorks(c: Config, s: System, w: nat)
    requires Alive(s, w) && s.workers[w].open && !s.workers[w].begun && s.workers[w].told < |s.workers[w].clients|
    ensures var k := s.workers[w];
            Works(c, s, TellJoin(w), w, k.(told := k.told + 1, sent := k.sent + [Joined(k.clients[k.told])]))
  {
  }

  lemma PlayWorks(c: Config, s: System, w: nat, i: nat, p: Played)
    requires Alive(s, w) && s.workers[w].begun && i < |s.workers[w].session| && OneWay(s.workers[w].session[i], p)
    ensures var k := s.workers[w];
            Works(c, s, Play(w, i, p.active, p.over, p.outgoing), w,
                  k.(session := k.session[i := PlayedSeat(k.session[i], p)]))
  {
  }

  lemma OutWorks(c: Config, s: System, w: nat, i: nat)
    requires Alive(s, w) && s.workers[w].begun && i < |s.workers[w].session|
    requires Out(s.workers[w].session[i]) && !s.workers[w].session[i].reported
    ensures var k := s.workers[w];
            Works(c, s, TellOut(w, i), w,
                  k.(session := k.session[i := k.session[i].(reported := true)],
                     sent := k.sent + [Eliminated(k.session[i].id)]))
  {
  }

  lemma RouteWorks(c: Config, s: System, w: nat, i: nat, victim: nat)
    requires Alive(s, w) && s.workers[w].begun && i < |s.workers[w].session| && s.workers[w].session[i].outgoing > 0
    ensures var k := s.workers[w];
            var o := OutcomeOf(k.session, i, victim);
            Works(c, s, Route(w, i, victim), w,
                  k.(session := SeatsAfter(k.session, i, o), sent := k.sent + News(o, AttackOf(s, w, i, victim))))
  {
    hide OutcomeOf, SeatsAfter, News;
  }

  lemma LobbyMailWorks(c: Config, s: System, w: nat, mail: seq<DownMsg>)
    requires Alive(s, w) && s.workers[w].open && !s.workers[w].begun && Pending(s, w) == mail != []
    ensures var k := s.workers[w];
            && Becomes(c, s, TakeInLobby(w), w,
                       k.(taken := k.taken + 1, early := k.early + 1, ordered := k.ordered || mail[0].Start?))
            && Pending(Next(c, s, TakeInLobby(w)), w) == mail[1..]
            && Heard(Next(c, s, TakeInLobby(w)), w) == Heard(s, w) + [mail[0]]
  {
    hide Heard;
    TakenHeard(s, Next(c, s, TakeInLobby(w)), w);
  }

  lemma MatchMailWorks(c: Config, s: System, w: nat, mail: seq<DownMsg>)
    requires Alive(s, w) && s.workers[w].begun && Pending(s, w) == mail != []
    ensures var k := s.workers[w];
            && Becomes(c, s, TakeInMatch(w), w,
                       k.(taken := k.taken + 1, matchOver := k.matchOver || mail[0].GameOver?,
                           winner := if mail[0].GameOver? then mail[0].winner else k.winner,
                           session := SeatsHit(k.session, mail[0])))
            && Pending(Next(c, s, TakeInMatch(w)), w) == mail[1..]
            && Heard(Next(c, s, TakeInMatch(w)), w) == Heard(s, w) + [mail[0]]
  {
    hide SeatsHit, SeatHit, Heard;
    TakenHeard(s, Next(c, s, TakeInMatch(w)), w);
  }

  lemma RunLength(c: Config, states: seq<System>, steps: seq<Step>)
    requires IsRun(c, states, steps)
    ensures |states| == |steps| + 1
  {}

  /** With no mail left a worker that plays knows the master's table, and the winner if it knows
      that the match is over. */
  lemma AllTaken(c: Config, states: seq<System>, steps: seq<Step>, w: nat)
    requires IsRun(c, states, steps) && |states| == |steps| + 1
    requires Alive(states[|steps|], w) && states[|steps|].workers[w].begun && Pending(states[|steps|], w) == []
    ensures var s := states[|steps|];
            && IsTable(RosterAfter(Standing([], []), Heard(s, w)), s.master.players)
            && (s.workers[w].matchOver ==> s.master.announced == [s.workers[w].winner])
  {
    hide IsRun, UpToDate, Heard, RosterAfter, IsTable;
    var s := states[|steps|];
    HeardRosterIsTheTable(c, states, steps, |steps|, w);
    UpToDateIsTable(Standing([], []), Heard(s, w), s.master.players);
    if s.workers[w].matchOver {
      WorkerKnowsTheWinner(c, states, steps, |steps|, w);
    }
  }

  /** A step of another process leaves a worker that stays its room's as it is, but for new mail. */
  lemma OthersLeave(c: Config, states: seq<System>, steps: seq<Step>, e: Step, w: nat)
    requires IsRun(c, states, steps) && |states| == |steps| + 1
    requires Alive(states[|steps|], w) && Enabled(c, states[|steps|], e)
    requires ByWorker(e) ==> e.w != w
    ensures var s := states[|steps|];
            var t := Next(c, s, e);
            && Alive(t, w) && t.workers[w] == s.workers[w]
            && Heard(t, w) == Heard(s, w) && Pending(s, w) <= Pending(t, w)
  {
    hide IsRun, Shape, AllWorkersOk, TableOk, EndOk, Next, WorkerOk;
    var s := states[|steps|];
    EveryRunIsSafe(c, states, steps, |steps|);
    if ByWorker(e) {
      WorkerStepGrows(c, s, e);
    } else {
      MasterStepGrew(c, s, e, w);
      StaysCurrent(c, s, e, w);
      TakenIsSent(c, s, w);
    }
  }

  lemma StaysCurrent(c: Config, s: System, e: Step, w: nat)
    requires Safe(c, s) && Enabled(c, s, e) && Alive(s, w) && !ByWorker(e)
    ensures Alive(Next(c, s, e), w) && Current(s, w) && Current(Next(c, s, e), w)
  {
    hide AllWorkersOk, TableOk, EndOk, RoomOk, Next, ChannelGrew;
    StepKeepsSafe(c, s, e);
    MasterStepGrew(c, s, e, w);
    WorkerThere(s, Next(c, s, e), w);
  }

  lemma WorkerThere(s: System, t: System, w: nat)
    requires ChannelGrew(s, t, w)
    ensures w < |t.workers| && t.workers[w] == s.workers[w]
  {}

  lemma NothingHits(ss: seq<Slot>, mail: seq<DownMsg>)
    requires mail == []
    ensures AllHit(ss, mail) == ss
  {
  }

  lemma OneMoreHit(ss: seq<Slot>, mail: seq<DownMsg>, i: nat)
    requires i < |mail|
    ensures AllHit(ss, mail[..i + 1]) == SeatsHit(AllHit(ss, mail[..i]), mail[i])
    ensures forall m :: m in mail[..i + 1] <==> m in mail[..i] || m == mail[i]
  {
    assert mail[..i + 1] == mail[..i] + [mail[i]];
  }

  lemma NoRoster(r: Standing, mail: seq<DownMsg>)
    requires mail == []
    ensures RosterAfter(r, mail) == r
  {
  }

  lemma NextRoster(r: Standing, heard: seq<DownMsg>, m: DownMsg)
    ensures RosterAfter(r, heard + [m]) == if m.GlobalRoster? then StandingOf(m.standing) else RosterAfter(r, heard)
  {
    assert (heard + [m])[..|heard|] == heard;
  }

  /** The roster in force is the last one heard. */
  lemma {:induction false} LastRosterCounts(r: Standing, heard: seq<DownMsg>, p: nat)
    requires LatestRoster(heard, p)
    ensures RosterAfter(r, heard) == StandingOf(heard[p].standing)
    decreases |heard|
  {
    var n := |heard| - 1;
    if p < n {
      assert heard[..n][p] == heard[p];
      LastRosterCounts(r, heard[..n], p);
    }
  }

  /** The players of a roster are exactly those of a table, in order, with their alive flags. */
  ghost predicate IsTable(r: Standing, ps: seq<PlayerRec>) {
    && |r.ids| == |ps| && |r.live| == |ps|
    && forall i | 0 <= i < |ps| :: r.ids[i] == ps[i].id && r.live[i] == ps[i].alive
  }

  lemma UpToDateIsTable(r: Standing, heard: seq<DownMsg>, ps: seq<PlayerRec>)
    requires UpToDate(heard, ps)
    ensures IsTable(RosterAfter(r, heard), ps)
  {
    var p: nat :| LatestRoster(heard, p) && Tells(heard[p].standing, ps);
    LastRosterCounts(r, heard, p);
  }

  /** What players still connected are told at the end. */
  function Verdicts(ss: seq<Slot>, n: nat, winner: nat): seq<(nat, nat)>
    requires n <= |ss|
  {
    if n == 0 then []
    else Verdicts(ss, n - 1, winner) + (if ss[n - 1].active then [(ss[n - 1].id, winner)] else [])
  }

  lemma NoneRemembered(ss: seq<Slot>, aims: seq<Aim>, mail: seq<DownMsg>)
    requires |aims| == |ss| && mail == []
    ensures AllRemembered(ss, aims, mail) == aims
  {
  }

  lemma OneMoreRoster(r: Standing, mail: seq<DownMsg>, i: nat)
    requires i < |mail|
    ensures RosterAfter(r, mail[..0]) == r
    ensures RosterAfter(r, mail[..i + 1]) ==
            if mail[i].GlobalRoster? then StandingOf(mail[i].standing) else RosterAfter(r, mail[..i])
  {
    assert mail[..i + 1][..i] == mail[..i];
  }

  lemma OneMoreRemembered(ss: seq<Slot>, aims: seq<Aim>, mail: seq<DownMsg>, i: nat)
    requires |aims| == |ss| && i < |mail|
    ensures AllRemembered(ss, aims, mail[..0]) == aims
    ensures AllRemembered(ss, aims, mail[..i + 1])
         == Remembered(AllHit(ss, mail[..i]), AllRemembered(ss, aims, mail[..i]), mail[i])
  {
    hide Remembered, AllHit;
    assert mail[..i + 1][..i] == mail[..i];
  }

  lemma OnlyGarbageHits(ss: seq<Slot>, aims: seq<Aim>, msg: DownMsg)
    requires |aims| == |ss|
    ensures !msg.Garbage? ==> SeatsHit(ss, msg) == ss && Remembered(ss, aims, msg) == aims
  {
  }

  lemma FlowOnly(ss: seq<Slot>, seat: nat, o: Outcome)
    requires seat < |ss| && (o.Landed? ==> o.seat < |ss|)
    ensures forall k | 0 <= k < |ss| ::
      SameButFlow(ss[k], SeatsAfter(ss, seat, o)[k])
      && SeatsAfter(ss, seat, o)[k].outgoing == if k == seat then 0 else ss[k].outgoing
  {
  }

  /** The messages about an attack on `victim` by this seat. */
  function WiresOf(o: Outcome, attacker: Slot, victim: nat): seq<Wire> {
    match o
    case Landed(_) => [WireFeed(attacker.id, victim, attacker.outgoing)]
    case Forwarded => [WireAttack(attacker.id, victim, attacker.outgoing),
        WireFeed(attacker.id, victim, attacker.outgoing)]
    case Ignored => []
  }

  lemma NewsOnWire(o: Outcome, attacker: Slot, a: Attack)
    requires a == Attack(a.serial, attacker.id, a.victim, attacker.outgoing)
    ensures Wires(News(o, a)) == WiresOf(o, attacker, a.victim)
  {
  }

  lemma WireOne(m: UpMsg)
    ensures Wires([m]) == [WireOf(m)]
  {
  }

  function Arrivals(clients: seq<nat>, from: nat, to: nat): (r: seq<Wire>)
    requires from <= to <= |clients|
  {
    if from == to then [] else Arrivals(clients, from, to - 1) + [WireJoined(clients[to - 1])]
  }

  class RoomProcess {
    ghost const config: Config
    ghost const me: nat
    var clients: seq<nat>
    var told: nat
    var ordered: bool
    var begun: bool
    var matchOver: bool
    var winner: nat
    var session: seq<Slot>
    var aims: seq<Aim>
    var room: Standing
    var everyone: Standing
    var outbox: seq<Wire>
    ghost var states: seq<System>
    ghost var steps: seq<Step>

    ghost predicate Running()
      reads this
    {
      IsRun(config, states, steps)
    }

    ghost function Sys(): System
      requires Running()
      reads this
    {
      states[|steps|]
    }

    ghost predicate Mirrors(k: Worker)
      reads this
    {
      && k.clients == clients && k.told == told <= |clients| && k.ordered == ordered && k.begun == begun && k.open
      && k.matchOver == matchOver && k.winner == winner && k.session == session && Wires(k.sent) == outbox
    }

    ghost predicate Valid()
      reads this
    {
      && Running() && Alive(Sys(), me) && Mirrors(Sys().workers[me])
      && |aims| == |session| && WellFormedStanding(room) && WellFormedStanding(everyone)
      && everyone == RosterAfter(Standing([], []), Heard(Sys(), me))
    }

    /** Any other process makes a step that this one survives. */
    ghost method Meanwhile(e: Step)
      requires Valid() && Enabled(config, Sys(), e) && (ByWorker(e) ==> e.w != me)
      modifies this`states, this`steps
      ensures Valid() && steps == old(steps) + [e] && old(Pending(Sys(), me)) <= Pending(Sys(), me)
    {
      hide IsRun, Enabled, Next, RosterAfter, Pending, Heard;
      RunLength(config, states, steps);
      OthersLeave(config, states, steps, e, me);
      Advance(e);
    }

    /** The system makes one step. */
    ghost method Advance(e: Step)
      requires Running() && Enabled(config, Sys(), e)
      modifies this`states, this`steps
      ensures Running() && Sys() == Next(config, old(Sys()), e) && steps == old(steps) + [e]
    {
      hide Next, Enabled, Heard, RosterAfter;
      RunExtends(config, states, steps, e);
      states := states + [Next(config, Sys(), e)];
      steps := steps + [e];
    }

    // ----- The lobby -----

    /** A freshly forked worker opens its lobby and says so. */
    constructor (ghost c: Config, ghost w: nat, ghost run: seq<System>, ghost history: seq<Step>)
      requires IsRun(c, run, history) && Alive(run[|history|], w)
      requires var k := run[|history|].workers[w]; k == NewWorker(c, w, k.slot)
      ensures Valid() && config == c && me == w && !begun && outbox == [WireReady]
      ensures steps == history + [OpenLobby(w)]
    {
      config, me, states, steps := c, w, run, history;
      clients, told, ordered, begun, matchOver, winner, session, aims := [], 0, false, false, false, 0, [], [];
      room, everyone := Standing([], []), Standing([], []);
      outbox := [];
      new;
      Advance(OpenLobby(w));
      outbox := outbox + [WireReady];
    }

    /** A client that the handshake let in. */
    method Admit(id: nat)
      requires Valid() && Enabled(config, Sys(), Arrive(me, id))
      modifies this`clients, this`states, this`steps
      ensures Valid() && clients == old(clients) + [id] && steps == old(steps) + [Arrive(me, id)]
    {
      Advance(Arrive(me, id));
      clients := clients + [id];
    }

    /** Tells the master about every client it has not been told about. */
    method ReportArrivals()
      requires Valid() && !begun
      modifies this`told, this`outbox, this`states, this`steps
      ensures Valid() && told == |clients| && old(steps) <= steps
      ensures outbox == old(outbox) + Arrivals(clients, old(told), |clients|)
    {
      hide IsRun, Enabled, Next, Pending, Wires, Heard, RosterAfter;
      while told < |clients|
        invariant Valid() && old(told) <= told && old(steps) <= steps
        invariant outbox == old(outbox) + Arrivals(clients, old(told), told)
      {
        JoinWorks(config, Sys(), me);
        WiresConcat(Sys().workers[me].sent, [Joined(clients[told])]);
        WireOne(Joined(clients[told]));
        Advance(TellJoin(me));
        outbox := outbox + [WireJoined(clients[told])];
        told := told + 1;
      }
    }

    method TakeLobbyMail(mail: seq<DownMsg>)
      requires Valid() && !begun && mail == Pending(Sys(), me)
      modifies this`ordered, this`everyone, this`states, this`steps
      ensures Valid() && Pending(Sys(), me) == [] && old(steps) <= steps
      ensures ordered == (old(ordered) || exists m :: m in mail && m.Start?)
      ensures everyone == RosterAfter(old(everyone), mail)
    {
      hide IsRun, Enabled, Next, Pending, Wires, AllHit, RosterAfter, StandingOf, Heard;
      NoRoster(everyone, mail[..0]);
      for i := 0 to |mail|
        invariant Valid() && Pending(Sys(), me) == mail[i..] && old(steps) <= steps
        invariant ordered == (old(ordered) || exists m :: m in mail[..i] && m.Start?)
        invariant everyone == RosterAfter(old(everyone), mail[..i])
      {
        OneMoreRoster(old(everyone), mail, i);
        assert mail[i] in mail && mail[i..][0] == mail[i];
        OneMoreHit([], mail, i);
        LobbyMailWorks(config, Sys(), me, mail[i..]);
        NextRoster(Standing([], []), Heard(Sys(), me), mail[i]);
        Advance(TakeInLobby(me));
        match mail[i] {
          case Start(_) => ordered := true;
          case GlobalRoster(standing) => everyone := StandingOf(standing);
          case _ =>
        }
      }
      assert mail[..|mail|] == mail;
    }

    /** Seats every reported client and gives each a first target. */
    method Begin()
      requires Valid() && !begun && ordered && 0 < told
      modifies this`begun, this`session, this`aims, this`room, this`states, this`steps
      ensures Valid() && begun && session == Seats(clients[..told]) && steps == old(steps) + [Hub.Begin(me)]
      ensures forall i | 0 <= i < told ::
        aims[i].self == clients[i] && aims[i].target == FirstOther(clients[..told], clients[i])
    {
      var ids := clients[..told];
      var seats, first := FirstSeats(ids);
      Advance(Hub.Begin(me));
      begun, session, aims := true, seats, first;
      room := Standing(ids, seq(|ids|, _ => true));
    }

    // ----- The match -----

    method Find(id: nat) returns (k: nat)
      ensures k == FindPlayer(session, id, 0)
    {
      k := 0;
      while k < |session| && !(session[k].active && session[k].id == id)
        invariant k <= |session| && FindPlayer(session, id, 0) == FindPlayer(session, id, k)
      {
        k := k + 1;
      }
    }

    /** Garbage from another room lands on a player that is still in the game, and only there. */
    method ApplyRemoteGarbage(a: Attack)
      requires |aims| == |session|
      modifies this`session, this`aims
      ensures session == SeatsHit(old(session), Garbage(a)) && aims == Remembered(old(session), old(aims), Garbage(a))
    {
      var k := Find(a.victim);
      if k == |session| || session[k].over {
        return;
      }
      session := QueuedAt(session, k, a.lines);
      aims := aims[k := aims[k].(lastAttacker := a.attacker)];
    }

    /** Takes in one message. Feed messages are for show. */
    method TakeOne(msg: DownMsg, ghost mail: seq<DownMsg>)
      requires Valid() && begun && mail == Pending(Sys(), me) && mail != [] && mail[0] == msg
      modifies this`session, this`aims, this`everyone, this`matchOver, this`winner, this`states, this`steps
      ensures Valid() && Pending(Sys(), me) == mail[1..] && steps == old(steps) + [TakeInMatch(me)]
      ensures session == SeatsHit(old(session), msg) && matchOver == (old(matchOver) || msg.GameOver?)
      ensures winner == if msg.GameOver? then msg.winner else old(winner)
      ensures |old(aims)| == |old(session)| && aims == Remembered(old(session), old(aims), msg)
      ensures everyone == if msg.GlobalRoster? then StandingOf(msg.standing) else old(everyone)
    {
      hide IsRun, Enabled, Next, Pending, Wires, SeatsHit, Remembered, StandingOf, Heard, RosterAfter;
      MatchMailWorks(config, Sys(), me, mail);
      NextRoster(Standing([], []), Heard(Sys(), me), msg);
      OnlyGarbageHits(session, aims, msg);
      Advance(TakeInMatch(me));
      match msg {
        case Garbage(a) => ApplyRemoteGarbage(a);
        case GlobalRoster(standing) => everyone := StandingOf(standing);
        case GameOver(w) => matchOver, winner := true, w;
        case Feed(_) =>
        case Start(_) =>
      }
    }

    /** Takes in everything the master sent. */
    method TakeMail(mail: seq<DownMsg>)
      requires Valid() && begun && mail == Pending(Sys(), me)
      modifies this`session, this`aims, this`everyone, this`matchOver, this`winner, this`states, this`steps
      ensures Valid() && Pending(Sys(), me) == [] && old(steps) <= steps
      ensures session == AllHit(old(session), mail)
      ensures matchOver == (old(matchOver) || exists m :: m in mail && m.GameOver?)
      ensures matchOver ==> Sys().master.announced == [winner]
      ensures IsTable(everyone, Sys().master.players)
      ensures |old(aims)| == |old(session)| && aims == AllRemembered(old(session), old(aims), mail)
      ensures everyone == RosterAfter(old(everyone), mail)
    {
      hide IsRun, Enabled, Next, Pending, Wires, AllHit, SeatsHit, RosterAfter, AllRemembered, Remembered,
        StandingOf, Heard;
      NoRoster(everyone, mail[..0]);
      NoneRemembered(session, aims, mail[..0]);
      NothingHits(session, mail[..0]);
      for i := 0 to |mail|
        invariant Valid() && Pending(Sys(), me) == mail[i..] && old(steps) <= steps
        invariant session == AllHit(old(session), mail[..i])
        invariant matchOver == (old(matchOver) || exists m :: m in mail[..i] && m.GameOver?)
        invariant aims == AllRemembered(old(session), old(aims), mail[..i])
        invariant everyone == RosterAfter(old(everyone), mail[..i])
      {
        OneMoreRoster(old(everyone), mail, i);
        OneMoreRemembered(old(session), old(aims), mail, i);
        assert mail[i] in mail && mail[i..][0] == mail[i];
        OneMoreHit(old(session), mail, i);
        TakeOne(mail[i], mail[i..]);
      }
      assert mail[..|mail|] == mail;
      RunLength(config, states, steps);
      AllTaken(config, states, steps, me);
    }

    /** Every player's game moves on, whatever the engine makes of it. */
    method PlayAll(plays: seq<Played>)
      requires Valid() && begun && |plays| == |session|
      requires forall i | 0 <= i < |session| :: OneWay(session[i], plays[i])
      modifies this`session, this`states, this`steps
      ensures Valid() && old(steps) <= steps && |session| == |old(session)|
          && Pending(Sys(), me) == old(Pending(Sys(), me))
      ensures forall i | 0 <= i < |session| :: session[i] == PlayedSeat(old(session)[i], plays[i])
    {
      hide IsRun, Enabled, Next, Pending, Wires, Heard, RosterAfter;
      for i := 0 to |session|
        invariant Valid() && begun && old(steps) <= steps && |session| == |old(session)|
        invariant Pending(Sys(), me) == old(Pending(Sys(), me))
        invariant forall k | 0 <= k < i :: session[k] == PlayedSeat(old(session)[k], plays[k])
        invariant forall k | i <= k < |session| :: session[k] == old(session)[k]
      {
        var p := plays[i];
        PlayWorks(config, Sys(), me, i, p);
        Advance(Play(me, i, p.active, p.over, p.outgoing));
        session := session[i := PlayedSeat(session[i], p)];
      }
    }

    method ReportOne(i: nat)
      requires Valid() && begun && i < |session| && Out(session[i]) && !session[i].reported
      modifies this`session, this`outbox, this`states, this`steps
      ensures Valid() && steps == old(steps) + [TellOut(me, i)] && Pending(Sys(), me) == old(Pending(Sys(), me))
      ensures session == old(session)[i := old(session)[i].(reported := true)]
          && outbox == old(outbox) + [WireOut(old(session)[i].id)]
    {
      hide IsRun, Enabled, Next, Pending, Wires, Heard, RosterAfter;
      OutWorks(config, Sys(), me, i);
      WiresConcat(Sys().workers[me].sent, [Eliminated(session[i].id)]);
      WireOne(Eliminated(session[i].id));
      Advance(TellOut(me, i));
      session := session[i := session[i].(reported := true)];
      outbox := outbox + [WireOut(session[i].id)];
    }

    /** Every player that is out and was not reported yet is reported, in seat order, once. */
    method ReportOut()
      requires Valid() && begun
      modifies this`session, this`outbox, this`states, this`steps
      ensures Valid() && old(steps) <= steps && |session| == |old(session)|
          && Pending(Sys(), me) == old(Pending(Sys(), me))
      ensures forall i | 0 <= i < |session| :: session[i] == ReportedSeat(old(session)[i])
      ensures outbox == old(outbox) + Obituaries(old(session), |old(session)|)
    {
      hide Running, Pending, Mirrors, Heard, RosterAfter;
      ghost var before := session;
      for i := 0 to |session|
        invariant Valid() && begun && old(steps) <= steps && |session| == |before|
        invariant Pending(Sys(), me) == old(Pending(Sys(), me))
        invariant forall k | 0 <= k < i :: session[k] == ReportedSeat(before[k])
        invariant forall k | i <= k < |session| :: session[k] == before[k]
        invariant outbox == old(outbox) + Obituaries(before, i)
      {
        if (session[i].over || !session[i].active) && !session[i].reported {
          ReportOne(i);
        }
      }
    }

    /** Consumes one player's attack and sends it where it is aimed. */
    method RouteOne(i: nat, roll: nat)
      requires Valid() && begun && i < |session| && session[i].outgoing > 0
      modifies this`session, this`aims, this`outbox, this`states, this`steps
      ensures Valid() && |steps| == |old(steps)| + 1 && old(steps) <= steps
          && Pending(Sys(), me) == old(Pending(Sys(), me))
      ensures var e := steps[|old(steps)|];
              && e.Route? && e.w == me && e.seat == i && VictimOk(old(aims[i]), everyone, room, roll, e.victim)
              && var o := OutcomeOf(old(session), i, e.victim);
                 && session == SeatsAfter(old(session), i, o)
                     && outbox == old(outbox) + WiresOf(o, old(session)[i], e.victim)
                 && aims == if o.Landed?
                            then old(aims)[o.seat := old(aims)[o.seat].(lastAttacker := old(session)[i].id)]
                            else old(aims)
    {
      hide IsRun, Enabled, Next, Pending, Wires, VictimOk, FindPlayer, Heard, RosterAfter;
      var attacker, lines := session[i].id, session[i].outgoing;
      var victim := ResolveVictim(aims[i], everyone, room, roll);
      ghost var s := Sys();
      ghost var o := OutcomeOf(session, i, victim);
      ghost var a := AttackOf(s, me, i, victim);
      RouteWorks(config, s, me, i, victim);
      WiresConcat(s.workers[me].sent, News(o, a));
      NewsOnWire(o, session[i], a);
      Advance(Route(me, i, victim));
      var found := Find(victim);
      session := session[i := session[i].(outgoing := 0)];
      if found < |session| && found != i && !session[found].over {
        session := QueuedAt(session, found, lines);
        aims := aims[found := aims[found].(lastAttacker := attacker)];
        outbox := outbox + [WireFeed(attacker, victim, lines)];
      } else if found == |session| && victim != 0 && victim != attacker {
        outbox := outbox + [WireAttack(attacker, victim, lines), WireFeed(attacker, victim, lines)];
      }
    }

    /** Every attack the tick produced is consumed, once. */
    method RouteAll(rolls: seq<nat>)
      requires Valid() && begun && |rolls| == |session|
      modifies this`session, this`aims, this`outbox, this`states, this`steps
      ensures Valid() && old(steps) <= steps && |session| == |old(session)|
          && Pending(Sys(), me) == old(Pending(Sys(), me))
      ensures forall k | 0 <= k < |session| ::
        session[k].outgoing == 0 && SameButFlow(old(session)[k], session[k])
      ensures |steps| - |old(steps)| == Attackers(old(session), |old(session)|)
    {
      hide Running, Pending, Mirrors, SeatsAfter, OutcomeOf, VictimOk, Heard, RosterAfter;
      ghost var before := session;
      for i := 0 to |session|
        invariant Valid() && begun && old(steps) <= steps && |session| == |before|
        invariant Pending(Sys(), me) == old(Pending(Sys(), me))
        invariant forall k | 0 <= k < |session| :: SameButFlow(before[k], session[k])
        invariant forall k | 0 <= k < |session| :: session[k].outgoing == if k < i then 0 else before[k].outgoing
        invariant |steps| - |old(steps)| == Attackers(before, i)
      {
        if session[i].outgoing != 0 {
          ghost var was := session;
          RouteOne(i, rolls[i]);
          FlowOnly(was, i, OutcomeOf(was, i, steps[|steps| - 1].victim));
        }
      }
    }

    /** The match is over: every player still connected is finished and told the winner. */
    method RoomOver() returns (finals: seq<(nat, nat)>)
      requires Valid() && begun && matchOver
      modifies this`session, this`states, this`steps
      ensures Valid() && old(steps) <= steps && Sys().master.announced == [winner]
      ensures finals == Verdicts(old(session), |old(session)|, winner)
      ensures |session| == |old(session)| && forall k | 0 <= k < |session| ::
        session[k] == old(session)[k].(over := old(session)[k].over || old(session)[k].active)
    {
      hide IsRun, Enabled, Next, Pending, Wires, Heard, RosterAfter;
      finals := [];
      ghost var before := session;
      for i := 0 to |session|
        invariant Valid() && begun && matchOver && old(steps) <= steps && |session| == |before|
        invariant finals == Verdicts(before, i, winner)
        invariant forall k | 0 <= k < i :: session[k] == before[k].(over := before[k].over || before[k].active)
        invariant forall k | i <= k < |session| :: session[k] == before[k]
      {
        if !session[i].active {
          continue;
        }
        ghost var p := Played(true, true, session[i].outgoing);
        PlayWorks(config, Sys(), me, i, p);
        Advance(Play(me, i, true, true, p.outgoing));
        session := session[i := session[i].(over := true)];
        finals := finals + [(session[i].id, winner)];
      }
      RunLength(config, states, steps);
      WorkerKnowsTheWinner(config, states, steps, |steps|, me);
    }

    /** The players' actions: besides moving their games on they may change whom a player aims
        at, but not who attacked it last. */
    method ActAll(acts: seq<Played>, newAims: seq<Aim>, newRoom: Standing)
      requires Valid() && begun && |acts| == |session| == |newAims| && WellFormedStanding(newRoom)
      requires forall i | 0 <= i < |session| :: OneWay(session[i], acts[i])
      requires forall i | 0 <= i < |session| ::
        newAims[i].self == aims[i].self && newAims[i].lastAttacker == aims[i].lastAttacker
      modifies this`session, this`aims, this`room, this`states, this`steps
      ensures Valid() && old(steps) <= steps && |session| == |old(session)|
          && Pending(Sys(), me) == old(Pending(Sys(), me))
      ensures forall i | 0 <= i < |session| :: session[i] == PlayedSeat(old(session)[i], acts[i])
      ensures aims == newAims && room == newRoom
    {
      hide IsRun, Pending, Wires, Heard, RosterAfter;
      aims, room := newAims, newRoom;
      PlayAll(acts);
    }

    /** One turn of the tick loop: the players' actions, the mail, the simulation (which may mark
        players in the room's roster), reports and attacks. Afterwards, unless the match is
        over, everyone who is out has been reported and no attack is waiting. */
    method Tick(acts: seq<Played>, newAims: seq<Aim>, newRoom: Standing, mail: seq<DownMsg>,
                plays: seq<Played>, tickedRoom: Standing, rolls: seq<nat>)
      requires Valid() && begun && mail == Pending(Sys(), me)
      requires |acts| == |session| == |newAims| == |plays| == |rolls|
      requires WellFormedStanding(newRoom) && WellFormedStanding(tickedRoom)
      requires forall i | 0 <= i < |session| ::
        newAims[i].self == aims[i].self && newAims[i].lastAttacker == aims[i].lastAttacker
      requires forall i | 0 <= i < |session| ::
        OneWay(session[i], acts[i]) && OneWay(PlayedSeat(session[i], acts[i]), plays[i])
      modifies this`session, this`aims, this`room, this`everyone, this`matchOver, this`winner, this`outbox,
        this`states, this`steps
      ensures Valid() && old(steps) <= steps && Pending(Sys(), me) == []
      ensures matchOver ==> Sys().master.announced == [winner]
      ensures !matchOver ==> forall i | 0 <= i < |session| ::
        session[i].outgoing == 0 && (Out(session[i]) ==> session[i].reported)
    {
      hide IsRun, Wires, Pending, AllHit, Heard, RosterAfter, IsTable, AllRemembered, Obituaries, Attackers;
      ActAll(acts, newAims, newRoom);
      ghost var acted := session;
      TakeMail(mail);
      if matchOver {
        return;
      }
      HitsKeepPlayers(acted, mail);
      room := tickedRoom;
      PlayAll(plays);
      ReportOut();
      RouteAll(rolls);
    }
  }

  /** A seat and a first target for everyone. */
  method FirstSeats(ids: seq<nat>) returns (seats: seq<Slot>, first: seq<Aim>)
    ensures seats == Seats(ids) && |first| == |ids|
    ensures forall i | 0 <= i < |ids| :: first[i] == Aim(ids[i], Engine.Manual, 0, FirstOther(ids, ids[i]))
  {
    seats, first := [], [];
    for i := 0 to |ids|
      invariant |seats| == i && forall k | 0 <= k < i :: seats[k] == Seats(ids)[k]
      invariant |first| == i && forall k | 0 <= k < i ::
        first[k] == Aim(ids[k], Engine.Manual, 0, FirstOther(ids, ids[k]))
    {
      seats := seats + [Slot(ids[i], true, false, false, 0, 0)];
      var target := StartingTarget(ids, ids[i]);
      first := first + [Aim(ids[i], Engine.Manual, 0, target)];
    }
  }

  function Attackers(ss: seq<Slot>, n: nat): nat
    requires n <= |ss|
  {
    if n == 0 then 0 else Attackers(ss, n - 1) + (if ss[n - 1].outgoing > 0 then 1 else 0)
  }

  lemma {:induction false} HitsKeepPlayers(ss: seq<Slot>, mail: seq<DownMsg>)
    ensures forall k | 0 <= k < |ss| :: AllHit(ss, mail)[k] == ss[k].(queued := AllHit(ss, mail)[k].queued)
    decreases |mail|
  {
    if mail != [] {
      HitsKeepPlayers(ss, mail[..|mail| - 1]);
    }
  }
}
