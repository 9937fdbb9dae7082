/** Where an attack may go: when the master forwards or drops it, and when a room lands it,
    sends it on or drops it. Stated over the player table and the seats themselves. */
module HubAttacks {
  import opened Hub
  import opened HubSafety
  import opened HubMasterSteps
  import opened HubMail

  // ----- The master -----

  /** Record `k` is of the victim, who is alive and whose room is used and started. */
  ghost predicate Reachable(m: Master, victim: nat, k: nat) {
    && k < |m.players| && m.players[k].id == victim && m.players[k].alive
    && m.players[k].room < |m.rooms| && m.rooms[m.players[k].room].used && m.rooms[m.players[k].room].started
  }

  lemma FindAliveFinds(ps: seq<PlayerRec>, id: nat, i: nat, k: nat)
    requires DistinctIds(ps) && i <= k < |ps| && ps[k].id == id && ps[k].alive
    ensures FindAlive(ps, id, i) == k
    decreases k - i
  {
    if i < k {
      assert ps[i].id != ps[k].id;
      FindAliveFinds(ps, id, i + 1, k);
    }
  }

  lemma RouteFinds(m: Master, victim: nat)
    requires DistinctIds(m.players)
    ensures forall k: nat | Reachable(m, victim, k) :: RouteOf(m, victim) == m.players[k].room
    ensures RouteOf(m, victim) == |m.rooms| <==> forall k: nat :: !Reachable(m, victim, k)
  {
    hide FindAlive;
    forall k: nat | Reachable(m, victim, k) ensures FindAlive(m.players, victim, 0) == k {
      FindAliveFinds(m.players, victim, 0, k);
    }
    if RouteOf(m, victim) < |m.rooms| {
      assert Reachable(m, victim, FindAlive(m.players, victim, 0));
    }
  }

  /** A handled attack is dropped iff nobody alive with the victim's id is recorded in a used
      and started room. Otherwise the channel of exactly that room grows, by this attack. */
  lemma AttackGoesToTheVictim(c: Config, states: seq<System>, steps: seq<Step>, n: nat, a: Attack)
    requires IsRun(c, states, steps) && n < |steps|
    requires steps[n].Deliver? && Arrived(states[n], steps[n].slot, AttackOut(a))
    ensures var s, t := states[n], states[n + 1];
            && (t.dropped == s.dropped + [a] <==> forall k: nat :: !Reachable(s.master, a.victim, k))
            && (t.dropped == s.dropped <==> exists k: nat :: Reachable(s.master, a.victim, k))
            && |t.master.rooms| == |s.master.rooms|
            && forall i | 0 <= i < |s.master.rooms| ::
              t.master.rooms[i].sent == s.master.rooms[i].sent
                + if exists k: nat :: Reachable(s.master, a.victim, k) && s.master.players[k].room == i
                  then [Garbage(a)] else []
  {
    hide Shape, AllWorkersOk, EndOk, RecOk, Next, Initial;
    EveryRunIsSafe(c, states, steps, n);
    AttackStep(c, states[n], steps[n].slot, a);
  }

  lemma AttackStep(c: Config, s: System, slot: nat, a: Attack)
    requires DistinctIds(s.master.players) && Enabled(c, s, Deliver(slot)) && Arrived(s, slot, AttackOut(a))
    ensures var t := Next(c, s, Deliver(slot));
            && (t.dropped == s.dropped + [a] <==> forall k: nat :: !Reachable(s.master, a.victim, k))
            && (t.dropped == s.dropped <==> exists k: nat :: Reachable(s.master, a.victim, k))
            && |t.master.rooms| == |s.master.rooms|
            && forall i | 0 <= i < |s.master.rooms| ::
              t.master.rooms[i].sent == s.master.rooms[i].sent
                + if exists k: nat :: Reachable(s.master, a.victim, k) && s.master.players[k].room == i
                  then [Garbage(a)] else []
  {
    hide RouteOf;
    var p := Peeked(s, slot).master;
    RouteFinds(p, a.victim);
    forall k: nat ensures Reachable(p, a.victim, k) == Reachable(s.master, a.victim, k) {}
    var t := Next(c, s, Deliver(slot));
    var r := RouteOf(p, a.victim);
    if r < |p.rooms| {
      var k: nat :| Reachable(p, a.victim, k);
      assert Reachable(s.master, a.victim, k) && s.master.players[k].room == r;
      assert |s.dropped + [a]| == |s.dropped| + 1;
    }
  }

  /** A handled notice goes to every running room except the one it came from, once. */
  lemma NoticeGoesToTheOthers(c: Config, s: System, slot: nat, a: Attack)
    requires Enabled(c, s, Deliver(slot)) && Arrived(s, slot, FeedOut(a))
    ensures var t := Next(c, s, Deliver(slot));
            && t.master.players == s.master.players && t.dropped == s.dropped
            && |t.master.rooms| == |s.master.rooms|
            && forall i | 0 <= i < |s.master.rooms| ::
              t.master.rooms[i].sent == s.master.rooms[i].sent
                + if i != slot && s.master.rooms[i].used && s.master.rooms[i].started then [Feed(a)] else []
  {}

  // ----- The rooms -----

  /** Distinct positive ids, as a room hands them out. */
  ghost predicate SeatsOk(ss: seq<Slot>) {
    && (forall i | 0 <= i < |ss| :: ss[i].id > 0)
    && forall i, j | 0 <= i < j < |ss| :: ss[i].id != ss[j].id
  }

  lemma WorkerSeatsOk(c: Config, w: nat, k: Worker)
    requires WorkerOk(c, w, k)
    ensures SeatsOk(k.session)
  {
    hide SentOk;
  }

  lemma FindPlayerFinds(ss: seq<Slot>, id: nat, i: nat, k: nat)
    requires SeatsOk(ss) && i <= k < |ss| && ss[k].id == id && ss[k].active
    ensures FindPlayer(ss, id, i) == k
    decreases k - i
  {
    if i < k {
      assert ss[i].id != ss[k].id;
      FindPlayerFinds(ss, id, i + 1, k);
    }
  }

  /** Seat `j` is another player's, the victim's, and still in the game. */
  ghost predicate CanLand(ss: seq<Slot>, seat: nat, victim: nat, j: nat) {
    j < |ss| && j != seat && ss[j].id == victim && ss[j].active && !ss[j].over
  }

  /** The victim is somebody else and no active player of this room. */
  ghost predicate MustLeave(ss: seq<Slot>, seat: nat, victim: nat)
    requires seat < |ss|
  {
    victim != 0 && victim != ss[seat].id && forall j | 0 <= j < |ss| :: !(ss[j].id == victim && ss[j].active)
  }

  lemma OutcomeDecided(ss: seq<Slot>, seat: nat, victim: nat)
    requires SeatsOk(ss) && seat < |ss|
    ensures var o := OutcomeOf(ss, seat, victim);
            && (forall j: nat :: (o == Landed(j)) <==> CanLand(ss, seat, victim, j))
            && (o.Forwarded? <==> MustLeave(ss, seat, victim))
            && (o.Ignored? <==> (victim == 0 || victim == ss[seat].id
                || exists j :: 0 <= j < |ss| && ss[j].id == victim && ss[j].active && ss[j].over))
  {
    hide FindPlayer;
    forall j | 0 <= j < |ss| && ss[j].id == victim && ss[j].active ensures FindPlayer(ss, victim, 0) == j {
      FindPlayerFinds(ss, victim, 0, j);
    }
  }

  /** A consumed attack lands on exactly the other player of the room that has the victim's id
      and is still in the game; it leaves for the master iff the victim is somebody else and
      not active in this room; and it is dropped iff it is aimed at nobody, at the attacker,
      or at a player of this room that has topped out. */
  lemma AttackLeavesItsRoom(c: Config, states: seq<System>, steps: seq<Step>, n: nat)
    requires IsRun(c, states, steps) && n < |steps| && steps[n].Route?
    ensures var s, t, e := states[n], states[n + 1], steps[n];
            && e.w < |s.workers| && e.seat < |s.workers[e.w].session| && e.w < |t.workers|
            && var k, n := s.workers[e.w], t.workers[e.w];
               var a := Attack(|s.consumed|, k.session[e.seat].id, e.victim, k.session[e.seat].outgoing);
               && t.consumed == s.consumed + [a] && |n.session| == |k.session|
               && (t.delivered == s.delivered + [Delivery(a, e.w)] <==>
                   exists j: nat :: CanLand(k.session, e.seat, e.victim, j))
               && (n.sent == k.sent + [AttackOut(a), FeedOut(a)] <==> MustLeave(k.session, e.seat, e.victim))
               && (t.dropped == s.dropped + [a] <==>
                   e.victim == 0 || e.victim == k.session[e.seat].id
                   || exists j :: 0 <= j < |k.session| && k.session[j].id == e.victim && k.session[j].active
                                  && k.session[j].over)
               && forall j | 0 <= j < |k.session| ::
                 n.session[j] == k.session[j].(
                   outgoing := if j == e.seat then 0 else k.session[j].outgoing,
                   queued := k.session[j].queued + if CanLand(k.session, e.seat, e.victim, j) then a.lines else 0)
  {
    hide Shape, TableOk, EndOk, Next, Initial, WorkerOk;
    EveryRunIsSafe(c, states, steps, n);
    var s, e := states[n], steps[n];
    WorkerSeatsOk(c, e.w, s.workers[e.w]);
    RouteStep(s, e.w, e.seat, e.victim);
    RouteIsNext(c, s, e);
  }

  lemma RouteIsNext(c: Config, s: System, e: Step)
    requires Enabled(c, s, e) && e.Route?
    ensures Next(c, s, e) == Routed(s, e.w, e.seat, e.victim)
  {
    hide Routed;
  }

  lemma RouteStep(s: System, w: nat, seat: nat, victim: nat)
    requires w < |s.workers| && seat < |s.workers[w].session| && SeatsOk(s.workers[w].session)
    ensures var k, t := s.workers[w], Routed(s, w, seat, victim);
            var n := t.workers[w];
            var a := Attack(|s.consumed|, k.session[seat].id, victim, k.session[seat].outgoing);
            && t.consumed == s.consumed + [a] && |n.session| == |k.session|
            && (t.delivered == s.delivered + [Delivery(a, w)] <==>
                exists j: nat :: CanLand(k.session, seat, victim, j))
            && (n.sent == k.sent + [AttackOut(a), FeedOut(a)] <==> MustLeave(k.session, seat, victim))
            && (t.dropped == s.dropped + [a] <==>
                victim == 0 || victim == k.session[seat].id
                || exists j :: 0 <= j < |k.session| && k.session[j].id == victim && k.session[j].active
                               && k.session[j].over)
            && forall j | 0 <= j < |k.session| ::
              n.session[j] == k.session[j].(
                outgoing := if j == seat then 0 else k.session[j].outgoing,
                queued := k.session[j].queued + if CanLand(k.session, seat, victim, j) then a.lines else 0)
  {
    hide OutcomeOf, MustLeave;
    var k := s.workers[w];
    var a := AttackOf(s, w, seat, victim);
    OutcomeDecided(k.session, seat, victim);
    var o := OutcomeOf(k.session, seat, victim);
    assert |s.delivered + [Delivery(a, w)]| == |s.delivered| + 1 && |s.dropped + [a]| == |s.dropped| + 1;
    assert |k.sent + [AttackOut(a), FeedOut(a)]| == |k.sent| + 2;
    if o.Landed? {
      assert CanLand(k.session, seat, victim, o.seat);
    }
  }

  /** Garbage that arrives during the match lands on exactly the player with the victim's id that
      is still in the game, and is dropped iff there is none. */
  lemma GarbageArrives(c: Config, states: seq<System>, steps: seq<Step>, n: nat, a: Attack)
    requires IsRun(c, states, steps) && n < |steps| && steps[n].TakeInMatch?
    requires HasMail(states[n], steps[n].w) && Mail(states[n], steps[n].w) == Garbage(a)
    ensures var s, t, w := states[n], states[n + 1], steps[n].w;
            && w < |t.workers| && |t.workers[w].session| == |s.workers[w].session|
            && var ss, ss' := s.workers[w].session, t.workers[w].session;
               && (t.dropped == s.dropped + [a] <==>
                   forall j | 0 <= j < |ss| :: ss[j].id == a.victim ==> Out(ss[j]))
               && (t.delivered == s.delivered + [Delivery(a, w)] <==>
                   exists j :: 0 <= j < |ss| && ss[j].id == a.victim && !Out(ss[j]))
               && forall j | 0 <= j < |ss| ::
                 ss'[j] == ss[j].(queued := ss[j].queued
                                  + if ss[j].id == a.victim && !Out(ss[j]) then a.lines else 0)
  {
    hide Shape, TableOk, EndOk, Next, Initial, WorkerOk;
    EveryRunIsSafe(c, states, steps, n);
    var s, w := states[n], steps[n].w;
    WorkerSeatsOk(c, w, s.workers[w]);
    TakeStep(s, w, a);
    TakeIsNext(c, s, w);
  }

  lemma TakeIsNext(c: Config, s: System, w: nat)
    requires Enabled(c, s, TakeInMatch(w))
    ensures Next(c, s, TakeInMatch(w)) == TakenInMatch(s, w)
  {
    hide TakenInMatch;
  }

  lemma TakeStep(s: System, w: nat, a: Attack)
    requires HasMail(s, w) && Mail(s, w) == Garbage(a) && SeatsOk(s.workers[w].session)
    ensures var t := TakenInMatch(s, w);
            && |t.workers| == |s.workers| && |t.workers[w].session| == |s.workers[w].session|
            && var ss, ss' := s.workers[w].session, t.workers[w].session;
               && (t.dropped == s.dropped + [a] <==>
                   forall j | 0 <= j < |ss| :: ss[j].id == a.victim ==> Out(ss[j]))
               && (t.delivered == s.delivered + [Delivery(a, w)] <==>
                   exists j :: 0 <= j < |ss| && ss[j].id == a.victim && !Out(ss[j]))
               && forall j | 0 <= j < |ss| ::
                 ss'[j] == ss[j].(queued := ss[j].queued
                                  + if ss[j].id == a.victim && !Out(ss[j]) then a.lines else 0)
  {
    hide FindPlayer;
    var ss := s.workers[w].session;
    assert |s.delivered + [Delivery(a, w)]| == |s.delivered| + 1 && |s.dropped + [a]| == |s.dropped| + 1;
    forall j | 0 <= j < |ss| && ss[j].id == a.victim && ss[j].active ensures FindPlayer(ss, a.victim, 0) == j {
      FindPlayerFinds(ss, a.victim, 0, j);
    }
  }
}
