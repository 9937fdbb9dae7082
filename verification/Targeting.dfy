/** Who an attack is aimed at (targeting.c, resolve_victim in tetrisd/room.c and the first
    targets handed out by init_session in tetrisd/game.c). */
module Targeting {
  import opened Engine
  import opened EngineRuns

  /** The players known somewhere, in order, and which of them are alive. */
  datatype Standing = Standing(ids: seq<nat>, live: seq<bool>)

  predicate WellFormedStanding(r: Standing) {
    |r.ids| == |r.live|
  }

  function StandingOf(entries: seq<(nat, bool)>): (r: Standing)
    ensures WellFormedStanding(r)
  {
    Standing(seq(|entries|, i requires 0 <= i < |entries| => entries[i].0),
             seq(|entries|, i requires 0 <= i < |entries| => entries[i].1))
  }

  /** What an attacker's game says about its aim. */
  datatype Aim = Aim(self: nat, mode: TargetMode, lastAttacker: nat, target: nat)

  function AimOf(g: Game): Aim {
    Aim(g.playerId, g.targetMode, g.lastAttacker, g.targetId)
  }

  // ----- The candidates -----

  ghost predicate LivesIn(r: Standing, id: nat)
    requires WellFormedStanding(r)
  {
    exists i :: 0 <= i < |r.ids| && r.ids[i] == id && r.live[i]
  }

  function Opponents(r: Standing, self: nat, n: nat): seq<nat>
    requires WellFormedStanding(r) && n <= |r.ids|
  {
    if n == 0 then []
    else Opponents(r, self, n - 1) + (if r.ids[n - 1] != self && r.live[n - 1] then [r.ids[n - 1]] else [])
  }

  lemma {:induction false} OpponentsUpTo(r: Standing, self: nat, n: nat, id: nat)
    requires WellFormedStanding(r) && n <= |r.ids|
    ensures id in Opponents(r, self, n) <==> id != self && exists i :: 0 <= i < n && r.ids[i] == id && r.live[i]
  {
    if n > 0 {
      OpponentsUpTo(r, self, n - 1, id);
    }
  }

  /** The candidates are the living players other than the attacker. */
  lemma OpponentsAreTheLiving(r: Standing, self: nat, id: nat)
    requires WellFormedStanding(r)
    ensures id in Opponents(r, self, |r.ids|) <==> id != self && LivesIn(r, id)
  {
    OpponentsUpTo(r, self, |r.ids|, id);
  }

  method CollectOpponents(r: Standing, self: nat) returns (candidates: seq<nat>)
    requires WellFormedStanding(r)
    ensures candidates == Opponents(r, self, |r.ids|)
  {
    candidates := [];
    for i := 0 to |r.ids|
      invariant candidates == Opponents(r, self, i)
    {
      if r.ids[i] != self && r.live[i] {
        candidates := candidates + [r.ids[i]];
      }
    }
  }

  method IsLiving(r: Standing, id: nat) returns (found: bool)
    requires WellFormedStanding(r)
    ensures found == LivesIn(r, id)
  {
    for i := 0 to |r.ids|
      invariant forall k | 0 <= k < i :: !(r.ids[k] == id && r.live[k])
    {
      if r.ids[i] == id && r.live[i] {
        return true;
      }
    }
    return false;
  }

  // ----- The choice -----

  ghost predicate CanRetaliate(a: Aim, r: Standing)
    requires WellFormedStanding(r)
  {
    a.mode == Ko && a.lastAttacker != 0 && a.lastAttacker != a.self && LivesIn(r, a.lastAttacker)
  }

  ghost predicate CanDraw(a: Aim, r: Standing)
    requires WellFormedStanding(r)
  {
    a.mode == Random && exists id: nat :: id != a.self && LivesIn(r, id)
  }

  /** The choice among the players of one roster; `roll` is the result of `rand()`. */
  method ResolveTarget(a: Aim, room: Standing, roll: nat) returns (v: nat)
    requires WellFormedStanding(room)
    ensures CanDraw(a, room) ==> Drawn(a, room, roll, v)
    ensures CanRetaliate(a, room) ==> v == a.lastAttacker
    ensures !CanDraw(a, room) && !CanRetaliate(a, room) ==> v == a.target
  {
    match a.mode {
      case Random =>
        var candidates := CollectOpponents(room, a.self);
        DrawIffCandidates(a, room);
        if |candidates| == 0 {
          return a.target;
        }
        return candidates[roll % |candidates|];
      case Ko =>
        if a.lastAttacker != 0 && a.lastAttacker != a.self {
          var living := IsLiving(room, a.lastAttacker);
          if living {
            return a.lastAttacker;
          }
        }
        return a.target;
      case Manual =>
        return a.target;
    }
  }

  /** The candidate that the random result selects. */
  ghost predicate Drawn(a: Aim, r: Standing, roll: nat, v: nat)
    requires WellFormedStanding(r)
  {
    var os := Opponents(r, a.self, |r.ids|);
    |os| > 0 && v == os[roll % |os|]
  }

  lemma DrawIffCandidates(a: Aim, r: Standing)
    requires WellFormedStanding(r) && a.mode == Random
    ensures CanDraw(a, r) <==> Opponents(r, a.self, |r.ids|) != []
  {
    var os := Opponents(r, a.self, |r.ids|);
    forall id: nat ensures id in os <==> id != a.self && LivesIn(r, id) {
      OpponentsAreTheLiving(r, a.self, id);
    }
    if os != [] {
      assert os[0] in os;
    }
  }

  /** Every draw is a living opponent, and every living opponent can be drawn. */
  lemma DrawsAreTheLiving(a: Aim, r: Standing, v: nat)
    requires WellFormedStanding(r)
    ensures (exists roll: nat :: Drawn(a, r, roll, v)) <==> v != a.self && LivesIn(r, v)
  {
    hide Drawn, Opponents, LivesIn;
    OpponentsAreTheLiving(r, a.self, v);
    if v in Opponents(r, a.self, |r.ids|) {
      DrawOf(a, r, v);
    }
    forall roll: nat | Drawn(a, r, roll, v) ensures v in Opponents(r, a.self, |r.ids|) {
      DrawnIsCandidate(a, r, roll, v);
    }
  }

  lemma DrawnIsCandidate(a: Aim, r: Standing, roll: nat, v: nat)
    requires WellFormedStanding(r) && Drawn(a, r, roll, v)
    ensures v in Opponents(r, a.self, |r.ids|)
  {
    hide Opponents;
  }

  lemma DrawOf(a: Aim, r: Standing, v: nat)
    requires WellFormedStanding(r) && v in Opponents(r, a.self, |r.ids|)
    ensures exists roll: nat :: Drawn(a, r, roll, v)
  {
    hide Opponents;
    var os := Opponents(r, a.self, |r.ids|);
    var k :| 0 <= k < |os| && os[k] == v;
    assert Drawn(a, r, k, v);
  }

  /** The victim of an attack: the whole match first, then the room. */
  method ResolveVictim(a: Aim, everyone: Standing, room: Standing, roll: nat) returns (v: nat)
    requires WellFormedStanding(everyone) && WellFormedStanding(room)
    ensures VictimOk(a, everyone, room, roll, v)
  {
    if |everyone.ids| > 0 {
      if a.mode == Random {
        var candidates := CollectOpponents(everyone, a.self);
        DrawIffCandidates(a, everyone);
        if |candidates| > 0 {
          return candidates[roll % |candidates|];
        }
      }
      if a.mode == Ko && a.lastAttacker != 0 && a.lastAttacker != a.self {
        var living := IsLiving(everyone, a.lastAttacker);
        if living {
          return a.lastAttacker;
        }
      }
    }
    v := ResolveTarget(a, room, roll);
  }

  ghost predicate VictimOk(a: Aim, everyone: Standing, room: Standing, roll: nat, v: nat)
    requires WellFormedStanding(everyone) && WellFormedStanding(room)
  {
    if CanDraw(a, everyone) then Drawn(a, everyone, roll, v)
    else if CanRetaliate(a, everyone) then v == a.lastAttacker
    else if CanDraw(a, room) then Drawn(a, room, roll, v)
    else if CanRetaliate(a, room) then v == a.lastAttacker
    else v == a.target
  }

  /** An attack is aimed at its own attacker only by a target locked on itself; in random and
      retaliation mode it hits a living player whenever one can be hit. */
  lemma VictimIsLivingOpponent(a: Aim, everyone: Standing, room: Standing, roll: nat, v: nat)
    requires WellFormedStanding(everyone) && WellFormedStanding(room) && VictimOk(a, everyone, room, roll, v)
    ensures v == a.self ==> a.target == a.self
    ensures CanDraw(a, everyone) || CanRetaliate(a, everyone) ==> v != a.self && LivesIn(everyone, v)
    ensures v != a.target ==> v != a.self && (LivesIn(everyone, v) || LivesIn(room, v))
  {
    DrawsAreTheLiving(a, everyone, v);
    DrawsAreTheLiving(a, room, v);
  }

  // ----- Targets over a whole run -----

  /** The first player that is not oneself, or none. */
  function FirstOther(ids: seq<nat>, self: nat): nat {
    if ids == [] then 0 else if ids[0] != self then ids[0] else FirstOther(ids[1..], self)
  }

  method StartingTarget(ids: seq<nat>, self: nat) returns (target: nat)
    ensures target == FirstOther(ids, self)
  {
    target := 0;
    for j := 0 to |ids|
      invariant target == 0 && FirstOther(ids, self) == FirstOther(ids[j..], self)
    {
      assert ids[j..][1..] == ids[j + 1..];
      if ids[j] != self {
        return ids[j];
      }
    }
  }

  ghost predicate AimsElsewhere(g: Game, self: nat) {
    g.playerId == self && g.targetId != self
  }

  lemma RetargetedElsewhere(g: Game, r: Roster, self: nat)
    requires |r.ids| == |r.eliminated| && AimsElsewhere(g, self)
    ensures AimsElsewhere(Retargeted(g, r), self)
  {
    hide NextTarget, SeatOf;
  }

  lemma ActedElsewhere(g: Game, a: Action, rolls: Rolls, self: nat)
    requires WellFormedAction(a) && AimsElsewhere(g, self)
    ensures AimsElsewhere(Acted(g, a, rolls), self)
  {
    hide FitsAt, Dropped, Retargeted, SettledBoard, Attack, Cancelled, RowsTaken, Completed, IsTSpin, Difficult;
    if a.HardDrop? {
      DroppedFacts(g);
    } else if a.CycleTarget? {
      RetargetedElsewhere(g, a.roster, self);
    }
  }

  lemma StepElsewhere(g: Game, e: Event, self: nat)
    requires WellFormed(e) && AimsElsewhere(g, self)
    ensures AimsElsewhere(Step(g, e), self)
  {
    hide Acted, FitsAt, Threshold, SettledBoard, Attack, Cancelled, RowsTaken, Completed, IsTSpin, Difficult;
    if e.Act? {
      ActedElsewhere(g, e.action, e.rolls, self);
    }
  }

  lemma {:induction false} RunElsewhere(g: Game, es: seq<Event>, self: nat)
    requires WellFormedRun(es) && AimsElsewhere(g, self)
    ensures AimsElsewhere(Run(g, es), self)
  {
    hide Step;
    if es != [] {
      var n := |es| - 1;
      assert es[n] in es;
      RunElsewhere(g, es[..n], self);
      StepElsewhere(Run(g, es[..n]), es[n], self);
    }
  }

  lemma {:induction false} FirstOtherIsOther(ids: seq<nat>, self: nat)
    requires self != 0
    ensures FirstOther(ids, self) != self
  {
    if ids != [] {
      FirstOtherIsOther(ids[1..], self);
    }
  }

  /** In every run of a game that a session started, whatever the player does and whatever the
      rosters and random results, no attack is ever aimed at its own attacker. */
  lemma NeverAimsAtItself(d: Deal, ids: seq<nat>, es: seq<Event>, everyone: Standing, room: Standing, roll: nat, v: nat)
    requires d.playerId != 0 && d.targetId == FirstOther(ids, d.playerId) && WellFormedRun(es)
    requires WellFormedStanding(everyone) && WellFormedStanding(room)
    requires VictimOk(AimOf(Run(StartOf(d), es)), everyone, room, roll, v)
    ensures v != d.playerId
  {
    hide Run;
    FirstOtherIsOther(ids, d.playerId);
    RunElsewhere(StartOf(d), es, d.playerId);
    VictimIsLivingOpponent(AimOf(Run(StartOf(d), es)), everyone, room, roll, v);
  }
}
