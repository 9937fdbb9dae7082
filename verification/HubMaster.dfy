/** The master as it runs (tetrisd/main.c): tables updated in place by loops, each handler
    proved to make the step that module Hub describes. */
module HubMaster {
  import opened Hub

  class MasterProcess {
    const config: Config
    const rooms: array<Room>
    const players: array<PlayerRec>
    var playerCount: nat
    var roomSeq: nat
    var matchEnded: bool
    var closed: seq<nat>
    var announced: seq<nat>

    ghost predicate Valid()
      reads this, players
    {
      && rooms.Length == config.maxRooms && players.Length == config.maxRooms * config.lobby
      && playerCount <= players.Length && forall k | 0 <= k < playerCount :: players[k].room < rooms.Length
    }

    ghost function View(): Master
      requires Valid()
      reads this, rooms, players
    {
      Master(rooms[..], players[..playerCount], roomSeq, matchEnded, closed, announced)
    }

    constructor (c: Config)
      ensures Valid() && View() == Initial(c).master && config == c
    {
      config := c;
      rooms := new Room[c.maxRooms](i => Room(false, false, false, 0, 0, 0, [], [], 0));
      players := new PlayerRec[c.maxRooms * c.lobby](i => PlayerRec(0, 0, false));
      playerCount, roomSeq, matchEnded, closed, announced := 0, 0, false, [], [];
      new;
      assert rooms[..] == Initial(c).master.rooms;
    }

    /** Sends `msg` to one room. */
    method Send(i: nat, msg: DownMsg)
      requires i < rooms.Length
      modifies rooms
      ensures rooms[..] == old(rooms[..])[i := old(rooms[i]).(sent := old(rooms[i]).sent + [msg])]
    {
      rooms[i] := rooms[i].(sent := rooms[i].sent + [msg]);
    }

    method BroadcastRunning(msg: DownMsg, but: int)
      modifies rooms
      ensures rooms[..] == ToRunning(old(rooms[..]), msg, but)
    {
      for i := 0 to rooms.Length
        invariant forall k | 0 <= k < i :: rooms[k] == SentTo(old(rooms[k]), msg, Running(old(rooms[k])) && k != but)
        invariant forall k | i <= k < rooms.Length :: rooms[k] == old(rooms[k])
      {
        if i != but && rooms[i].used && rooms[i].started {
          Send(i, msg);
        }
      }
    }

    method BroadcastRoster()
      requires Valid()
      modifies rooms
      ensures Valid() && View() == RosterSent(old(View()))
    {
      var standing: seq<(nat, bool)> := [];
      ghost var ps := players[..playerCount];
      for i := 0 to playerCount
        invariant |standing| == i && forall k | 0 <= k < i :: standing[k] == (ps[k].id, ps[k].alive)
      {
        standing := standing + [(players[i].id, players[i].alive)];
      }
      assert GlobalRoster(standing) == RosterOf(ps);
      BroadcastRunning(GlobalRoster(standing), -1);
    }

    method StartRoom(slot: nat)
      requires Valid() && slot < rooms.Length
      modifies rooms
      ensures Valid() && View() == RoomStarted(old(View()), slot)
    {
      if !rooms[slot].used || rooms[slot].started || rooms[slot].joined < 1 {
        return;
      }
      Send(slot, Start(rooms[slot].redirected));
      rooms[slot] := rooms[slot].(started := true);
      ghost var room := old(rooms[slot]);
      assert rooms[..] == old(rooms[..])[slot := room.(sent := room.sent + [Start(room.redirected)], started := true)];
      BroadcastRoster();
    }

    method StartAllRooms()
      requires Valid()
      modifies rooms
      ensures Valid() && View() == AllStarted(old(View()), rooms.Length)
    {
      for i := 0 to rooms.Length
        invariant View() == AllStarted(old(View()), i)
      {
        StartRoom(i);
      }
    }

    method CountAlive() returns (alive: nat, lastAlive: nat)
      requires Valid()
      ensures alive == AliveCount(players[..playerCount]) && lastAlive == LastAlive(players[..playerCount])
    {
      alive, lastAlive := 0, 0;
      for i := 0 to playerCount
        invariant alive == AliveCount(players[..i]) && lastAlive == LastAlive(players[..i])
      {
        assert players[..i + 1][..i] == players[..i];
        if players[i].alive {
          alive := alive + 1;
          lastAlive := players[i].id;
        }
      }
    }

    method AnnounceTo(msg: DownMsg)
      modifies rooms
      ensures rooms[..] == ToUsed(old(rooms[..]), msg)
    {
      for i := 0 to rooms.Length
        invariant forall k | 0 <= k < i :: rooms[k] == SentTo(old(rooms[k]), msg, old(rooms[k]).used)
        invariant forall k | i <= k < rooms.Length :: rooms[k] == old(rooms[k])
      {
        if rooms[i].used {
          Send(i, msg);
        }
      }
    }

    method CheckGlobalEnd()
      requires Valid()
      modifies this`matchEnded, this`announced, rooms
      ensures Valid() && View() == EndChecked(old(View()))
    {
      if matchEnded || playerCount == 0 {
        return;
      }
      var alive, lastAlive := CountAlive();
      var over := if playerCount >= 2 then alive <= 1 else alive == 0;
      if !over {
        return;
      }
      matchEnded := true;
      var winner := if alive == 1 then lastAlive else 0;
      AnnounceTo(GameOver(winner));
      announced := announced + [winner];
    }

    method CloseRoom(slot: nat)
      requires Valid() && slot < rooms.Length
      modifies this`closed, this`matchEnded, this`announced, rooms, players
      ensures Valid() && View() == RoomClosed(old(View()), slot)
    {
      hide EndChecked, RosterSent, RoomKilled;
      ghost var m := View();
      ghost var kept := m.rooms[slot := m.rooms[slot].(used := false)];
      closed := closed + rooms[slot].pending;
      rooms[slot] := rooms[slot].(used := false);
      assert rooms[..] == kept;
      if matchEnded {
        return;
      }
      var changed := MarkRoomOut(slot);
      if changed {
        assert View() == m.(rooms := kept, closed := m.closed + m.rooms[slot].pending,
                            players := RoomKilled(m.players, slot));
        BroadcastRoster();
        CheckGlobalEnd();
      }
    }

    /** Takes down the alive flag of everybody in a slot's room. */
    method MarkRoomOut(slot: nat) returns (changed: bool)
      requires Valid()
      modifies players
      ensures Valid() && players[..playerCount] == RoomKilled(old(players[..playerCount]), slot)
      ensures changed == (players[..playerCount] != old(players[..playerCount]))
    {
      changed := false;
      ghost var ps := players[..playerCount];
      for i := 0 to playerCount
        invariant forall k | 0 <= k < playerCount ::
          players[k] == if k < i && ps[k].room == slot then ps[k].(alive := false) else ps[k]
        invariant changed == exists k :: 0 <= k < i && ps[k].room == slot && ps[k].alive
      {
        if players[i].room == slot && players[i].alive {
          players[i] := players[i].(alive := false);
          changed := true;
        }
      }
      assert players[..playerCount] == RoomKilled(ps, slot);
      if changed {
        ghost var k :| 0 <= k < playerCount && ps[k].room == slot && ps[k].alive;
        assert players[..playerCount][k] != ps[k];
      }
    }

    method MarkOut(id: nat)
      requires Valid()
      modifies players
      ensures Valid() && players[..playerCount] == Killed(old(players[..playerCount]), id)
    {
      ghost var ps := players[..playerCount];
      for i := 0 to playerCount
        invariant forall k | 0 <= k < playerCount ::
          players[k] == if k < i && ps[k].id == id then ps[k].(alive := false) else ps[k]
      {
        if players[i].id == id {
          players[i] := players[i].(alive := false);
        }
      }
    }

    method RouteAttack(a: Attack)
      requires Valid()
      modifies rooms
      ensures Valid()
      ensures var m := old(View());
              var t := RouteOf(m, a.victim);
              View() == if t < |m.rooms|
                  then m.(rooms := m.rooms[t := m.rooms[t].(sent := m.rooms[t].sent + [Garbage(a)])]) else m
    {
      ghost var ps := players[..playerCount];
      for i := 0 to playerCount
        invariant rooms[..] == old(rooms[..])
        invariant FindAlive(ps, a.victim, i) == FindAlive(ps, a.victim, 0)
      {
        if players[i].id != a.victim || !players[i].alive {
          continue;
        }
        var target := players[i].room;
        if rooms[target].used && rooms[target].started {
          Send(target, Garbage(a));
        }
        return;
      }
    }

    method HandleHubMsg(slot: nat, msg: UpMsg)
      requires Valid() && slot < rooms.Length
      modifies this, rooms, players
      ensures Valid() && View() == Handled(config, old(View()), slot, msg)
    {
      match msg {
        case Ready =>
          closed := closed + rooms[slot].pending;
          rooms[slot] := rooms[slot].(ready := true, pending := []);
        case Joined(id) => HandleJoin(slot, id);
        case Eliminated(id) =>
          MarkOut(id);
          BroadcastRoster();
          CheckGlobalEnd();
        case AttackOut(a) => RouteAttack(a);
        case FeedOut(a) => BroadcastRunning(Feed(a), slot);
      }
    }

    method HandleJoin(slot: nat, id: nat)
      requires Valid() && slot < rooms.Length
      modifies this`playerCount, rooms, players
      ensures Valid() && View() == Handled(config, old(View()), slot, Joined(id))
    {
      ghost var m := View();
      ghost var ps := if |m.players| < config.maxRooms * config.lobby then m.players + [PlayerRec(id, slot, true)]
          else m.players;
      if playerCount < players.Length {
        players[playerCount] := PlayerRec(id, slot, true);
        playerCount := playerCount + 1;
      }
      rooms[slot] := rooms[slot].(joined := rooms[slot].joined + 1);
      assert View() == m.(players := ps, rooms := m.rooms[slot := m.rooms[slot].(joined := m.rooms[slot].joined + 1)]);
      BroadcastRoster();
      if playerCount >= config.roomSize * config.maxRooms {
        StartAllRooms();
      }
    }

    method SpawnRoom(forkOk: bool) returns (slot: nat)
      requires Valid()
      modifies this`roomSeq, rooms
      ensures Valid()
      ensures var m := old(View());
              var free := FirstUnused(m.rooms, 0);
              if free < |m.rooms| && forkOk then View() == RoomSpawned(m, free) && slot == free
              else View() == m && slot == |m.rooms|
    {
      slot := 0;
      while slot < rooms.Length && rooms[slot].used
        invariant slot <= rooms.Length
        invariant FirstUnused(rooms[..], slot) == FirstUnused(rooms[..], 0)
      {
        slot := slot + 1;
      }
      if slot == rooms.Length || !forkOk {
        return rooms.Length;
      }
      rooms[slot] := Room(true, false, false, roomSeq, 0, 0, [], [], 0);
      roomSeq := roomSeq + 1;
    }

    method FillingRoom(forkOk: bool) returns (slot: nat)
      requires Valid()
      modifies this`roomSeq, rooms
      ensures Valid() && (View(), slot) == Filling(config, old(View()), forkOk)
    {
      slot := 0;
      while slot < rooms.Length
        invariant slot <= rooms.Length
        invariant FirstOpen(config, rooms[..], slot) == FirstOpen(config, rooms[..], 0)
      {
        if rooms[slot].used && !rooms[slot].started && rooms[slot].redirected < config.roomSize {
          return;
        }
        slot := slot + 1;
      }
      slot := SpawnRoom(forkOk);
    }

    method AcceptClient(sock: nat, forkOk: bool)
      requires Valid()
      modifies this`roomSeq, this`closed, rooms
      ensures Valid() && View() == Accepted(config, old(View()), sock, forkOk)
    {
      var slot := FillingRoom(forkOk);
      if slot == rooms.Length {
        closed := closed + [sock];
        return;
      }
      var room := rooms[slot];
      if room.ready {
        closed := closed + [sock];
      } else if |room.pending| < config.lobby {
        rooms[slot] := room.(pending := room.pending + [sock]);
      } else {
        closed := closed + [sock];
        return;
      }
      rooms[slot] := rooms[slot].(redirected := rooms[slot].redirected + 1);
    }
  }
}
