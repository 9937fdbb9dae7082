/** The Bomberman arena in play (libbombbrain/collision.c, bomb_control.c, powerup_control.c,
    bombd/session.c): what every write to the map and every move of a player keeps.
    Positions are real numbers. */
module Arenas {
  import opened Collections
  import opened Spawns
  import opened Maps
  import opened Bombs

  const BOX_W: real := 0.42
  const BOX_H: real := 0.85
  const OFFSET_X: real := 0.35
  const OFFSET_Y: real := 0.10
  const SPEED: real := 3.0
  const SPRINT_SPEED: real := 5.5
  const TICK: real := 0.016
  const BOMB_TIMER: real := 1.0
  const EXPLODE_LIFETIME: real := 0.5
  const REPLENISH_TIME: real := 1.0
  const POWERUP_CHANCE := 50

  datatype Box = Box(x: real, y: real)

  datatype Body = Body(active: bool, alive: bool, box: Box, numBombs: int, bombs: int, fires: nat, replenish: real)

  /** What one player does in a tick. */
  datatype Motion = Motion(ux: real, uy: real, sprint: bool)

  type Heading = m: Motion | m.ux * m.ux + m.uy * m.uy <= 1.0 witness Motion(0.0, 0.0, false)

  /** The distance of one tick's movement. */
  function Stride(m: Motion): real {
    (if m.sprint then SPRINT_SPEED else SPEED) * TICK
  }

  // ----- Geometry -----

  function Ceil(x: real): int {
    -((-x).Floor)
  }

  lemma CeilBounds(x: real)
    ensures x <= Ceil(x) as real < x + 1.0
  {}

  function Left(b: Box): int { b.x.Floor }
  function Right(b: Box): int { Ceil(b.x + BOX_W - 0.001) }
  function Top(b: Box): int { b.y.Floor }
  function Bottom(b: Box): int { Ceil(b.y + BOX_H - 0.001) }

  /** The tiles a box lies on. */
  predicate Overlaps(b: Box, t: Tile) {
    Left(b) <= t.0 < Right(b) && Top(b) <= t.1 < Bottom(b)
  }

  function CentreTile(b: Box): Tile {
    ((b.x + BOX_W * 0.5).Floor, (b.y + BOX_H * 0.5).Floor)
  }

  /** A box lies on at least one tile, among them the one under its centre. */
  lemma CentreIsOverlapped(b: Box)
    ensures Overlaps(b, CentreTile(b))
  {}

  predicate WithinMap(b: Box, n: int) {
    0 <= Left(b) && Right(b) <= n && 0 <= Top(b) && Bottom(b) <= n
  }

  /** A box off the border stays within the map when it moves by less than a tile. */
  lemma SmallStepStaysInMap(b: Box, x: real, y: real, n: int)
    requires 1 <= Left(b) && Right(b) <= n - 1 && 1 <= Top(b) && Bottom(b) <= n - 1
    requires -1.0 < x - b.x < 1.0 && -1.0 < y - b.y < 1.0
    ensures WithinMap(Box(x, y), n)
  {
    CeilBounds(x + BOX_W - 0.001);
    CeilBounds(y + BOX_H - 0.001);
  }

  /** One tick at either speed moves less than a tile along each axis. */
  lemma TickIsSmall(ux: real, uy: real, speed: real)
    requires ux * ux + uy * uy <= 1.0 && (speed == SPEED || speed == SPRINT_SPEED)
    ensures -1.0 < ux * (speed * TICK) < 1.0 && -1.0 < uy * (speed * TICK) < 1.0
  {
    UnitPart(ux, uy);
    UnitPart(uy, ux);
    Scaled(ux, speed * TICK);
    Scaled(uy, speed * TICK);
  }

  lemma UnitPart(u: real, v: real)
    requires u * u + v * v <= 1.0
    ensures -1.0 <= u <= 1.0
  {
    assert v * v >= 0.0;
    if u < -1.0 || 1.0 < u {
      BigSquare(u);
    }
  }

  lemma BigSquare(u: real)
    requires u < -1.0 || 1.0 < u
    ensures u * u > 1.0
  {
    if u > 1.0 {
      assert (u - 1.0) * (u + 1.0) > 0.0;
    } else {
      assert (-u - 1.0) * (-u + 1.0) > 0.0;
    }
  }

  lemma Scaled(u: real, d: real)
    requires -1.0 <= u <= 1.0 && 0.0 < d < 1.0
    ensures -1.0 < u * d < 1.0
  {
    TimesNonNegative(1.0 - u, d);
    TimesNonNegative(1.0 + u, d);
    assert (1.0 - u) * d == d - u * d;
    assert (1.0 + u) * d == d + u * d;
  }

  lemma TimesNonNegative(a: real, d: real)
    requires a >= 0.0 && d > 0.0
    ensures a * d >= 0.0
  {}

  function NewBody(t: Tile): Body {
    Body(true, true, Box(t.0 as real + OFFSET_X, t.1 as real + OFFSET_Y), 2, 2, 1, 0.0)
  }

  /** A fresh player's box lies on its spawn tile and on no other. */
  lemma NewBodyOnItsTile(t: Tile)
    ensures Left(NewBody(t).box) == t.0 && Right(NewBody(t).box) == t.0 + 1
    ensures Top(NewBody(t).box) == t.1 && Bottom(NewBody(t).box) == t.1 + 1
    ensures CentreTile(NewBody(t).box) == t
  {
    var b := NewBody(t).box;
    CeilBounds(b.x + BOX_W - 0.001);
    CeilBounds(b.y + BOX_H - 0.001);
    CentreIsOverlapped(b);
  }

  function Stocked(b: Body, fires: nat, more: nat): Body {
    b.(fires := b.fires + fires, numBombs := b.numBombs + more, bombs := b.bombs + more)
  }

  function Replenished(b: Body): Body {
    if b.bombs >= b.numBombs then b
    else if b.replenish - TICK > 0.0 then b.(replenish := b.replenish - TICK)
    else b.(bombs := b.bombs + 1, replenish := REPLENISH_TIME)
  }

  /** The random results left after one is taken. */
  function Later(rolls: seq<nat>): seq<nat> {
    if rolls == [] then [] else rolls[1..]
  }

  /** What is hidden under a block that burns, and the random results left: nothing new, or, in
      just over half the cases, one of the two power-ups. */
  function PowerUp(hidden: Kind, rolls: seq<nat>): (Kind, seq<nat>) {
    if Roll(rolls, 0) % 100 > POWERUP_CHANCE then (hidden, Later(rolls))
    else (if Roll(Later(rolls), 0) % 2 == 0 then PowerFire else PowerBomb, Later(Later(rolls)))
  }

  /** A tile's kind and the power-up hidden there, if any. */
  datatype Spot = Spot(kind: Kind, hidden: Kind)

  /** A spot after this blast has ended: free, or showing what was hidden there. */
  function Ended(b: Blast, t: Tile, s: Spot): Spot {
    if t in b.spread && s.hidden != Empty then Spot(s.hidden, Empty)
    else if InBlastOf(b, t) then s.(kind := Empty)
    else s
  }

  function EndedAt(done: seq<Blast>, t: Tile, s: Spot): Spot {
    if done == [] then s else Ended(done[|done| - 1], t, EndedAt(done[..|done| - 1], t, s))
  }

  lemma NoneEnded()
    ensures forall t: Tile, s: Spot :: EndedAt([], t, s) == s
  {
  }

  /** Where a blast ended nothing burns; elsewhere nothing changed. */
  lemma {:induction false} EndedIsOut(done: seq<Blast>, t: Tile, s: Spot)
    requires s.hidden in {Empty, PowerFire, PowerBomb}
    ensures var e := EndedAt(done, t, s);
            && e.hidden in {Empty, PowerFire, PowerBomb}
            && if InSome(done, t) then e.kind != Explosion else e == s
  {
    if done != [] {
      var n := |done| - 1;
      EndedIsOut(done[..n], t, s);
      OneMoreDone(done[..n], done[n]);
      assert done == done[..n] + [done[n]];
    }
  }

  lemma OneMoreEnded(done: seq<Blast>, b: Blast)
    ensures forall t: Tile, s: Spot :: EndedAt(done + [b], t, s) == Ended(b, t, EndedAt(done, t, s))
  {
    hide Ended;
    assert (done + [b])[..|done|] == done;
  }

  /** A box among these solid tiles: within the map and on none of them. */
  ghost predicate ClearOf(solid: set<Tile>, n: int, b: Box) {
    WithinMap(b, n) && forall r, c | 0 <= r < n && 0 <= c < n && Overlaps(b, (r, c)) :: (r, c) !in solid
  }

  /** Where a player's box is after the movement of a tick among these solid tiles. */
  ghost function MovedAmong(solid: set<Tile>, n: int, b: Body, m: Motion): Box {
    var dx, dy := m.ux * Stride(m), m.uy * Stride(m);
    if b.active && b.alive then
      var x := if ClearOf(solid, n, Box(b.box.x + dx, b.box.y)) then b.box.x + dx else b.box.x;
      Box(x, if ClearOf(solid, n, Box(x, b.box.y + dy)) then b.box.y + dy else b.box.y)
    else b.box
  }

  /** The tiles of this kind. */
  ghost function TilesOf(a: array2<Kind>, k: Kind): set<Tile>
    reads a
  {
    set r, c | 0 <= r < a.Length0 && 0 <= c < a.Length1 && a[r, c] == k :: (r, c)
  }

  // ----- The arena -----

  class Arena {
    const tiles: array2<Kind>
    const powers: array2<Kind>
    var bombs: seq<BombInfo>
    var blasts: seq<Blast>
    var bodies: seq<Body>
    var rolls: seq<nat>
    // The walls and breakable blocks the map was generated with.
    ghost const walls: set<Tile>
    ghost const blocks: set<Tile>

    constructor (tiles': array2<Kind>, bodies': seq<Body>, rolls': seq<nat>, ghost found: seq<Tile>)
      requires tiles'.Length0 == tiles'.Length1
      requires forall r, c | 0 <= r < tiles'.Length0 && 0 <= c < tiles'.Length0 && OnBorder((r, c), tiles'.Length0) ::
        tiles'[r, c] == Wall
      requires |found| == |bodies'|
      requires forall i | 0 <= i < |bodies'| ::
        && InMap(found[i], tiles'.Length0) && tiles'[found[i].0, found[i].1] == Empty
        && bodies'[i] == NewBody(found[i])
      ensures Valid() && tiles == tiles' && bodies == bodies' && bombs == [] && blasts == [] && fresh(powers)
      ensures walls == TilesOf(tiles', Wall) && blocks == TilesOf(tiles', Breakable)
    {
      tiles := tiles';
      powers := new Kind[tiles'.Length0, tiles'.Length0]((i, j) => Empty);
      bombs, blasts, bodies, rolls := [], [], bodies', rolls';
      walls, blocks := TilesOf(tiles', Wall), TilesOf(tiles', Breakable);
      new;
      forall i | 0 <= i < |bodies| ensures Clear(bodies[i].box) {
        NewBodyOnItsTile(found[i]);
      }
    }

    function Size(): int {
      tiles.Length0
    }

    /** Inside the map and not a wall. */
    ghost predicate Open(t: Tile) {
      InMap(t, Size()) && t !in walls
    }

    /** The box lies within the map and on no solid tile. */
    ghost predicate Clear(b: Box)
      reads tiles
    {
      && WithinMap(b, Size()) && tiles.Length1 == Size()
      && forall r, c | 0 <= r < Size() && 0 <= c < Size() && Overlaps(b, (r, c)) :: !SolidKind(tiles[r, c])
    }

    ghost predicate MapOk()
      reads tiles, powers
    {
      && tiles.Length0 == tiles.Length1 == powers.Length0 == powers.Length1
      && (forall r, c | 0 <= r < Size() && 0 <= c < Size() ::
            && (tiles[r, c] == Wall <==> (r, c) in walls)
            && (tiles[r, c] == Breakable ==> (r, c) in blocks)
            && (OnBorder((r, c), Size()) ==> (r, c) in walls)
            && powers[r, c] in {Empty, PowerFire, PowerBomb})
    }

    ghost predicate BlastOk(b: Blast) {
      Open(b.center) && forall t | t in b.spread :: Open(t)
    }

    ghost predicate QueuesOk()
      reads this
    {
      (forall b | b in bombs :: Open(b.pos)) && (forall b | b in blasts :: BlastOk(b))
    }

    /** Walls are where they were generated, nothing new is solid, the border is wall, bombs
        and blasts are on open tiles, and every live player stands clear. */
    ghost predicate Valid()
      reads this, tiles, powers
    {
      && MapOk() && QueuesOk() && tiles != powers
      && forall i | 0 <= i < |bodies| && bodies[i].active && bodies[i].alive :: Clear(bodies[i].box)
    }

    lemma ClearIsOffBorder(b: Box)
      requires MapOk() && Clear(b)
      ensures 1 <= Left(b) && Right(b) <= Size() - 1 && 1 <= Top(b) && Bottom(b) <= Size() - 1
    {
      var n := Size();
      var t := CentreTile(b);
      CentreIsOverlapped(b);
      assert tiles[0, t.1] == Wall && tiles[n - 1, t.1] == Wall && tiles[t.0, 0] == Wall && tiles[t.0, n - 1] == Wall;
      assert !Overlaps(b, (0, t.1)) && !Overlaps(b, (n - 1, t.1));
      assert !Overlaps(b, (t.0, 0)) && !Overlaps(b, (t.0, n - 1));
    }

    /** Nothing that was not solid is solid now. */
    twostate predicate Softer()
      reads tiles
    {
      forall r, c | 0 <= r < tiles.Length0 && 0 <= c < tiles.Length1 ::
        SolidKind(tiles[r, c]) ==> SolidKind(old(tiles[r, c]))
    }

    /** Who stood clear still does. */
    twostate lemma SofterKeepsClear(b: Box)
      requires old(Clear(b)) && Softer()
      ensures Clear(b)
    {}

    // ----- Every write to the map -----

    /** The only way the map changes: an open tile becomes something that is not solid. */
    method SetTile(t: Tile, k: Kind)
      requires Valid() && Open(t) && !SolidKind(k)
      modifies tiles
      ensures Valid() && Softer()
      ensures forall r, c | 0 <= r < Size() && 0 <= c < Size() ::
        tiles[r, c] == if (r, c) == t then k else old(tiles[r, c])
    {
      tiles[t.0, t.1] := k;
      forall i | 0 <= i < |bodies| && bodies[i].active && bodies[i].alive ensures Clear(bodies[i].box) {
        SofterKeepsClear(bodies[i].box);
      }
    }

    method NextRoll() returns (r: nat)
      modifies this`rolls
      ensures r == Roll(old(rolls), 0) && rolls == Later(old(rolls))
    {
      if rolls == [] {
        return 0;
      }
      r := rolls[0];
      rolls := rolls[1..];
    }

    method RandomisePowerup(t: Tile)
      requires Valid() && InMap(t, Size())
      modifies this`rolls, powers
      ensures Valid()
      ensures forall r, c | 0 <= r < Size() && 0 <= c < Size() && (r, c) != t :: powers[r, c] == old(powers[r, c])
      ensures (powers[t.0, t.1], rolls) == PowerUp(old(powers[t.0, t.1]), old(rolls))
    {
      var rng := NextRoll();
      if rng % 100 > POWERUP_CHANCE {
        return;
      }
      var kind := NextRoll();
      if kind % 2 == 0 {
        powers[t.0, t.1] := PowerFire;
      } else {
        powers[t.0, t.1] := PowerBomb;
      }
    }

    /** The tile burns; under a breakable block a power-up may be hidden. */
    method HandleSpread(t: Tile)
      requires Valid() && Open(t)
      modifies this`rolls, powers, tiles
      ensures Valid() && Softer() && Burnt({t})
      ensures forall r, c | 0 <= r < Size() && 0 <= c < Size() && ((r, c) != t || old(tiles[r, c]) != Breakable) ::
        powers[r, c] == old(powers[r, c])
      ensures if old(tiles[t.0, t.1]) == Breakable
              then (powers[t.0, t.1], rolls) == PowerUp(old(powers[t.0, t.1]), old(rolls))
              else rolls == old(rolls)
    {
      if tiles[t.0, t.1] == Breakable {
        RandomisePowerup(t);
      }
      SetTile(t, Explosion);
    }

    /** Exactly these tiles have been set on fire. */
    twostate predicate Burnt(ts: set<Tile>)
      requires tiles.Length0 == tiles.Length1
      reads tiles
    {
      forall r, c | 0 <= r < Size() && 0 <= c < Size() ::
        tiles[r, c] == if (r, c) in ts then Explosion else old(tiles[r, c])
    }

    ghost predicate Stops(t: Tile) {
      t.0 <= 0 || t.1 <= 0 || t.0 >= Size() || t.1 >= Size() || t in walls
    }

    lemma StopsAt(t: Tile)
      requires MapOk()
      ensures Stops(t) <==> t.0 <= 0 || t.1 <= 0 || t.0 >= Size() || t.1 >= Size() || tiles[t.0, t.1] == Wall
      ensures !Stops(t) ==> Open(t)
    {
    }

    /** The tiles fire reaches in one direction: up to `reach` of them, before the first wall. */
    ghost function Ray(pos: Tile, dx: int, dy: int, reach: nat): (ts: seq<Tile>)
      ensures |ts| <= reach && forall t | t in ts :: Open(t)
    {
      if reach == 0 then []
      else
        var ts := Ray(pos, dx, dy, reach - 1);
        var t := (pos.0 + reach * dx, pos.1 + reach * dy);
        if |ts| < reach - 1 || Stops(t) then ts else ts + [t]
    }

    ghost function Cross(b: BombInfo): seq<Tile> {
      Ray(b.pos, 0, -1, b.spread) + Ray(b.pos, 0, 1, b.spread) + Ray(b.pos, -1, 0, b.spread)
          + Ray(b.pos, 1, 0, b.spread)
    }

    /** A ray cut short stays cut short. */
    lemma {:induction false} RayEnds(pos: Tile, dx: int, dy: int, i: nat, reach: nat)
      requires i <= reach && |Ray(pos, dx, dy, i)| < i
      ensures Ray(pos, dx, dy, reach) == Ray(pos, dx, dy, i)
      decreases reach - i
    {
      if i < reach {
        RayEnds(pos, dx, dy, i + 1, reach);
      }
    }

    // ----- Whom fire reaches, direction by direction -----

    // Where each of the four loops ends.

    ghost predicate EndsUp(x: int, y: int)
      requires MapOk() && 0 <= x < Size() && y < Size()
      reads tiles, powers
    {
      y <= 0 || tiles[x, y] == Wall
    }

    ghost predicate EndsDown(x: int, y: int)
      requires MapOk() && 0 <= x < Size() && 0 <= y
      reads tiles, powers
    {
      y >= Size() || tiles[x, y] == Wall
    }

    ghost predicate EndsLeft(x: int, y: int)
      requires MapOk() && 0 <= y < Size() && x < Size()
      reads tiles, powers
    {
      x <= 0 || tiles[x, y] == Wall
    }

    ghost predicate EndsRight(x: int, y: int)
      requires MapOk() && 0 <= y < Size() && 0 <= x
      reads tiles, powers
    {
      x >= Size() || tiles[x, y] == Wall
    }

    /** `t` is above the bomb within its reach, and no tile from the bomb's up to `t` stops fire. */
    ghost predicate FireUp(b: BombInfo, t: Tile)
      requires MapOk() && Open(b.pos)
      reads tiles, powers
    {
      t.0 == b.pos.0 && 1 <= b.pos.1 - t.1 <= b.spread
      && forall y | t.1 <= y < b.pos.1 :: !EndsUp(b.pos.0, y)
    }

    ghost predicate FireDown(b: BombInfo, t: Tile)
      requires MapOk() && Open(b.pos)
      reads tiles, powers
    {
      t.0 == b.pos.0 && 1 <= t.1 - b.pos.1 <= b.spread
      && forall y | b.pos.1 < y <= t.1 :: !EndsDown(b.pos.0, y)
    }

    ghost predicate FireLeft(b: BombInfo, t: Tile)
      requires MapOk() && Open(b.pos)
      reads tiles, powers
    {
      t.1 == b.pos.1 && 1 <= b.pos.0 - t.0 <= b.spread
      && forall x | t.0 <= x < b.pos.0 :: !EndsLeft(x, b.pos.1)
    }

    ghost predicate FireRight(b: BombInfo, t: Tile)
      requires MapOk() && Open(b.pos)
      reads tiles, powers
    {
      t.1 == b.pos.1 && 1 <= t.0 - b.pos.0 <= b.spread
      && forall x | b.pos.0 < x <= t.0 :: !EndsRight(x, b.pos.1)
    }

    ghost predicate Reached(b: BombInfo, t: Tile)
      requires MapOk() && Open(b.pos)
      reads tiles, powers
    {
      FireUp(b, t) || FireDown(b, t) || FireLeft(b, t) || FireRight(b, t)
    }

    function StepTo(pos: Tile, dx: int, dy: int, i: int): Tile {
      (pos.0 + i * dx, pos.1 + i * dy)
    }

    /** A ray is the tiles step by step, none of which stops fire; if it is short, the next does. */
    lemma {:induction false} RaySteps(pos: Tile, dx: int, dy: int, reach: nat)
      ensures var ts := Ray(pos, dx, dy, reach);
              && (forall k | 0 <= k < |ts| :: ts[k] == StepTo(pos, dx, dy, k + 1) && !Stops(ts[k]))
              && (|ts| < reach ==> Stops(StepTo(pos, dx, dy, |ts| + 1)))
    {
      hide Stops;
      if reach > 0 {
        RaySteps(pos, dx, dy, reach - 1);
      }
    }

    lemma InRay(pos: Tile, dx: int, dy: int, reach: nat, t: Tile)
      ensures t in Ray(pos, dx, dy, reach) <==>
              exists i :: 1 <= i <= reach && t == StepTo(pos, dx, dy, i)
                          && forall j | 1 <= j <= i :: !Stops(StepTo(pos, dx, dy, j))
    {
      hide Stops, Ray, StepTo;
      RaySteps(pos, dx, dy, reach);
      var ts := Ray(pos, dx, dy, reach);
      if t in ts {
        var k :| 0 <= k < |ts| && ts[k] == t;
        forall j | 1 <= j <= k + 1 ensures !Stops(StepTo(pos, dx, dy, j)) {
          assert ts[j - 1] == StepTo(pos, dx, dy, j);
        }
        assert t == StepTo(pos, dx, dy, k + 1);
      }
      if i :| 1 <= i <= reach && t == StepTo(pos, dx, dy, i) && (forall j | 1 <= j <= i ::
        !Stops(StepTo(pos, dx, dy, j))) {
        assert ts[i - 1] == t;
      }
    }

    lemma UpRay(b: BombInfo, t: Tile)
      requires MapOk() && Open(b.pos)
      ensures t in Ray(b.pos, 0, -1, b.spread) <==> FireUp(b, t)
    {
      hide Ray;
      InRay(b.pos, 0, -1, b.spread, t);
      forall j | 1 <= j ensures StepTo(b.pos, 0, -1, j) == (b.pos.0, b.pos.1 - j)
          && (Stops(StepTo(b.pos, 0, -1, j)) <==> EndsUp(b.pos.0, b.pos.1 - j)) {
        StopsAt((b.pos.0, b.pos.1 - j));
      }
      hide Stops, StepTo, EndsUp;
      if t in Ray(b.pos, 0, -1, b.spread) {
        forall y | t.1 <= y < b.pos.1 ensures !EndsUp(b.pos.0, y) {
          assert b.pos.1 - (b.pos.1 - y) == y && !Stops(StepTo(b.pos, 0, -1, b.pos.1 - y));
        }
      }
      if FireUp(b, t) {
        forall j | 1 <= j <= b.pos.1 - t.1 ensures !Stops(StepTo(b.pos, 0, -1, j)) {
          assert !EndsUp(b.pos.0, b.pos.1 - j);
        }
        assert t == StepTo(b.pos, 0, -1, b.pos.1 - t.1);
      }
    }

    lemma DownRay(b: BombInfo, t: Tile)
      requires MapOk() && Open(b.pos)
      ensures t in Ray(b.pos, 0, 1, b.spread) <==> FireDown(b, t)
    {
      hide Ray;
      InRay(b.pos, 0, 1, b.spread, t);
      forall j | 1 <= j ensures StepTo(b.pos, 0, 1, j) == (b.pos.0, b.pos.1 + j)
          && (Stops(StepTo(b.pos, 0, 1, j)) <==> EndsDown(b.pos.0, b.pos.1 + j)) {
        StopsAt((b.pos.0, b.pos.1 + j));
      }
      hide Stops, StepTo, EndsDown;
      if t in Ray(b.pos, 0, 1, b.spread) {
        forall y | b.pos.1 < y <= t.1 ensures !EndsDown(b.pos.0, y) {
          assert b.pos.1 + (y - b.pos.1) == y && !Stops(StepTo(b.pos, 0, 1, y - b.pos.1));
        }
      }
      if FireDown(b, t) {
        forall j | 1 <= j <= t.1 - b.pos.1 ensures !Stops(StepTo(b.pos, 0, 1, j)) {
          assert !EndsDown(b.pos.0, b.pos.1 + j);
        }
        assert t == StepTo(b.pos, 0, 1, t.1 - b.pos.1);
      }
    }

    lemma LeftRay(b: BombInfo, t: Tile)
      requires MapOk() && Open(b.pos)
      ensures t in Ray(b.pos, -1, 0, b.spread) <==> FireLeft(b, t)
    {
      hide Ray;
      InRay(b.pos, -1, 0, b.spread, t);
      forall j | 1 <= j ensures StepTo(b.pos, -1, 0, j) == (b.pos.0 - j, b.pos.1)
          && (Stops(StepTo(b.pos, -1, 0, j)) <==> EndsLeft(b.pos.0 - j, b.pos.1)) {
        StopsAt((b.pos.0 - j, b.pos.1));
      }
      hide Stops, StepTo, EndsLeft;
      if t in Ray(b.pos, -1, 0, b.spread) {
        forall x | t.0 <= x < b.pos.0 ensures !EndsLeft(x, b.pos.1) {
          assert b.pos.0 - (b.pos.0 - x) == x && !Stops(StepTo(b.pos, -1, 0, b.pos.0 - x));
        }
      }
      if FireLeft(b, t) {
        forall j | 1 <= j <= b.pos.0 - t.0 ensures !Stops(StepTo(b.pos, -1, 0, j)) {
          assert !EndsLeft(b.pos.0 - j, b.pos.1);
        }
        assert t == StepTo(b.pos, -1, 0, b.pos.0 - t.0);
      }
    }

    lemma RightRay(b: BombInfo, t: Tile)
      requires MapOk() && Open(b.pos)
      ensures t in Ray(b.pos, 1, 0, b.spread) <==> FireRight(b, t)
    {
      hide Ray;
      InRay(b.pos, 1, 0, b.spread, t);
      forall j | 1 <= j ensures StepTo(b.pos, 1, 0, j) == (b.pos.0 + j, b.pos.1)
          && (Stops(StepTo(b.pos, 1, 0, j)) <==> EndsRight(b.pos.0 + j, b.pos.1)) {
        StopsAt((b.pos.0 + j, b.pos.1));
      }
      hide Stops, StepTo, EndsRight;
      if t in Ray(b.pos, 1, 0, b.spread) {
        forall x | b.pos.0 < x <= t.0 ensures !EndsRight(x, b.pos.1) {
          assert b.pos.0 + (x - b.pos.0) == x && !Stops(StepTo(b.pos, 1, 0, x - b.pos.0));
        }
      }
      if FireRight(b, t) {
        forall j | 1 <= j <= t.0 - b.pos.0 ensures !Stops(StepTo(b.pos, 1, 0, j)) {
          assert !EndsRight(b.pos.0 + j, b.pos.1);
        }
        assert t == StepTo(b.pos, 1, 0, t.0 - b.pos.0);
      }
    }

    /** The tiles of a blast are exactly those in the bomb's column or row, at a distance of one
        up to its reach, with no tile between that stops fire. */
    lemma CrossIsReached(b: BombInfo)
      requires MapOk() && Open(b.pos)
      ensures forall t: Tile :: t in Cross(b) <==> Reached(b, t)
    {
      hide Ray, FireUp, FireDown, FireLeft, FireRight;
      forall t: Tile ensures t in Cross(b) <==> Reached(b, t) {
        UpRay(b, t);
        DownRay(b, t);
        LeftRay(b, t);
        RightRay(b, t);
      }
    }

    /** Spreads fire in one direction until a wall stops it. */
    method SpreadAlong(pos: Tile, dx: int, dy: int, reach: nat) returns (spread: seq<Tile>)
      requires Valid()
      modifies this`rolls, powers, tiles
      ensures Valid() && Softer() && spread == Ray(pos, dx, dy, reach) && Burnt(set t | t in spread)
    {
      hide Clear, Stops, PowerUp;
      spread := [];
      for i := 1 to reach + 1
        invariant Valid() && Softer() && spread == Ray(pos, dx, dy, i - 1) && |spread| == i - 1
        invariant Burnt(set t | t in spread)
      {
        var t := (pos.0 + i * dx, pos.1 + i * dy);
        StopsAt(t);
        if t.0 <= 0 || t.1 <= 0 || t.0 >= Size() || t.1 >= Size() || tiles[t.0, t.1] == Wall {
          RayEnds(pos, dx, dy, i, reach);
          break;
        }
        HandleSpread(t);
        spread := spread + [t];
      }
    }

    /** Fire in all four directions; the blast remembers where. */
    method TriggerExplosion(bomb: BombInfo)
      requires Valid() && Open(bomb.pos)
      modifies this`rolls, this`blasts, powers, tiles
      ensures Valid() && Softer() && Burnt(set t | t in Cross(bomb))
      ensures blasts == Enqueued(old(blasts), BlastOf(bomb))
      ensures forall r, c | 0 <= r < Size() && 0 <= c < Size() ::
        tiles[r, c] == if old(Reached(bomb, (r, c))) then Explosion else old(tiles[r, c])
      ensures |old(blasts)| < QUEUE_SIZE ==>
                |blasts| > 0 && forall r, c :: (r, c) in blasts[|blasts| - 1].spread <==> old(Reached(bomb, (r, c)))
    {
      hide Ray;
      CrossIsReached(bomb);
      var up := SpreadAlong(bomb.pos, 0, -1, bomb.spread);
      var down := SpreadAlong(bomb.pos, 0, 1, bomb.spread);
      var left := SpreadAlong(bomb.pos, -1, 0, bomb.spread);
      var right := SpreadAlong(bomb.pos, 1, 0, bomb.spread);
      var blast := Blast(bomb.pos, up + down + left + right, EXPLODE_LIFETIME);
      if |blasts| < QUEUE_SIZE {
        blasts := blasts + [blast];
      }
    }

    ghost function BlastOf(b: BombInfo): Blast {
      Blast(b.pos, Cross(b), EXPLODE_LIFETIME)
    }

    ghost function AllEnqueued(bs: seq<Blast>, exploded: seq<BombInfo>): seq<Blast> {
      if exploded == [] then bs
      else Enqueued(AllEnqueued(bs, exploded[..|exploded| - 1]), BlastOf(exploded[|exploded| - 1]))
    }

    /** Every tile is as before, or was put out or set on fire. */
    twostate predicate OnlyFire()
      requires tiles.Length0 == tiles.Length1
      reads tiles
    {
      forall r, c | 0 <= r < Size() && 0 <= c < Size() ::
        tiles[r, c] == old(tiles[r, c]) || tiles[r, c] == Empty || tiles[r, c] == Explosion
    }

    /** What a tile that held `k` holds after one detonation. */
    ghost function Blown(expired: Tile, b: BombInfo, t: Tile, k: Kind): Kind {
      if t in Cross(b) then Explosion else if t == expired then Empty else k
    }

    /** What a tile that holds `k` when bomb `i` is to be handled holds after the tick. */
    ghost function BurntTile(bs: seq<BombInfo>, i: nat, dt: real, t: Tile, k: Kind): Kind
      requires i <= |bs|
      decreases |bs| - i
    {
      if i == |bs| then k
      else
        var b := bs[i].(timer := bs[i].timer - dt);
        var last := bs[i := b][|bs| - 1];
        if b.timer <= 0.0 then BurntTile(bs[i := b][i := last][..|bs| - 1], i, dt, t, Blown(b.pos, last, t, k))
        else BurntTile(bs[i := b], i + 1, dt, t, k)
    }

    /** Bombs burn down; a finished one is replaced by the last in the queue, and it is the
        entry now in its place that explodes. */
    method TickBombs(dt: real)
      requires Valid()
      modifies this`rolls, this`blasts, this`bombs, powers, tiles
      ensures Valid() && Softer() && OnlyFire()
      ensures bombs == BurntDown(old(bombs), 0, dt).0
      ensures blasts == AllEnqueued(old(blasts), BurntDown(old(bombs), 0, dt).1)
      ensures forall r, c | 0 <= r < Size() && 0 <= c < Size() ::
        tiles[r, c] == BurntTile(old(bombs), 0, dt, (r, c), old(tiles[r, c]))
    {
      hide Ray, Cross, Clear, BurntDown, AllEnqueued, Enqueued, BlastOk, BurntTile, Blown, BlastOf;
      var i := 0;
      ghost var gone: seq<BombInfo> := [];
      assert gone + BurntDown(bombs, 0, dt).1 == BurntDown(bombs, 0, dt).1;
      NoneExploded(blasts, gone);
      while i < |bombs|
        invariant 0 <= i <= |bombs| && Valid() && Softer()
        invariant BurntDown(old(bombs), 0, dt).0 == BurntDown(bombs, i, dt).0
        invariant BurntDown(old(bombs), 0, dt).1 == gone + BurntDown(bombs, i, dt).1
        invariant blasts == AllEnqueued(old(blasts), gone)
        invariant forall r, c | 0 <= r < Size() && 0 <= c < Size() ::
          BurntTile(bombs, i, dt, (r, c), tiles[r, c]) == BurntTile(old(bombs), 0, dt, (r, c), old(tiles[r, c]))
        decreases |bombs| - i
      {
        BurnOne(bombs, i, dt, gone);
        BurnOneTile(bombs, i, dt);
        var bomb := bombs[i].(timer := bombs[i].timer - dt);
        bombs := bombs[i := bomb];
        if bomb.timer <= 0.0 {
          ghost var inPlace := bombs[|bombs| - 1];
          OneMoreBlast(old(blasts), gone, inPlace);
          Detonate(i);
          gone := gone + [inPlace];
        } else {
          i := i + 1;
        }
      }
      NoneLeft(bombs, dt, gone);
      BurnNoTile(bombs, dt);
      forall r, c | 0 <= r < Size() && 0 <= c < Size()
        ensures tiles[r, c] == old(tiles[r, c]) || tiles[r, c] == Empty || tiles[r, c] == Explosion
      {
        BurntIsFire(old(bombs), 0, dt, (r, c), old(tiles[r, c]));
      }
    }

    lemma {:induction false} BurntIsFire(bs: seq<BombInfo>, i: nat, dt: real, t: Tile, k: Kind)
      requires i <= |bs|
      ensures BurntTile(bs, i, dt, t, k) in {k, Empty, Explosion}
      decreases |bs| - i
    {
      if i < |bs| {
        var b := bs[i].(timer := bs[i].timer - dt);
        var last := bs[i := b][|bs| - 1];
        if b.timer <= 0.0 {
          BurntIsFire(bs[i := b][i := last][..|bs| - 1], i, dt, t, Blown(b.pos, last, t, k));
        } else {
          BurntIsFire(bs[i := b], i + 1, dt, t, k);
        }
      }
    }

    lemma BurnOneTile(bs: seq<BombInfo>, i: nat, dt: real)
      requires i < |bs|
      ensures var b := bs[i].(timer := bs[i].timer - dt);
              var last := bs[i := b][|bs| - 1];
              forall t: Tile, k: Kind :: BurntTile(bs, i, dt, t, k) ==
                if b.timer <= 0.0 then BurntTile(bs[i := b][i := last][..|bs| - 1], i, dt, t, Blown(b.pos, last, t, k))
                else BurntTile(bs[i := b], i + 1, dt, t, k)
    {
      hide Blown;
    }

    lemma BurnNoTile(bs: seq<BombInfo>, dt: real)
      ensures forall t: Tile, k: Kind :: BurntTile(bs, |bs|, dt, t, k) == k
    {
    }

    /** The bomb in place `i` leaves the map and the queue; the entry that takes its place
        goes off. */
    method Detonate(i: nat)
      requires Valid() && i < |bombs|
      modifies this`rolls, this`blasts, this`bombs, powers, tiles
      ensures Valid() && Softer() && OnlyFire()
      ensures var last := |old(bombs)| - 1;
              bombs == old(bombs)[i := old(bombs)[last]][..last]
                  && blasts == Enqueued(old(blasts), BlastOf(old(bombs)[last]))
      ensures forall r, c | 0 <= r < Size() && 0 <= c < Size() ::
        tiles[r, c] == Blown(old(bombs[i]).pos, old(bombs)[|old(bombs)| - 1], (r, c), old(tiles[r, c]))
    {
      hide Ray, Clear, Enqueued, BlastOf;
      SetTile(bombs[i].pos, Empty);
      var last := |bombs| - 1;
      bombs := bombs[i := bombs[last]];
      var inPlace := bombs[i];
      bombs := bombs[..last];
      TriggerExplosion(inPlace);
    }

    lemma NoneExploded(bs: seq<Blast>, exploded: seq<BombInfo>)
      requires exploded == []
      ensures AllEnqueued(bs, exploded) == bs
    {
    }

    lemma OneMoreBlast(bs: seq<Blast>, exploded: seq<BombInfo>, b: BombInfo)
      ensures AllEnqueued(bs, exploded + [b]) == Enqueued(AllEnqueued(bs, exploded), BlastOf(b))
    {
      assert (exploded + [b])[..|exploded|] == exploded;
    }

    /** Tiles outside these blasts are as before; tiles inside no longer burn. */
    twostate predicate PutOut(done: seq<Blast>)
      requires tiles.Length0 == tiles.Length1
      reads tiles
    {
      forall r, c | 0 <= r < Size() && 0 <= c < Size() ::
        if InSome(done, (r, c)) then tiles[r, c] != Explosion else tiles[r, c] == old(tiles[r, c])
    }

    /** Every tile and what is hidden under it, after these blasts have ended in this order. */
    twostate predicate AllEnded(done: seq<Blast>)
      requires tiles.Length0 == tiles.Length1 == powers.Length0 == powers.Length1
      reads tiles, powers
    {
      forall r, c | 0 <= r < Size() && 0 <= c < Size() ::
        Spot(tiles[r, c], powers[r, c]) == EndedAt(done, (r, c), Spot(old(tiles[r, c]), old(powers[r, c])))
    }

    /** Blasts burn out: their tiles are freed and hidden power-ups appear. */
    method TickExplosions(dt: real)
      requires Valid()
      modifies this`blasts, powers, tiles
      ensures Valid() && Softer()
      ensures blasts == BurntOut(old(blasts), 0, dt).0 && PutOut(BurntOut(old(blasts), 0, dt).1)
      ensures AllEnded(BurntOut(old(blasts), 0, dt).1)
    {
      hide Clear, BurntOut, InSome, InBlastOf, EndedAt, Ended;
      var i := 0;
      ghost var done: seq<Blast> := [];
      assert done + BurntOut(blasts, 0, dt).1 == BurntOut(blasts, 0, dt).1;
      NoneEnded();
      while i < |blasts|
        invariant 0 <= i <= |blasts| && Valid() && Softer() && AllEnded(done)
        invariant BurntOut(old(blasts), 0, dt).0 == BurntOut(blasts, i, dt).0
        invariant BurntOut(old(blasts), 0, dt).1 == done + BurntOut(blasts, i, dt).1
        decreases |blasts| - i
      {
        FadeOne(blasts, i, dt, done);
        var blast := blasts[i].(timer := blasts[i].timer - dt);
        assert BlastOk(blasts[i]);
        blasts := blasts[i := blast];
        if blast.timer <= 0.0 {
          EndBlast(blast);
          var last := |blasts| - 1;
          blasts := blasts[i := blasts[last]][..last];
          OneMoreEnded(done, blast);
          done := done + [blast];
        } else {
          i := i + 1;
        }
      }
      NoBlastsLeft(blasts, dt, done);
      forall r, c | 0 <= r < Size() && 0 <= c < Size()
        ensures if InSome(done, (r, c)) then tiles[r, c] != Explosion else tiles[r, c] == old(tiles[r, c])
      {
        EndedIsOut(done, (r, c), Spot(old(tiles[r, c]), old(powers[r, c])));
      }
    }

    method EndBlast(blast: Blast)
      requires Valid() && BlastOk(blast)
      modifies powers, tiles
      ensures Valid() && Softer()
      ensures forall r, c | 0 <= r < Size() && 0 <= c < Size() ::
        if InBlastOf(blast, (r, c)) then tiles[r, c] != Explosion else tiles[r, c] == old(tiles[r, c])
      ensures forall r, c | 0 <= r < Size() && 0 <= c < Size() ::
        Spot(tiles[r, c], powers[r, c]) == Ended(blast, (r, c), Spot(old(tiles[r, c]), old(powers[r, c])))
    {
      SetTile(blast.center, Empty);
      for j := 0 to |blast.spread|
        invariant Valid() && Softer()
        invariant forall r, c | 0 <= r < Size() && 0 <= c < Size() ::
          tiles[r, c] == (if (r, c) == blast.center || (r, c) in blast.spread[..j] then Empty else old(tiles[r, c]))
          && powers[r, c] == old(powers[r, c])
      {
        SetTile(blast.spread[j], Empty);
      }
      SpawnPendingPowerups(blast);
    }

    method SpawnPendingPowerups(blast: Blast)
      requires Valid() && BlastOk(blast)
      modifies powers, tiles
      ensures Valid() && Softer()
      ensures forall r, c | 0 <= r < Size() && 0 <= c < Size() ::
        if (r, c) in blast.spread && old(powers[r, c]) != Empty
        then tiles[r, c] == old(powers[r, c]) && powers[r, c] == Empty
        else tiles[r, c] == old(tiles[r, c]) && powers[r, c] == old(powers[r, c])
    {
      for i := 0 to |blast.spread|
        invariant Valid() && Softer()
        invariant forall r, c | 0 <= r < Size() && 0 <= c < Size() ::
          if (r, c) in blast.spread[..i] && old(powers[r, c]) != Empty
          then tiles[r, c] == old(powers[r, c]) && powers[r, c] == Empty
          else tiles[r, c] == old(tiles[r, c]) && powers[r, c] == old(powers[r, c])
      {
        var t := blast.spread[i];
        assert t in blast.spread;
        if powers[t.0, t.1] != Empty {
          SetTile(t, powers[t.0, t.1]);
          powers[t.0, t.1] := Empty;
        }
      }
    }

    ghost predicate CanPlace(b: Body)
      reads tiles
    {
      var t := CentreTile(b.box);
      b.active && b.alive && b.bombs > 0 && InMap(t, Size()) && t.1 < tiles.Length1
          && tiles[t.0, t.1] in {Empty, Player}
    }

    /** A live player drops a bomb on the tile under the centre of its box, if that tile is
        free and a bomb is left. The tile is one the player's box overlaps. */
    method PlaceBomb(i: nat) returns (placed: bool)
      requires Valid() && i < |bodies|
      modifies this`bombs, this`bodies, tiles
      ensures Valid() && Softer()
      ensures placed == old(CanPlace(bodies[i]))
      ensures placed ==>
        var b := old(bodies[i]);
        var t := CentreTile(b.box);
        && Overlaps(b.box, t) && Open(t)
        && (forall r, c | 0 <= r < Size() && 0 <= c < Size() ::
          tiles[r, c] == if (r, c) == t then Bomb else old(tiles[r, c]))
        && bombs == (if |old(bombs)| < QUEUE_SIZE then old(bombs) + [BombInfo(t, b.fires, BOMB_TIMER)] else old(bombs))
        && bodies == old(bodies)[i := b.(bombs := b.bombs - 1, replenish := REPLENISH_TIME)]
      ensures !placed ==>
        && bombs == old(bombs) && bodies == old(bodies)
        && forall r, c | 0 <= r < Size() && 0 <= c < Size() :: tiles[r, c] == old(tiles[r, c])
    {
      var body := bodies[i];
      if !body.active || !body.alive {
        return false;
      }
      var t := CentreTile(body.box);
      CentreIsOverlapped(body.box);
      var kind := tiles[t.0, t.1];
      if kind != Empty && kind != Player {
        return false;
      }
      if body.bombs <= 0 {
        return false;
      }
      SetTile(t, Bomb);
      if |bombs| < QUEUE_SIZE {
        bombs := bombs + [BombInfo(t, body.fires, BOMB_TIMER)];
      }
      bodies := bodies[i := body.(bombs := body.bombs - 1, replenish := REPLENISH_TIME)];
      return true;
    }

    // ----- Movement -----

    /** Whether a box at this place touches a solid tile. */
    method Collided(b: Box) returns (hit: bool)
      requires MapOk() && WithinMap(b, Size())
      ensures hit == !Clear(b)
    {
      for ty := Top(b) to Bottom(b)
        invariant forall r, c | 0 <= r < Size() && 0 <= c < Size() && Overlaps(b, (r, c)) && c < ty ::
          !SolidKind(tiles[r, c])
      {
        for tx := Left(b) to Right(b)
          invariant forall r, c | 0 <= r < Size() && 0 <= c < Size() && Overlaps(b, (r, c))
              && (c < ty || (c == ty && r < tx)) ::
            !SolidKind(tiles[r, c])
        {
          if SolidKind(tiles[tx, ty]) {
            assert Overlaps(b, (tx, ty));
            return true;
          }
        }
      }
      return false;
    }

    /** A box moves along each axis in turn, if there is room. */
    ghost function Pushed(b: Box, dx: real, dy: real): Box
      reads tiles
    {
      var x := if Clear(Box(b.x + dx, b.y)) then b.x + dx else b.x;
      Box(x, if Clear(Box(x, b.y + dy)) then b.y + dy else b.y)
    }

    method MoveBox(b: Box, dx: real, dy: real) returns (n: Box)
      requires MapOk() && Clear(b) && -1.0 < dx < 1.0 && -1.0 < dy < 1.0
      ensures Clear(n) && n == Pushed(b, dx, dy)
    {
      hide Clear;
      n := b;
      ClearIsOffBorder(b);
      SmallStepStaysInMap(b, b.x + dx, b.y, Size());
      var hitX := Collided(Box(b.x + dx, b.y));
      if !hitX {
        n := Box(b.x + dx, b.y);
      }
      ClearIsOffBorder(n);
      SmallStepStaysInMap(n, n.x, b.y + dy, Size());
      var hitY := Collided(Box(n.x, b.y + dy));
      if !hitY {
        n := Box(n.x, b.y + dy);
      }
    }

    /** Tiles of this kind under the box. */
    ghost function Under(b: Box, k: Kind): set<Tile>
      requires tiles.Length0 == tiles.Length1
      reads tiles
    {
      set r, c | 0 <= r < Size() && 0 <= c < Size() && Overlaps(b, (r, c)) && tiles[r, c] == k :: (r, c)
    }

    /** Those in one row, left of `tx`. */
    ghost function InRow(ts: set<Tile>, ty: int, tx: int): set<Tile> {
      set t | t in ts && t.1 == ty && t.0 < tx
    }

    ghost function Above(ts: set<Tile>, ty: int): set<Tile> {
      set t | t in ts && t.1 < ty
    }

    /** Takes what lies on one tile. */
    method TakeTile(i: nat, t: Tile)
      requires Valid() && i < |bodies| && InMap(t, Size())
      modifies this`bodies, tiles
      ensures Valid() && Softer()
      ensures var k, b := old(tiles[t.0, t.1]), old(bodies[i]);
              && (forall r, c | 0 <= r < Size() && 0 <= c < Size() ::
                    tiles[r, c] ==
                      if (r, c) == t && (k == PowerFire || k == PowerBomb) then Empty else old(tiles[r, c]))
              && var fires, more := if k == PowerFire then 1 else 0, if k == PowerBomb then 1 else 0;
                 bodies == old(bodies)[i := Stocked(b, fires, more)]
    {
      var body := bodies[i];
      if tiles[t.0, t.1] == PowerFire {
        SetTile(t, Empty);
        bodies := bodies[i := body.(fires := body.fires + 1)];
      } else if tiles[t.0, t.1] == PowerBomb {
        SetTile(t, Empty);
        bodies := bodies[i := body.(numBombs := body.numBombs + 1, bombs := body.bombs + 1)];
      }
    }

    method PickRow(i: nat, b: Box, ty: int, ghost fires: set<Tile>, ghost more: set<Tile>)
      requires Valid() && i < |bodies| && WithinMap(b, Size()) && Top(b) <= ty < Bottom(b)
      requires forall r | Left(b) <= r < Right(b) :: (r, ty) in fires <==> tiles[r, ty] == PowerFire
      requires forall r | Left(b) <= r < Right(b) :: (r, ty) in more <==> tiles[r, ty] == PowerBomb
      requires forall t | t in fires || t in more :: Overlaps(b, t)
      modifies this`bodies, tiles
      ensures Valid() && Softer() && RowTaken(b, ty, Right(b))
      ensures var n, m := |InRow(fires, ty, Right(b))|, |InRow(more, ty, Right(b))|;
              bodies == old(bodies)[i := Stocked(old(bodies[i]), n, m)]
    {
      hide Clear, InRow;
      NoneInRow(b, fires, ty);
      NoneInRow(b, more, ty);
      for tx := Left(b) to Right(b)
        invariant Valid() && Softer() && RowTaken(b, ty, tx)
        invariant bodies == old(bodies)[i := Stocked(old(bodies[i]), |InRow(fires, ty, tx)|, |InRow(more, ty, tx)|)]
      {
        if tx < 0 || ty < 0 || tx >= Size() || ty >= Size() {
          assert false;
        }
        OneInRow(fires, ty, tx);
        OneInRow(more, ty, tx);
        TakeTile(i, (tx, ty));
      }
    }

    /** A player takes every power-up its box lies on. */
    method PickUp(i: nat)
      requires Valid() && i < |bodies| && bodies[i].active && bodies[i].alive
      modifies this`bodies, tiles
      ensures Valid() && Softer() && TakenBy(old(bodies[i]).box, true)
      ensures var n, m := |old(Under(bodies[i].box, PowerFire))|, |old(Under(bodies[i].box, PowerBomb))|;
              bodies == old(bodies)[i := Stocked(old(bodies[i]), n, m)]
    {
      hide Clear, Under, InRow, Above;
      var b := bodies[i].box;
      ClearIsWithin(b);
      UnderIs(b, PowerFire);
      UnderIs(b, PowerBomb);
      ghost var fires, more := Under(b, PowerFire), Under(b, PowerBomb);
      AboveEnds(b, fires);
      AboveEnds(b, more);
      for ty := Top(b) to Bottom(b)
        invariant Valid() && Softer() && TakenAbove(b, ty)
        invariant bodies == old(bodies)[i := Stocked(old(bodies[i]), |Above(fires, ty)|, |Above(more, ty)|)]
      {
        PickRow(i, b, ty, fires, more);
        OneRow(b, fires, ty);
        OneRow(b, more, ty);
      }
    }

    lemma UnderIs(b: Box, k: Kind)
      requires tiles.Length0 == tiles.Length1
      ensures forall r, c | 0 <= r < Size() && 0 <= c < Size() ::
        (r, c) in Under(b, k) <==> Overlaps(b, (r, c)) && tiles[r, c] == k
      ensures forall t | t in Under(b, k) :: Overlaps(b, t)
    {
    }

    lemma NoneInRow(b: Box, ts: set<Tile>, ty: int)
      requires forall t | t in ts :: Overlaps(b, t)
      ensures |InRow(ts, ty, Left(b))| == 0
    {
      assert InRow(ts, ty, Left(b)) == {};
    }

    lemma OneInRow(ts: set<Tile>, ty: int, tx: int)
      ensures |InRow(ts, ty, tx + 1)| == |InRow(ts, ty, tx)| + (if (tx, ty) in ts then 1 else 0)
    {
      assert InRow(ts, ty, tx + 1) == InRow(ts, ty, tx) + (if (tx, ty) in ts then {(tx, ty)} else {});
    }

    lemma OneRow(b: Box, ts: set<Tile>, ty: int)
      requires forall t | t in ts :: Overlaps(b, t)
      ensures |Above(ts, ty + 1)| == |Above(ts, ty)| + |InRow(ts, ty, Right(b))|
    {
      assert Above(ts, ty + 1) == Above(ts, ty) + InRow(ts, ty, Right(b));
    }

    lemma AboveEnds(b: Box, ts: set<Tile>)
      requires forall t | t in ts :: Overlaps(b, t)
      ensures |Above(ts, Top(b))| == 0 && Above(ts, Bottom(b)) == ts
    {
      assert Above(ts, Top(b)) == {};
    }

    /** The power-ups under the box are gone, if any are taken, and everything else is as before. */
    twostate predicate TakenBy(b: Box, taking: bool)
      requires tiles.Length0 == tiles.Length1
      reads tiles
    {
      forall r, c | 0 <= r < Size() && 0 <= c < Size() ::
        tiles[r, c] == if taking && Overlaps(b, (r, c)) && old(tiles[r, c]) in {PowerFire, PowerBomb} then Empty
                       else old(tiles[r, c])
    }

    twostate predicate TakenAbove(b: Box, ty: int)
      requires tiles.Length0 == tiles.Length1
      reads tiles
    {
      forall r, c | 0 <= r < Size() && 0 <= c < Size() ::
        tiles[r, c] == if Overlaps(b, (r, c)) && c < ty && old(tiles[r, c]) in {PowerFire, PowerBomb} then Empty
                       else old(tiles[r, c])
    }

    twostate predicate RowTaken(b: Box, ty: int, tx: int)
      requires tiles.Length0 == tiles.Length1
      reads tiles
    {
      forall r, c | 0 <= r < Size() && 0 <= c < Size() ::
        tiles[r, c] == if c == ty && Left(b) <= r < tx && old(tiles[r, c]) in {PowerFire, PowerBomb} then Empty
                       else old(tiles[r, c])
    }

    /** Where a player's box is after the movement of a tick. */
    ghost function BodyMoved(b: Body, m: Motion): Box
      reads tiles
    {
      var d := Stride(m);
      if b.active && b.alive then Pushed(b.box, m.ux * d, m.uy * d) else b.box
    }

    ghost function SolidTiles(): set<Tile>
      reads tiles
    {
      set r, c | 0 <= r < tiles.Length0 && 0 <= c < tiles.Length1 && SolidKind(tiles[r, c]) :: (r, c)
    }

    /** Movement depends on what is solid only. */
    lemma MovesBySolids(b: Body, m: Motion)
      requires tiles.Length0 == tiles.Length1
      ensures BodyMoved(b, m) == MovedAmong(SolidTiles(), Size(), b, m)
    {
      hide Clear, ClearOf, SolidTiles;
      forall x: Box ensures Clear(x) == ClearOf(SolidTiles(), Size(), x) {
        ClearBySolids(x);
      }
    }

    lemma ClearBySolids(b: Box)
      requires tiles.Length0 == tiles.Length1
      ensures Clear(b) == ClearOf(SolidTiles(), Size(), b)
    {
      hide Overlaps, WithinMap;
    }

    /** One player's movement in a tick: a direction of length at most one, at either speed. */
    method MovePlayer(i: nat, ux: real, uy: real, sprint: bool)
      requires Valid() && i < |bodies| && ux * ux + uy * uy <= 1.0
      modifies this`bodies, tiles
      ensures Valid() && Softer() && SolidTiles() == old(SolidTiles())
      ensures var b := old(bodies[i]);
              var d := Stride(Motion(ux, uy, sprint));
              var n := old(Pushed(bodies[i].box, ux * d, uy * d));
              if !b.active || !b.alive then bodies == old(bodies) && TakenBy(b.box, false)
              else
                var fires, more := |old(Under(n, PowerFire))|, |old(Under(n, PowerBomb))|;
                TakenBy(n, true) && bodies == old(bodies)[i := Replenished(Stocked(b.(box := n), fires, more))]
    {
      hide Clear, Pushed, Under;
      var body := bodies[i];
      if !body.active || !body.alive {
        return;
      }
      var speed := if sprint then SPRINT_SPEED else SPEED;
      TickIsSmall(ux, uy, speed);
      var n := MoveBox(body.box, ux * (speed * TICK), uy * (speed * TICK));
      bodies := bodies[i := body.(box := n)];
      PickUp(i);
      Replenish(i);
    }

    method Replenish(i: nat)
      requires Valid() && i < |bodies|
      modifies this`bodies
      ensures Valid() && bodies == old(bodies)[i := Replenished(old(bodies[i]))]
    {
      var body := bodies[i];
      if body.bombs >= body.numBombs {
        return;
      }
      var left := body.replenish - TICK;
      if left > 0.0 {
        bodies := bodies[i := body.(replenish := left)];
        return;
      }
      bodies := bodies[i := body.(bombs := body.bombs + 1, replenish := REPLENISH_TIME)];
    }

    ghost predicate Caught(b: Box)
      requires tiles.Length0 == tiles.Length1
      reads tiles
    {
      exists r, c :: 0 <= r < Size() && 0 <= c < Size() && Overlaps(b, (r, c)) && tiles[r, c] == Explosion
    }

    /** Whoever stands in a blast dies, and nobody else. */
    method KillInExplosions()
      requires Valid()
      modifies this`bodies
      ensures Valid() && |bodies| == |old(bodies)|
      ensures forall i | 0 <= i < |bodies| ::
        var b := old(bodies)[i]; bodies[i] == b.(alive := b.alive && !(b.active && Caught(b.box)))
    {
      hide Clear, Caught;
      for i := 0 to |bodies|
        invariant Valid() && |bodies| == |old(bodies)|
        invariant forall k | 0 <= k < i ::
          var b := old(bodies)[k]; bodies[k] == b.(alive := b.alive && !(b.active && Caught(b.box)))
        invariant forall k | i <= k < |bodies| :: bodies[k] == old(bodies)[k]
      {
        if bodies[i].active && bodies[i].alive {
          ClearIsWithin(bodies[i].box);
          var caught := InBlast(bodies[i].box);
          if caught {
            bodies := bodies[i := bodies[i].(alive := false)];
          }
        }
      }
    }

    lemma ClearIsWithin(b: Box)
      requires Clear(b)
      ensures WithinMap(b, Size())
    {}

    method InBlast(b: Box) returns (caught: bool)
      requires MapOk() && WithinMap(b, Size())
      ensures caught == Caught(b)
    {
      for ty := Top(b) to Bottom(b)
        invariant forall r, c | 0 <= r < Size() && 0 <= c < Size() && Overlaps(b, (r, c)) && c < ty ::
          tiles[r, c] != Explosion
      {
        for tx := Left(b) to Right(b)
          invariant forall r, c | 0 <= r < Size() && 0 <= c < Size() && Overlaps(b, (r, c))
              && (c < ty || (c == ty && r < tx)) ::
            tiles[r, c] != Explosion
        {
          if tiles[tx, ty] == Explosion {
            assert Overlaps(b, (tx, ty));
            return true;
          }
        }
      }
      return false;
    }
  }

  datatype Event = Drop(player: nat) | Tick(motions: seq<Heading>)

  function MotionOf(motions: seq<Heading>, i: nat): Heading {
    if i < |motions| then motions[i] else Motion(0.0, 0.0, false)
  }

  ghost predicate HasMoved(solid: set<Tile>, n: int, was: Body, b: Body, m: Motion) {
    b.box == MovedAmong(solid, n, was, m) && b.active == was.active && b.alive == was.alive
  }

  /** Everybody moves, in seat order. */
  method MoveAll(a: Arena, motions: seq<Heading>)
    requires a.Valid()
    modifies a`bodies, a.tiles
    ensures a.Valid() && a.Softer() && a.SolidTiles() == old(a.SolidTiles()) && |a.bodies| == |old(a.bodies)|
    ensures forall i | 0 <= i < |a.bodies| ::
      HasMoved(old(a.SolidTiles()), a.Size(), old(a.bodies)[i], a.bodies[i], MotionOf(motions, i))
  {
    hide MovedAmong;
    ghost var solid, were := a.SolidTiles(), a.bodies;
    for i := 0 to |a.bodies|
      invariant a.Valid() && a.Softer() && a.SolidTiles() == solid && |a.bodies| == |were|
      invariant forall k | 0 <= k < i :: HasMoved(solid, a.Size(), were[k], a.bodies[k], MotionOf(motions, k))
      invariant forall k | i <= k < |a.bodies| :: a.bodies[k] == were[k]
    {
      var m := MotionOf(motions, i);
      a.MovesBySolids(a.bodies[i], m);
      a.MovePlayer(i, m.ux, m.uy, m.sprint);
    }
  }

  /** One simulation tick: everybody moves, bombs and blasts burn down, and whoever stands in
      a blast then is out. */
  method TickSession(a: Arena, motions: seq<Heading>)
    requires a.Valid()
    modifies a, a.tiles, a.powers
    ensures a.Valid() && a.Softer() && |a.bodies| == |old(a.bodies)|
    ensures forall i | 0 <= i < |a.bodies| ::
      var b := old(a.bodies)[i];
      && a.bodies[i].box == MovedAmong(old(a.SolidTiles()), a.Size(), b, MotionOf(motions, i))
      && a.bodies[i].active == b.active
      && a.bodies[i].alive == (b.alive && !(b.active && a.Caught(a.bodies[i].box)))
    ensures a.bombs == BurntDown(old(a.bombs), 0, TICK).0
    ensures a.blasts == BurntOut(a.AllEnqueued(old(a.blasts), BurntDown(old(a.bombs), 0, TICK).1), 0, TICK).0
  {
    MoveAll(a, motions);
    a.TickBombs(TICK);
    a.TickExplosions(TICK);
    a.KillInExplosions();
  }

  /** The start of a match: every player on its own free tile of a generated map. */
  method StartMatch(players: nat, mapRolls: seq<nat>, rolls: seq<nat>) returns (a: Arena, ghost spawns: seq<Tile>)
    ensures fresh(a) && fresh(a.tiles) && fresh(a.powers)
    ensures a.Valid() && |a.bodies| == players && a.Size() == MapSize(players) + 2
    ensures |spawns| == players && Placed(spawns, MapSize(players))
    ensures forall r: nat, c: nat | r < a.Size() && c < a.Size() ::
      a.tiles[r, c] == if (r, c) in spawns then Empty else GeneratedKind(r, c, spawns, a.Size(), mapRolls)
    ensures forall i | 0 <= i < players ::
      a.bodies[i].active && a.bodies[i].alive && CentreTile(a.bodies[i].box) in spawns
    ensures forall i, j | 0 <= i < j < players :: CentreTile(a.bodies[i].box) != CentreTile(a.bodies[j].box)
  {
    var tiles;
    tiles, spawns := MapGenerate(players, mapRolls);
    assert Generated(tiles, spawns);
    var found := CollectSpawns(tiles, players, spawns);
    var bodies: seq<Body> := [];
    for i := 0 to players
      invariant |bodies| == i
      invariant forall k | 0 <= k < i :: bodies[k] == NewBody(found[k])
    {
      var tile := if i < |found| then found[i] else (1, 1);
      bodies := bodies + [NewBody(tile)];
    }
    forall i | 0 <= i < players
      ensures InMap(found[i], tiles.Length0) && tiles[found[i].0, found[i].1] == Empty
          && CentreTile(bodies[i].box) == found[i]
      ensures found[i] in spawns
    {
      assert found[i] in found;
      SpawnInMap(spawns, found[i], tiles.Length0 - 2);
      NewBodyOnItsTile(found[i]);
    }
    hide NewBody, CentreTile, GeneratedKind, Placed;
    a := new Arena(tiles, bodies, rolls, found);
  }

  lemma SpawnInMap(spawns: seq<Tile>, t: Tile, size: nat)
    requires Placed(spawns, size) && t in spawns
    ensures InMap(t, size + 2) && !OnBorder(t, size + 2)
  {}

  /** Any sequence of bombs dropped and ticks: the walls stay, nothing becomes solid, and the
      arena stays in order. */
  method RunEvents(a: Arena, events: seq<Event>)
    requires a.Valid()
    modifies a, a.tiles, a.powers
    ensures a.Valid() && a.Softer() && |a.bodies| == |old(a.bodies)|
    ensures forall r, c | 0 <= r < a.Size() && 0 <= c < a.Size() ::
      (a.tiles[r, c] == Wall) == (old(a.tiles[r, c]) == Wall)
  {
    for k := 0 to |events|
      invariant a.Valid() && a.Softer() && |a.bodies| == |old(a.bodies)|
    {
      match events[k] {
        case Drop(i) =>
          if i < |a.bodies| {
            var _ := a.PlaceBomb(i);
          }
        case Tick(motions) => TickSession(a, motions);
      }
    }
  }

  /** A whole match: over any sequence of bombs dropped and ticks with any held directions,
      the walls are exactly those the map was generated with, what is solid was solid then,
      bombs and blasts stay on open tiles, and every live player's box lies within the map and
      on no solid tile. */
  method PlayMatch(players: nat, mapRolls: seq<nat>, rolls: seq<nat>, events: seq<Event>)
    returns (a: Arena, ghost spawns: seq<Tile>)
    ensures fresh(a) && a.Valid() && |a.bodies| == players && a.Size() == MapSize(players) + 2
    ensures |spawns| == players && Placed(spawns, MapSize(players))
    ensures forall r: nat, c: nat | r < a.Size() && c < a.Size() ::
      var k := GeneratedKind(r, c, spawns, a.Size(), mapRolls);
      && (a.tiles[r, c] == Wall <==> (r, c) !in spawns && k == Wall)
      && (SolidKind(a.tiles[r, c]) ==> (r, c) !in spawns && SolidKind(k))
  {
    hide GeneratedKind, Placed, CentreTile;
    a, spawns := StartMatch(players, mapRolls, rolls);
    RunEvents(a, events);
  }
}
