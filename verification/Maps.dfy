/** Generating a Bomberman map and finding the players' tiles in it again
    (libbombbrain/map.c, bombd/session.c). */
module Maps {
  import opened Collections
  import opened Arith
  import opened Spawns

  datatype Kind = Unset | Empty | Player | Bomb | Explosion | PowerFire | PowerBomb | Breakable | Wall

  const EMPTY_CHANCE := 20
  const WALL_CHANCE := 30

  predicate SolidKind(k: Kind) {
    k == Wall || k == Breakable
  }

  predicate InMap(t: Tile, n: int) {
    0 <= t.0 < n && 0 <= t.1 < n
  }

  predicate OnBorder(t: Tile, n: int) {
    t.0 == 0 || t.0 == n - 1 || t.1 == 0 || t.1 == n - 1
  }

  /** Side by side. */
  predicate Adjacent(p: Tile, q: Tile) {
    Abs(p.0 - q.0) + Abs(p.1 - q.1) == 1
  }

  ghost predicate NextToSome(t: Tile, s: seq<Tile>) {
    exists i :: 0 <= i < |s| && Adjacent(t, s[i])
  }

  /** What a tile holds once the players in `s` have been marked. */
  ghost function Marked(t: Tile, s: seq<Tile>, n: int): Kind {
    if t in s then Player
    else if OnBorder(t, n) then Wall
    else if NextToSome(t, s) then Empty
    else Unset
  }

  ghost predicate IsMarked(map': array2<Kind>, s: seq<Tile>)
    reads map'
  {
    map'.Length0 == map'.Length1
    && forall r, c | 0 <= r < map'.Length0 && 0 <= c < map'.Length0 :: map'[r, c] == Marked((r, c), s, map'.Length0)
  }

  lemma MarkOne(t: Tile, s: seq<Tile>, p: Tile, n: int)
    requires n >= 3 && Placed(s, n - 2) && Placed(s + [p], n - 2) && InMap(t, n)
    ensures Marked(t, s + [p], n) ==
      if t == p then Player else if Adjacent(t, p) && !OnBorder(t, n) then Empty else Marked(t, s, n)
  {
    var u := s + [p];
    assert u[|s|] == p;
    assert t in u <==> t in s || t == p;
    if NextToSome(t, s) {
      var i :| 0 <= i < |s| && Adjacent(t, s[i]);
      assert Adjacent(t, u[i]);
    }
    if Adjacent(t, p) {
      assert Adjacent(t, u[|s|]);
      forall i | 0 <= i < |s| ensures s[i] != t {
        assert Apart(u[i], u[|s|]);
      }
    }
  }

  /** Marks one player's tile and clears the plus around it, keeping off the border. */
  method MarkSpawn(map': array2<Kind>, p: Tile)
    requires map'.Length0 == map'.Length1 >= 3 && Inside(p, map'.Length0 - 2)
    modifies map'
    ensures forall r, c | 0 <= r < map'.Length0 && 0 <= c < map'.Length0 ::
      map'[r, c] == if (r, c) == p then Player
                    else if Adjacent((r, c), p) && !OnBorder((r, c), map'.Length0) then Empty
                    else old(map'[r, c])
  {
    var n := map'.Length0;
    map'[p.0, p.1] := Player;
    if p.0 > 1 {
      map'[p.0 - 1, p.1] := Empty;
    }
    if p.0 < n - 2 {
      map'[p.0 + 1, p.1] := Empty;
    }
    if p.1 > 1 {
      map'[p.0, p.1 - 1] := Empty;
    }
    if p.1 < n - 2 {
      map'[p.0, p.1 + 1] := Empty;
    }
  }

  /** A blank map inside a border of walls. */
  method BlankMap(n: nat) returns (map': array2<Kind>)
    requires n >= 3
    ensures fresh(map') && map'.Length0 == n == map'.Length1 && IsMarked(map', [])
  {
    map' := new Kind[n, n]((i, j) => Unset);
    for i := 0 to n
      invariant forall r, c | 0 <= r < n && 0 <= c < n ::
        map'[r, c] == if ((r == 0 || r == n - 1) && c < i) || ((c == 0 || c == n - 1) && r < i) then Wall else Unset
    {
      map'[0, i] := Wall;
      map'[n - 1, i] := Wall;
      map'[i, 0] := Wall;
      map'[i, n - 1] := Wall;
    }
  }

  /** What a random number turns an unset tile into: empty, breakable or, away from the border,
      wall. */
  function FilledKind(t: Tile, n: int, rng: int): Kind {
    if rng < EMPTY_CHANCE then Empty
    else if rng < EMPTY_CHANCE + WALL_CHANCE && 1 < t.0 < n - 3 && 1 < t.1 < n - 3 then Wall
    else Breakable
  }

  /** Unset tiles that the filling scan meets before (i, j). */
  ghost function UnsetBefore(s: seq<Tile>, n: nat, i: nat, j: nat): nat
    decreases i, j
  {
    if j > 0 then UnsetBefore(s, n, i, j - 1) + (if Marked((i, j - 1), s, n) == Unset then 1 else 0)
    else if i > 0 then UnsetBefore(s, n, i - 1, n)
    else 0
  }

  /** What the tile (i, j) of a finished map holds. */
  ghost function GeneratedKind(i: nat, j: nat, s: seq<Tile>, n: nat, rolls: seq<nat>): Kind {
    var k := Marked((i, j), s, n);
    if k != Unset then k else FilledKind((i, j), n, Roll(rolls, UnsetBefore(s, n, i, j)) % 100)
  }

  ghost predicate IsFilled(map': array2<Kind>, s: seq<Tile>, rolls: seq<nat>)
    reads map'
  {
    map'.Length0 == map'.Length1
    && forall r, c | 0 <= r < map'.Length0 && 0 <= c < map'.Length0 ::
      map'[r, c] == GeneratedKind(r, c, s, map'.Length0, rolls)
  }

  /** Fills what is still unset. */
  method FillRandomly(map': array2<Kind>, rolls: seq<nat>, ghost s: seq<Tile>)
    requires IsMarked(map', s)
    modifies map'
    ensures IsFilled(map', s, rolls)
  {
    hide Marked;
    var n := map'.Length0;
    var inner := n - 2;
    var k := 0;
    for i := 0 to n
      invariant k == UnsetBefore(s, n, i, 0)
      invariant forall r, c | 0 <= r < n && 0 <= c < n ::
        map'[r, c] == if r < i then GeneratedKind(r, c, s, n, rolls) else Marked((r, c), s, n)
    {
      for j := 0 to n
        invariant k == UnsetBefore(s, n, i, j)
        invariant forall r, c | 0 <= r < n && 0 <= c < n ::
          map'[r, c] == if r < i || (r == i && c < j) then GeneratedKind(r, c, s, n, rolls) else Marked((r, c), s, n)
      {
        if map'[i, j] == Unset {
          var rng := Roll(rolls, k) % 100;
          k := k + 1;
          if rng < EMPTY_CHANCE {
            map'[i, j] := Empty;
          } else if rng < EMPTY_CHANCE + WALL_CHANCE && i > 1 && i < inner - 1 && j > 1 && j < inner - 1 {
            map'[i, j] := Wall;
          } else {
            map'[i, j] := Breakable;
          }
        }
      }
    }
  }

  /** Just inside the border. */
  predicate NextToBorder(t: Tile, n: int) {
    !OnBorder(t, n) && (t.0 == 1 || t.0 == n - 2 || t.1 == 1 || t.1 == n - 2)
  }

  /** A finished map: walls all around but none just inside the border, players exactly on the
      tiles in `s`, and every neighbour of a player that is not border is free. */
  ghost predicate Generated(map': array2<Kind>, s: seq<Tile>)
    reads map'
  {
    && map'.Length0 == map'.Length1 >= 3 && Placed(s, map'.Length0 - 2)
    && forall r, c | 0 <= r < map'.Length0 && 0 <= c < map'.Length0 ::
         && map'[r, c] in {Empty, Player, Breakable, Wall}
         && (map'[r, c] == Player <==> (r, c) in s)
         && (OnBorder((r, c), map'.Length0) ==> map'[r, c] == Wall)
         && (NextToBorder((r, c), map'.Length0) ==> map'[r, c] != Wall)
         && (NextToSome((r, c), s) && !OnBorder((r, c), map'.Length0) ==> map'[r, c] == Empty)
  }

  /** Marks every player's tile. */
  method MarkSpawns(map': array2<Kind>, a: array<Tile>, size: nat)
    requires map'.Length0 == size + 2 >= 3 && IsMarked(map', []) && Placed(a[..], size)
    modifies map'
    ensures IsMarked(map', a[..])
  {
    for i := 0 to a.Length
      invariant IsMarked(map', a[..i])
    {
      ghost var s, p := a[..i], a[i];
      assert a[..i + 1] == s + [p];
      PrefixPlaced(a[..], i, size);
      PrefixPlaced(a[..], i + 1, size);
      assert a[..][..i] == s && a[..][..i + 1] == s + [p];
      hide Placed, Marked;
      InsideAt(a[..], i, size);
      MarkSpawn(map', a[i]);
      forall r, c | 0 <= r < size + 2 && 0 <= c < size + 2 ensures map'[r, c] == Marked((r, c), s + [p], size + 2) {
        MarkOne((r, c), s, p, size + 2);
      }
    }
    assert a[..a.Length] == a[..];
  }

  lemma InsideAt(s: seq<Tile>, i: nat, size: nat)
    requires i < |s| && Placed(s, size)
    ensures Inside(s[i], size)
  {}

  /** Placed players make a finished map of the marked and filled one. */
  lemma FilledIsGenerated(map': array2<Kind>, s: seq<Tile>, rolls: seq<nat>, size: nat)
    requires map'.Length0 == size + 2 >= 3 && Placed(s, size) && IsFilled(map', s, rolls)
    ensures Generated(map', s)
  {
    hide UnsetBefore, Roll;
    forall r, c | 0 <= r < size + 2 && 0 <= c < size + 2
      ensures OnBorder((r, c), size + 2) || NextToSome((r, c), s) ==> (r, c) !in s
    {
      if OnBorder((r, c), size + 2) {
        NotOnBorder(s, (r, c), size);
      } else if NextToSome((r, c), s) {
        NeighbourIsNoSpawn(s, (r, c), size);
      }
    }
    hide Placed, NextToSome;
  }

  /** For any number of players the map has exactly that many player tiles, pairwise apart
      and inside the border, and no clearing has erased one; every tile is what its marks or
      its random number make it. */
  method MapGenerate(players: nat, rolls: seq<nat>) returns (map': array2<Kind>, ghost spawns: seq<Tile>)
    ensures fresh(map') && map'.Length0 == MapSize(players) + 2
    ensures |spawns| == players && Generated(map', spawns) && IsFilled(map', spawns, rolls)
  {
    hide Marked, Placed, GeneratedKind, Generated;
    var size := MapSize(players);
    map' := BlankMap(size + 2);
    var a := new Tile[players](i => (0, 0));
    CalcPlayerSpawns(players, size, a);
    spawns := a[..];
    MarkSpawns(map', a, size);
    FillRandomly(map', rolls, spawns);
    FilledIsGenerated(map', spawns, rolls, size);
  }

  lemma PrefixPlaced(s: seq<Tile>, i: nat, size: nat)
    requires i <= |s| && Placed(s, size)
    ensures Placed(s[..i], size)
  {}

  lemma NotOnBorder(s: seq<Tile>, t: Tile, size: nat)
    requires Placed(s, size) && OnBorder(t, size + 2)
    ensures t !in s
  {}

  lemma NeighbourIsNoSpawn(s: seq<Tile>, t: Tile, size: nat)
    requires Placed(s, size) && NextToSome(t, s)
    ensures t !in s
  {
    var i :| 0 <= i < |s| && Adjacent(t, s[i]);
    forall j | 0 <= j < |s| ensures s[j] != t {
      assert j < i ==> Apart(s[j], s[i]);
      assert i < j ==> Apart(s[i], s[j]);
    }
  }

  // ----- Finding the players again -----

  predicate Before(t: Tile, i: int, j: int) {
    t.0 < i || (t.0 == i && t.1 < j)
  }

  /** Where the scan for players stands: the tiles found are the player tiles passed. */
  ghost predicate Collecting(map': array2<Kind>, found: seq<Tile>, spawns: seq<Tile>, i: int, j: int)
    reads map'
  {
    && map'.Length0 == map'.Length1
    && Unique(found) && (forall t: Tile :: t in found <==> t in spawns && Before(t, i, j))
    && forall r, c | 0 <= r < map'.Length0 && 0 <= c < map'.Length0 ::
         (map'[r, c] == Player <==> (r, c) in spawns && !Before((r, c), i, j))
  }

  lemma FoundAtMost(found: seq<Tile>, spawns: seq<Tile>)
    requires Unique(found) && Unique(spawns) && forall t | t in found :: t in spawns
    ensures |found| <= |spawns|
    ensures |found| == |spawns| ==> forall t | t in spawns :: t in found
  {
    UniqueCount(found);
    UniqueCount(spawns);
    var a, b := set t | t in found, set t | t in spawns;
    SubsetSize(a, b);
    if |found| == |spawns| {
      forall t | t in spawns ensures t in found {
        assert t in b && t in a;
      }
    }
  }

  /** The scan finds every player tile exactly once and turns it back into an empty tile, so
      there is a tile for every player and the fallback tile is never needed. */
  method CollectSpawns(map': array2<Kind>, maxSpawns: nat, ghost spawns: seq<Tile>) returns (found: seq<Tile>)
    requires Generated(map', spawns) && |spawns| == maxSpawns
    modifies map'
    ensures |found| == maxSpawns && Unique(found) && forall t: Tile :: t in found <==> t in spawns
    ensures forall r, c | 0 <= r < map'.Length0 && 0 <= c < map'.Length0 ::
      map'[r, c] == if (r, c) in spawns then Empty else old(map'[r, c])
  {
    var n := map'.Length0;
    found := [];
    PlacedUnique(spawns, n - 2);
    var i := 0;
    while i < n && |found| < maxSpawns
      invariant 0 <= i <= n && Collecting(map', found, spawns, i, 0)
      invariant forall r, c | 0 <= r < n && 0 <= c < n && map'[r, c] != Player ::
        map'[r, c] == if (r, c) in spawns then Empty else old(map'[r, c])
    {
      var j := 0;
      while j < n && |found| < maxSpawns
        invariant 0 <= j <= n && Collecting(map', found, spawns, i, j)
        invariant forall r, c | 0 <= r < n && 0 <= c < n && map'[r, c] != Player ::
          map'[r, c] == if (r, c) in spawns then Empty else old(map'[r, c])
      {
        if map'[i, j] == Player {
          assert (i, j) !in found;
          found := found + [(i, j)];
          map'[i, j] := Empty;
        }
        j := j + 1;
      }
      FoundAtMost(found, spawns);
      if |found| == maxSpawns {
        AllFound(map', found, spawns, i, j, i + 1);
      }
      i := i + 1;
    }
    FoundAtMost(found, spawns);
    if |found| < maxSpawns {
      assert forall t | t in spawns :: Before(t, n, 0);
      FoundAtMost(spawns, found);
    }
  }

  lemma PlacedUnique(s: seq<Tile>, size: nat)
    requires Placed(s, size)
    ensures Unique(s)
  {
    forall i, j | 0 <= i < j < |s| ensures s[i] != s[j] {
      assert Apart(s[i], s[j]);
    }
  }

  /** Once all are found it does not matter that the scan stopped early. */
  lemma AllFound(map': array2<Kind>, found: seq<Tile>, spawns: seq<Tile>, i: int, j: int, k: int)
    requires Collecting(map', found, spawns, i, j) && k == i + 1
    requires forall t | t in spawns :: t in found
    ensures Collecting(map', found, spawns, k, 0)
  {}
}
