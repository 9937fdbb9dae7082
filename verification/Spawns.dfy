/** Where Bomberman players start (libbombbrain/map.c): the map size, the four corners and
    the strips of evenly spread players, for any number of players. */
module Spawns {
  import opened Arith

  const MIN_MAP_WIDTH := 10

  /** ceil(sqrt(25 n)), at least ten: 25 tiles per player. */
  function MapSize(players: nat): (s: nat)
    ensures s >= MIN_MAP_WIDTH && s * s >= 25 * players
    ensures s > MIN_MAP_WIDTH ==> (s - 1) * (s - 1) < 25 * players
  {
    var size := CeilSqrt(25 * players);
    if size > MIN_MAP_WIDTH then size
    else
      SquareMonotone(size, MIN_MAP_WIDTH);
      MIN_MAP_WIDTH
  }

  lemma SquareMonotone(a: nat, b: nat)
    requires a <= b
    ensures a * a <= b * b
  {
    TimesMonotoneNat(a, b, a);
    TimesMonotoneNat(a, b, b);
  }

  lemma TimesMonotoneNat(a: nat, b: nat, l: nat)
    requires a <= b
    ensures a * l <= b * l && l * a <= l * b
  {}

  type Tile = (int, int)

  function Abs(x: int): int {
    if x < 0 then -x else x
  }

  /** Far enough that neither tile is next to the other. */
  predicate Apart(p: Tile, q: Tile) {
    Abs(p.0 - q.0) >= 2 || Abs(p.1 - q.1) >= 2
  }

  ghost predicate Inside(p: Tile, size: int) {
    1 <= p.0 <= size && 1 <= p.1 <= size
  }

  ghost predicate AllApart(s: seq<Tile>) {
    forall i, j | 0 <= i < j < |s| :: Apart(s[i], s[j])
  }

  /** Middle of the i-th of `parts` equal parts of a line of `size` tiles. */
  function Centre(i: nat, parts: nat, size: nat): int
    requires parts > 0
  {
    (i * size / parts + (i + 1) * size / parts - 1) / 2
  }

  // ----- Arithmetic of the parts -----

  lemma PartIsWide(i: nat, parts: nat, size: nat)
    requires parts > 0 && size >= 3 * parts
    ensures (i + 1) * size / parts >= i * size / parts + 3
  {
    assert (i + 1) * size == i * size + size;
    DivShift(i * size, 3, parts);
    DivMonotone(i * size + 3 * parts, (i + 1) * size, parts);
  }

  lemma PartEnds(i: nat, parts: nat, size: nat)
    requires i < parts
    ensures 0 <= i * size / parts && (i + 1) * size / parts <= size
  {
    TimesMonotoneNat(i + 1, parts, size);
    DivMonotone((i + 1) * size, parts * size, parts);
    DivShift(0, size, parts);
    assert 0 + size * parts == parts * size;
    assert 0 / parts == 0 by { DivUnique(0, parts, 0); }
    DivMonotone(0, i * size, parts);
  }

  /** Neighbouring centres are at least three tiles apart, and no centre is at the rim. */
  lemma CentresSpread(i: nat, parts: nat, size: nat)
    requires i < parts && size >= 3 * parts
    ensures 1 <= Centre(i, parts, size) <= size - 2
    ensures Centre(i + 1, parts, size) >= Centre(i, parts, size) + 3
  {
    PartIsWide(i, parts, size);
    PartIsWide(i + 1, parts, size);
    PartEnds(i, parts, size);
  }

  lemma RoomToSpare(k: nat)
    ensures 16 * (k * k) - 49 * k + 109 > 0
  {
    if k >= 4 {
      TimesMonotoneNat(4, k, k);
    }
  }

  lemma SquareOf(k: nat)
    ensures (3 * k + 4) * (3 * k + 4) == 9 * (k * k) + 24 * k + 16
  {}

  /** Enough room: with 25 tiles per player the inner square is at least three times as wide
      as the largest number of players in a strip, and as the number of strips. */
  lemma InnerIsWide(players: nat, size: nat, strips: nat)
    requires players >= 5 && size * size >= 25 * players
    requires strips * strips - strips < players - 4
    ensures size - 2 >= 3 * (strips + 1)
  {
    RoomToSpare(strips);
    SquareOf(strips);
    if size <= 3 * strips + 4 {
      SquareMonotone(size, 3 * strips + 4);
    }
  }

  /** Strips hold at most one player more than there are strips. */
  lemma StripIsShort(left: nat, strips: nat, most: nat)
    requires strips > 0 && left <= most * strips
    ensures CeilDiv(left, strips) <= most && left - CeilDiv(left, strips) <= most * (strips - 1)
    ensures left > 0 ==> 1 <= CeilDiv(left, strips) <= left
  {
    var q := CeilDiv(left, strips);
    if q > most {
      TimesMonotoneNat(most, q - 1, strips);
    }
    assert q * strips == q * (strips - 1) + q;
    TimesMonotoneNat(q, most, strips - 1);
    if left > 0 {
      if q > left {
        TimesMonotoneNat(left, q - 1, strips);
        TimesMonotoneNat(1, strips, left);
      }
    }
  }

  // ----- Placement -----

  /** What the placed players satisfy: inside the border, pairwise apart. */
  ghost predicate Placed(s: seq<Tile>, size: nat) {
    (forall i | 0 <= i < |s| :: Inside(s[i], size)) && AllApart(s)
  }

  /** Strip players stay two tiles away from the corners' rows and columns. */
  ghost predicate Inner(p: Tile, size: nat) {
    3 <= p.0 <= size - 2 && 3 <= p.1 <= size - 2
  }

  lemma CornersPlaced(size: nat, n: nat)
    requires size >= MIN_MAP_WIDTH && n <= 4
    ensures Placed([(1, 1), (size, size), (1, size), (size, 1)][..n], size)
  {}

  /** One more player, apart from all before it. */
  lemma PlaceOne(s: seq<Tile>, p: Tile, size: nat)
    requires Placed(s, size) && Inside(p, size) && forall i | 0 <= i < |s| :: Apart(s[i], p)
    ensures Placed(s + [p], size)
  {}

  /** Fills `spawns` with one tile per player: corners first, then strips. */
  method CalcPlayerSpawns(players: nat, size: nat, spawns: array<Tile>)
    requires spawns.Length == players && size >= MIN_MAP_WIDTH && size * size >= 25 * players
    modifies spawns
    ensures Placed(spawns[..], size)
  {
    var corners := [(1, 1), (size, size), (1, size), (size, 1)];
    var player := 0;
    while player < 4 && player < players
      invariant 0 <= player <= players && player <= 4
      invariant spawns[..player] == corners[..player]
    {
      spawns[player] := corners[player];
      player := player + 1;
    }
    CornersPlaced(size, player);
    if player >= players {
      assert spawns[..player] == spawns[..];
      return;
    }
    var inner := size - 2;
    var total := players - player;
    var strips := RoundSqrt(total);
    InnerIsWide(players, size, strips);
    StripCapacity(total, strips);
    var s := 0;
    while s < strips && player < players
      invariant 0 <= s <= strips && 4 <= player <= players
      invariant players - player <= (strips + 1) * (strips - s)
      invariant spawns[..4] == corners
      invariant Placed(spawns[..player], size)
      invariant forall i | 4 <= i < player ::
        Inner(spawns[i], size) && (s < strips ==> spawns[i].0 + 3 <= 2 + Centre(s, strips, inner))
      invariant s == strips ==> player == players
    {
      var left, stripsLeft := players - player, strips - s;
      var inStrip := CeilDiv(left, stripsLeft);
      StripIsShort(left, stripsLeft, strips + 1);
      CentresSpread(s, strips, inner);
      var row := 2 + (s * inner / strips + (s + 1) * inner / strips - 1) / 2;
      assert row == 2 + Centre(s, strips, inner);
      LastStripTakesAll(left, stripsLeft);
      player := FillStrip(spawns, player, inStrip, inner, row, size);
      s := s + 1;
    }
    assert spawns[..player] == spawns[..];
  }

  lemma StripCapacity(total: nat, strips: nat)
    requires total <= strips * strips + strips
    ensures total <= (strips + 1) * strips
  {}

  lemma LastStripTakesAll(left: nat, stripsLeft: nat)
    requires stripsLeft > 0
    ensures stripsLeft == 1 ==> CeilDiv(left, stripsLeft) == left
  {}

  /** Places the players of one strip, left to right, below every earlier strip. */
  method FillStrip(spawns: array<Tile>, first: nat, inStrip: nat, inner: nat, row: int, size: nat) returns (player: nat)
    requires 4 <= first && first + inStrip <= spawns.Length && inner == size - 2 && size >= MIN_MAP_WIDTH
    requires inner >= 3 * inStrip && 3 <= row <= size - 2
    requires spawns[..4] == [(1, 1), (size, size), (1, size), (size, 1)]
    requires Placed(spawns[..first], size)
    requires forall i | 4 <= i < first :: Inner(spawns[i], size) && spawns[i].0 + 3 <= row
    modifies spawns
    ensures player == first + inStrip && spawns[..4] == old(spawns[..4])
    ensures Placed(spawns[..player], size)
    ensures forall i | 4 <= i < player :: Inner(spawns[i], size) && spawns[i].0 <= row
  {
    player := first;
    for i := 0 to inStrip
      invariant player == first + i && spawns[..4] == old(spawns[..4])
      invariant Placed(spawns[..player], size)
      invariant forall k | 4 <= k < player :: Inner(spawns[k], size)
      invariant forall k | 4 <= k < first :: spawns[k].0 + 3 <= row
      invariant forall k | first <= k < player ::
        spawns[k].0 == row && (i < inStrip ==> spawns[k].1 + 3 <= 2 + Centre(i, inStrip, inner))
    {
      CentresSpread(i, inStrip, inner);
      var col := 2 + (i * inner / inStrip + (i + 1) * inner / inStrip - 1) / 2;
      assert col == 2 + Centre(i, inStrip, inner);
      ghost var before := spawns[..player];
      ApartFromPlaced(before, first, (row, col), size);
      spawns[player] := (row, col);
      PlaceOne(before, (row, col), size);
      player := player + 1;
      assert spawns[..player] == before + [(row, col)];
    }
  }

  lemma ApartFromPlaced(s: seq<Tile>, first: nat, p: Tile, size: nat)
    requires 4 <= first <= |s| && size >= MIN_MAP_WIDTH && Inner(p, size)
    requires s[..4] == [(1, 1), (size, size), (1, size), (size, 1)]
    requires forall k | 4 <= k < first :: s[k].0 + 3 <= p.0
    requires forall k | first <= k < |s| :: s[k].1 + 3 <= p.1
    ensures forall k | 0 <= k < |s| :: Apart(s[k], p)
  {
    forall k | 0 <= k < |s| ensures Apart(s[k], p) {
      if k < 4 {
        assert s[k] == s[..4][k];
      }
    }
  }
}
