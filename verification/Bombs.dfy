/** The queues of bombs and blasts (libbombbrain/bomb_control.c): what one tick leaves in them,
    and when the blast of a tick is where the bomb was. */
module Bombs {
  import opened Spawns

  const QUEUE_SIZE := 500

  datatype BombInfo = BombInfo(pos: Tile, spread: nat, timer: real)

  datatype Blast = Blast(center: Tile, spread: seq<Tile>, timer: real)

  // ----- Burning down -----

  function Enqueued(bs: seq<Blast>, b: Blast): seq<Blast> {
    if |bs| < QUEUE_SIZE then bs + [b] else bs
  }

  /** The bombs left after a tick, from place `i` on, and those that went off. A bomb whose
      time is up makes room for the last one, and that one goes off. */
  function BurntDown(bs: seq<BombInfo>, i: nat, dt: real): (r: (seq<BombInfo>, seq<BombInfo>))
    requires i <= |bs|
    ensures |r.0| + |r.1| == |bs|
    decreases |bs| - i
  {
    if i == |bs| then (bs, [])
    else
      var b := bs[i].(timer := bs[i].timer - dt);
      var ticked := bs[i := b];
      if b.timer <= 0.0 then
        var last := ticked[|bs| - 1];
        var rest := BurntDown(ticked[i := last][..|bs| - 1], i, dt);
        (rest.0, [last] + rest.1)
      else BurntDown(ticked, i + 1, dt)
  }

  /** One more bomb handled, after `gone` went off. */
  lemma BurnOne(bs: seq<BombInfo>, i: nat, dt: real, gone: seq<BombInfo>)
    requires i < |bs|
    ensures var b := bs[i].(timer := bs[i].timer - dt);
            var all, last := BurntDown(bs, i, dt), bs[i := b][|bs| - 1];
            if b.timer <= 0.0 then
              var rest := BurntDown(bs[i := b][i := last][..|bs| - 1], i, dt);
              all.0 == rest.0 && gone + all.1 == gone + [last] + rest.1
            else all == BurntDown(bs[i := b], i + 1, dt)
  {
    var b := bs[i].(timer := bs[i].timer - dt);
    if b.timer <= 0.0 {
      var last := bs[i := b][|bs| - 1];
      var rest := BurntDown(bs[i := b][i := last][..|bs| - 1], i, dt);
      assert gone + ([last] + rest.1) == gone + [last] + rest.1;
    }
  }

  lemma NoneLeft(bs: seq<BombInfo>, dt: real, gone: seq<BombInfo>)
    ensures BurntDown(bs, |bs|, dt).0 == bs && gone + BurntDown(bs, |bs|, dt).1 == gone
  {
  }

  /** The blast is centred on the bomb whose time is up only when it is the last in the
      queue: with another one behind it, that one goes off instead, and stays in the queue. */
  lemma AnotherBombGoesOff(a: BombInfo, b: BombInfo, dt: real)
    requires a.timer <= dt < b.timer
    ensures BurntDown([a, b], 0, dt) == ([b.(timer := b.timer - dt)], [b])
    ensures BurntDown([b, a], 0, dt) == ([b.(timer := b.timer - dt)], [a.(timer := a.timer - dt)])
  {
    var a', b' := a.(timer := a.timer - dt), b.(timer := b.timer - dt);
    assert [a, b][0 := a'] == [a', b] && [a', b][0 := b][..1] == [b];
    assert [b][0 := b'] == [b'] && BurntDown([b'], 1, dt) == ([b'], []);
    assert BurntDown([b], 0, dt) == ([b'], []);
    assert [b] + [] == [b] && BurntDown([a, b], 0, dt) == ([b'], [b] + []);
    var ba := [b', a];
    assert [b, a][0 := b'] == ba && ba[1 := a'] == [b', a'] && [b', a'][1 := a'][..1] == [b'];
    assert ba[1].(timer := ba[1].timer - dt) == a';
    assert [a'] + [] == [a'] && BurntDown(ba, 1, dt) == ([b'], [a'] + []);
    assert BurntDown([b, a], 0, dt) == BurntDown(ba, 1, dt);
  }

  /** In general: when the first bomb whose time is up is in place `i`, the first blast is
      centred on it if and only if it is the last bomb or the last bomb lies on its tile. */
  lemma {:induction false} BlastIsItsOwn(bs: seq<BombInfo>, j: nat, i: nat, dt: real)
    requires j <= i < |bs| && bs[i].timer <= dt && forall k | j <= k < i :: bs[k].timer > dt
    ensures var gone := BurntDown(bs, j, dt).1;
            gone != [] && (gone[0].pos == bs[i].pos <==> i == |bs| - 1 || bs[|bs| - 1].pos == bs[i].pos)
    decreases i - j
  {
    if j < i {
      var b := bs[j].(timer := bs[j].timer - dt);
      assert BurntDown(bs, j, dt) == BurntDown(bs[j := b], j + 1, dt);
      BlastIsItsOwn(bs[j := b], j + 1, i, dt);
    }
  }

  // ----- Which bombs go off -----

  predicate Due(b: BombInfo, dt: real) {
    b.timer <= dt
  }

  function DueCount(bs: seq<BombInfo>, i: nat, dt: real): (n: nat)
    requires i <= |bs|
    ensures n <= |bs| - i
    decreases |bs| - i
  {
    if i == |bs| then 0 else (if Due(bs[i], dt) then 1 else 0) + DueCount(bs, i + 1, dt)
  }

  /** Some bomb from place `i` on lies on this tile. */
  ghost predicate SomeAt(bs: seq<BombInfo>, i: nat, t: Tile) {
    exists j :: i <= j < |bs| && bs[j].pos == t
  }

  /** Some bomb from place `i` on whose time is up lies on this tile. */
  ghost predicate DueAt(bs: seq<BombInfo>, i: nat, dt: real, t: Tile) {
    exists j :: i <= j < |bs| && Due(bs[j], dt) && bs[j].pos == t
  }

  lemma {:induction false} DueCountFrom(as': seq<BombInfo>, bs: seq<BombInfo>, i: nat, dt: real)
    requires |as'| == |bs| && i <= |bs| && forall k | i <= k < |bs| :: as'[k] == bs[k]
    ensures DueCount(as', i, dt) == DueCount(bs, i, dt)
    decreases |bs| - i
  {
    if i < |bs| {
      DueCountFrom(as', bs, i + 1, dt);
    }
  }

  lemma {:induction false} DueCountButLast(bs: seq<BombInfo>, i: nat, dt: real)
    requires i < |bs|
    ensures DueCount(bs, i, dt) == DueCount(bs[..|bs| - 1], i, dt) + (if Due(bs[|bs| - 1], dt) then 1 else 0)
    decreases |bs| - i
  {
    if i + 1 < |bs| {
      DueCountButLast(bs, i + 1, dt);
    }
  }

  /** The queue after the bomb in place `i` has made room for the last one. */
  function Swapped(bs: seq<BombInfo>, i: nat): (r: seq<BombInfo>)
    requires i < |bs|
    ensures |r| == |bs| - 1
  {
    bs[i := bs[|bs| - 1]][..|bs| - 1]
  }

  /** One due bomb fewer is left to handle. */
  lemma SwappedDue(bs: seq<BombInfo>, i: nat, dt: real)
    requires i + 1 < |bs| && Due(bs[i], dt)
    ensures DueCount(bs, i, dt) == DueCount(Swapped(bs, i), i, dt) + 1
  {
    DueCountButLast(bs, i + 1, dt);
    DueCountFrom(Swapped(bs, i), bs[..|bs| - 1], i + 1, dt);
  }

  /** Handling one bomb: what goes off, and what is left to handle. */
  lemma BurnStep(bs: seq<BombInfo>, i: nat, dt: real)
    requires i < |bs|
    ensures !Due(bs[i], dt) ==> BurntDown(bs, i, dt) == BurntDown(bs[i := bs[i].(timer := bs[i].timer - dt)], i + 1, dt)
    ensures Due(bs[i], dt) && i + 1 < |bs|
        ==> BurntDown(bs, i, dt).1 == [bs[|bs| - 1]] + BurntDown(Swapped(bs, i), i, dt).1
    ensures Due(bs[i], dt) && i + 1 == |bs| ==> BurntDown(bs, i, dt).1 == [bs[i].(timer := bs[i].timer - dt)]
  {
    var b := bs[i].(timer := bs[i].timer - dt);
    if Due(bs[i], dt) {
      assert i + 1 < |bs| ==> bs[i := b][i := bs[|bs| - 1]][..|bs| - 1] == Swapped(bs, i);
      if i + 1 == |bs| {
        var rest := bs[i := b][i := b][..|bs| - 1];
        assert BurntDown(rest, i, dt) == (rest, []);
      }
    }
  }

  /** Among the bombs from place `i` on, a blast is to be on this tile: one of the last ones, as
      many as are due, lies there. The foremost of those does not count when it is due and the
      next one is too, for then it makes room twice without going off itself. */
  ghost predicate Blasted(bs: seq<BombInfo>, i: nat, dt: real, t: Tile)
    requires i <= |bs|
  {
    BlastedFrom(bs, |bs| - DueCount(bs, i, dt), dt, t)
  }

  ghost predicate BlastedFrom(bs: seq<BombInfo>, m: nat, dt: real, t: Tile) {
    m < |bs| && (SomeAt(bs, m + 1, t)
                 || (bs[m].pos == t && !(m + 1 < |bs| && Due(bs[m], dt) && Due(bs[m + 1], dt))))
  }

  lemma {:induction false} CountOfDue(bs: seq<BombInfo>, i: nat, j: nat, dt: real)
    requires i <= j < |bs|
    ensures Due(bs[j], dt) ==> DueCount(bs, i, dt) >= 1 + DueCount(bs, j + 1, dt)
    ensures !Due(bs[j], dt) ==> DueCount(bs, i, dt) < |bs| - i
    decreases j - i
  {
    if i < j {
      CountOfDue(bs, i + 1, j, dt);
    }
  }

  /** As many bombs go off as are due, and the blasts are exactly on the tiles described. */
  lemma {:induction false} BlastsAreWhere(bs: seq<BombInfo>, i: nat, dt: real, t: Tile)
    requires i <= |bs|
    ensures |BurntDown(bs, i, dt).1| == DueCount(bs, i, dt)
    ensures SomeAt(BurntDown(bs, i, dt).1, 0, t) <==> Blasted(bs, i, dt, t)
    decreases |bs| - i
  {
    hide BurntDown;
    if i == |bs| {
      NoneLeft(bs, dt, []);
    } else {
      BurnStep(bs, i, dt);
      if !Due(bs[i], dt) {
        var as' := bs[i := bs[i].(timer := bs[i].timer - dt)];
        DueCountFrom(as', bs, i + 1, dt);
        BlastsAreWhere(as', i + 1, dt, t);
        SameFrom(as', bs, i + 1, |bs| - DueCount(bs, i, dt) + 1, dt, t);
      } else if i + 1 < |bs| {
        var as' := Swapped(bs, i);
        SwappedDue(bs, i, dt);
        BlastsAreWhere(as', i, dt, t);
        ConsAt(bs[|bs| - 1], BurntDown(as', i, dt).1, t);
        SwappedBlasted(bs, i, dt, t);
      } else {
        assert DueCount(bs, i, dt) == 1;
        OneAt(BurntDown(bs, i, dt).1, t);
        NoneAt(bs, |bs|, t);
      }
    }
  }

  lemma SwappedBlasted(bs: seq<BombInfo>, i: nat, dt: real, t: Tile)
    requires i + 1 < |bs| && Due(bs[i], dt) && DueCount(bs, i, dt) == DueCount(Swapped(bs, i), i, dt) + 1
    ensures Blasted(bs, i, dt, t) <==> bs[|bs| - 1].pos == t || Blasted(Swapped(bs, i), i, dt, t)
  {
    hide Swapped, BlastedFrom;
    var m := |bs| - DueCount(bs, i, dt);
    if m + 1 == |bs| {
      LastGoesOff(bs, m, dt, t);
      NoneBlasted(Swapped(bs, i), m, dt, t);
    } else if m == i {
      CountOfDue(bs, i, i + 1, dt);
      SwappedAtFirst(bs, i, dt, t);
    } else {
      if m + 2 == |bs| {
        NotBothDue(bs, i, m, dt);
      }
      SwappedBefore(bs, i, m, dt, t);
    }
  }

  lemma LastGoesOff(bs: seq<BombInfo>, m: nat, dt: real, t: Tile)
    requires m + 1 == |bs|
    ensures BlastedFrom(bs, m, dt, t) <==> bs[m].pos == t
  {
    NoneAt(bs, |bs|, t);
  }

  lemma NoneBlasted(bs: seq<BombInfo>, m: nat, dt: real, t: Tile)
    requires m >= |bs|
    ensures !BlastedFrom(bs, m, dt, t)
  {
  }

  lemma SwappedAtFirst(bs: seq<BombInfo>, i: nat, dt: real, t: Tile)
    requires i + 1 < |bs| && Due(bs[i], dt) && Due(bs[i + 1], dt)
    ensures BlastedFrom(bs, i, dt, t) <==> bs[|bs| - 1].pos == t || BlastedFrom(Swapped(bs, i), i, dt, t)
  {
    hide SomeAt;
    LastApart(bs, i, i + 1, t);
    assert Swapped(bs, i)[i] == bs[|bs| - 1];
  }

  lemma SwappedBefore(bs: seq<BombInfo>, i: nat, m: nat, dt: real, t: Tile)
    requires i < m && m + 1 < |bs| && (m + 2 == |bs| ==> !Due(bs[m], dt) || !Due(bs[m + 1], dt))
    ensures BlastedFrom(bs, m, dt, t) <==> bs[|bs| - 1].pos == t || BlastedFrom(Swapped(bs, i), m, dt, t)
  {
    hide SomeAt;
    LastApart(bs, i, m + 1, t);
    assert Swapped(bs, i)[m] == bs[m] && (m + 2 < |bs| ==> Swapped(bs, i)[m + 1] == bs[m + 1]);
  }

  /** With two left to go off, one of them in place `i`, the last two are not both due. */
  lemma NotBothDue(bs: seq<BombInfo>, i: nat, m: nat, dt: real)
    requires i < m && m + 2 == |bs| && Due(bs[i], dt) && DueCount(bs, i, dt) == 2
    ensures !Due(bs[m], dt) || !Due(bs[m + 1], dt)
  {
    CountOfDue(bs, i + 1, m, dt);
    CountOfDue(bs, m + 1, m + 1, dt);
  }

  lemma OneAt(bs: seq<BombInfo>, t: Tile)
    requires |bs| == 1
    ensures SomeAt(bs, 0, t) <==> bs[0].pos == t
  {
  }

  lemma NoneAt(bs: seq<BombInfo>, i: nat, t: Tile)
    requires i >= |bs|
    ensures !SomeAt(bs, i, t)
  {
  }

  lemma LastApart(bs: seq<BombInfo>, i: nat, m: nat, t: Tile)
    requires i < m < |bs|
    ensures SomeAt(bs, m, t) <==> bs[|bs| - 1].pos == t || SomeAt(Swapped(bs, i), m, t)
  {
    var as' := Swapped(bs, i);
    forall k | i < k < |bs| - 1 ensures as'[k] == bs[k] {
    }
    if SomeAt(bs, m, t) && bs[|bs| - 1].pos != t {
      var k :| m <= k < |bs| && bs[k].pos == t;
      assert as'[k].pos == t;
    }
    if SomeAt(as', m, t) {
      var k :| m <= k < |as'| && as'[k].pos == t;
      assert bs[k].pos == t;
    }
  }

  /** As many bombs go off as are due, and they are the last ones of the queue: every blast is
      on the tile of one of the last bombs, and every tile of one of them has a blast or a bomb
      that is due. */
  lemma LastOnesGoOff(bs: seq<BombInfo>, i: nat, dt: real, t: Tile)
    requires i <= |bs|
    ensures var m, gone := |bs| - DueCount(bs, i, dt), BurntDown(bs, i, dt).1;
            && |gone| == DueCount(bs, i, dt) && i <= m
            && (SomeAt(gone, 0, t) ==> SomeAt(bs, m, t))
            && (SomeAt(bs, m, t) ==> SomeAt(gone, 0, t) || DueAt(bs, i, dt, t))
  {
    hide BurntDown;
    BlastsAreWhere(bs, i, dt, t);
  }

  lemma SameFrom(as': seq<BombInfo>, bs: seq<BombInfo>, i: nat, m: nat, dt: real, t: Tile)
    requires |as'| == |bs| && i <= m && forall k | i <= k < |bs| :: as'[k] == bs[k]
    ensures SomeAt(as', m, t) == SomeAt(bs, m, t) && DueAt(as', i, dt, t) == DueAt(bs, i, dt, t)
  {
  }

  lemma ConsAt(b: BombInfo, bs: seq<BombInfo>, t: Tile)
    ensures SomeAt([b] + bs, 0, t) <==> b.pos == t || SomeAt(bs, 0, t)
  {
    assert ([b] + bs)[0] == b;
    forall j | 0 <= j < |bs| ensures ([b] + bs)[j + 1] == bs[j] {
    }
  }

  /** A whole tick: every blast is on the tile of a bomb whose time is up if and only if each of
      the last bombs of the queue, as many as are due, shares its tile with one that is due. */
  lemma BlastsAreDue(bs: seq<BombInfo>, dt: real)
    ensures (forall k | 0 <= k < |BurntDown(bs, 0, dt).1| :: DueAt(bs, 0, dt, BurntDown(bs, 0, dt).1[k].pos))
            <==> (forall j | |bs| - DueCount(bs, 0, dt) <= j < |bs| :: DueAt(bs, 0, dt, bs[j].pos))
  {
    hide BurntDown, DueAt, DueCount;
    var gone, m := BurntDown(bs, 0, dt).1, |bs| - DueCount(bs, 0, dt);
    forall t: Tile ensures SomeAt(gone, 0, t) ==> SomeAt(bs, m, t)
      ensures SomeAt(bs, m, t) ==> SomeAt(gone, 0, t) || DueAt(bs, 0, dt, t)
    {
      LastOnesGoOff(bs, 0, dt, t);
    }
    if forall j | m <= j < |bs| :: DueAt(bs, 0, dt, bs[j].pos) {
      forall k | 0 <= k < |gone| ensures DueAt(bs, 0, dt, gone[k].pos) {
        assert SomeAt(gone, 0, gone[k].pos);
      }
    }
    if forall k | 0 <= k < |gone| :: DueAt(bs, 0, dt, gone[k].pos) {
      forall j | m <= j < |bs| ensures DueAt(bs, 0, dt, bs[j].pos) {
        var t := bs[j].pos;
        assert SomeAt(bs, m, t);
        if SomeAt(gone, 0, t) {
          var k :| 0 <= k < |gone| && gone[k].pos == t;
          assert DueAt(bs, 0, dt, gone[k].pos);
        }
      }
    }
  }

  ghost predicate TilesDiffer(bs: seq<BombInfo>) {
    forall i, j | 0 <= i < j < |bs| :: bs[i].pos != bs[j].pos
  }

  /** A bomb that is due with others behind it does not go off. */
  lemma {:induction false} DueBombIsSkipped(bs: seq<BombInfo>, j: nat, i: nat, dt: real)
    requires j <= i && i + 1 < |bs| && Due(bs[i], dt) && forall k | j <= k < i :: !Due(bs[k], dt)
    requires forall k | i < k < |bs| :: bs[k].pos != bs[i].pos
    ensures !SomeAt(BurntDown(bs, j, dt).1, 0, bs[i].pos)
    decreases i - j
  {
    hide BurntDown;
    BurnStep(bs, j, dt);
    if j < i {
      DueBombIsSkipped(bs[j := bs[j].(timer := bs[j].timer - dt)], j + 1, i, dt);
    } else {
      var as' := Swapped(bs, i);
      LastOnesGoOff(as', i, dt, bs[i].pos);
      assert forall k | i <= k < |as'| :: as'[k].pos != bs[i].pos;
      ConsAt(bs[|bs| - 1], BurntDown(as', i, dt).1, bs[i].pos);
    }
  }

  lemma {:induction false} NothingDue(bs: seq<BombInfo>, j: nat, dt: real)
    requires j < |bs| && forall k | j <= k < |bs| - 1 :: !Due(bs[k], dt)
    ensures var b := bs[|bs| - 1];
            BurntDown(bs, j, dt).1 == if Due(b, dt) then [b.(timer := b.timer - dt)] else []
    decreases |bs| - j
  {
    hide BurntDown;
    BurnStep(bs, j, dt);
    if j + 1 < |bs| {
      NothingDue(bs[j := bs[j].(timer := bs[j].timer - dt)], j + 1, dt);
    } else if !Due(bs[j], dt) {
      NoneLeft(bs[j := bs[j].(timer := bs[j].timer - dt)], dt, []);
    }
  }

  lemma FirstDue(bs: seq<BombInfo>, i: nat, dt: real) returns (f: nat)
    requires i < |bs| && Due(bs[i], dt)
    ensures f <= i && Due(bs[f], dt) && forall k | 0 <= k < f :: !Due(bs[k], dt)
  {
    f := 0;
    while !Due(bs[f], dt)
      invariant f <= i && forall k | 0 <= k < f :: !Due(bs[k], dt)
      decreases i - f
    {
      f := f + 1;
    }
  }

  /** Every bomb whose time is up has a blast on its tile in the tick if and only if each of
      them lies where a blast is to be; with bombs on different tiles, if and only if none
      before the last one is due. */
  lemma EveryDueBombGoesOff(bs: seq<BombInfo>, dt: real)
    ensures AllDueGoOff(bs, dt) <==> forall j | 0 <= j < |bs| && Due(bs[j], dt) :: Blasted(bs, 0, dt, bs[j].pos)
    ensures TilesDiffer(bs) ==> (AllDueGoOff(bs, dt) <==> forall j | 0 <= j < |bs| - 1 :: !Due(bs[j], dt))
  {
    hide BurntDown, Blasted;
    forall j | 0 <= j < |bs|
      ensures SomeAt(BurntDown(bs, 0, dt).1, 0, bs[j].pos) <==> Blasted(bs, 0, dt, bs[j].pos)
    {
      BlastsAreWhere(bs, 0, dt, bs[j].pos);
    }
    if TilesDiffer(bs) {
      DueGoOffApart(bs, dt);
    }
  }

  ghost predicate AllDueGoOff(bs: seq<BombInfo>, dt: real) {
    forall j | 0 <= j < |bs| && Due(bs[j], dt) :: SomeAt(BurntDown(bs, 0, dt).1, 0, bs[j].pos)
  }

  lemma DueGoOffApart(bs: seq<BombInfo>, dt: real)
    requires TilesDiffer(bs)
    ensures AllDueGoOff(bs, dt) <==> forall j | 0 <= j < |bs| - 1 :: !Due(bs[j], dt)
  {
    hide BurntDown;
    if i :| 0 <= i < |bs| - 1 && Due(bs[i], dt) {
      var f := FirstDue(bs, i, dt);
      DueBombIsSkipped(bs, 0, f, dt);
    } else if bs != [] {
      NothingDue(bs, 0, dt);
      var last := bs[|bs| - 1];
      if Due(last, dt) {
        assert BurntDown(bs, 0, dt).1[0].pos == last.pos;
      }
    }
  }

  /** Even where the first blast is right a later one may not be: of two due bombs on one tile
      with a live one between them, the second blast is on the live one's tile. */
  lemma SecondBlastElsewhere(e: BombInfo, m: BombInfo, dt: real)
    requires Due(e, dt) && !Due(m, dt) && m.pos != e.pos
    ensures BurntDown([e, m, e], 0, dt).1 == [e, m] && !DueAt([e, m, e], 0, dt, m.pos)
  {
    hide BurntDown;
    var bs := [e, m, e];
    BurnStep(bs, 0, dt);
    assert Swapped(bs, 0) == [e, m];
    BurnStep([e, m], 0, dt);
    assert Swapped([e, m], 0) == [m];
    NothingDue([m], 0, dt);
    assert [e] + ([m] + []) == [e, m];
  }

  // ----- Burning out -----

  /** The blasts left after a tick, from place `i` on, and those that ended. */
  function BurntOut(bs: seq<Blast>, i: nat, dt: real): (r: (seq<Blast>, seq<Blast>))
    requires i <= |bs|
    ensures |r.0| + |r.1| == |bs|
    decreases |bs| - i
  {
    if i == |bs| then (bs, [])
    else
      var b := bs[i].(timer := bs[i].timer - dt);
      var ticked := bs[i := b];
      if b.timer <= 0.0 then
        var rest := BurntOut(ticked[i := ticked[|bs| - 1]][..|bs| - 1], i, dt);
        (rest.0, [b] + rest.1)
      else BurntOut(ticked, i + 1, dt)
  }

  lemma FadeOne(bs: seq<Blast>, i: nat, dt: real, done: seq<Blast>)
    requires i < |bs|
    ensures var b := bs[i].(timer := bs[i].timer - dt);
            var all, last := BurntOut(bs, i, dt), bs[i := b][|bs| - 1];
            if b.timer <= 0.0 then
              var rest := BurntOut(bs[i := b][i := last][..|bs| - 1], i, dt);
              all.0 == rest.0 && done + all.1 == done + [b] + rest.1
            else all == BurntOut(bs[i := b], i + 1, dt)
  {
    var b := bs[i].(timer := bs[i].timer - dt);
    if b.timer <= 0.0 {
      var last := bs[i := b][|bs| - 1];
      var rest := BurntOut(bs[i := b][i := last][..|bs| - 1], i, dt);
      assert done + ([b] + rest.1) == done + [b] + rest.1;
    }
  }

  /** The blasts with this much less time left. */
  function Aged(bs: seq<Blast>, dt: real): (r: seq<Blast>)
    ensures |r| == |bs|
  {
    seq(|bs|, k requires 0 <= k < |bs| => bs[k].(timer := bs[k].timer - dt))
  }

  /** The queue once the blast in place `i`, now `b`, has ended and the last taken its place. */
  function Replaced(bs: seq<Blast>, i: nat, b: Blast): (r: seq<Blast>)
    requires i < |bs|
    ensures |r| == |bs| - 1
  {
    bs[i := b][i := bs[i := b][|bs| - 1]][..|bs| - 1]
  }

  lemma OneFades(bs: seq<Blast>, i: nat, dt: real)
    requires i < |bs|
    ensures var b := bs[i].(timer := bs[i].timer - dt);
            var all := BurntOut(bs, i, dt);
            if b.timer <= 0.0 then
              all == (BurntOut(Replaced(bs, i, b), i, dt).0, [b] + BurntOut(Replaced(bs, i, b), i, dt).1)
            else all == BurntOut(bs[i := b], i + 1, dt)
  {}

  function Both(r: (seq<Blast>, seq<Blast>)): multiset<Blast> {
    multiset(r.0) + multiset(r.1)
  }

  /** Before place `i` the blasts are aged already. */
  function AgedFrom(bs: seq<Blast>, i: nat, dt: real): multiset<Blast>
    requires i <= |bs|
  {
    multiset(bs[..i]) + multiset(Aged(bs[i..], dt))
  }

  lemma {:induction false} AgedOnceFrom(bs: seq<Blast>, i: nat, dt: real)
    requires i <= |bs|
    ensures Both(BurntOut(bs, i, dt)) == AgedFrom(bs, i, dt)
    decreases |bs| - i
  {
    hide BurntOut, Replaced, Aged, Both, AgedFrom;
    if i == |bs| {
      NoneToAge(bs, dt);
    } else {
      var b := bs[i].(timer := bs[i].timer - dt);
      OneFades(bs, i, dt);
      if b.timer <= 0.0 {
        var rest := Replaced(bs, i, b);
        AgedOnceFrom(rest, i, dt);
        AgedReplaced(bs, b, i, dt);
        OneMore(BurntOut(rest, i, dt), b);
      } else {
        AgedOnceFrom(bs[i := b], i + 1, dt);
        AgedPassed(bs, b, i, dt);
      }
    }
  }

  lemma NoneToAge(bs: seq<Blast>, dt: real)
    ensures Both(BurntOut(bs, |bs|, dt)) == AgedFrom(bs, |bs|, dt)
  {
    assert bs[..|bs|] == bs && bs[|bs|..] == [];
    assert Aged([], dt) == [];
  }

  lemma OneMore(r: (seq<Blast>, seq<Blast>), b: Blast)
    ensures Both((r.0, [b] + r.1)) == Both(r) + multiset{b}
  {
    assert multiset([b] + r.1) == multiset{b} + multiset(r.1);
  }

  lemma AgedReplaced(bs: seq<Blast>, b: Blast, i: nat, dt: real)
    requires i < |bs| && b == bs[i].(timer := bs[i].timer - dt)
    ensures AgedFrom(bs, i, dt) == AgedFrom(Replaced(bs, i, b), i, dt) + multiset{b}
  {
    FirstAged(bs, b, i, dt);
    LastMovesUp(bs, b, i, dt);
    hide Replaced, Aged;
  }

  lemma AgedPassed(bs: seq<Blast>, b: Blast, i: nat, dt: real)
    requires i < |bs| && b == bs[i].(timer := bs[i].timer - dt)
    ensures AgedFrom(bs, i, dt) == AgedFrom(bs[i := b], i + 1, dt)
  {
    FirstAged(bs, b, i, dt);
    hide Aged;
  }

  lemma FirstAged(bs: seq<Blast>, b: Blast, i: nat, dt: real)
    requires i < |bs| && b == bs[i].(timer := bs[i].timer - dt)
    ensures multiset(Aged(bs[i..], dt)) == multiset{b} + multiset(Aged(bs[i + 1..], dt))
    ensures multiset(bs[i := b][..i + 1]) == multiset(bs[..i]) + multiset{b} && bs[i := b][i + 1..] == bs[i + 1..]
  {
    assert Aged(bs[i..], dt) == [b] + Aged(bs[i + 1..], dt);
    assert bs[i := b][..i + 1] == bs[..i] + [b];
  }

  /** Exactly those with time left stay. */
  lemma {:induction false} EndsOnTimeFrom(bs: seq<Blast>, i: nat, dt: real)
    requires i <= |bs| && forall k | 0 <= k < i :: bs[k].timer > 0.0
    ensures var (kept, done) := BurntOut(bs, i, dt);
            (forall b | b in kept :: b.timer > 0.0) && forall b | b in done :: b.timer <= 0.0
    decreases |bs| - i
  {
    if i < |bs| {
      var b := bs[i].(timer := bs[i].timer - dt);
      OneFades(bs, i, dt);
      hide BurntOut;
      if b.timer <= 0.0 {
        EndsOnTimeFrom(Replaced(bs, i, b), i, dt);
      } else {
        EndsOnTimeFrom(bs[i := b], i + 1, dt);
      }
    }
  }

  lemma LastMovesUp(bs: seq<Blast>, b: Blast, i: nat, dt: real)
    requires i < |bs|
    ensures var rest := Replaced(bs, i, b);
            rest[..i] == bs[..i] && multiset(Aged(rest[i..], dt)) == multiset(Aged(bs[i + 1..], dt))
  {
    var m, rest := |bs| - 1, Replaced(bs, i, b);
    if i < m {
      var mid, x := bs[i + 1..m], bs[m];
      assert rest[i..] == [x] + mid && bs[i + 1..] == mid + [x];
      assert Aged([x] + mid, dt) == Aged([x], dt) + Aged(mid, dt);
      assert Aged(mid + [x], dt) == Aged(mid, dt) + Aged([x], dt);
    } else {
      assert rest[i..] == [] && bs[i + 1..] == [];
    }
  }

  /** In any queue every blast ages by one tick, once, in spite of the swaps; exactly those with
      no time left end. */
  lemma BlastsEndOnTime(bs: seq<Blast>, dt: real)
    ensures var (kept, done) := BurntOut(bs, 0, dt);
            && multiset(kept) + multiset(done) == multiset(Aged(bs, dt))
            && (forall b | b in kept :: b.timer > 0.0) && forall b | b in done :: b.timer <= 0.0
  {
    EndsOnTimeFrom(bs, 0, dt);
    AgedOnceFrom(bs, 0, dt);
    hide BurntOut, Aged;
    assert bs[0..] == bs && multiset(bs[..0]) == multiset{};
  }

  lemma NoBlastsLeft(bs: seq<Blast>, dt: real, done: seq<Blast>)
    ensures BurntOut(bs, |bs|, dt).0 == bs && done + BurntOut(bs, |bs|, dt).1 == done
  {
  }

  predicate InBlastOf(b: Blast, t: Tile) {
    t == b.center || t in b.spread
  }

  ghost predicate InSome(bs: seq<Blast>, t: Tile) {
    exists i :: 0 <= i < |bs| && InBlastOf(bs[i], t)
  }

  lemma OneMoreDone(bs: seq<Blast>, b: Blast)
    ensures forall t: Tile :: InSome(bs + [b], t) <==> InSome(bs, t) || InBlastOf(b, t)
  {
    forall t: Tile ensures InSome(bs + [b], t) <==> InSome(bs, t) || InBlastOf(b, t) {
      assert (bs + [b])[|bs|] == b;
      assert forall i | 0 <= i < |bs| :: (bs + [b])[i] == bs[i];
    }
  }
}
