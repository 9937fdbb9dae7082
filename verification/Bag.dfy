/** The piece generator (bag.c): the Fisher-Yates shuffle, the fourteen-slot bag and the
    stream of pieces it deals. `rand()` is an arbitrary input throughout. */
module Bag {
  import opened Collections
  import opened Tetromino
  import opened Board

  // ----- The shuffle -----

  /** One choice per position: `js[i]` is the position swapped with `i`. */
  ghost predicate IsChoice(js: seq<nat>) {
    forall i | 0 <= i < |js| :: js[i] <= i
  }

  function Swap<T>(s: seq<T>, i: nat, j: nat): (r: seq<T>)
    requires i < |s| && j < |s|
    ensures |r| == |s|
  {
    s[i := s[j]][j := s[i]]
  }

  /** Settle the last position, then shuffle what is in front of it. */
  function Shuffled<T>(s: seq<T>, js: seq<nat>): (r: seq<T>)
    requires |js| == |s| && forall i | 0 <= i < |js| :: js[i] <= i
    ensures |r| == |s|
    decreases |s|
  {
    if s == [] then []
    else
      var n := |s| - 1;
      var t := Swap(s, n, js[n]);
      Shuffled(t[..n], js[..n]) + [t[n]]
  }

  lemma SwapKeepsElements<T>(s: seq<T>, i: nat, j: nat)
    requires i < |s| && j < |s|
    ensures multiset(Swap(s, i, j)) == multiset(s)
  {}

  lemma OneMoreElement<T>(s: seq<T>, x: T)
    ensures multiset(s + [x]) == multiset(s) + multiset{x}
  {}

  lemma SplitLast<T>(s: seq<T>)
    requires s != []
    ensures multiset(s) == multiset(s[..|s| - 1]) + multiset{s[|s| - 1]}
  {
    assert s == s[..|s| - 1] + [s[|s| - 1]];
  }

  lemma {:induction false} ShuffledKeepsElements<T>(s: seq<T>, js: seq<nat>)
    requires |js| == |s| && IsChoice(js)
    ensures multiset(Shuffled(s, js)) == multiset(s)
    decreases |s|
  {
    hide Swap;
    if s != [] {
      var n := |s| - 1;
      var t := Swap(s, n, js[n]);
      SwapKeepsElements(s, n, js[n]);
      ShuffledKeepsElements(t[..n], js[..n]);
      SplitLast(t);
      OneMoreElement(Shuffled(t[..n], js[..n]), t[n]);
    }
  }

  lemma SwapKeepsUnique<T>(s: seq<T>, i: nat, j: nat)
    requires i < |s| && j < |s| && Unique(s)
    ensures Unique(Swap(s, i, j))
  {}

  /** Two different choice sequences never lead to the same arrangement. */
  lemma {:induction false} ShuffleInjective<T>(s: seq<T>, js: seq<nat>, ks: seq<nat>)
    requires |js| == |s| == |ks| && IsChoice(js) && IsChoice(ks) && Unique(s)
    requires Shuffled(s, js) == Shuffled(s, ks)
    ensures js == ks
    decreases |s|
  {
    hide Swap, Shuffled;
    if s != [] {
      var n := |s| - 1;
      var t := Swap(s, n, js[n]);
      LastSettled(s, js);
      LastSettled(s, ks);
      assert js[n] == ks[n];
      SwapKeepsUnique(s, n, js[n]);
      ShuffleInjective(t[..n], js[..n], ks[..n]);
      assert js == js[..n] + [js[n]] && ks == ks[..n] + [ks[n]];
    }
  }

  lemma LastSettled<T>(s: seq<T>, js: seq<nat>)
    requires |js| == |s| && IsChoice(js) && s != []
    ensures var n := |s| - 1;
            && Shuffled(s, js)[n] == s[js[n]]
            && Shuffled(s, js)[..n] == Shuffled(Swap(s, n, js[n])[..n], js[..n])
  {
    hide Swap;
    var n := |s| - 1;
    var t := Swap(s, n, js[n]);
    SwapEnds(s, n, js[n]);
    LastAndFront(Shuffled(t[..n], js[..n]), t[n]);
  }

  lemma LastAndFront<T>(s: seq<T>, x: T)
    ensures (s + [x])[|s|] == x && (s + [x])[..|s|] == s
  {}

  lemma SameFront<T>(s: seq<T>, p: seq<T>)
    requires s != [] && |p| == |s| && multiset(p) == multiset(s) && s[|s| - 1] == p[|s| - 1]
    ensures multiset(p[..|s| - 1]) == multiset(s[..|s| - 1])
  {
    SplitLast(s);
    SplitLast(p);
    var n := |s| - 1;
    assert multiset(s[..n]) == multiset(s) - multiset{s[n]};
    assert multiset(p[..n]) == multiset(p) - multiset{p[n]};
  }

  lemma SwapEnds<T>(s: seq<T>, i: nat, j: nat)
    requires i < |s| && j < |s|
    ensures Swap(s, i, j)[i] == s[j]
  {}

  lemma ShuffledLast<T>(s: seq<T>, front: seq<nat>, j: nat)
    requires |front| + 1 == |s| && IsChoice(front) && j < |s|
    ensures IsChoice(front + [j])
    ensures var n := |s| - 1;
            Shuffled(s, front + [j]) == Shuffled(Swap(s, n, j)[..n], front) + [s[j]]
  {
    assert (front + [j])[..|front|] == front;
  }

  lemma IndexOf<T>(s: seq<T>, p: seq<T>, x: T) returns (j: nat)
    requires multiset(p) == multiset(s) && x in p
    ensures j < |s| && s[j] == x
  {
    assert x in multiset(p);
    assert x in multiset(s);
    j :| 0 <= j < |s| && s[j] == x;
  }

  /** The choice that brings the wanted last element to the end. */
  lemma ChooseLast<T>(s: seq<T>, p: seq<T>) returns (j: nat)
    requires s != [] && |p| == |s| && multiset(p) == multiset(s)
    ensures var n := |s| - 1;
            j < |s| && s[j] == p[n] && multiset(p[..n]) == multiset(Swap(s, n, j)[..n])
  {
    hide Swap;
    var n := |s| - 1;
    j := IndexOf(s, p, p[n]);
    SwapKeepsElements(s, n, j);
    SwapEnds(s, n, j);
    SameFront(Swap(s, n, j), p);
  }

  lemma SameLength<T>(s: seq<T>, p: seq<T>)
    requires multiset(p) == multiset(s)
    ensures |p| == |s|
  {
    assert |multiset(p)| == |p| && |multiset(s)| == |s|;
  }

  /** Every arrangement of the elements is the result of some choice sequence. */
  lemma {:induction false} ShuffleSurjective<T>(s: seq<T>, p: seq<T>) returns (js: seq<nat>)
    requires multiset(p) == multiset(s)
    ensures |js| == |s| && IsChoice(js) && Shuffled(s, js) == p
    decreases |s|
  {
    SameLength(s, p);
    js := [];
    if s != [] {
      var n := |s| - 1;
      var j := ChooseLast(s, p);
      var front := ShuffleSurjective(Swap(s, n, j)[..n], p[..n]);
      ShuffledLast(s, front, j);
      js := front + [j];
      assert p == p[..n] + [p[n]];
    }
  }

  /** The shuffle maps choice sequences one-to-one onto arrangements: each arrangement of
      distinct elements is reached, and by exactly one choice sequence. */
  lemma ShuffleBijective<T>(s: seq<T>, p: seq<T>)
    requires Unique(s)
    ensures multiset(p) == multiset(s) <==>
            exists js: seq<nat> :: |js| == |s| && IsChoice(js) && Shuffled(s, js) == p
    ensures forall js: seq<nat>, ks: seq<nat> ::
              (|js| == |s| == |ks| && IsChoice(js) && IsChoice(ks)
               && Shuffled(s, js) == p && Shuffled(s, ks) == p) ==> js == ks
  {
    if multiset(p) == multiset(s) {
      var js := ShuffleSurjective(s, p);
    }
    forall js: seq<nat> | |js| == |s| && IsChoice(js) && Shuffled(s, js) == p
      ensures multiset(p) == multiset(s)
    {
      ShuffledKeepsElements(s, js);
    }
    forall js: seq<nat>, ks: seq<nat> | |js| == |s| == |ks| && IsChoice(js) && IsChoice(ks)
        && Shuffled(s, js) == p && Shuffled(s, ks) == p
      ensures js == ks
    {
      ShuffleInjective(s, js, ks);
    }
  }

  /** The choices made from raw `rand()` results; `picks[i]` settles position `i`. */
  function Choices(picks: seq<nat>, n: nat): (js: seq<nat>)
    ensures |js| == n && forall i | 0 <= i < n :: js[i] <= i
  {
    seq(n, i requires 0 <= i < n => Roll(picks, i) % (i + 1))
  }

  /** Settling position `i` and leaving the rest to later steps. */
  lemma PeelLast<T>(s: seq<T>, js: seq<nat>, i: nat)
    requires |js| == |s| && IsChoice(js) && i < |s|
    ensures var t := Swap(s, i, js[i]);
            Shuffled(s[..i + 1], js[..i + 1]) + s[i + 1..] == Shuffled(t[..i], js[..i]) + t[i..]
  {
    var t, u := Swap(s, i, js[i]), Swap(s[..i + 1], i, js[i]);
    assert js[..i + 1][i] == js[i] && js[..i + 1][..i] == js[..i];
    assert u == t[..i + 1] && u[..i] == t[..i];
    assert t[i..] == [t[i]] + s[i + 1..];
    assert Shuffled(s[..i + 1], js[..i + 1]) == Shuffled(t[..i], js[..i]) + [t[i]];
  }

  lemma SwapSelf<T>(s: seq<T>)
    requires s != []
    ensures Swap(s, 0, 0) == s == s[..0] + s[0..]
  {}

  method SwapCells<T>(a: array<T>, i: nat, j: nat)
    requires i < a.Length && j < a.Length
    modifies a
    ensures a[..] == Swap(old(a[..]), i, j)
  {
    var temp := a[i];
    a[i] := a[j];
    a[j] := temp;
  }

  /** The in-place shuffle computes `Shuffled`. */
  method ShuffleArray<T>(a: array<T>, picks: seq<nat>)
    modifies a
    ensures a[..] == Shuffled(old(a[..]), Choices(picks, a.Length))
  {
    hide Shuffled, Swap;
    ghost var js := Choices(picks, a.Length);
    if a.Length == 0 {
      return;
    }
    var i := a.Length - 1;
    assert a[..i + 1] == a[..] && js[..i + 1] == js;
    while i > 0
      invariant 0 <= i < a.Length
      invariant Shuffled(a[..i + 1], js[..i + 1]) + a[i + 1..] == Shuffled(old(a[..]), js)
    {
      ghost var before := a[..];
      var j := Roll(picks, i) % (i + 1);
      SwapCells(a, i, j);
      PeelLast(before, js, i);
      i := i - 1;
    }
    PeelLast(a[..], js, 0);
    SwapSelf(a[..]);
  }

  // ----- The bag -----

  const SEVEN: seq<PieceType> := [1, 2, 3, 4, 5, 6, 7]

  /** Fourteen slots, two shuffled sets of the seven pieces, and the next slot to deal. */
  datatype Slots = Slots(slots: seq<PieceType>, index: nat)

  type PieceBag = b: Slots | |b.slots| == 14 && b.index < 7 witness Slots(seq(14, _ => 1), 0)

  ghost predicate OneOfEach(s: seq<PieceType>) {
    multiset(s) == multiset(SEVEN)
  }

  ghost predicate Stocked(b: PieceBag) {
    OneOfEach(b.slots[..7]) && OneOfEach(b.slots[7..])
  }

  function FreshSet(picks: seq<nat>): (s: seq<PieceType>)
    ensures |s| == 7
  {
    Shuffled(SEVEN, Choices(picks, 7))
  }

  function NewBag(picks1: seq<nat>, picks2: seq<nat>): PieceBag {
    Slots(FreshSet(picks1) + FreshSet(picks2), 0)
  }

  function Refilled(slots: seq<PieceType>, picks: seq<nat>): (r: seq<PieceType>)
    requires |slots| == 14
    ensures |r| == 14
  {
    slots[7..] + FreshSet(picks)
  }

  /** The bag after dealing the piece at its index. */
  function Dealt(b: PieceBag, picks: seq<nat>): PieceBag
  {
    if b.index + 1 >= 7 then Slots(Refilled(b.slots, picks), 0)
    else Slots(b.slots, b.index + 1)
  }

  lemma FreshSetIsOneOfEach(picks: seq<nat>)
    ensures OneOfEach(FreshSet(picks))
  {
    ShuffledKeepsElements(SEVEN, Choices(picks, 7));
  }

  lemma OneOfEachMembers(s: seq<PieceType>, x: PieceType)
    requires OneOfEach(s)
    ensures |s| == 7 && x in s
  {
    SameLength(SEVEN, s);
    assert x in SEVEN;
    assert x in multiset(SEVEN);
    assert x in multiset(s);
  }

  lemma NewBagStocked(picks1: seq<nat>, picks2: seq<nat>)
    ensures Stocked(NewBag(picks1, picks2))
  {
    hide OneOfEach, FreshSet;
    FreshSetIsOneOfEach(picks1);
    FreshSetIsOneOfEach(picks2);
    var b := NewBag(picks1, picks2);
    assert b.slots[..7] == FreshSet(picks1) && b.slots[7..] == FreshSet(picks2);
  }

  lemma DealtStocked(b: PieceBag, picks: seq<nat>)
    requires Stocked(b)
    ensures Stocked(Dealt(b, picks))
  {
    hide OneOfEach, FreshSet;
    FreshSetIsOneOfEach(picks);
    var r := Refilled(b.slots, picks);
    assert r[..7] == b.slots[7..] && r[7..] == FreshSet(picks);
  }

  // ----- The stream of dealt pieces -----

  /** The q-th aligned block of seven. */
  function Block(s: seq<PieceType>, q: nat): seq<PieceType>
    requires 7 * q + 7 <= |s|
  {
    s[7 * q..7 * q + 7]
  }

  ghost predicate Blocks(s: seq<PieceType>) {
    |s| % 7 == 0 && forall q: nat | 7 * q + 7 <= |s| :: OneOfEach(Block(s, q))
  }

  /** What was dealt so far continues with the bag's contents as whole sets of seven. */
  ghost predicate Dealing(drawn: seq<PieceType>, b: PieceBag) {
    |drawn| % 7 == b.index && Blocks(drawn + b.slots[b.index..])
  }

  lemma BlocksAppend(s: seq<PieceType>, t: seq<PieceType>)
    requires Blocks(s) && OneOfEach(t)
    ensures Blocks(s + t)
  {
    OneOfEachMembers(t, 1);
    forall q: nat | 7 * q + 7 <= |s + t| ensures OneOfEach(Block(s + t, q)) {
      BlockOfConcat(s, t, q);
    }
  }

  lemma BlockOfConcat(s: seq<PieceType>, t: seq<PieceType>, q: nat)
    requires |s| % 7 == 0 && |t| == 7 && 7 * q + 7 <= |s + t|
    ensures Block(s + t, q) == if 7 * q + 7 <= |s| then Block(s, q) else t
  {}

  lemma NewBagDealing(picks1: seq<nat>, picks2: seq<nat>)
    ensures Dealing([], NewBag(picks1, picks2))
  {
    hide OneOfEach, FreshSet;
    FreshSetIsOneOfEach(picks1);
    FreshSetIsOneOfEach(picks2);
    assert Blocks([]);
    BlocksAppend([], FreshSet(picks1));
    BlocksAppend([] + FreshSet(picks1), FreshSet(picks2));
    var b := NewBag(picks1, picks2);
    assert [] + b.slots[0..] == [] + FreshSet(picks1) + FreshSet(picks2);
  }

  lemma DealtDealing(drawn: seq<PieceType>, b: PieceBag, picks: seq<nat>)
    requires Dealing(drawn, b)
    ensures Dealing(drawn + [b.slots[b.index]], Dealt(b, picks))
  {
    hide OneOfEach, FreshSet, Blocks;
    LastAndFront(drawn, b.slots[b.index]);
    if b.index + 1 >= 7 {
      FreshSetIsOneOfEach(picks);
      DealLast(drawn, b.slots, FreshSet(picks));
    } else {
      DealOne(drawn, b.slots, b.index);
    }
  }

  lemma DealOne(drawn: seq<PieceType>, slots: seq<PieceType>, i: nat)
    requires i < |slots|
    ensures drawn + [slots[i]] + slots[i + 1..] == drawn + slots[i..]
  {}

  lemma DealLast(drawn: seq<PieceType>, slots: seq<PieceType>, refill: seq<PieceType>)
    requires |slots| == 14 && Blocks(drawn + slots[6..]) && OneOfEach(refill)
    ensures var r := slots[7..] + refill; Blocks(drawn + [slots[6]] + r[0..])
  {
    BlocksAppend(drawn + slots[6..], refill);
    var r := slots[7..] + refill;
    assert drawn + [slots[6]] + r[0..] == drawn + slots[6..] + refill;
  }

  /** Every aligned block of seven dealt pieces holds each piece exactly once. */
  lemma DealtInBlocks(drawn: seq<PieceType>, b: PieceBag, q: nat)
    requires Dealing(drawn, b) && 7 * q + 7 <= |drawn|
    ensures OneOfEach(Block(drawn, q))
  {
    hide OneOfEach;
    var s := drawn + b.slots[b.index..];
    assert Block(s, q) == Block(drawn, q);
  }

  function Window(s: seq<PieceType>, i: nat): seq<PieceType>
    requires i + 13 <= |s|
  {
    s[i..i + 13]
  }

  /** Any thirteen pieces dealt in a row contain every piece, so at most twelve others
      separate two pieces of one type. */
  lemma EveryPieceWithinThirteen(drawn: seq<PieceType>, b: PieceBag, i: nat, t: PieceType)
    requires Dealing(drawn, b) && i + 13 <= |drawn|
    ensures t in Window(drawn, i)
  {
    var q := (i + 6) / 7;
    DealtInBlocks(drawn, b, q);
    OneOfEachMembers(Block(drawn, q), t);
    InsideWindow(drawn, i, q, t);
  }

  lemma InsideWindow(s: seq<PieceType>, i: nat, q: nat, t: PieceType)
    requires i <= 7 * q && 7 * q + 7 <= i + 13 <= |s| && t in Block(s, q)
    ensures t in Window(s, i)
  {
    var j :| 0 <= j < 7 && Block(s, q)[j] == t;
    assert Window(s, i)[7 * q + j - i] == t;
  }

  /** The three pieces shown in advance. */
  function Preview(b: PieceBag): (p: seq<PieceType>)
    ensures |p| == 3
  {
    [b.slots[b.index % 14], b.slots[(b.index + 1) % 14], b.slots[(b.index + 2) % 14]]
  }

  /** The pieces dealt by successive draws, each with its own random results. */
  function Deals(b: PieceBag, picks: seq<seq<nat>>): (s: seq<PieceType>)
    ensures |s| == |picks|
    decreases |picks|
  {
    if picks == [] then [] else [b.slots[b.index]] + Deals(Dealt(b, picks[0]), picks[1..])
  }

  /** The pieces still in the bag are dealt in their order, across a refill too. */
  lemma {:induction false} DealsFromBag(b: PieceBag, picks: seq<seq<nat>>)
    requires b.index + |picks| <= 14
    ensures Deals(b, picks) == b.slots[b.index..b.index + |picks|]
    decreases |picks|
  {
    hide FreshSet;
    if picks != [] {
      var d := Dealt(b, picks[0]);
      DealsFromBag(d, picks[1..]);
      assert d.slots[d.index..d.index + |picks| - 1] == b.slots[b.index + 1..b.index + |picks|];
    }
  }

  lemma PreviewIsSlice(b: PieceBag)
    ensures Preview(b) == b.slots[b.index..b.index + 3]
  {}

  /** The preview is exactly the next three pieces, whatever the shuffles still to come. */
  lemma PreviewIsNextThree(b: PieceBag, picks: seq<seq<nat>>)
    requires |picks| == 3
    ensures Deals(b, picks) == Preview(b)
  {
    DealsFromBag(b, picks);
    PreviewIsSlice(b);
  }
}
