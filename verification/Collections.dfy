/** Sequences without repetition, sizes of sets, and random results as inputs. */
module Collections {

  ghost predicate Unique<T>(s: seq<T>) {
    forall i, j | 0 <= i < j < |s| :: s[i] != s[j]
  }

  lemma {:induction false} UniqueCount<T>(s: seq<T>)
    requires Unique(s)
    ensures |(set t | t in s)| == |s|
  {
    if s != [] {
      var n := |s| - 1;
      UniqueCount(s[..n]);
      assert (set t | t in s) == (set t | t in s[..n]) + {s[n]};
    }
  }

  lemma SubsetSize<T>(a: set<T>, b: set<T>)
    requires a <= b
    ensures |a| <= |b| && (|b| <= |a| ==> a == b)
  {
    assert b == a + (b - a);
  }

  /** The k-th result of `rand()`; 0 past the end of the results given. */
  function Roll(rolls: seq<nat>, k: nat): nat {
    if k < |rolls| then rolls[k] else 0
  }
}
