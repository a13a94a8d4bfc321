/** The Fisher–Yates shuffle of `src/pages/Play.jsx`. The index that
    `Math.random` picks while the loop stands at position `i` is supplied
    as `picks[i]`; the draw `Math.floor(Math.random() * (i + 1))` always
    lies in `[0, i]`, which is what `ValidPicks` states. */
module Shuffle {
  import opened Common

  /** One draw per position; `picks[0]` is never consulted. */
  predicate ValidPicks(picks: seq<nat>, n: nat) {
    |picks| == n && forall i :: 0 <= i < n ==> picks[i] <= i
  }

  function Swap<T>(s: seq<T>, i: nat, j: nat): (r: seq<T>)
    requires i < |s| && j < |s|
    ensures |r| == |s| && r[i] == s[j] && r[j] == s[i]
    ensures forall k :: 0 <= k < |s| && k != i && k != j ==> r[k] == s[k]
  {
    s[i := s[j]][j := s[i]]
  }

  /** What remains of the loop once it stands at `i`: swap `i` with its
      draw, then continue at `i - 1`, stopping when `i` reaches 0. */
  function ShuffleFrom<T>(s: seq<T>, picks: seq<nat>, i: int): seq<T>
    requires ValidPicks(picks, |s|) && i < |s|
    decreases i
  {
    if i <= 0 then s else ShuffleFrom(Swap(s, i, picks[i]), picks, i - 1)
  }

  function FisherYates<T>(s: seq<T>, picks: seq<nat>): seq<T>
    requires ValidPicks(picks, |s|)
  {
    ShuffleFrom(s, picks, |s| - 1)
  }

  /** `shuffle(arr)`: copies the argument into a fresh array and shuffles
      the copy in place, from the last index down to 1. */
  method Shuffle<T>(arr: seq<T>, picks: seq<nat>) returns (r: seq<T>)
    requires ValidPicks(picks, |arr|)
    ensures r == FisherYates(arr, picks)
    ensures |r| == |arr| && multiset(r) == multiset(arr)
  {
    var a := new T[|arr|](k requires 0 <= k < |arr| => arr[k]);
    assert a[..] == arr;
    var i := a.Length - 1;
    while i > 0
      invariant -1 <= i < a.Length
      invariant ShuffleFrom(a[..], picks, i) == FisherYates(arr, picks)
    {
      var j := picks[i];
      ghost var before := a[..];
      a[i], a[j] := a[j], a[i];
      assert a[..] == Swap(before, i, j);
      i := i - 1;
    }
    r := a[..];
    FisherYatesPermutes(arr, picks);
  }

  lemma SwapPermutes<T>(s: seq<T>, i: nat, j: nat)
    requires i < |s| && j < |s|
    ensures multiset(Swap(s, i, j)) == multiset(s)
  {
    var t := s[i := s[j]];
    assert multiset(t) == multiset(s) - multiset{s[i]} + multiset{s[j]};
    assert multiset(t[j := s[i]]) == multiset(t) - multiset{t[j]} + multiset{s[i]};
  }

  lemma {:induction false} ShuffleFromPermutes<T>(s: seq<T>, picks: seq<nat>, i: int)
    requires ValidPicks(picks, |s|) && i < |s|
    ensures |ShuffleFrom(s, picks, i)| == |s|
    ensures multiset(ShuffleFrom(s, picks, i)) == multiset(s)
    decreases i
  {
    if i > 0 {
      SwapPermutes(s, i, picks[i]);
      ShuffleFromPermutes(Swap(s, i, picks[i]), picks, i - 1);
    }
  }

  /** The shuffle returns a permutation of its input. */
  lemma FisherYatesPermutes<T>(s: seq<T>, picks: seq<nat>)
    requires ValidPicks(picks, |s|)
    ensures |FisherYates(s, picks)| == |s|
    ensures multiset(FisherYates(s, picks)) == multiset(s)
  {
    ShuffleFromPermutes(s, picks, |s| - 1);
  }

  lemma {:induction false} ShuffleFromKeepsDistinct<T>(s: seq<T>, picks: seq<nat>, i: int)
    requires ValidPicks(picks, |s|) && i < |s| && Distinct(s)
    ensures Distinct(ShuffleFrom(s, picks, i))
    decreases i
  {
    if i > 0 {
      var t := Swap(s, i, picks[i]);
      forall a, b | 0 <= a < b < |t| ensures t[a] != t[b] {
        var a' := if a == i then picks[i] else if a == picks[i] then i else a;
        var b' := if b == i then picks[i] else if b == picks[i] then i else b;
        assert t[a] == s[a'] && t[b] == s[b'] && a' != b';
      }
      ShuffleFromKeepsDistinct(t, picks, i - 1);
    }
  }

  /** Distinct elements stay distinct after shuffling. */
  lemma FisherYatesKeepsDistinct<T>(s: seq<T>, picks: seq<nat>)
    requires ValidPicks(picks, |s|) && Distinct(s)
    ensures Distinct(FisherYates(s, picks))
  {
    ShuffleFromKeepsDistinct(s, picks, |s| - 1);
  }

  lemma {:induction false} ShuffleFromCommutesWithMap<T, U>(f: T -> U, s: seq<T>, picks: seq<nat>, i: int)
    requires ValidPicks(picks, |s|) && i < |s|
    ensures MapSeq(f, ShuffleFrom(s, picks, i)) == ShuffleFrom(MapSeq(f, s), picks, i)
    decreases i
  {
    if i > 0 {
      assert MapSeq(f, Swap(s, i, picks[i])) == Swap(MapSeq(f, s), i, picks[i]);
      ShuffleFromCommutesWithMap(f, Swap(s, i, picks[i]), picks, i - 1);
    }
  }

  /** Shuffling then projecting equals projecting then shuffling with the
      same draws: the permutation does not depend on the elements. */
  lemma FisherYatesCommutesWithMap<T, U>(f: T -> U, s: seq<T>, picks: seq<nat>)
    requires ValidPicks(picks, |s|)
    ensures MapSeq(f, FisherYates(s, picks)) == FisherYates(MapSeq(f, s), picks)
  {
    ShuffleFromCommutesWithMap(f, s, picks, |s| - 1);
  }

  /** When every draw picks the position itself, nothing moves. */
  lemma {:induction false} IdentityDrawsKeepOrder<T>(s: seq<T>, picks: seq<nat>, i: int)
    requires ValidPicks(picks, |s|) && i < |s|
    requires forall k :: 0 <= k < |s| ==> picks[k] == k
    ensures ShuffleFrom(s, picks, i) == s
    decreases i
  {
    if i > 0 {
      assert Swap(s, i, picks[i]) == s;
      IdentityDrawsKeepOrder(s, picks, i - 1);
    }
  }
}
