/** `shuffleArray`: the in-place Fisher–Yates shuffle the quiz applies to its
    list of personalities at the start of every game. The random index drawn
    at step `i` is supplied as `picks[i]`. */
module Shuffle {

  /** The indices a run may draw: at step `i` the source draws
      `Math.floor(Math.random() * (i + 1))`, an index in `[0, i]`. */
  predicate ValidPicks(picks: seq<nat>, n: nat)
  {
    |picks| == n && forall i :: 0 <= i < n ==> picks[i] <= i
  }

  function Swap<T>(s: seq<T>, i: nat, j: nat): seq<T>
    requires i < |s| && j < |s|
  {
    s[i := s[j]][j := s[i]]
  }

  /** The steps `i, i - 1, ..., 1` of the shuffle applied to `s`. */
  function StepsDown<T>(s: seq<T>, picks: seq<nat>, i: nat): seq<T>
    requires i < |s| && ValidPicks(picks, |s|)
    decreases i
  {
    if i == 0 then s else StepsDown(Swap(s, i, picks[i]), picks, i - 1)
  }

  /** The whole shuffle of `s` with the given draws. */
  function Shuffled<T>(s: seq<T>, picks: seq<nat>): seq<T>
    requires ValidPicks(picks, |s|)
  {
    if |s| == 0 then s else StepsDown(s, picks, |s| - 1)
  }

  /** Every step only exchanges two elements, so the shuffle returns a
      rearrangement of its input: same length, same elements, each as often. */
  lemma {:induction false} StepsDownPermutes<T>(s: seq<T>, picks: seq<nat>, i: nat)
    requires i < |s| && ValidPicks(picks, |s|)
    ensures |StepsDown(s, picks, i)| == |s|
    ensures multiset(StepsDown(s, picks, i)) == multiset(s)
    decreases i
  {
    if i > 0 {
      var t := Swap(s, i, picks[i]);
      assert multiset(t) == multiset(s) by {
        SwapPermutes(s, i, picks[i]);
      }
      StepsDownPermutes(t, picks, i - 1);
    }
  }

  lemma SwapPermutes<T>(s: seq<T>, i: nat, j: nat)
    requires i < |s| && j < |s|
    ensures |Swap(s, i, j)| == |s| && multiset(Swap(s, i, j)) == multiset(s)
  {
    var t := s[i := s[j]];
    assert multiset(t) == multiset(s) - multiset{s[i]} + multiset{s[j]};
  }

  lemma ShuffledPermutes<T>(s: seq<T>, picks: seq<nat>)
    requires ValidPicks(picks, |s|)
    ensures |Shuffled(s, picks)| == |s| && multiset(Shuffled(s, picks)) == multiset(s)
  {
    if |s| > 0 {
      StepsDownPermutes(s, picks, |s| - 1);
    }
  }

  /** The shuffle as the source runs it: a descending loop over the array
      that swaps element `i` with element `picks[i]`. */
  method ShuffleArray<T>(a: array<T>, picks: seq<nat>)
    requires ValidPicks(picks, a.Length)
    modifies a
    ensures a[..] == Shuffled(old(a[..]), picks)
    ensures multiset(a[..]) == multiset(old(a[..]))
  {
    ghost var original := a[..];
    var i := a.Length - 1;
    while i > 0
      invariant -1 <= i < a.Length
      invariant a.Length > 0 ==> 0 <= i && StepsDown(a[..], picks, i) == Shuffled(original, picks)
    {
      var j := picks[i];
      ghost var before := a[..];
      a[i], a[j] := a[j], a[i];
      assert a[..] == Swap(before, i, j);
      i := i - 1;
    }
    ShuffledPermutes(original, picks);
  }
}
