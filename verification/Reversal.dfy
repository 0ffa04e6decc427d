/** Reversing a slice in place, in the two loop shapes that the source uses. */
module Reversal {
  function Reverse<T>(s: seq<T>): (r: seq<T>)
    ensures |r| == |s|
    ensures forall i :: 0 <= i < |s| ==> r[i] == s[|s| - 1 - i]
  {
    if s == [] then [] else [s[|s| - 1]] + Reverse(s[..|s| - 1])
  }

  lemma ReverseConcat<T>(a: seq<T>, b: seq<T>)
    ensures Reverse(a + b) == Reverse(b) + Reverse(a)
  {
  }

  /** Two indices that move towards each other. */
  method ReverseInwards<T>(a: array<T>)
    modifies a
    ensures a[..] == Reverse(old(a[..]))
  {
    var i, j := 0, a.Length - 1;
    while i < j
      invariant 0 <= i <= a.Length && j == a.Length - 1 - i && i <= j + 1
      invariant forall k :: 0 <= k < i ==> a[k] == old(a[a.Length - 1 - k]) && a[a.Length - 1 - k] == old(a[k])
      invariant forall k :: i <= k <= j ==> a[k] == old(a[k])
    {
      a[i], a[j] := a[j], a[i];
      i, j := i + 1, j - 1;
    }
    SameSeq(a[..], old(a[..]));
  }

  /** One index that counts up to the middle. */
  method ReverseToMiddle<T>(a: array<T>)
    modifies a
    ensures a[..] == Reverse(old(a[..]))
  {
    for i := 0 to a.Length / 2
      invariant forall k :: 0 <= k < i ==> a[k] == old(a[a.Length - 1 - k]) && a[a.Length - 1 - k] == old(a[k])
      invariant forall k :: i <= k < a.Length - i ==> a[k] == old(a[k])
    {
      var j := a.Length - i - 1;
      a[i], a[j] := a[j], a[i];
    }
    SameSeq(a[..], old(a[..]));
  }

  lemma SameSeq<T>(now: seq<T>, was: seq<T>)
    requires |now| == |was|
    requires forall k :: 0 <= k < |was| ==> now[k] == was[|was| - 1 - k]
    ensures now == Reverse(was)
  {
  }
}
