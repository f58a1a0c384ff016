/**
 * `Array.prototype.sort` with a comparator, run in place. The comparator is
 * modelled by the relation `le(x, y)` ("comparator(x, y) <= 0"); the sort is
 * only specified when that relation is a total preorder on the elements.
 * Together with sign antisymmetry, which each view proves of its comparator,
 * that makes the comparator consistent in ECMAScript's sense. `ok` names the
 * elements on which the caller has shown the relation to be a total preorder.
 */
module Sorting {

  /** Every earlier element is `le` every later one. */
  ghost predicate Sorted<T>(s: seq<T>, le: (T, T) -> bool) {
    forall i, j :: 0 <= i < j < |s| ==> le(s[i], s[j])
  }

  /** `le` is total and transitive on the values satisfying `ok`. */
  ghost predicate TotalPreorderOn<T(!new)>(le: (T, T) -> bool, ok: T -> bool) {
    && (forall x, y :: ok(x) && ok(y) ==> le(x, y) || le(y, x))
    && (forall x, y, z :: ok(x) && ok(y) && ok(z) && le(x, y) && le(y, z) ==> le(x, z))
  }

  /** Sorts `a` in place by adjacent swaps (insertion sort). */
  method InsertionSort<T(!new)>(a: array<T>, le: (T, T) -> bool, ghost ok: T -> bool)
    requires TotalPreorderOn(le, ok)
    requires forall k :: 0 <= k < a.Length ==> ok(a[k])
    modifies a
    ensures Sorted(a[..], le)
    ensures forall k :: 0 <= k < a.Length ==> ok(a[k])
    ensures multiset(a[..]) == old(multiset(a[..]))
  {
    if a.Length == 0 {
      return;
    }
    var i := 1;
    while i < a.Length
      invariant 1 <= i <= a.Length
      invariant forall k :: 0 <= k < a.Length ==> ok(a[k])
      invariant forall k, m :: 0 <= k < m < i ==> le(a[k], a[m])
      invariant multiset(a[..]) == old(multiset(a[..]))
    {
      var j := i;
      while j > 0 && !le(a[j - 1], a[j])
        invariant 0 <= j <= i
        invariant forall k :: 0 <= k < a.Length ==> ok(a[k])
        invariant forall k, m :: 0 <= k < m <= i && k != j && m != j ==> le(a[k], a[m])
        invariant forall m :: j < m <= i ==> le(a[j], a[m])
        invariant multiset(a[..]) == old(multiset(a[..]))
      {
        a[j - 1], a[j] := a[j], a[j - 1];
        j := j - 1;
      }
      forall k | 0 <= k < j
        ensures le(a[k], a[j])
      {
        if k < j - 1 {
          assert le(a[k], a[j - 1]);
        }
      }
      i := i + 1;
    }
  }
}
