/**
 * In-place sorting of a slice by a caller-supplied order, the role Go's
 * `sort.Slice` plays in the source. Go's algorithm is not stable and is not
 * part of the source; the contract says only what every correct sort gives:
 * the result is ordered and is a permutation of the input.
 */
module Sorting {

  /** `leq` is total and transitive: a valid "not less than" for `sort.Slice`. */
  ghost predicate TotalPreorder<T(!new)>(leq: (T, T) -> bool) {
    && (forall x, y :: leq(x, y) || leq(y, x))
    && (forall x, y, z :: leq(x, y) && leq(y, z) ==> leq(x, z))
  }

  ghost predicate SortedBy<T>(s: seq<T>, leq: (T, T) -> bool) {
    forall i, j :: 0 <= i < j < |s| ==> leq(s[i], s[j])
  }

  /** `perm` sends positions 0..n-1 injectively into 0..n-1. */
  ghost predicate IsPermutation(perm: seq<nat>, n: nat) {
    && |perm| == n
    && (forall k :: 0 <= k < n ==> perm[k] < n)
    && (forall p, q :: 0 <= p < q < n ==> perm[p] != perm[q])
  }

  /** Exchanges `a[j - 1]` and `a[j]`, and the matching entries of the ghost `perm`. */
  method SwapDown<T>(a: array<T>, j: int, ghost orig: seq<T>, ghost perm: seq<nat>) returns (ghost perm': seq<nat>)
    requires 0 < j < a.Length && |orig| == a.Length
    requires IsPermutation(perm, a.Length)
    requires forall k :: 0 <= k < a.Length ==> a[k] == orig[perm[k]]
    modifies a
    ensures a[j - 1] == old(a[j]) && a[j] == old(a[j - 1])
    ensures forall k :: 0 <= k < a.Length && k != j - 1 && k != j ==> a[k] == old(a[k])
    ensures multiset(a[..]) == multiset(old(a[..]))
    ensures IsPermutation(perm', a.Length)
    ensures forall k :: 0 <= k < a.Length ==> a[k] == orig[perm'[k]]
  {
    ghost var before := a[..];
    a[j - 1], a[j] := a[j], a[j - 1];
    assert a[..] == before[j - 1 := before[j]][j := before[j - 1]];
    perm' := perm[j - 1 := perm[j]][j := perm[j - 1]];
    assert forall k :: 0 <= k < a.Length ==> perm'[k] == perm[if k == j - 1 then j else if k == j then j - 1 else k];
  }

  /**
   * One step of insertion sort: with `a[..i]` sorted, moves `a[i]` left past
   * every element it must precede, leaving `a[..i + 1]` sorted.
   */
  method InsertAt<T(!new)>(a: array<T>, i: int, leq: (T, T) -> bool, ghost orig: seq<T>, ghost perm: seq<nat>)
    returns (ghost perm': seq<nat>)
    requires TotalPreorder(leq)
    requires 0 < i < a.Length && |orig| == a.Length
    requires forall p, q :: 0 <= p < q < i ==> leq(a[p], a[q])
    requires IsPermutation(perm, a.Length)
    requires forall k :: 0 <= k < a.Length ==> a[k] == orig[perm[k]]
    modifies a
    ensures forall p, q :: 0 <= p < q <= i ==> leq(a[p], a[q])
    ensures multiset(a[..]) == multiset(old(a[..]))
    ensures IsPermutation(perm', a.Length)
    ensures forall k :: 0 <= k < a.Length ==> a[k] == orig[perm'[k]]
  {
    perm' := perm;
    var j := i;
    while j > 0 && !leq(a[j - 1], a[j])
      invariant 0 <= j <= i
      invariant forall p, q :: 0 <= p < q <= i && p != j && q != j ==> leq(a[p], a[q])
      invariant forall q :: j < q <= i ==> leq(a[j], a[q])
      invariant multiset(a[..]) == multiset(old(a[..]))
      invariant IsPermutation(perm', a.Length)
      invariant forall k :: 0 <= k < a.Length ==> a[k] == orig[perm'[k]]
    {
      perm' := SwapDown(a, j, orig, perm');
      j := j - 1;
    }
  }

  /**
   * Sorts `a` in place by `leq` (insertion sort). The ghost `perm` says where
   * each element came from: `a[k]` was at position `perm[k]` before the call.
   */
  method SortSlice<T(!new)>(a: array<T>, leq: (T, T) -> bool) returns (ghost perm: seq<nat>)
    requires TotalPreorder(leq)
    modifies a
    ensures SortedBy(a[..], leq)
    ensures multiset(a[..]) == multiset(old(a[..]))
    ensures IsPermutation(perm, a.Length)
    ensures forall k :: 0 <= k < a.Length ==> a[k] == old(a[..])[perm[k]]
  {
    ghost var orig := a[..];
    perm := seq(a.Length, k => k);
    if a.Length == 0 {
      return;
    }
    var i := 1;
    while i < a.Length
      invariant 1 <= i <= a.Length
      invariant forall p, q :: 0 <= p < q < i ==> leq(a[p], a[q])
      invariant multiset(a[..]) == multiset(orig)
      invariant IsPermutation(perm, a.Length)
      invariant forall k :: 0 <= k < a.Length ==> a[k] == orig[perm[k]]
    {
      perm := InsertAt(a, i, leq, orig, perm);
      i := i + 1;
    }
  }
}
