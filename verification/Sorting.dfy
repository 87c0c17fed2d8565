/** The sorting that PaginateSlice relies on: `sort.Slice` with a caller-supplied order. */
module Sorting {

  ghost predicate StrictWeakOrder<T(!new)>(less: (T, T) -> bool) {
    && (forall a :: !less(a, a))
    && (forall a, b, c :: less(a, b) && less(b, c) ==> less(a, c))
    && (forall a, b, c :: !less(a, b) && !less(b, c) ==> !less(a, c))
  }

  /** The order is total on `values`: distinct ones never tie. */
  ghost predicate Distinguishes<T(!new)>(less: (T, T) -> bool, values: seq<T>) {
    forall a, b :: a in values && b in values && a != b ==> less(a, b) || less(b, a)
  }

  ghost predicate Sorted<T(!new)>(s: seq<T>, less: (T, T) -> bool) {
    forall i, j :: 0 <= i < j < |s| ==> !less(s[j], s[i])
  }

  /** `s` is a sorted arrangement of exactly the elements of `values`. */
  ghost predicate Arrangement<T(!new)>(s: seq<T>, values: seq<T>, less: (T, T) -> bool) {
    multiset(s) == multiset(values) && Sorted(s, less)
  }

  /** The first `n` elements are sorted, except that the one at `hole` may be too far right. */
  ghost predicate SortedBut<T(!new)>(s: seq<T>, less: (T, T) -> bool, n: nat, hole: nat) {
    n <= |s| && forall x, y :: 0 <= x < y < n && y != hole ==> !less(s[y], s[x])
  }

  function Swap<T>(s: seq<T>, j: nat): seq<T>
    requires 0 < j < |s|
  {
    s[j := s[j - 1]][j - 1 := s[j]]
  }

  lemma SwapKeeps<T(!new)>(s: seq<T>, less: (T, T) -> bool, n: nat, j: nat)
    requires StrictWeakOrder(less) && 0 < j < n <= |s|
    requires SortedBut(s, less, n, j) && less(s[j], s[j - 1])
    ensures SortedBut(Swap(s, j), less, n, j - 1)
    ensures multiset(Swap(s, j)) == multiset(s)
  {
  }

  /** Once the moved element is not below its left neighbour, it is not below any of them. */
  lemma Settled<T(!new)>(s: seq<T>, less: (T, T) -> bool, n: nat, j: nat)
    requires StrictWeakOrder(less) && j < n && SortedBut(s, less, n, j)
    requires j > 0 ==> !less(s[j], s[j - 1])
    ensures Sorted(s[..n], less)
  {
  }

  /** Moves the element at `i` left to its place in the sorted prefix. */
  method Sink<T(!new)>(a: array<T>, less: (T, T) -> bool, i: nat)
    requires StrictWeakOrder(less) && i < a.Length && Sorted(a[..i], less)
    modifies a
    ensures Sorted(a[..i + 1], less) && multiset(a[..]) == multiset(old(a[..]))
  {
    var j := i;
    assert forall y :: 0 <= y < i ==> a[y] == a[..i][y];
    while j > 0 && less(a[j], a[j - 1])
      invariant 0 <= j <= i
      invariant SortedBut(a[..], less, i + 1, j)
      invariant multiset(a[..]) == multiset(old(a[..]))
    {
      SwapKeeps(a[..], less, i + 1, j);
      ghost var swapped := Swap(a[..], j);
      a[j], a[j - 1] := a[j - 1], a[j];
      assert a[..] == swapped;
      j := j - 1;
    }
    Settled(a[..], less, i + 1, j);
    assert a[..][..i + 1] == a[..i + 1];
  }

  /** Sorts in place; the elements that tie may end up in any order. */
  method SortSlice<T(!new)>(a: array<T>, less: (T, T) -> bool)
    requires StrictWeakOrder(less)
    modifies a
    ensures Arrangement(a[..], old(a[..]), less)
  {
    var i := 0;
    while i < a.Length
      invariant 0 <= i <= a.Length
      invariant Sorted(a[..i], less) && multiset(a[..]) == multiset(old(a[..]))
    {
      Sink(a, less, i);
      i := i + 1;
    }
    assert a[..i] == a[..];
  }

  lemma HeadIsLeast<T(!new)>(s: seq<T>, less: (T, T) -> bool, e: T)
    requires Sorted(s, less) && e in s && StrictWeakOrder(less)
    ensures !less(e, s[0])
  {
  }

  /** Without ties there is only one sorted arrangement, whatever order one starts from. */
  lemma {:induction false} ArrangementUnique<T(!new)>(s: seq<T>, t: seq<T>, less: (T, T) -> bool)
    requires StrictWeakOrder(less) && Distinguishes(less, s)
    requires Sorted(s, less) && Sorted(t, less) && multiset(s) == multiset(t)
    ensures s == t
    decreases |s|
  {
    assert |s| == |multiset(s)| && |t| == |multiset(t)|;
    if s == [] {
    } else {
      assert s[0] in multiset(t) && t[0] in multiset(s);
      HeadIsLeast(s, less, t[0]);
      HeadIsLeast(t, less, s[0]);
      assert s == [s[0]] + s[1..] && t == [t[0]] + t[1..];
      assert multiset(s[1..]) == multiset(s) - multiset{s[0]};
      assert multiset(t[1..]) == multiset(t) - multiset{t[0]};
      ArrangementUnique(s[1..], t[1..], less);
    }
  }

  /** `s` with the elements at `i` and `j` exchanged. */
  function Exchange<T>(s: seq<T>, i: nat, j: nat): seq<T>
    requires i < j < |s|
  {
    s[i := s[j]][j := s[i]]
  }

  /** Elements that tie can be exchanged wherever they stand. */
  lemma ExchangeTied<T(!new)>(s: seq<T>, less: (T, T) -> bool, i: nat, j: nat)
    requires StrictWeakOrder(less) && Sorted(s, less) && i < j < |s| && !less(s[i], s[j])
    ensures Arrangement(Exchange(s, i, j), s, less)
  {
  }
}
