/**
 sort.Slice: some permutation in which no element comes before a lesser one. Only that promise
 is used anywhere; the insertion sort here stands in for the library's algorithm.
 */
module Sorting {
  import opened Common

  ghost predicate StrictWeakOrder<T(!new)>(less: (T, T) -> bool) {
    && (forall a, b :: less(a, b) ==> !less(b, a))
    && (forall a, b, c :: less(a, c) ==> less(a, b) || less(b, c))
  }

  ghost predicate Ordered<T>(s: seq<T>, less: (T, T) -> bool) {
    forall i, j :: 0 <= i < j < |s| ==> !less(s[j], s[i])
  }

  ghost predicate SortedPermutation<T>(out: seq<T>, s: seq<T>, less: (T, T) -> bool) {
    Ordered(out, less) && multiset(out) == multiset(s)
  }

  lemma MembersOfPermutation<T>(a: seq<T>, b: seq<T>)
    requires multiset(a) == multiset(b)
    ensures |a| == |b| && forall x :: x in a <==> x in b
  {
    assert |a| == |multiset(a)| && |b| == |multiset(b)|;
    forall x ensures x in a <==> x in b {
      assert x in a <==> x in multiset(a);
      assert x in b <==> x in multiset(b);
    }
  }

  lemma NotLess<T(!new)>(less: (T, T) -> bool, a: T, b: T, c: T)
    requires StrictWeakOrder(less) && !less(a, b) && !less(b, c)
    ensures !less(a, c)
  {
  }

  /** Everything before the insertion point may stay in front of x, everything after it behind. */
  lemma FitsAt<T(!new)>(s: seq<T>, p: nat, x: T, less: (T, T) -> bool)
    requires StrictWeakOrder(less) && Ordered(s, less) && p <= |s|
    requires p > 0 ==> !less(x, s[p - 1])
    requires p < |s| ==> less(x, s[p])
    ensures Ordered(s[..p] + [x] + s[p..], less)
  {
    var t := s[..p] + [x] + s[p..];
    forall i, j | 0 <= i < j < |t| ensures !less(t[j], t[i]) {
      if j == p && i < p - 1 {
        NotLess(less, x, s[p - 1], s[i]);
      } else if i == p && j > p + 1 {
        NotLess(less, s[j - 1], s[p], x);
      }
    }
  }

  lemma InsertedMultiset<T>(s: seq<T>, p: nat, x: T)
    requires p <= |s|
    ensures multiset(s[..p] + [x] + s[p..]) == multiset(s + [x])
  {
    assert s == s[..p] + s[p..];
  }

  method Insert<T(!new)>(s: seq<T>, x: T, less: (T, T) -> bool) returns (out: seq<T>)
    requires StrictWeakOrder(less) && Ordered(s, less)
    ensures SortedPermutation(out, s + [x], less)
  {
    hide StrictWeakOrder, Ordered;
    var p := |s|;
    while p > 0 && less(x, s[p - 1])
      invariant 0 <= p <= |s|
      invariant p < |s| ==> less(x, s[p])
    {
      p := p - 1;
    }
    FitsAt(s, p, x, less);
    InsertedMultiset(s, p, x);
    out := s[..p] + [x] + s[p..];
  }

  method Slice<T(!new)>(s: seq<T>, less: (T, T) -> bool) returns (out: seq<T>)
    requires StrictWeakOrder(less)
    ensures SortedPermutation(out, s, less)
  {
    out := [];
    for k := 0 to |s|
      invariant SortedPermutation(out, s[..k], less)
    {
      out := Insert(out, s[k], less);
      assert s[..k + 1] == s[..k] + [s[k]];
    }
    assert s[..|s|] == s;
  }
}
