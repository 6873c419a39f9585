/** The ordering of lists that the source leaves to its library sort. */
module Sorting {

  /** "Not after" is transitive: `before` orders its elements strictly, up to ties. */
  ghost predicate Ordering<T(!new)>(before: (T, T) -> bool) {
    && (forall x, y :: before(x, y) ==> !before(y, x))
    && (forall x, y, z :: !before(y, x) && !before(z, y) ==> !before(z, x))
  }

  ghost predicate Sorted<T>(s: seq<T>, before: (T, T) -> bool) {
    forall i, j :: 0 <= i < j < |s| ==> !before(s[j], s[i])
  }

  lemma InsertKeepsOrder<T(!new)>(s: seq<T>, k: nat, x: T, before: (T, T) -> bool)
    requires Ordering(before) && Sorted(s, before) && k <= |s|
    requires 0 < k ==> !before(x, s[k - 1])
    requires k < |s| ==> before(x, s[k])
    ensures Sorted(s[..k] + [x] + s[k..], before)
  {
    var r := s[..k] + [x] + s[k..];
    forall j | 0 <= j < k ensures !before(x, s[j]) { if j < k - 1 { assert !before(s[k - 1], s[j]); } }
    forall j | k <= j < |s| ensures !before(s[j], x) { if k < j { assert !before(s[j], s[k]) && !before(s[k], x); } }
    forall i, j | 0 <= i < j < |r| ensures !before(r[j], r[i]) {
      assert r[i] == if i < k then s[i] else if i == k then x else s[i - 1];
      assert r[j] == if j < k then s[j] else if j == k then x else s[j - 1];
    }
  }

  method Insert<T(!new)>(s: seq<T>, x: T, before: (T, T) -> bool) returns (r: seq<T>)
    requires Ordering(before) && Sorted(s, before)
    ensures Sorted(r, before) && multiset(r) == multiset(s) + multiset{x}
  {
    var k := |s|;
    while 0 < k && before(x, s[k - 1])
      invariant 0 <= k <= |s| && (k < |s| ==> before(x, s[k]))
    {
      k := k - 1;
    }
    r := s[..k] + [x] + s[k..];
    InsertKeepsOrder(s, k, x, before);
    assert s == s[..k] + s[k..];
  }

  /** A sorted permutation. */
  method Sort<T(!new)>(s: seq<T>, before: (T, T) -> bool) returns (r: seq<T>)
    requires Ordering(before)
    ensures Sorted(r, before) && multiset(r) == multiset(s)
  {
    r := [];
    for n := 0 to |s|
      invariant Sorted(r, before) && multiset(r) == multiset(s[..n])
    {
      assert s[..n + 1] == s[..n] + [s[n]];
      r := Insert(r, s[n], before);
    }
    assert s[..|s|] == s;
  }

  lemma SameMembers<T>(a: seq<T>, b: seq<T>)
    requires multiset(a) == multiset(b)
    ensures |a| == |b| && forall x :: x in a <==> x in b
  {
    assert |multiset(a)| == |a| && |multiset(b)| == |b|;
    forall x ensures x in a <==> x in b {
      assert x in a <==> x in multiset(a);
      assert x in b <==> x in multiset(b);
    }
  }
}
