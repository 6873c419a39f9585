/** Sums of an integer weight over a sequence.
    Every ledger of this project numbers its reservations (or leases, or jobs) by their
    position in a history, so "the sum over the live reservations" is a sum over that
    history in which the other entries weigh nothing. */
module Sums {

  ghost function Sum<T>(s: seq<T>, weight: T -> int): int
  {
    if s == [] then 0 else Sum(s[..|s| - 1], weight) + weight(s[|s| - 1])
  }

  lemma Append<T>(s: seq<T>, x: T, weight: T -> int)
    ensures Sum(s + [x], weight) == Sum(s, weight) + weight(x)
  {
    assert (s + [x])[..|s|] == s;
  }

  lemma {:induction false} Update<T>(s: seq<T>, i: nat, x: T, weight: T -> int)
    requires i < |s|
    ensures Sum(s[i := x], weight) == Sum(s, weight) - weight(s[i]) + weight(x)
  {
    var last := |s| - 1;
    if i == last {
      assert s[i := x][..last] == s[..last];
    } else {
      Update(s[..last], i, x, weight);
      assert s[i := x][..last] == s[..last][i := x];
    }
  }

  /** A sum of non-negative weights bounds each of its terms, and is itself non-negative. */
  lemma {:induction false} Bounds<T>(s: seq<T>, weight: T -> int)
    requires forall j :: 0 <= j < |s| ==> weight(s[j]) >= 0
    ensures Sum(s, weight) >= 0
    ensures forall j :: 0 <= j < |s| ==> weight(s[j]) <= Sum(s, weight)
  {
    if s != [] {
      Bounds(s[..|s| - 1], weight);
      assert forall j :: 0 <= j < |s| - 1 ==> s[..|s| - 1][j] == s[j];
    }
  }

  /** Two histories whose entries weigh the same have the same sum. */
  lemma {:induction false} Agree<T, U>(s: seq<T>, t: seq<U>, f: T -> int, g: U -> int)
    requires |s| == |t|
    requires forall j :: 0 <= j < |s| ==> f(s[j]) == g(t[j])
    ensures Sum(s, f) == Sum(t, g)
  {
    if s != [] {
      Agree(s[..|s| - 1], t[..|t| - 1], f, g);
    }
  }

  lemma {:induction false} Zero<T>(s: seq<T>, weight: T -> int)
    requires forall j :: 0 <= j < |s| ==> weight(s[j]) == 0
    ensures Sum(s, weight) == 0
  {
    if s != [] {
      Zero(s[..|s| - 1], weight);
    }
  }

  /** What an entry weighs nothing to, it can be taken out of. */
  lemma {:induction false} Without<T>(s: seq<T>, i: nat, weight: T -> int)
    requires i < |s|
    ensures Sum(s, weight) == Sum(s[..i] + s[i + 1..], weight) + weight(s[i])
    decreases |s|
  {
    var last := |s| - 1;
    var others := s[..i] + s[i + 1..];
    if i == last {
      assert others == s[..last];
    } else {
      Without(s[..last], i, weight);
      assert others[..last - 1] == s[..last][..i] + s[..last][i + 1..] && others[last - 1] == s[last];
    }
  }

  /** Pointwise larger weights give a larger sum. */
  lemma {:induction false} Below<T>(s: seq<T>, f: T -> int, g: T -> int)
    requires forall j :: 0 <= j < |s| ==> f(s[j]) <= g(s[j])
    ensures Sum(s, f) <= Sum(s, g)
  {
    if s != [] {
      Below(s[..|s| - 1], f, g);
    }
  }
}
