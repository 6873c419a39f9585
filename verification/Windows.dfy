/** Window lists of a policy: validation, normal order, and the latest of several resets
    (internal/limiter/token.go, internal/limiter/request.go). */
module Windows {
  import opened Wrappers
  import opened WindowClock
  import Sorting

  datatype Window = Window(amount: Int64, duration: Int64)

  predicate ValidWindows(windows: seq<Window>) {
    && (forall i :: 0 <= i < |windows| ==> 0 < windows[i].amount && 0 < windows[i].duration)
    && (forall i, j :: 0 <= i < j < |windows| ==> windows[i] != windows[j])
  }

  function SetOf(windows: seq<Window>): set<Window> { set w | w in windows }

  predicate Before(v: Window, w: Window) {
    v.duration < w.duration || (v.duration == w.duration && v.amount < w.amount)
  }

  /** normalizeTokenWindows: positive and pairwise different, ordered by duration and amount. */
  method Normalize(windows: seq<Window>) returns (result: seq<Window>, valid: bool)
    ensures valid <==> ValidWindows(windows)
    ensures valid ==> && Sorting.Sorted(result, Before)
                      && multiset(result) == multiset(windows) && |result| == |windows|
                      && ValidWindows(result) && SetOf(result) == SetOf(windows)
  {
    var seen: set<Window> := {};
    result := [];
    for i := 0 to |windows|
      invariant ValidWindows(windows[..i]) && seen == SetOf(windows[..i])
      invariant Sorting.Sorted(result, Before) && multiset(result) == multiset(windows[..i])
    {
      assert windows[..i + 1] == windows[..i] + [windows[i]];
      if windows[i].amount <= 0 || windows[i].duration <= 0 { return [], false; }
      if windows[i] in seen {
        var j :| 0 <= j < i && windows[..i][j] == windows[i];
        return [], false;
      }
      seen := seen + {windows[i]};
      result := Sorting.Insert(result, windows[i], Before);
    }
    assert windows[..|windows|] == windows;
    PermutationIsValid(result, windows);
    valid := true;
  }

  lemma PermutationIsValid(a: seq<Window>, b: seq<Window>)
    requires multiset(a) == multiset(b) && ValidWindows(b)
    ensures ValidWindows(a) && SetOf(a) == SetOf(b) && |a| == |b|
  {
    Sorting.SameMembers(a, b);
    assert forall i :: 0 <= i < |a| ==> a[i] in b;
    forall i, j | 0 <= i < j < |a| && a[i] == a[j] ensures false { Twice(a, b, i, j); }
  }

  lemma Twice(a: seq<Window>, b: seq<Window>, i: nat, j: nat)
    requires multiset(a) == multiset(b) && i < j < |a| && a[i] == a[j]
    ensures exists k, l :: 0 <= k < l < |b| && b[k] == b[l]
  {
    assert a == a[..i] + [a[i]] + a[i + 1..j] + [a[j]] + a[j + 1..];
    assert multiset(a)[a[i]] >= 2;
    var k :| 0 <= k < |b| && b[k] == a[i];
    assert b == b[..k] + [b[k]] + b[k + 1..];
    assert a[i] in multiset(b[..k]) || a[i] in multiset(b[k + 1..]);
    if a[i] in b[..k] {
      var l :| 0 <= l < k && b[l] == a[i];
    } else {
      var l :| 0 <= l < |b| - k - 1 && b[k + 1..][l] == a[i];
      assert b[k + 1 + l] == a[i];
    }
  }

  // ---- The latest of several resets ----

  ghost predicate IsLatest(resets: set<int>, latest: Option<int>) {
    if latest.Some? then latest.value in resets && forall r :: r in resets ==> r <= latest.value else resets == {}
  }

  ghost function Latest(resets: set<int>): Option<int> {
    if exists r :: IsLatest(resets, Some(r)) then var r :| IsLatest(resets, Some(r)); Some(r) else None
  }

  lemma LatestStep(resets: set<int>, latest: Option<int>, r: int)
    requires IsLatest(resets, latest)
    ensures IsLatest(resets + {r}, Some(if latest.None? || latest.value < r then r else latest.value))
  {
  }

  lemma LatestIs(resets: set<int>, latest: Option<int>)
    requires IsLatest(resets, latest)
    ensures Latest(resets) == latest
  {
    if latest.Some? { assert IsLatest(resets, Some(latest.value)); }
  }

  /** A finite set has a latest member unless it is empty. */
  lemma {:induction false} HasLatest(resets: set<int>)
    ensures IsLatest(resets, Latest(resets))
    decreases |resets|
  {
    if forall r :: r !in resets {
      assert resets == {};
      LatestIs(resets, None);
    } else {
      var r :| r in resets;
      var rest := resets - {r};
      HasLatest(rest);
      LatestStep(rest, Latest(rest), r);
      assert rest + {r} == resets;
      LatestIs(resets, Some(if Latest(rest).None? || Latest(rest).value < r then r else Latest(rest).value));
    }
  }
}
