/** Which durable rows the token limiter accepts at start-up, exactly, and what a refused load leaves
    behind (internal/limiter/token.go). */
module TokenLoading {
  import opened Wrappers
  import opened WindowClock
  import opened Windows
  import opened TokenBook

  predicate AllValid(rows: seq<Row>) { forall i :: 0 <= i < |rows| ==> ValidRow(rows[i]) }

  /** Every row is well formed, and the rows whose window is not over name different new buckets. Rows
      whose window is over, and rows above their window's amount, are not refused. */
  predicate Acceptable(m: Buckets, rows: seq<Row>, now: int) {
    && AllValid(rows)
    && (forall i :: 0 <= i < |rows| && Current(rows[i], now) ==> KeyOf(rows[i]) !in m)
    && (forall i, j :: 0 <= i < j < |rows| && Current(rows[i], now) && Current(rows[j], now) ==>
                         KeyOf(rows[i]) != KeyOf(rows[j]))
  }

  /** A load that has succeeded so far holds what was there and the buckets of the current rows. */
  lemma {:induction false} LoadedKeys(m: Buckets, rows: seq<Row>, now: int, b: BucketKey)
    requires AllValid(rows) && Load(m, rows, now).1
    ensures b in Load(m, rows, now).0
            <==> b in m || exists i :: 0 <= i < |rows| && Current(rows[i], now) && KeyOf(rows[i]) == b
  {
    if rows != [] {
      var front, last := rows[..|rows| - 1], rows[|rows| - 1];
      assert forall i :: 0 <= i < |front| ==> front[i] == rows[i];
      LoadedKeys(m, front, now, b);
      if b in Load(m, front, now).0 && b !in m {
        var i :| 0 <= i < |front| && Current(front[i], now) && KeyOf(front[i]) == b;
        assert Current(rows[i], now) && KeyOf(rows[i]) == b;
      }
    }
  }

  lemma LastIsLoadableIff(m: Buckets, rows: seq<Row>, now: int)
    requires rows != [] && Acceptable(m, rows[..|rows| - 1], now) && Load(m, rows[..|rows| - 1], now).1
    ensures Loadable(Load(m, rows[..|rows| - 1], now).0, rows[|rows| - 1], now) <==> Acceptable(m, rows, now)
  {
    var front, last := rows[..|rows| - 1], rows[|rows| - 1];
    if ValidRow(last) {
      forall i | 0 <= i < |front| ensures front[i] == rows[i] && ValidRow(rows[i]) {}
      LoadedKeys(m, front, now, KeyOf(last));
    }
  }

  /** LoadCommitted succeeds if and only if the rows are acceptable. */
  lemma {:induction false} LoadSucceedsIff(m: Buckets, rows: seq<Row>, now: int)
    ensures Load(m, rows, now).1 <==> Acceptable(m, rows, now)
  {
    if rows != [] {
      var front := rows[..|rows| - 1];
      LoadSucceedsIff(m, front, now);
      if Acceptable(m, front, now) {
        LastIsLoadableIff(m, rows, now);
      } else {
        assert Acceptable(m, rows, now) ==> Acceptable(m, front, now) by { FrontIsAcceptable(m, rows, |front|, now); }
      }
    }
  }

  lemma FrontIsAcceptable(m: Buckets, rows: seq<Row>, k: nat, now: int)
    requires k <= |rows|
    ensures Acceptable(m, rows, now) ==> Acceptable(m, rows[..k], now)
  {
    assert forall i :: 0 <= i < k ==> rows[..k][i] == rows[i];
  }

  /** What the documentation promises to refuse besides. */
  predicate OverDocumented(r: Row, now: int)
    requires ValidRow(r)
  {
    !Current(r, now) || r.window.amount < r.committed
  }

  /** The documented load accepts current rows within their amount only. */
  predicate Documented(m: Buckets, rows: seq<Row>, now: int) {
    Acceptable(m, rows, now) && forall i :: 0 <= i < |rows| ==> !OverDocumented(rows[i], now)
  }

  /** The code answers as documented if and only if the rows are refused anyway or none of them is
      expired or above its amount. */
  lemma LoadAsDocumentedIff(m: Buckets, rows: seq<Row>, now: int)
    ensures (Load(m, rows, now).1 <==> Documented(m, rows, now))
            <==> !(Acceptable(m, rows, now) && exists i :: 0 <= i < |rows| && OverDocumented(rows[i], now))
  {
    LoadSucceedsIff(m, rows, now);
  }

  // ---- A load that fails ----

  predicate FirstBad(m: Buckets, rows: seq<Row>, k: nat, now: int) {
    k < |rows| && Acceptable(m, rows[..k], now) && !Acceptable(m, rows[..k + 1], now)
  }

  lemma {:induction false} LoadStops(m: Buckets, rows: seq<Row>, i: nat, now: int)
    requires i < |rows| && Load(m, rows[..i], now).1 && !Loadable(Load(m, rows[..i], now).0, rows[i], now)
    ensures Load(m, rows, now) == (Load(m, rows[..i], now).0, false)
    decreases |rows|
  {
    if i == |rows| - 1 {
      assert rows[..|rows| - 1] == rows[..i];
    } else {
      assert rows[..|rows| - 1][..i] == rows[..i];
      LoadStops(m, rows[..|rows| - 1], i, now);
    }
  }

  /** Every failure has a first bad row. */
  lemma {:induction false} FailureHasFirstBad(m: Buckets, rows: seq<Row>, now: int) returns (k: nat)
    requires !Load(m, rows, now).1
    ensures FirstBad(m, rows, k, now)
    decreases |rows|
  {
    LoadSucceedsIff(m, rows, now);
    var front := rows[..|rows| - 1];
    LoadSucceedsIff(m, front, now);
    if Load(m, front, now).1 {
      k := |front|;
      assert rows[..k + 1] == rows;
    } else {
      k := FailureHasFirstBad(m, front, now);
      assert front[..k] == rows[..k] && front[..k + 1] == rows[..k + 1];
    }
  }

  /** A failed load keeps exactly the rows before the first bad one. It leaves the buckets unchanged if
      and only if none of those is in a window that is not over. */
  lemma FailedLoadUnchangedIff(m: Buckets, rows: seq<Row>, k: nat, now: int)
    requires FirstBad(m, rows, k, now)
    ensures Load(m, rows, now) == (Load(m, rows[..k], now).0, false)
    ensures Load(m, rows, now).0 == m <==> forall i :: 0 <= i < k ==> ValidRow(rows[i]) && !Current(rows[i], now)
  {
    var front := rows[..k];
    assert rows[..k + 1][..k] == front && rows[..k + 1][k] == rows[k];
    LoadSucceedsIff(m, front, now);
    LastIsLoadableIff(m, rows[..k + 1], now);
    LoadStops(m, rows, k, now);
    if forall i :: 0 <= i < k ==> ValidRow(rows[i]) && !Current(rows[i], now) {
      NothingCurrent(m, front, now);
    } else {
      var i :| 0 <= i < k && !(ValidRow(rows[i]) && !Current(rows[i], now));
      assert front[i] == rows[i] && Current(front[i], now) && KeyOf(front[i]) !in m;
      LoadedKeys(m, front, now, KeyOf(front[i]));
    }
  }

  lemma {:induction false} NothingCurrent(m: Buckets, rows: seq<Row>, now: int)
    requires forall i :: 0 <= i < |rows| ==> ValidRow(rows[i]) && !Current(rows[i], now)
    ensures Load(m, rows, now) == (m, true)
  {
    if rows != [] { NothingCurrent(m, rows[..|rows| - 1], now); }
  }

  // ---- Rows at odds with the documentation ----

  const MINUTE: Window := Window(10, 60 * SECOND)

  lemma RowsExist(committed: Int64)
    requires 0 <= committed
    ensures var r := Row("key", 0, MINUTE, committed); ValidRow(r) && Current(r, 0)
  {
    WindowStartIff(0, MINUTE.duration);
  }

  /** A row above its window's amount is loaded as it is. */
  lemma OverLimitRowIsLoaded()
    ensures exists r: Row, now ::
              && ValidRow(r) && r.window.amount < r.committed
              && Load(map[], [r], now) == (map[KeyOf(r) := Bucket(r.committed, 0)], true)
  {
    RowsExist(11);
    var r := Row("key", 0, MINUTE, 11);
    assert [r][..0] == [] && Load(map[], [], 0) == (map[], true);
    assert LoadRow(map[], r, 0) == map[KeyOf(r) := Bucket(11, 0)];
    assert Load(map[], [r], 0) == (map[KeyOf(r) := Bucket(r.committed, 0)], true);
  }

  /** A load refused for a duplicate keeps the first of the two rows. */
  lemma FailedLoadKeepsRows()
    ensures exists rows, now :: !Load(map[], rows, now).1 && Load(map[], rows, now).0 != map[]
  {
    RowsExist(1);
    var r := Row("key", 0, MINUTE, 1);
    var rows := [r, r];
    assert rows[..1] == [r] && rows[..2] == rows && rows[0] == rows[1] == r;
    assert FirstBad(map[], rows, 1, 0);
    FailedLoadUnchangedIff(map[], rows, 1, 0);
  }
}
