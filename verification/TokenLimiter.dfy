/** The token limiter as the source keeps it (internal/limiter/token.go): loops that validate every
    window before they change any bucket, one-shot reservations and tickets. */
module TokenLimiter {
  import opened Wrappers
  import opened WindowClock
  import opened Windows
  import opened TokenBook
  import opened TokenLoading

  // ---- Buckets ----

  function KeysOf(keys: seq<BucketKey>): set<BucketKey> { set b | b in keys }

  predicate Distinct(keys: seq<BucketKey>) { forall i, j :: 0 <= i < j < |keys| ==> keys[i] != keys[j] }

  method DiscardExpired(m: Buckets, now: int) returns (kept: Buckets)
    ensures kept == Discard(m, now)
  {
    kept := m;
    var left := m.Keys;
    while left != {}
      invariant left <= m.Keys && kept.Keys <= m.Keys
      invariant forall b :: b in kept ==> kept[b] == m[b]
      invariant forall b :: b in left ==> b in kept
      invariant forall b :: b in m && b !in left ==> (b in kept <==> !(Expired(b, now) && m[b].active == 0))
      decreases left
    {
      var b :| b in left;
      left := left - {b};
      if Expired(b, now) && m[b].active == 0 { kept := kept - {b}; }
    }
  }

  /** The deltas of the captured buckets that exist, in order. */
  function Deltas(m: Buckets, keys: seq<BucketKey>, delta: int): seq<(BucketKey, int)> {
    if keys == [] || delta == 0 then []
    else Deltas(m, keys[..|keys| - 1], delta) + if keys[|keys| - 1] in m then [(keys[|keys| - 1], delta)] else []
  }

  lemma RewriteStep(m: Buckets, done: set<BucketKey>, b: BucketKey, change: Bucket -> Bucket)
    requires b !in done
    ensures var r := Rewrite(m, done, change);
            && (b in r <==> b in m) && (b in m ==> r[b] == m[b])
            && Rewrite(m, done + {b}, change)
               == if b !in m then r else if change(m[b]) == EMPTY then r - {b} else r[b := change(m[b])]
  {
  }

  /** finalize's second pass: release, charge, delete what is left empty, publish. */
  method ReleaseAll(m: Buckets, keys: seq<BucketKey>, amount: int, charge: int)
    returns (after: Buckets, deltas: seq<(BucketKey, int)>, overflowed: bool)
    requires Distinct(keys)
    ensures after == Rewrite(m, KeysOf(keys), Releasing(amount, charge)) && deltas == Deltas(m, keys, charge)
    ensures overflowed <==> Overflows(m, KeysOf(keys), charge)
  {
    after, deltas, overflowed := m, [], false;
    assert Rewrite(m, KeysOf(keys[..0]), Releasing(amount, charge)) == m;
    for i := 0 to |keys|
      invariant after == Rewrite(m, KeysOf(keys[..i]), Releasing(amount, charge))
                && deltas == Deltas(m, keys[..i], charge)
      invariant overflowed ==> Overflows(m, KeysOf(keys), charge)
      invariant !overflowed ==> forall j :: 0 <= j < i && keys[j] in m ==> Addable(m[keys[j]], charge)
    {
      var key := keys[i];
      assert keys[..i + 1][..i] == keys[..i] && KeysOf(keys[..i + 1]) == KeysOf(keys[..i]) + {key};
      RewriteStep(m, KeysOf(keys[..i]), key, Releasing(amount, charge));
      if key in after {
        assert key in KeysOf(keys);
        if !Addable(after[key], charge) { overflowed := true; }
        var bucket := Released(after[key], amount, charge);
        if bucket.active == 0 && bucket.committed == 0 {
          after := after - {key};
        } else {
          after := after[key := bucket];
        }
        if charge != 0 { deltas := deltas + [(key, charge)]; }
      }
    }
    assert keys[..|keys|] == keys;
  }

  /** finalize's first pass over an actual usage: what keeps it from being recorded, if anything. */
  method FindFault(m: Buckets, keys: seq<BucketKey>, amount: int, usage: int) returns (fault: Option<TokenError>)
    requires 0 <= usage
    ensures fault == None <==> !Broken(m, KeysOf(keys), amount) && !Overflows(m, KeysOf(keys), usage)
    ensures fault == Some(ReservationState) ==> Broken(m, KeysOf(keys), amount)
    ensures fault == Some(AccountingOverflow) ==> Overflows(m, KeysOf(keys), usage)
    ensures fault != Some(InvalidUsage)
  {
    for i := 0 to |keys|
      invariant forall j :: 0 <= j < i ==> keys[j] in m && amount <= m[keys[j]].active && Addable(m[keys[j]], usage)
    {
      assert keys[i] in KeysOf(keys);
      if keys[i] !in m || m[keys[i]].active < amount { return Some(ReservationState); }
      if !Addable(m[keys[i]], usage) { return Some(AccountingOverflow); }
    }
    return None;
  }

  /** Adjust's first pass: whether every existing bucket can take the change. */
  method FindRefusal(m: Buckets, keys: seq<BucketKey>, delta: int) returns (refused: bool)
    ensures refused <==> delta != 0 && Refused(m, KeysOf(keys), delta)
  {
    if delta == 0 { return false; }
    for i := 0 to |keys|
      invariant forall j :: 0 <= j < i && keys[j] in m ==>
                              if 0 <= delta then Addable(m[keys[j]], delta) else -delta <= m[keys[j]].committed
    {
      assert keys[i] in KeysOf(keys);
      if keys[i] in m && !(if 0 <= delta then Addable(m[keys[i]], delta) else -delta <= m[keys[i]].committed) {
        return true;
      }
    }
    return false;
  }

  method ShiftAll(m: Buckets, keys: seq<BucketKey>, delta: int) returns (after: Buckets, deltas: seq<(BucketKey, int)>)
    requires Distinct(keys)
    ensures after == Rewrite(m, KeysOf(keys), Shifting(delta)) && deltas == Deltas(m, keys, delta)
  {
    after, deltas := m, [];
    assert Rewrite(m, KeysOf(keys[..0]), Shifting(delta)) == m;
    for i := 0 to |keys|
      invariant after == Rewrite(m, KeysOf(keys[..i]), Shifting(delta)) && deltas == Deltas(m, keys[..i], delta)
    {
      var key := keys[i];
      assert keys[..i + 1][..i] == keys[..i] && KeysOf(keys[..i + 1]) == KeysOf(keys[..i]) + {key};
      RewriteStep(m, KeysOf(keys[..i]), key, Shifting(delta));
      if key in after {
        var bucket := Bucket(after[key].committed + delta, after[key].active);
        if bucket.active == 0 && bucket.committed == 0 {
          after := after - {key};
        } else {
          after := after[key := bucket];
        }
        if delta != 0 { deltas := deltas + [(key, delta)]; }
      }
    }
    assert keys[..|keys|] == keys;
  }

  // ---- Admission ----

  predicate Located(ws: seq<Window>, now: int) { forall i :: 0 <= i < |ws| ==> Locatable(ws[i], now) }

  function KeysAt(key: KeyId, ws: seq<Window>, now: int): seq<BucketKey>
    requires Located(ws, now)
  {
    seq(|ws|, i requires 0 <= i < |ws| => BucketAt(key, ws[i], now))
  }

  /** One window of the pass: an amount above the whole window never waits, an overage does. */
  method CheckWindow(bucket: Bucket, w: Window, amount: Int64) returns (fits: bool, waits: bool)
    requires 0 < amount
    ensures fits == Fits(bucket, w, amount) && waits == Waits(bucket, w, amount)
  {
    fits, waits := true, false;
    if !Counted(bucket) || amount > w.amount || bucket.committed + bucket.active > w.amount
       || amount > w.amount - (bucket.committed + bucket.active) {
      waits := amount <= w.amount && Counted(bucket);
      fits := false;
    }
    if bucket.active < 0 || MAX_INT64 < bucket.active + amount || w.amount < bucket.active + amount { fits := false; }
  }

  /** Reserve's first pass: where each window stands at `now`, and whether all of them take the amount. */
  method CheckWindows(m: Buckets, key: KeyId, ws: seq<Window>, amount: Int64, now: int)
    returns (located: bool, rejected: bool, resetAt: Option<int>, keys: seq<BucketKey>, updated: seq<Bucket>)
    requires 0 < amount
    ensures located <==> Located(ws, now)
    ensures located ==> keys == KeysAt(key, ws, now) && IsLatest(Resets(m, key, SetOf(ws), amount, now), resetAt)
    ensures located ==> (rejected <==> !AllFit(m, key, SetOf(ws), amount, now))
    ensures located ==> |updated| == |keys|
    ensures located ==> forall i :: 0 <= i < |keys| ==> updated[i] == Raised(m, keys[i], amount)
  {
    rejected, resetAt, keys, updated := false, None, [], [];
    for i := 0 to |ws|
      invariant Located(ws[..i], now) && keys == KeysAt(key, ws[..i], now) && |updated| == i
      invariant IsLatest(Resets(m, key, SetOf(ws[..i]), amount, now), resetAt)
      invariant rejected <==> !AllFit(m, key, SetOf(ws[..i]), amount, now)
      invariant forall j :: 0 <= j < i ==> updated[j] == Raised(m, keys[j], amount)
    {
      var start := WindowStart(now, ws[i].duration);
      if start.None? { return false, rejected, resetAt, keys, updated; }
      var reset := WindowReset(start.value, ws[i].duration);
      if reset.None? { return false, rejected, resetAt, keys, updated; }
      WindowsStep(m, key, ws, i, amount, now);
      var bucket := At(m, BucketKey(key, ws[i], start.value));
      var fits, waits := CheckWindow(bucket, ws[i], amount);
      if waits {
        LatestStep(Resets(m, key, SetOf(ws[..i]), amount, now), resetAt, reset.value);
        if resetAt.None? || resetAt.value < reset.value { resetAt := reset; }
      }
      rejected := rejected || !fits;
      keys, updated := keys + [BucketKey(key, ws[i], start.value)],
          updated + [bucket.(active := bucket.active + amount)];
    }
    assert ws[..|ws|] == ws;
    located := true;
  }

  lemma WindowsStep(m: Buckets, key: KeyId, ws: seq<Window>, i: nat, amount: int, now: int)
    requires i < |ws| && Located(ws[..i], now) && Locatable(ws[i], now)
    ensures Located(ws[..i + 1], now)
            && KeysAt(key, ws[..i + 1], now) == KeysAt(key, ws[..i], now) + [BucketAt(key, ws[i], now)]
    ensures AllLocatable(SetOf(ws[..i]), now) && AllLocatable(SetOf(ws[..i + 1]), now)
    ensures var waits := Waits(At(m, BucketAt(key, ws[i], now)), ws[i], amount);
            Resets(m, key, SetOf(ws[..i + 1]), amount, now)
            == Resets(m, key, SetOf(ws[..i]), amount, now) + if waits then {ResetOf(ws[i], now)} else {}
    ensures AllFit(m, key, SetOf(ws[..i + 1]), amount, now)
            <==> AllFit(m, key, SetOf(ws[..i]), amount, now) && Fits(At(m, BucketAt(key, ws[i], now)), ws[i], amount)
  {
    assert SetOf(ws[..i + 1]) == SetOf(ws[..i]) + {ws[i]};
  }

  function Raised(m: Buckets, b: BucketKey, amount: int): Bucket { At(m, b).(active := At(m, b).active + amount) }

  lemma HoldStep(m: Buckets, done: set<BucketKey>, b: BucketKey, amount: int)
    ensures Hold(m, done + {b}, amount) == Hold(m, done, amount)[b := Raised(m, b, amount)]
  {
  }

  /** Reserve's second pass. */
  method HoldAll(m: Buckets, keys: seq<BucketKey>, updated: seq<Bucket>, ghost amount: int) returns (after: Buckets)
    requires Distinct(keys) && |updated| == |keys|
    requires forall i :: 0 <= i < |keys| ==> updated[i] == Raised(m, keys[i], amount)
    ensures after == Hold(m, KeysOf(keys), amount)
  {
    after := m;
    assert Hold(m, KeysOf(keys[..0]), amount) == m;
    for i := 0 to |keys|
      invariant after == Hold(m, KeysOf(keys[..i]), amount)
    {
      assert KeysOf(keys[..i + 1]) == KeysOf(keys[..i]) + {keys[i]};
      HoldStep(m, KeysOf(keys[..i]), keys[i], amount);
      after := after[keys[i] := updated[i]];
    }
    assert keys[..|keys|] == keys;
  }

  // ---- Policies and rows ----

  lemma {:induction false} DistinctSize(ws: seq<Window>)
    requires ValidWindows(ws)
    ensures |SetOf(ws)| == |ws|
  {
    if ws != [] {
      DistinctSize(ws[..|ws| - 1]);
      assert SetOf(ws) == SetOf(ws[..|ws| - 1]) + {ws[|ws| - 1]};
    }
  }

  lemma SubsetOfSameSize(a: set<Window>, b: set<Window>)
    requires a <= b && |a| == |b|
    ensures a == b
  {
    assert |b - a| == |b| - |a|;
    assert b == a + (b - a);
  }

  method SameWindowSet(configured: set<Window>, ws: seq<Window>) returns (same: bool)
    requires ValidWindows(ws)
    ensures same <==> configured == SetOf(ws)
  {
    DistinctSize(ws);
    if |configured| != |ws| { return false; }
    for i := 0 to |ws|
      invariant forall j :: 0 <= j < i ==> ws[j] in configured
    {
      if ws[i] !in configured {
        assert ws[i] in SetOf(ws);
        return false;
      }
    }
    SubsetOfSameSize(SetOf(ws), configured);
    return true;
  }

  /** allowsPolicyReplacementLocked, after the expired buckets are gone. */
  method AllowsReplacement(m: Buckets, key: KeyId, before: seq<Window>, after: seq<Window>) returns (allowed: bool)
    ensures allowed <==> Droppable(m, key, SetOf(before), SetOf(after))
  {
    for i := 0 to |before|
      invariant forall b :: b in m && b.key == key && b.window in before[..i] && b.window !in after ==>
                              m[b].committed <= 0 && m[b].active <= 0
    {
      assert before[..i + 1] == before[..i] + [before[i]];
      if before[i] !in after {
        var left := m.Keys;
        while left != {}
          invariant left <= m.Keys
          invariant forall b :: b in m && b !in left && b.key == key && b.window == before[i] ==>
                                  m[b].committed <= 0 && m[b].active <= 0
          decreases left
        {
          var b :| b in left;
          left := left - {b};
          if b.key == key && b.window == before[i] && (m[b].committed > 0 || m[b].active > 0) { return false; }
        }
      }
    }
    assert before[..|before|] == before;
    return true;
  }

  datatype Reply = Denied(resetAt: Option<int>) | NoOp | Granted(keys: seq<BucketKey>)

  function Meaning(r: Reply): Admission {
    match r
    case Denied(resetAt) => Rejected(resetAt)
    case NoOp => Unmetered
    case Granted(keys) => Admitted(KeysOf(keys))
  }

  lemma KeysCapture(key: KeyId, ws: seq<Window>, now: int)
    requires Located(ws, now) && ValidWindows(ws)
    ensures AllLocatable(SetOf(ws), now) && KeysOf(KeysAt(key, ws, now)) == Captured(key, SetOf(ws), now)
    ensures Distinct(KeysAt(key, ws, now))
  {
    var keys := KeysAt(key, ws, now);
    forall w | w in ws ensures BucketAt(key, w, now) in keys {
      var i :| 0 <= i < |ws| && ws[i] == w;
      assert keys[i] == BucketAt(key, w, now);
    }
    forall b | b in keys ensures b in Captured(key, SetOf(ws), now) {
      var i :| 0 <= i < |keys| && keys[i] == b;
      assert ws[i] in SetOf(ws);
    }
  }

  class TokenLimiter {
    var buckets: Buckets
    var policyWindows: map<KeyId, set<Window>>
    var lastNow: Time

    function State(): Tokens
      reads this
    {
      Tokens(buckets, policyWindows, lastNow)
    }

    constructor ()
      ensures State() == Tokens(map[], map[], ZERO_TIME)
    {
      buckets, policyWindows, lastNow := map[], map[], ZERO_TIME;
    }

    /** currentTimeLocked followed by discardExpiredLocked. */
    method Look(reading: Time)
      modifies this`lastNow, this`buckets
      ensures State() == Tick(old(State()), reading)
    {
      if !(lastNow != ZERO_TIME && reading < lastNow) { lastNow := reading; }
      buckets := DiscardExpired(buckets, lastNow);
    }

    method Reserve(key: KeyId, windows: seq<Window>, amount: Int64, reading: Time) returns (r: Reply)
      modifies this`lastNow, this`buckets
      ensures (State(), Meaning(r)) == TokenBook.Reserve(old(State()), key, windows, amount, reading)
      ensures r.Granted? ==> Distinct(r.keys) && r.keys != []
    {
      if amount <= 0 { return Denied(None); }
      var ws, valid := Normalize(windows);
      if !valid { return Denied(None); }
      if |ws| == 0 { return NoOp; }
      if key in policyWindows {
        var same := SameWindowSet(policyWindows[key], ws);
        if !same { return Denied(None); }
      }
      Look(reading);
      r := Admit(key, ws, amount);
    }

    method Admit(key: KeyId, ws: seq<Window>, amount: Int64) returns (r: Reply)
      requires ValidWindows(ws) && ws != [] && 0 < amount
      modifies this`buckets
      ensures (State(), Meaning(r)) == TokenBook.Admit(old(State()), key, SetOf(ws), amount)
      ensures r.Granted? ==> Distinct(r.keys) && r.keys != []
    {
      var located, rejected, resetAt, keys, updated := CheckWindows(buckets, key, ws, amount, lastNow);
      if !located {
        ghost var i :| 0 <= i < |ws| && !Locatable(ws[i], lastNow);
        assert ws[i] in SetOf(ws);
        return Denied(None);
      }
      KeysCapture(key, ws, lastNow);
      LatestIs(Resets(buckets, key, SetOf(ws), amount, lastNow), resetAt);
      if rejected { return Denied(resetAt); }
      buckets := HoldAll(buckets, keys, updated, amount);
      return Granted(keys);
    }

    /** finalize, for a reservation that captured buckets. */
    method Finalize(keys: seq<BucketKey>, amount: int, kind: Kind, reading: Time)
      returns (error: Option<TokenError>, deltas: seq<(BucketKey, int)>)
      requires Distinct(keys)
      modifies this`lastNow, this`buckets
      ensures State() == TokenBook.Settle(old(State()), KeysOf(keys), amount, kind, reading)
      ensures var m, captured := old(buckets), KeysOf(keys);
              var charge := ChargeFor(m, captured, amount, kind);
              && deltas == Deltas(m, keys, charge)
              && (error == None <==> && !Overflows(m, captured, charge)
                                     && (kind.Known? ==> 0 <= kind.usage && !Broken(m, captured, amount)
                                                         && !Overflows(m, captured, kind.usage)))
      ensures var m, captured := old(buckets), KeysOf(keys);
              if Overflows(m, captured, ChargeFor(m, captured, amount, kind)) then error == Some(AccountingOverflow)
              else if kind.Known? && kind.usage < 0 then error == Some(InvalidUsage)
              else if kind.Known? && !Broken(m, captured, amount) then error in {None, Some(AccountingOverflow)}
              else if kind.Known? && !Overflows(m, captured, kind.usage) then error == Some(ReservationState)
              else error != Some(InvalidUsage)
    {
      var charge := match kind case Known(usage) => usage as int case Release => 0 case _ => amount;
      error := None;
      if kind.Known? {
        if charge < 0 {
          error := Some(InvalidUsage);
        } else {
          error := FindFault(buckets, keys, amount, charge);
        }
        assert error.None? || error.value.InvalidUsage? || error.value.AccountingOverflow?
               || error.value.ReservationState?;
        if error != None { charge := amount; }
      }
      var overflowed;
      buckets, deltas, overflowed := ReleaseAll(buckets, keys, amount, charge);
      if overflowed { error := Some(AccountingOverflow); }
      Look(reading);
    }

    /** The body of TokenAdjustmentTicket.Adjust, for a ticket that captured buckets. */
    method AdjustCharge(keys: seq<BucketKey>, reserved: int, actual: int, reading: Time)
      returns (error: Option<TokenError>, deltas: seq<(BucketKey, int)>)
      requires Distinct(keys)
      modifies this`lastNow, this`buckets
      ensures (State(), error) == TokenBook.Adjust(old(State()), KeysOf(keys), reserved, actual, reading)
      ensures deltas == if error == None then Deltas(old(buckets), keys, actual - reserved) else []
    {
      if actual < 0 { return Some(InvalidUsage), []; }
      var delta := actual - reserved;
      var refused := FindRefusal(buckets, keys, delta);
      if refused { return Some(if 0 < delta then AccountingOverflow else ReservationState), []; }
      buckets, deltas := ShiftAll(buckets, keys, delta);
      Look(reading);
      error := None;
    }

    /** `conflict` reports that a dropped window still carries tokens. */
    method ReplacePolicy(key: KeyId, before: seq<Window>, after: seq<Window>, commit: Commit, reading: Time)
      returns (conflict: bool)
      modifies this
      ensures State() == TokenBook.Replace(old(State()), key, SetOf(before), SetOf(after), commit, reading)
      ensures conflict <==> !Droppable(Tick(old(State()), reading).buckets, key, SetOf(before), SetOf(after))
    {
      Look(reading);
      var allowed := AllowsReplacement(buckets, key, before, after);
      if allowed && commit == Succeeds { policyWindows := policyWindows[key := SetOf(after)]; }
      return !allowed;
    }

    method RegisterPolicy(key: KeyId, windows: seq<Window>)
      modifies this`policyWindows
      ensures State() == TokenBook.Register(old(State()), key, SetOf(windows))
    {
      policyWindows := policyWindows[key := SetOf(windows)];
    }

    /** On an error the rows before the bad one stay, and the clock is not set. */
    method LoadCommitted(now: Time, rows: seq<Row>) returns (ok: bool)
      modifies this`buckets, this`lastNow
      ensures now == ZERO_TIME ==> !ok && State() == old(State())
      ensures now != ZERO_TIME ==>
                && (buckets, ok) == Load(old(buckets), rows, now)
                && lastNow == if ok then now else old(lastNow)
    {
      if now == ZERO_TIME { return false; }
      ghost var m := buckets;
      for i := 0 to |rows|
        invariant (buckets, true) == Load(m, rows[..i], now) && lastNow == old(lastNow)
      {
        assert rows[..i + 1][..i] == rows[..i];
        if !Loadable(buckets, rows[i], now) {
          LoadStops(m, rows, i, now);
          return false;
        }
        buckets := LoadRow(buckets, rows[i], now);
      }
      assert rows[..|rows|] == rows;
      lastNow := now;
      return true;
    }
  }
}
