/** What the token limiter answers and records, exactly, with the arithmetic written out
    (internal/limiter/token.go). */
module TokenLaws {
  import opened Wrappers
  import opened WindowClock
  import opened Windows
  import opened TokenBook
  import opened TokenRuns
  import Sums

  // ---- No window is ever overspent ----

  /** What a reservation was charged beyond its estimate. */
  function OverrunIn(b: BucketKey): Entry -> int {
    (e: Entry) => if b in e.captured && e.amount < e.Charge() then e.Charge() - e.amount else 0
  }

  function Used(w: World, b: BucketKey): int { Committed(w, b) + Active(w, b) }

  ghost predicate WithinWindow(w: World, b: BucketKey) {
    Used(w, b) <= b.window.amount + Sums.Sum(w.history, OverrunIn(b))
  }

  lemma TickUsesLess(w: World, reading: Time, b: BucketKey)
    requires Inv(w)
    ensures Used(w.(tokens := Tick(w.tokens, reading)), b) in {0, Used(w, b)}
  {
  }

  lemma TickWithinWindow(w: World, reading: Time, b: BucketKey)
    requires Inv(w) && WithinWindow(w, b) && 0 <= b.window.amount
    ensures WithinWindow(w.(tokens := Tick(w.tokens, reading)), b)
  {
    TickUsesLess(w, reading, b);
    Sums.Bounds(w.history, OverrunIn(b));
  }

  /** An admission takes the bucket of each of its windows at most to the window's amount. */
  lemma AdmitWithinWindow(w: World, key: KeyId, windows: set<Window>, amount: int, b: BucketKey)
    requires Inv(w) && WithinWindow(w, b) && 0 < amount && AllLocatable(windows, w.tokens.lastNow)
    requires AllFit(w.tokens.buckets, key, windows, amount, w.tokens.lastNow)
    ensures var captured := Captured(key, windows, w.tokens.lastNow);
            WithinWindow(w.(tokens := w.tokens.(buckets := Hold(w.tokens.buckets, captured, amount)),
                            history := w.history + [Entry(captured, amount, Live)]), b)
  {
    var captured := Captured(key, windows, w.tokens.lastNow);
    Sums.Bounds(w.history, OverrunIn(b));
    Sums.Append(w.history, Entry(captured, amount, Live), OverrunIn(b));
  }

  lemma ReservedWithinWindow(w: World, key: KeyId, windows: seq<Window>, amount: Int64, reading: Time, b: BucketKey)
    requires Inv(w) && WithinWindow(w, b) && 0 <= b.window.amount
    ensures WithinWindow(NextReserve(w, key, windows, amount, reading), b)
  {
    var (tokens, admission) := TokenBook.Reserve(w.tokens, key, windows, amount, reading);
    if tokens == w.tokens && !admission.Admitted? {
      assert w.history + [] == w.history;
    } else {
      TickPreserves(w, reading);
      TickWithinWindow(w, reading, b);
      if admission.Admitted? {
        AdmitWithinWindow(w.(tokens := Tick(w.tokens, reading)), key, SetOf(windows), amount, b);
      } else {
        assert w.history + [] == w.history;
      }
    }
  }

  /** One entry is replaced and its buckets change by no more than it comes to be overrun. */
  lemma RewrittenWithinWindow(w: World, id: nat, e: Entry, change: Bucket -> Bucket, b: BucketKey)
    requires Inv(w) && WithinWindow(w, b) && 0 <= b.window.amount
    requires id < |w.history| && e.captured == w.history[id].captured
    requires b in e.captured && b in w.tokens.buckets ==>
               var after := change(w.tokens.buckets[b]);
               after.committed + after.active - Used(w, b) <= OverrunIn(b)(e) - OverrunIn(b)(w.history[id])
    requires OverrunIn(b)(w.history[id]) <= OverrunIn(b)(e)
    ensures WithinWindow(Rewritten(w, id, e, change), b)
  {
    Sums.Bounds(w.history, OverrunIn(b));
    Sums.Update(w.history, id, e, OverrunIn(b));
  }

  lemma SettledWithinWindow(w: World, id: nat, kind: Kind, reading: Time, b: BucketKey)
    requires Inv(w) && WithinWindow(w, b) && 0 <= b.window.amount
    requires id < |w.history| && w.history[id].status == Live && Harmless(w, Settle(id, kind, reading))
    ensures WithinWindow(NextSettle(w, id, kind, reading), b)
  {
    var e := w.history[id];
    var charge := ChargeFor(w.tokens.buckets, e.captured, e.amount, kind);
    var e' := e.(status := if kind == Deferred then Ticketed else Closed(charge));
    ChargeFits(w, id, kind);
    if b in e.captured { LiveIsHeld(w, id, b); }
    RewrittenWithinWindow(w, id, e', Releasing(e.amount, charge), b);
    var w' := Rewritten(w, id, e', Releasing(e.amount, charge));
    SettleRewritten(w, id, kind);
    TickWithinWindow(w', reading, b);
  }

  lemma AdjustedWithinWindow(w: World, id: nat, actual: int, reading: Time, b: BucketKey)
    requires Inv(w) && WithinWindow(w, b) && 0 <= b.window.amount
    requires id < |w.history| && w.history[id].status == Ticketed
    ensures WithinWindow(NextAdjust(w, id, actual, reading), b)
  {
    var e := w.history[id];
    var applied := TokenBook.Adjust(w.tokens, e.captured, e.amount, actual, reading).1 == None;
    var e' := e.(status := Closed(if applied then actual else e.amount));
    if applied {
      RewrittenWithinWindow(w, id, e', Shifting(actual - e.amount), b);
      AdjustRewritten(w, id, actual);
      TickWithinWindow(Rewritten(w, id, e', Shifting(actual - e.amount)), reading, b);
    } else {
      Sums.Update(w.history, id, e', OverrunIn(b));
    }
  }

  lemma NextWithinWindow(w: World, step: Step, b: BucketKey)
    requires Inv(w) && Harmless(w, step) && WithinWindow(w, b) && 0 <= b.window.amount
    ensures WithinWindow(Next(w, step), b)
  {
    match step
    case Reserve(key, windows, amount, reading) => ReservedWithinWindow(w, key, windows, amount, reading, b);
    case Settle(id, kind, reading) =>
      if id < |w.history| && w.history[id].status == Live { SettledWithinWindow(w, id, kind, reading, b); }
    case Adjust(id, actual, reading) =>
      if id < |w.history| && w.history[id].status == Ticketed { AdjustedWithinWindow(w, id, actual, reading, b); }
    case Invalidate(id) =>
      if id < |w.history| && w.history[id].status == Ticketed {
        Sums.Update(w.history, id, Next(w, step).history[id], OverrunIn(b));
      }
    case Replace(_, _, _, _, reading) => TickWithinWindow(w, reading, b);
    case Register(_, _) =>
    case Look(reading) => TickWithinWindow(w, reading, b);
  }

  /** Run-level safety: the committed and active tokens of a bucket never exceed the amount of its window
      by more than the sum of what single requests used beyond their own estimates. */
  lemma {:induction false} RunWithinWindow(w: World, steps: seq<Step>, b: BucketKey)
    requires Inv(w) && Guarded(w, steps) && WithinWindow(w, b) && 0 <= b.window.amount
    ensures WithinWindow(Run(w, steps), b)
    decreases |steps|
  {
    if steps != [] {
      NextPreserves(w, steps[0]);
      NextWithinWindow(w, steps[0], b);
      RunWithinWindow(Next(w, steps[0]), steps[1..], b);
    }
  }

  // ---- What Reserve answers ----

  /** The bucket of a window at `now`. */
  function Slot(key: KeyId, w: Window, now: int): BucketKey
    requires 0 < w.duration && InInt64(now - now % w.duration)
  {
    BucketKey(key, w, now - now % w.duration)
  }

  /** A whole second, or the last second of the range, whose window lies in the int64 range. */
  predicate Placed(w: Window, now: int) {
    0 < w.duration && Readable(now) && InInt64(now - now % w.duration) && InInt64(now - now % w.duration + w.duration)
  }

  lemma PlacedIff(key: KeyId, w: Window, now: int)
    requires 0 < w.duration
    ensures Locatable(w, now) <==> Placed(w, now)
    ensures Placed(w, now) ==>
              BucketAt(key, w, now) == Slot(key, w, now) && ResetOf(w, now) == now - now % w.duration + w.duration
    ensures Placed(w, now) ==> now < ResetOf(w, now)
  {
    WindowStartIff(now, w.duration);
    if Placed(w, now) { WindowHolds(now, w.duration); }
  }

  /** What has been used of a window and what is asked for do not exceed its amount. */
  predicate RoomIn(t: Tokens, key: KeyId, w: Window, amount: int, now: int)
    requires Placed(w, now)
  {
    var b := At(t.buckets, Slot(key, w, now));
    0 <= b.committed && 0 <= b.active && b.committed + b.active + amount <= w.amount
  }

  /** The amount would fit an empty window but not what is left of this one. */
  predicate RoomLater(t: Tokens, key: KeyId, w: Window, amount: int, now: int)
    requires Placed(w, now)
  {
    var b := At(t.buckets, Slot(key, w, now));
    && 0 <= b.committed && 0 <= b.active && b.committed + b.active <= MAX_INT64
    && amount <= w.amount < b.committed + b.active + amount
  }

  predicate AllPlaced(windows: seq<Window>, now: int) { forall w :: w in windows ==> Placed(w, now) }

  /** A well-formed request under the published windows, if any are published. */
  ghost predicate WellAsked(t: Tokens, key: KeyId, windows: seq<Window>, amount: int) {
    && 0 < amount && windows != []
    && (forall w :: w in windows ==> 0 < w.amount && 0 < w.duration)
    && (forall i, j :: 0 <= i < j < |windows| ==> windows[i] != windows[j])
    && (key in t.policies ==> forall w :: w in t.policies[key] <==> w in windows)
  }

  lemma WellAskedIff(t: Tokens, key: KeyId, windows: seq<Window>, amount: Int64)
    ensures WellAsked(t, key, windows, amount)
            <==> && 0 < amount && windows != [] && ValidWindows(windows)
                 && (key in t.policies ==> t.policies[key] == SetOf(windows))
  {
    assert (forall w :: w in windows ==> 0 < w.amount && 0 < w.duration)
           <==> forall i :: 0 <= i < |windows| ==> 0 < windows[i].amount && 0 < windows[i].duration;
    if key in t.policies {
      assert t.policies[key] == SetOf(windows) <==> forall w :: w in t.policies[key] <==> w in windows;
    }
  }

  lemma TickedCurrent(t: Tokens, key: KeyId, w: Window, reading: Time)
    requires Placed(w, Clock(t, reading))
    ensures var now := Clock(t, reading);
            At(Tick(t, reading).buckets, Slot(key, w, now)) == At(t.buckets, Slot(key, w, now))
  {
    PlacedIff(key, w, Clock(t, reading));
  }

  /** A request is held in all its windows if and only if it is well formed and made under the published
      windows, the clock can be placed in each of them, and what is committed, active and asked for does
      not exceed the amount of any. Without windows it is not limited. */
  lemma AdmittedIff(t: Tokens, key: KeyId, windows: seq<Window>, amount: Int64, reading: Time)
    ensures var now := if reading < t.lastNow then t.lastNow else reading;
            TokenBook.Reserve(t, key, windows, amount, reading).1.Admitted?
            <==> && WellAsked(t, key, windows, amount) && AllPlaced(windows, now)
                 && forall w :: w in windows ==> RoomIn(t, key, w, amount, now)
    ensures TokenBook.Reserve(t, key, windows, amount, reading).1.Unmetered? <==> 0 < amount && windows == []
  {
    WellAskedIff(t, key, windows, amount);
    var now, ticked := Clock(t, reading), Tick(t, reading);
    if WellAsked(t, key, windows, amount) {
      forall w | w in SetOf(windows)
        ensures Locatable(w, now) <==> Placed(w, now)
        ensures Placed(w, now) ==>
                  (Fits(At(ticked.buckets, BucketAt(key, w, now)), w, amount) <==> RoomIn(t, key, w, amount, now))
      {
        PlacedIff(key, w, now);
        if Placed(w, now) { TickedCurrent(t, key, w, reading); }
      }
    }
  }

  /** An admission adds the amount to the active tokens of exactly the buckets it captured, which are those
      of its windows at the clock. */
  lemma AdmittedHolds(t: Tokens, key: KeyId, windows: seq<Window>, amount: Int64, reading: Time, b: BucketKey)
    requires TokenBook.Reserve(t, key, windows, amount, reading).1.Admitted?
    ensures var now := if reading < t.lastNow then t.lastNow else reading;
            var (after, admission) := TokenBook.Reserve(t, key, windows, amount, reading);
            && AllPlaced(windows, now) && after.lastNow == now
            && (b in admission.captured <==> exists w :: w in windows && b == Slot(key, w, now))
            && (b in admission.captured ==>
                  At(after.buckets, b) == Bucket(At(t.buckets, b).committed, At(t.buckets, b).active + amount))
  {
    AdmittedIff(t, key, windows, amount, reading);
    var now, ticked := Clock(t, reading), Tick(t, reading);
    var (after, admission) := TokenBook.Reserve(t, key, windows, amount, reading);
    forall w | w in SetOf(windows)
      ensures BucketAt(key, w, now) == Slot(key, w, now)
      ensures At(ticked.buckets, BucketAt(key, w, now)) == At(t.buckets, Slot(key, w, now))
    {
      PlacedIff(key, w, now);
      TickedCurrent(t, key, w, reading);
    }
  }

  /** A refused request is told the latest reset of the windows that will have room for it, and no time
      when there is none or it could not be looked at. */
  lemma RejectedUntil(t: Tokens, key: KeyId, windows: seq<Window>, amount: Int64, reading: Time)
    requires TokenBook.Reserve(t, key, windows, amount, reading).1.Rejected?
    ensures var now := if reading < t.lastNow then t.lastNow else reading;
            var resetAt := TokenBook.Reserve(t, key, windows, amount, reading).1.resetAt;
            if WellAsked(t, key, windows, amount) && AllPlaced(windows, now) then
              && (resetAt == None <==> forall w :: w in windows ==> !RoomLater(t, key, w, amount, now))
              && (resetAt.Some? ==>
                    && (exists w :: w in windows && RoomLater(t, key, w, amount, now)
                                    && resetAt.value == now - now % w.duration + w.duration)
                    && (forall w :: w in windows && RoomLater(t, key, w, amount, now) ==>
                                    now - now % w.duration + w.duration <= resetAt.value))
            else resetAt == None
  {
    WellAskedIff(t, key, windows, amount);
    var now, ticked := Clock(t, reading), Tick(t, reading);
    if WellAsked(t, key, windows, amount) {
      forall w | w in SetOf(windows)
        ensures Locatable(w, now) <==> Placed(w, now)
        ensures Placed(w, now) ==>
                  && (Waits(At(ticked.buckets, BucketAt(key, w, now)), w, amount)
                      <==> RoomLater(t, key, w, amount, now))
                  && ResetOf(w, now) == now - now % w.duration + w.duration
      {
        PlacedIff(key, w, now);
        if Placed(w, now) { TickedCurrent(t, key, w, reading); }
      }
      if AllPlaced(windows, now) {
        assert AllLocatable(SetOf(windows), now);
        LatestResets(t, key, windows, amount, reading);
      }
    }
  }

  lemma LatestResets(t: Tokens, key: KeyId, windows: seq<Window>, amount: Int64, reading: Time)
    requires AllLocatable(SetOf(windows), Clock(t, reading)) && 0 < amount
    ensures var now, m := Clock(t, reading), Tick(t, reading).buckets;
            var resets := Resets(m, key, SetOf(windows), amount, now);
            && IsLatest(resets, Latest(resets))
            && (forall w :: w in SetOf(windows) && Waits(At(m, BucketAt(key, w, now)), w, amount) ==>
                              ResetOf(w, now) in resets)
            && (forall r :: r in resets ==>
                  exists w :: && w in SetOf(windows) && Waits(At(m, BucketAt(key, w, now)), w, amount)
                              && ResetOf(w, now) == r)
  {
    HasLatest(Resets(Tick(t, reading).buckets, key, SetOf(windows), amount, Clock(t, reading)));
  }

  // ---- What a settlement charges ----

  /** The usage can be recorded in every bucket the reservation captured. */
  ghost predicate Takes(w: World, id: nat, charge: int)
    requires id < |w.history|
  {
    forall b :: b in w.history[id].captured ==> Committed(w, b) + charge <= MAX_INT64
  }

  /** A live reservation is closed at the known usage if and only if that is not negative and no captured
      bucket would leave the int64 range; otherwise at its estimate. A release charges nothing, a deferred
      settlement the estimate with the ticket outstanding. Each charge is recorded in every captured bucket. */
  lemma SettlesAt(w: World, id: nat, kind: Kind, reading: Time)
    requires Inv(w) && id < |w.history| && w.history[id].status == Live
    ensures var e, status := w.history[id], NextSettle(w, id, kind, reading).history[id].status;
            match kind
            case Known(usage) => status == Closed(if 0 <= usage && Takes(w, id, usage) then usage else e.amount)
            case Conservative => status == Closed(e.amount)
            case Release => status == Closed(0)
            case Deferred => status == Ticketed
  {
    var e := w.history[id];
    forall b | b in e.captured
      ensures b in w.tokens.buckets && e.amount <= w.tokens.buckets[b].active && 0 <= Committed(w, b) <= MAX_INT64
    {
      LiveIsHeld(w, id, b);
      NeverNegative(w, b);
      assert Balanced(w, b);
    }
  }

  /** And exactly the charge that can be recorded is. */
  lemma SettlesIn(w: World, id: nat, kind: Kind, b: BucketKey)
    requires Inv(w) && id < |w.history| && w.history[id].status == Live && b in w.history[id].captured
    ensures var e := w.history[id];
            var charge := ChargeFor(w.tokens.buckets, e.captured, e.amount, kind);
            var after := At(Rewrite(w.tokens.buckets, e.captured, Releasing(e.amount, charge)), b);
            && after.active == Active(w, b) - e.amount
            && after.committed == Committed(w, b) + if Committed(w, b) + charge <= MAX_INT64 then charge else 0
  {
    var e := w.history[id];
    forall c | c in e.captured ensures c in w.tokens.buckets { LiveIsHeld(w, id, c); }
    LiveIsHeld(w, id, b);
    NeverNegative(w, b);
    assert Balanced(w, b);
  }

  // ---- What an adjustment changes ----

  /** An adjustment is recorded, whatever its sign, if and only if the usage is not negative and no captured
      bucket that is still there would leave the int64 range; a refund always is. Then every such bucket
      moves by exactly the difference; otherwise nothing does, and the error says which it was. */
  lemma AdjustsIff(w: World, id: nat, actual: int, reading: Time)
    requires Inv(w) && id < |w.history| && w.history[id].status == Ticketed
    ensures var e, w' := w.history[id], NextAdjust(w, id, actual, reading);
            var (after, error) := TokenBook.Adjust(w.tokens, e.captured, e.amount, actual, reading);
            var fits := forall b :: b in e.captured && b in w.tokens.buckets ==>
                                      Committed(w, b) + actual - e.amount <= MAX_INT64;
            && w'.tokens == after
            && (error == None <==> 0 <= actual && fits)
            && (error == Some(InvalidUsage) <==> actual < 0) && error != Some(ReservationState)
            && w'.history[id].status == Closed(if 0 <= actual && fits then actual else e.amount)
            && (error != None ==> w'.tokens == w.tokens)
  {
    var e := w.history[id];
    forall b | b in e.captured && b in w.tokens.buckets ensures e.amount <= Committed(w, b) <= MAX_INT64 {
      LiveIsHeld(w, id, b);
      assert Balanced(w, b);
    }
  }

  lemma AdjustsBy(w: World, id: nat, actual: int, reading: Time, b: BucketKey)
    requires Inv(w) && id < |w.history| && w.history[id].status == Ticketed && 0 <= actual
    requires forall b :: b in w.history[id].captured && b in w.tokens.buckets ==>
                           Committed(w, b) + actual - w.history[id].amount <= MAX_INT64
    ensures var w' := NextAdjust(w, id, actual, reading);
            Kept(w, b) && Kept(w', b) ==>
              && Active(w', b) == Active(w, b)
              && Committed(w', b) == Committed(w, b)
                                     + if b in w.history[id].captured then actual - w.history[id].amount else 0
  {
    var w' := NextAdjust(w, id, actual, reading);
    AdjustsIff(w, id, actual, reading);
    AdjustPreserves(w, id, actual, reading);
    assert Balanced(w, b) && Balanced(w', b);
    Sums.Update(w.history, id, w'.history[id], HeldIn(b));
    Sums.Update(w.history, id, w'.history[id], ChargedIn(b));
  }

  // ---- What the clock forgets ----

  /** Reading the clock forgets exactly the buckets whose window is over and in which nothing is active. */
  lemma TickForgets(t: Tokens, reading: Time, b: BucketKey)
    ensures var t', now := Tick(t, reading), if reading < t.lastNow then t.lastNow else reading;
            && t'.lastNow == now && t'.policies == t.policies
            && (b in t'.buckets <==>
                  b in t.buckets && !(InInt64(b.start + b.window.duration) && b.start + b.window.duration <= now
                                      && t.buckets[b].active == 0))
            && (b in t'.buckets ==> t'.buckets[b] == t.buckets[b])
  {
  }

  // ---- When windows may be replaced ----

  /** The new windows are published if and only if the commit succeeds and no bucket of a window the caller
      drops has committed or active tokens after the clock is read. */
  lemma ReplacedIff(w: World, key: KeyId, before: set<Window>, after: set<Window>, commit: Commit, reading: Time)
    requires Inv(w)
    ensures var ticked := Tick(w.tokens, reading);
            var replaced := TokenBook.Replace(w.tokens, key, before, after, commit, reading);
            && replaced.buckets == ticked.buckets
            && replaced.policies
               == if commit == Succeeds && (forall b: BucketKey ::
                                              b.key == key && b.window in before && b.window !in after ==>
                                                At(ticked.buckets, b) == Bucket(0, 0))
                  then w.tokens.policies[key := after] else w.tokens.policies
  {
    var ticked := w.(tokens := Tick(w.tokens, reading));
    TickPreserves(w, reading);
    forall b: BucketKey
      ensures 0 <= At(ticked.tokens.buckets, b).committed && 0 <= At(ticked.tokens.buckets, b).active
    {
      NeverNegative(ticked, b);
    }
    if forall b: BucketKey ::
         b.key == key && b.window in before && b.window !in after ==> At(ticked.tokens.buckets, b) == Bucket(0, 0)
    {
      forall b | b in ticked.tokens.buckets && b.key == key && b.window in before && b.window !in after
        ensures ticked.tokens.buckets[b].committed <= 0 && ticked.tokens.buckets[b].active <= 0
      {
        assert At(ticked.tokens.buckets, b) == Bucket(0, 0);
      }
    }
  }

  // ---- Which rows are well formed ----

  /** A durable row is well formed if and only if it names a key and a positive window, starts at a whole
      second of the range that is a multiple of the window, and is not negative. It is restored while the
      window is not over. */
  lemma RowIff(r: Row, now: int)
    ensures ValidRow(r)
            <==> && r.key != "" && 0 < r.window.amount && 0 < r.window.duration && 0 <= r.committed
                 && 0 <= r.start <= MAX_INT64 && r.start % SECOND == 0 && r.start % r.window.duration == 0
    ensures ValidRow(r) ==>
              && KeyOf(r) == BucketKey(r.key, r.window, r.start)
              && (Current(r, now) <==> InInt64(r.start + r.window.duration) && now < r.start + r.window.duration)
  {
    WindowStartIff(r.start, r.window.duration);
  }
}
