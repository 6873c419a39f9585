/** What follows for the token limiter from its ledger invariant. */
module TokenTheorems {
  import opened Wrappers
  import opened WindowClock
  import opened Windows
  import opened TokenBook
  import opened TokenRuns
  import TokenLaws
  import Sums

  /** For a kept bucket the counters are a function of the history alone. */
  lemma HistoryDecidesBuckets(v: World, w: World, b: BucketKey)
    requires Inv(v) && Inv(w) && v.history == w.history && v.loaded == w.loaded && Kept(v, b) && Kept(w, b)
    ensures TokenBook.At(v.tokens.buckets, b) == TokenBook.At(w.tokens.buckets, b)
  {
    assert Balanced(v, b) && Balanced(w, b);
  }

  // ---- Expired buckets ----

  ghost predicate Gone(t: Tokens, b: BucketKey) { b !in t.buckets && Expired(b, t.lastNow) }

  lemma NextLeavesGone(w: World, step: Step, b: BucketKey)
    requires Gone(w.tokens, b)
    ensures Gone(Next(w, step).tokens, b)
  {
    if step.Reserve? {
      var (tokens, admission) := TokenBook.Reserve(w.tokens, step.key, step.windows, step.amount, step.reading);
      if admission.Admitted? && b in admission.captured { BucketIsCurrent(step.key, b.window, tokens.lastNow); }
    }
  }

  /** An expired bucket that was discarded is never created again, by no reservation and no late
      ticket, whatever the clock reads from then on. */
  lemma {:induction false} ExpiredStaysGone(w: World, steps: seq<Step>, b: BucketKey)
    requires Gone(w.tokens, b)
    ensures Gone(Run(w, steps).tokens, b)
    decreases |steps|
  {
    if steps != [] {
      NextLeavesGone(w, steps[0], b);
      ExpiredStaysGone(Next(w, steps[0]), steps[1..], b);
    }
  }

  // ---- Deferred settlement ----

  predicate Forward(e: Entry, f: Entry) {
    && e.captured == f.captured && e.amount == f.amount
    && (e.status == f.status || e.status.Live? || (e.status.Ticketed? && f.status.Closed?))
  }

  /** Once closed an entry never changes again: every terminal call works at most once. */
  lemma {:induction false} EntriesMoveForward(w: World, steps: seq<Step>, id: nat)
    requires id < |w.history|
    ensures var w' := Run(w, steps); id < |w'.history| && Forward(w.history[id], w'.history[id])
    decreases |steps|
  {
    if steps != [] {
      var w' := Next(w, steps[0]);
      assert id < |w'.history| && Forward(w.history[id], w'.history[id]);
      EntriesMoveForward(w', steps[1..], id);
    }
  }

  /** A reservation rolled back before its request went upstream contributes nothing to any bucket from
      then on, whatever was or will be interleaved: the counters are those of the other reservations. */
  lemma RolledBackLeavesNoTrace(w: World, id: nat, reading: Time, steps: seq<Step>, b: BucketKey)
    requires Inv(w) && id < |w.history| && w.history[id].status == Live
    requires Guarded(Next(w, Settle(id, Release, reading)), steps)
    ensures var w' := Run(Next(w, Settle(id, Release, reading)), steps);
            && id < |w'.history|
            && var others := w'.history[..id] + w'.history[id + 1..];
               && Active(w', b) == Sums.Sum(others, HeldIn(b))
               && (Kept(w', b) ==> Committed(w', b) == Base(w', b) + Sums.Sum(others, ChargedIn(b)))
  {
    var v := Next(w, Settle(id, Release, reading));
    NextPreserves(w, Settle(id, Release, reading));
    EntriesMoveForward(v, steps, id);
    RunKeepsInv(v, steps);
    var w' := Run(v, steps);
    assert Balanced(w', b);
    Sums.Without(w'.history, id, HeldIn(b));
    Sums.Without(w'.history, id, ChargedIn(b));
  }

  /** How a step changes a bucket that is kept before and after it. */
  ghost predicate Changed(v: World, w: World, b: BucketKey, committed: int, active: int) {
    Kept(v, b) && Kept(w, b) ==> Committed(w, b) == Committed(v, b) + committed && Active(w, b) == Active(v, b) + active
  }

  lemma EntryDecidesChange(v: World, w: World, id: nat, b: BucketKey)
    requires Inv(v) && Inv(w) && v.loaded == w.loaded && id < |v.history| == |w.history|
             && w.history == v.history[id := w.history[id]]
    requires w.history[id].captured == v.history[id].captured
    ensures var e, f := v.history[id], w.history[id];
            if b in e.captured then Changed(v, w, b, f.Charge() - e.Charge(), f.Holding() - e.Holding())
            else Changed(v, w, b, 0, 0)
  {
    assert Balanced(v, b) && Balanced(w, b);
    Sums.Update(v.history, id, w.history[id], HeldIn(b));
    Sums.Update(v.history, id, w.history[id], ChargedIn(b));
  }

  /** Deferring at `w` and adjusting at any later world `v` changes each bucket that is still kept by
      what committing the actual usage at `w` changes it by, exactly when no bucket would leave the int64
      range; otherwise, like an invalidated ticket, it leaves exactly the estimate charged. */
  lemma DeferredRefinesDirect(w: World, v: World, id: nat, usage: Int64, reading: Time, later: Time, b: BucketKey)
    requires Inv(w) && id < |w.history| && w.history[id].status == Live && b in w.history[id].captured
    requires !Overflows(w.tokens.buckets, w.history[id].captured, w.history[id].amount)
    requires 0 <= usage && !Overflows(w.tokens.buckets, w.history[id].captured, usage)
    requires Inv(v) && id < |v.history| && v.history[id] == w.history[id].(status := Ticketed)
    ensures var amount := w.history[id].amount;
            var adjusted := NextAdjust(v, id, usage, later);
            && Changed(w, NextSettle(w, id, Deferred, reading), b, amount, -amount)
            && Changed(w, NextSettle(w, id, Known(usage), reading), b, usage, -amount)
            && adjusted.history[id].status
               == Closed(if forall c :: c in v.history[id].captured && c in v.tokens.buckets ==>
                                          Committed(v, c) + usage - amount <= MAX_INT64
                         then usage as int else amount)
            && Changed(v, adjusted, b, adjusted.history[id].Charge() - amount, 0)
            && (usage <= amount ==> adjusted.history[id].status == Closed(usage))
  {
    forall c | c in w.history[id].captured
      ensures c in w.tokens.buckets && w.history[id].amount <= w.tokens.buckets[c].active
    {
      LiveIsHeld(w, id, c);
    }
    SettlePreserves(w, id, Deferred, reading);
    SettlePreserves(w, id, Known(usage), reading);
    AdjustPreserves(v, id, usage, later);
    TokenLaws.AdjustsIff(v, id, usage, later);
    if usage <= w.history[id].amount { RefundsNeverFail(v, id, usage); }
    EntryDecidesChange(w, NextSettle(w, id, Deferred, reading), id, b);
    EntryDecidesChange(w, NextSettle(w, id, Known(usage), reading), id, b);
    EntryDecidesChange(v, NextAdjust(v, id, usage, later), id, b);
  }

  /** The deltas a settlement publishes are what happened to the buckets exactly when the estimate
      fits them, or the usage itself does, or nothing is charged. */
  lemma SettlePublishesTruthIff(m: Buckets, captured: set<BucketKey>, amount: int, kind: Kind)
    requires 0 < amount && !Broken(m, captured, amount)
    requires forall b :: b in captured && b in m ==> 0 <= m[b].committed <= MAX_INT64
    ensures var charge := ChargeFor(m, captured, amount, kind);
            (forall b :: b in captured && b in m ==>
             Released(m[b], amount, charge).committed == m[b].committed + charge)
            <==> Recordable(m, captured, amount, kind)
  {
    var charge := ChargeFor(m, captured, amount, kind);
    assert charge != 0 && Overflows(m, captured, charge) ==>
             exists b :: b in captured && b in m && Released(m[b], amount, charge).committed != m[b].committed + charge;
  }

  // ---- Policies ----

  predicate Nothing(t: Tokens, b: BucketKey) { TokenBook.At(t.buckets, b) == EMPTY }

  ghost predicate Vacant(t: Tokens, key: KeyId, dropped: Window) {
    forall b: BucketKey :: b.key == key && b.window == dropped ==> Nothing(t, b)
  }

  ghost predicate Clear(w: World, key: KeyId, dropped: Window) {
    key in w.tokens.policies && dropped !in w.tokens.policies[key] && Vacant(w.tokens, key, dropped)
  }

  predicate KeepsPolicy(step: Step, key: KeyId) { (step.Replace? || step.Register?) ==> step.key != key }

  lemma CheckedWindowsAreVacant(w: World, key: KeyId, before: set<Window>, after: set<Window>, reading: Time,
                                dropped: Window)
    requires Inv(w) && dropped in before && dropped !in after
             && Droppable(Tick(w.tokens, reading).buckets, key, before, after)
    ensures Vacant(Tick(w.tokens, reading), key, dropped)
  {
    var ticked := w.(tokens := Tick(w.tokens, reading));
    TickPreserves(w, reading);
    forall b: BucketKey | b.key == key && b.window == dropped
      ensures Nothing(ticked.tokens, b)
    {
      NeverNegative(ticked, b);
    }
  }

  /** A replacement that goes through leaves no token in a window it does not publish if and only if
      the caller named that window among the old ones, or no bucket of it held a token. */
  lemma ReplacementClearsIff(w: World, key: KeyId, before: set<Window>, after: set<Window>, reading: Time,
                             dropped: Window)
    requires Inv(w) && dropped !in after && Droppable(Tick(w.tokens, reading).buckets, key, before, after)
    ensures Clear(Next(w, Replace(key, before, after, Succeeds, reading)), key, dropped)
            <==> dropped in before || Vacant(Tick(w.tokens, reading), key, dropped)
  {
    var w' := Next(w, Replace(key, before, after, Succeeds, reading));
    forall b: BucketKey ensures Nothing(w'.tokens, b) <==> Nothing(Tick(w.tokens, reading), b) {}
    if dropped in before { CheckedWindowsAreVacant(w, key, before, after, reading, dropped); }
  }

  lemma RewriteLeavesNothing(w: World, id: nat, change: Bucket -> Bucket, b: BucketKey)
    requires Inv(w) && id < |w.history| && !w.history[id].status.Closed? && Nothing(w.tokens, b)
    ensures TokenBook.At(Rewrite(w.tokens.buckets, w.history[id].captured, change), b) == EMPTY
  {
    if b in w.history[id].captured { LiveIsHeld(w, id, b); }
  }

  /** What goes on while a replacement keeps admissions and other policy changes out. */
  predicate DuringReplacement(step: Step) { step.Settle? || step.Adjust? || step.Invalidate? || step.Look? }

  lemma StaysVacant(w: World, step: Step, key: KeyId, dropped: Window)
    requires Inv(w) && Vacant(w.tokens, key, dropped) && DuringReplacement(step)
    ensures Vacant(Next(w, step).tokens, key, dropped) && Next(w, step).tokens.policies == w.tokens.policies
  {
    forall b: BucketKey | b.key == key && b.window == dropped ensures Nothing(Next(w, step).tokens, b) {
      assert Nothing(w.tokens, b);
      match step
      case Settle(id, kind, reading) =>
        if id < |w.history| && w.history[id].status == Live {
          var e := w.history[id];
          RewriteLeavesNothing(w, id, Releasing(e.amount, ChargeFor(w.tokens.buckets, e.captured, e.amount, kind)), b);
        }
      case Adjust(id, actual, reading) =>
        if id < |w.history| && w.history[id].status == Ticketed {
          RewriteLeavesNothing(w, id, Shifting(actual - w.history[id].amount), b);
        }
      case _ =>
    }
  }

  lemma NextStaysClear(w: World, step: Step, key: KeyId, dropped: Window)
    requires Inv(w) && Clear(w, key, dropped) && KeepsPolicy(step, key)
    ensures Clear(Next(w, step), key, dropped)
  {
    if DuringReplacement(step) {
      StaysVacant(w, step, key, dropped);
    } else {
      forall b: BucketKey | b.key == key && b.window == dropped ensures Nothing(Next(w, step).tokens, b) {
        assert Nothing(w.tokens, b);
      }
    }
  }

  lemma {:induction false} RunStaysVacant(w: World, steps: seq<Step>, key: KeyId, dropped: Window)
    requires Inv(w) && Guarded(w, steps) && Vacant(w.tokens, key, dropped)
    requires forall i :: 0 <= i < |steps| ==> DuringReplacement(steps[i])
    ensures Vacant(Run(w, steps).tokens, key, dropped)
    decreases |steps|
  {
    if steps != [] {
      NextPreserves(w, steps[0]);
      StaysVacant(w, steps[0], key, dropped);
      RunStaysVacant(Next(w, steps[0]), steps[1..], key, dropped);
    }
  }

  /** The check and the publication are two regions: whatever settlements, adjustments and readings
      come between them, what the check found vacant is vacant when the new windows are published. */
  lemma ReplacementHoldsAcrossCommit(w: World, between: seq<Step>, key: KeyId, before: set<Window>, after: set<Window>,
                                     reading: Time, dropped: Window)
    requires Inv(w) && dropped in before && dropped !in after
             && Droppable(Tick(w.tokens, reading).buckets, key, before, after)
    requires Guarded(Next(w, Look(reading)), between)
    requires forall i :: 0 <= i < |between| ==> DuringReplacement(between[i])
    ensures Clear(Next(Run(Next(w, Look(reading)), between), Register(key, after)), key, dropped)
  {
    CheckedWindowsAreVacant(w, key, before, after, reading, dropped);
    TickPreserves(w, reading);
    RunStaysVacant(Next(w, Look(reading)), between, key, dropped);
    var v := Run(Next(w, Look(reading)), between);
    forall b: BucketKey | b.key == key && b.window == dropped ensures Nothing(Next(v, Register(key, after)).tokens, b) {
      assert Nothing(v.tokens, b);
    }
  }

  /** From a replacement on, and until the next one for that key, the dropped windows carry no
      committed and no active tokens, whatever reservations and late tickets do. */
  lemma {:induction false} DroppedWindowsStayClear(w: World, steps: seq<Step>, key: KeyId, dropped: Window)
    requires Inv(w) && Guarded(w, steps) && Clear(w, key, dropped)
    requires forall i :: 0 <= i < |steps| ==> KeepsPolicy(steps[i], key)
    ensures Clear(Run(w, steps), key, dropped)
    decreases |steps|
  {
    if steps != [] {
      NextPreserves(w, steps[0]);
      NextStaysClear(w, steps[0], key, dropped);
      DroppedWindowsStayClear(Next(w, steps[0]), steps[1..], key, dropped);
    }
  }

  function WindowsOf(e: Entry): set<Window> { set b | b in e.captured :: b.window }

  predicate Of(e: Entry, key: KeyId) { exists b :: b in e.captured && b.key == key }

  lemma NewEntryUnderPolicy(w: World, step: Step, key: KeyId)
    requires key in w.tokens.policies && |Next(w, step).history| > |w.history|
    ensures var h := Next(w, step).history;
            && |h| == |w.history| + 1 && h[..|w.history|] == w.history
            && (Of(h[|w.history|], key) ==> WindowsOf(h[|w.history|]) == w.tokens.policies[key])
  {
    var e := Next(w, step).history[|w.history|];
    var now := Clock(w.tokens, step.reading);
    assert e.captured == Captured(step.key, SetOf(step.windows), now);
    forall win | win in SetOf(step.windows)
      ensures win in WindowsOf(e)
    {
      assert BucketAt(step.key, win, now) in e.captured;
    }
    assert WindowsOf(e) == SetOf(step.windows);
  }

  /** Until the key's windows change again, every reservation admitted for the key holds tokens in
      exactly the published windows. */
  lemma {:induction false} AdmittedUnderPublishedWindows(w: World, steps: seq<Step>, key: KeyId, i: nat)
    requires key in w.tokens.policies && forall j :: 0 <= j < |steps| ==> KeepsPolicy(steps[j], key)
    requires |w.history| <= i < |Run(w, steps).history| && Of(Run(w, steps).history[i], key)
    ensures WindowsOf(Run(w, steps).history[i]) == w.tokens.policies[key]
    decreases |steps|
  {
    var w' := Next(w, steps[0]);
    assert key in w'.tokens.policies && w'.tokens.policies[key] == w.tokens.policies[key];
    if |w'.history| <= i {
      AdmittedUnderPublishedWindows(w', steps[1..], key, i);
    } else {
      NewEntryUnderPolicy(w, steps[0], key);
      EntriesMoveForward(w', steps[1..], i);
    }
  }

  // ---- Reset times ----

  lemma SameSlot(w: Window, now: int, later: int)
    requires Locatable(w, now) && Locatable(w, later) && now <= later
    ensures later < ResetOf(w, now) ==> BucketAt("", w, later).start == BucketAt("", w, now).start
    ensures ResetOf(w, now) <= later ==> now < BucketAt("", w, later).start
  {
    WindowStartIff(now, w.duration);
    WindowStartIff(later, w.duration);
    WindowHolds(now, w.duration);
    WindowHolds(later, w.duration);
    var start := BucketAt("", w, now).start;
    if ResetOf(w, now) <= later {
      var s := BucketAt("", w, later).start;
      assert s + w.duration > start + w.duration;
      SlotIsUnique(now, w.duration);
      assert !(s % w.duration == 0 && s <= now < s + w.duration);
    }
  }

  lemma ResetIsAhead(w: Window, now: int)
    requires Locatable(w, now)
    ensures now < ResetOf(w, now)
  {
    WindowStartIff(now, w.duration);
    WindowHolds(now, w.duration);
  }

  /** Admission refuses every request with windows when the clock reads a fractional second, up to the
      last second of the range, and reports no reset. */
  lemma FractionalReadingsAreRefused(t: Tokens, key: KeyId, windows: seq<Window>, amount: Int64, reading: Time)
    requires windows != [] && Clock(t, reading) % SECOND != 0 && Clock(t, reading) <= MAX_INT64 - SECOND
    ensures TokenBook.Reserve(t, key, windows, amount, reading).1 == Rejected(None)
  {
    FractionalSecondsHaveNoWindow(Clock(t, reading), windows[0].duration);
    assert windows[0] in SetOf(windows);
  }

  /** A rejection with a reset time stands at every time before that reset. */
  lemma RejectedBeforeReset(t: Tokens, key: KeyId, windows: seq<Window>, amount: Int64, reading: Time, later: Time)
    requires TokenBook.Reserve(t, key, windows, amount, reading).1.Rejected?
    requires TokenBook.Reserve(t, key, windows, amount, reading).1.resetAt.Some?
    requires later < TokenBook.Reserve(t, key, windows, amount, reading).1.resetAt.value
    ensures var t' := TokenBook.Reserve(t, key, windows, amount, reading).0;
            TokenBook.Reserve(t', key, windows, amount, later).1.Rejected?
  {
    var (t', rejected) := TokenBook.Reserve(t, key, windows, amount, reading);
    var now, now' := t'.lastNow, Clock(t', later);
    var win :| win in SetOf(windows) && Locatable(win, now)
               && Waits(TokenBook.At(t'.buckets, BucketAt(key, win, now)), win, amount)
               && ResetOf(win, now) == rejected.resetAt.value;
    ResetIsAhead(win, now);
    if AllLocatable(SetOf(windows), now') {
      SameSlot(win, now, now');
      var b := BucketAt(key, win, now);
      assert b == BucketAt(key, win, now');
      assert TokenBook.At(Discard(t'.buckets, now'), b) == TokenBook.At(t'.buckets, b);
    }
  }

  /** At the reset the same request is admitted exactly when the reset is a time the windows can be
      located at, for an amount that fits every window when no later bucket is in the books. */
  lemma AdmittedAtReset(t: Tokens, key: KeyId, windows: seq<Window>, amount: Int64, reading: Time, resetAt: Time)
    requires TokenBook.Reserve(t, key, windows, amount, reading).1 == Rejected(Some(resetAt))
    requires forall w :: w in windows ==> amount <= w.amount
    requires forall b :: b in t.buckets ==> Counted(t.buckets[b]) && b.start <= Clock(t, reading)
    ensures var t' := TokenBook.Reserve(t, key, windows, amount, reading).0;
            TokenBook.Reserve(t', key, windows, amount, resetAt).1.Admitted?
            <==> AllLocatable(SetOf(windows), resetAt)
  {
    var t' := TokenBook.Reserve(t, key, windows, amount, reading).0;
    var now := t'.lastNow;
    var win :| win in SetOf(windows) && Locatable(win, now) && ResetOf(win, now) == resetAt;
    ResetIsAhead(win, now);
    if AllLocatable(SetOf(windows), resetAt) {
      forall w | w in SetOf(windows)
        ensures Fits(TokenBook.At(Discard(t'.buckets, resetAt), BucketAt(key, w, resetAt)), w, amount)
      {
        FreeAtReset(t', key, w, amount, resetAt, SetOf(windows));
      }
    }
  }

  lemma FreeAtReset(t: Tokens, key: KeyId, w: Window, amount: Int64, resetAt: int, windows: set<Window>)
    requires AllLocatable(windows, t.lastNow) && w in windows && Locatable(w, resetAt) && 0 < amount <= w.amount
    requires IsLatest(Resets(t.buckets, key, windows, amount, t.lastNow), Some(resetAt)) && t.lastNow < resetAt
    requires forall b :: b in t.buckets ==> Counted(t.buckets[b]) && b.start <= t.lastNow
    ensures Fits(TokenBook.At(Discard(t.buckets, resetAt), BucketAt(key, w, resetAt)), w, amount)
  {
    SameSlot(w, t.lastNow, resetAt);
    if Waits(TokenBook.At(t.buckets, BucketAt(key, w, t.lastNow)), w, amount) {
      assert ResetOf(w, t.lastNow) in Resets(t.buckets, key, windows, amount, t.lastNow);
    }
  }

  // ---- Start-up ----

  function Served(t: Tokens): World { World(t, [], map b | b in t.buckets :: t.buckets[b].committed) }

  /** A bucket that loading may create: aligned, in a window that is not over, with nothing active. */
  predicate Restorable(b: BucketKey, bucket: Bucket, now: int) {
    && b.key != "" && 0 < b.window.amount && 0 < b.window.duration && 0 <= b.start && b.start % b.window.duration == 0
    && !Expired(b, now) && bucket.active == 0 && 0 <= bucket.committed <= MAX_INT64
  }

  lemma RowIsRestorable(r: Row, now: int)
    requires ValidRow(r) && Current(r, now)
    ensures Restorable(KeyOf(r), Bucket(r.committed, 0), now)
  {
    WindowStartIff(r.start, r.window.duration);
    WindowHolds(r.start, r.window.duration);
  }

  lemma {:induction false} LoadedBuckets(rows: seq<Row>, now: int, b: BucketKey)
    ensures var m := Load(map[], rows, now).0; b in m ==> Restorable(b, m[b], now)
  {
    if rows != [] {
      var init, last := rows[..|rows| - 1], rows[|rows| - 1];
      LoadedBuckets(init, now, b);
      var before := Load(map[], init, now).0;
      assert Load(map[], rows, now).0 in {before, if ValidRow(last) then LoadRow(before, last, now) else before};
      if ValidRow(last) && Current(last, now) { RowIsRestorable(last, now); }
    }
  }

  /** A load that succeeds restores the committed tokens of every row whose window is not over. */
  lemma {:induction false} LoadRestoresRows(m: Buckets, rows: seq<Row>, now: int, i: nat)
    requires Load(m, rows, now).1 && i < |rows|
    ensures ValidRow(rows[i])
    ensures Current(rows[i], now) ==>
              KeyOf(rows[i]) in Load(m, rows, now).0
                && Load(m, rows, now).0[KeyOf(rows[i])] == Bucket(rows[i].committed, 0)
    decreases |rows|
  {
    var init := rows[..|rows| - 1];
    if i < |init| {
      LoadRestoresRows(m, init, now, i);
      assert init[i] == rows[i];
    }
  }

  /** Loading the durable rows into an empty limiter starts the invariant. */
  lemma LoadEstablishesInv(rows: seq<Row>, now: Time, policies: map<KeyId, set<Window>>)
    ensures Inv(Served(Tokens(Load(map[], rows, now).0, policies, now)))
  {
    var w := Served(Tokens(Load(map[], rows, now).0, policies, now));
    forall b ensures Balanced(w, b) && (b in w.loaded ==> 0 <= w.loaded[b]) {
      LoadedBuckets(rows, now, b);
      assert Sums.Sum(w.history, HeldIn(b)) == 0 && Sums.Sum(w.history, ChargedIn(b)) == 0;
    }
  }
}
