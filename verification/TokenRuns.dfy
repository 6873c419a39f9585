/** Runs of the token limiter: any interleaving of its atomic steps, under any clock. */
module TokenRuns {
  import opened Wrappers
  import opened WindowClock
  import opened Windows
  import opened TokenBook
  import Sums

  datatype Status = Live | Ticketed | Closed(charge: int)

  datatype Entry = Entry(captured: set<BucketKey>, amount: int, status: Status) {
    function Holding(): int { if status.Live? then amount else 0 }

    function Charge(): int {
      match status
      case Live => 0
      case Ticketed => amount
      case Closed(charge) => charge
    }
  }

  /** `loaded` is what the buckets had committed when serving began. */
  datatype World = World(tokens: Tokens, history: seq<Entry>, loaded: map<BucketKey, int>)

  function HeldIn(b: BucketKey): Entry -> int { (e: Entry) => if b in e.captured then e.Holding() else 0 }

  function ChargedIn(b: BucketKey): Entry -> int { (e: Entry) => if b in e.captured then e.Charge() else 0 }

  function TicketIn(b: BucketKey): Entry -> int {
    (e: Entry) => if b in e.captured && e.status == Ticketed then e.amount else 0
  }

  function Base(w: World, b: BucketKey): int { if b in w.loaded then w.loaded[b] else 0 }

  function Committed(w: World, b: BucketKey): int { TokenBook.At(w.tokens.buckets, b).committed }

  function Active(w: World, b: BucketKey): int { TokenBook.At(w.tokens.buckets, b).active }

  // ---- Steps ----

  datatype Step =
    | Reserve(key: KeyId, windows: seq<Window>, amount: Int64, reading: Time)
    | Settle(id: nat, kind: Kind, reading: Time)
    | Adjust(id: nat, actual: int, reading: Time)
    | Invalidate(id: nat)
    | Replace(key: KeyId, before: set<Window>, after: set<Window>, commit: Commit, reading: Time)
    | Register(key: KeyId, after: set<Window>)
    | Look(reading: Time)

  ghost function NextReserve(w: World, key: KeyId, windows: seq<Window>, amount: Int64, reading: Time): World {
    var (tokens, admission) := TokenBook.Reserve(w.tokens, key, windows, amount, reading);
    w.(tokens := tokens,
       history := w.history + if admission.Admitted? then [Entry(admission.captured, amount, Live)] else [])
  }

  ghost function NextSettle(w: World, id: nat, kind: Kind, reading: Time): World
    requires id < |w.history|
  {
    var e := w.history[id];
    var charge := ChargeFor(w.tokens.buckets, e.captured, e.amount, kind);
    w.(tokens := TokenBook.Settle(w.tokens, e.captured, e.amount, kind, reading),
       history := w.history[id := e.(status := if kind == Deferred then Ticketed else Closed(charge))])
  }

  ghost function NextAdjust(w: World, id: nat, actual: int, reading: Time): World
    requires id < |w.history|
  {
    var e := w.history[id];
    var (tokens, error) := TokenBook.Adjust(w.tokens, e.captured, e.amount, actual, reading);
    w.(tokens := tokens, history := w.history[id := e.(status := Closed(if error == None then actual else e.amount))])
  }

  ghost function Next(w: World, step: Step): World {
    match step
    case Reserve(key, windows, amount, reading) => NextReserve(w, key, windows, amount, reading)
    case Settle(id, kind, reading) =>
      if id < |w.history| && w.history[id].status == Live then NextSettle(w, id, kind, reading) else w
    case Adjust(id, actual, reading) =>
      if id < |w.history| && w.history[id].status == Ticketed then NextAdjust(w, id, actual, reading) else w
    case Invalidate(id) =>
      if id < |w.history| && w.history[id].status == Ticketed
      then w.(history := w.history[id := w.history[id].(status := Closed(w.history[id].amount))]) else w
    case Replace(key, before, after, commit, reading) =>
      w.(tokens := TokenBook.Replace(w.tokens, key, before, after, commit, reading))
    case Register(key, windows) => w.(tokens := TokenBook.Register(w.tokens, key, windows))
    case Look(reading) => w.(tokens := Tick(w.tokens, reading))
  }

  ghost function Run(w: World, steps: seq<Step>): World
    decreases |steps|
  {
    if steps == [] then w else Run(Next(w, steps[0]), steps[1..])
  }

  // ---- The ledger invariant ----

  /** A bucket whose history the limiter still has to honour. */
  predicate Kept(w: World, b: BucketKey) { b in w.tokens.buckets || !Expired(b, w.tokens.lastNow) }

  ghost predicate Balanced(w: World, b: BucketKey) {
    && Active(w, b) == Sums.Sum(w.history, HeldIn(b)) && (Active(w, b) == 0 || Active(w, b) <= b.window.amount)
    && (Kept(w, b) ==> Committed(w, b) == Base(w, b) + Sums.Sum(w.history, ChargedIn(b)))
    && Committed(w, b) <= MAX_INT64
  }

  predicate ProperEntry(e: Entry) { 0 < e.amount && 0 <= e.Charge() }

  ghost predicate Inv(w: World) {
    && (forall i :: 0 <= i < |w.history| ==> ProperEntry(w.history[i]))
    && (forall b :: b in w.loaded ==> 0 <= w.loaded[b])
    && (forall b :: Balanced(w, b))
  }

  /** What the settlement charges can be recorded: nothing, or the usage, or the estimate fits the
      int64 range of every captured bucket. */
  ghost predicate Recordable(m: Buckets, captured: set<BucketKey>, amount: int, kind: Kind) {
    || kind == Release || !Overflows(m, captured, amount)
    || (kind.Known? && 0 <= kind.usage && !Overflows(m, captured, kind.usage))
  }

  ghost predicate Harmless(w: World, step: Step) {
    step.Settle? && step.id < |w.history| && w.history[step.id].status == Live ==>
      Recordable(w.tokens.buckets, w.history[step.id].captured, w.history[step.id].amount, step.kind)
  }

  lemma TickKeeps(w: World, reading: Time, b: BucketKey)
    requires Balanced(w, b)
    ensures Balanced(w.(tokens := Tick(w.tokens, reading)), b)
  {
  }

  lemma TickPreserves(w: World, reading: Time)
    requires Inv(w)
    ensures Inv(w.(tokens := Tick(w.tokens, reading)))
  {
    forall b ensures Balanced(w.(tokens := Tick(w.tokens, reading)), b) { TickKeeps(w, reading, b); }
  }

  /** A live reservation's buckets are all there, and its estimate is active in them. */
  lemma LiveIsHeld(w: World, id: nat, b: BucketKey)
    requires Inv(w) && id < |w.history| && b in w.history[id].captured
    ensures w.history[id].status == Live ==> b in w.tokens.buckets && w.history[id].amount <= Active(w, b)
    ensures Kept(w, b) ==> w.history[id].Charge() <= Committed(w, b)
  {
    assert Balanced(w, b);
    Sums.Bounds(w.history, HeldIn(b));
    Sums.Bounds(w.history, ChargedIn(b));
    assert HeldIn(b)(w.history[id]) == w.history[id].Holding();
    assert ChargedIn(b)(w.history[id]) == w.history[id].Charge();
  }

  /** An outstanding ticket's charge is in every captured bucket that is still kept. */
  lemma NeverNegative(w: World, b: BucketKey)
    requires Inv(w)
    ensures 0 <= Committed(w, b) && 0 <= Active(w, b)
  {
    assert Balanced(w, b);
    Sums.Bounds(w.history, HeldIn(b));
    Sums.Bounds(w.history, ChargedIn(b));
  }

  /** Replacing one entry and rewriting the buckets it captured. */
  ghost function Rewritten(w: World, id: nat, e: Entry, change: Bucket -> Bucket): World
    requires id < |w.history|
  {
    w.(tokens := w.tokens.(buckets := Rewrite(w.tokens.buckets, e.captured, change)), history := w.history[id := e])
  }

  lemma RewriteKeeps(w: World, id: nat, e: Entry, change: Bucket -> Bucket, b: BucketKey)
    requires Inv(w) && id < |w.history| && e.captured == w.history[id].captured
    requires b in e.captured && b in w.tokens.buckets ==>
               var before, after := w.tokens.buckets[b], change(w.tokens.buckets[b]);
               && after.active == before.active + e.Holding() - w.history[id].Holding()
               && after.committed == before.committed + e.Charge() - w.history[id].Charge()
               && 0 <= after.active <= before.active && after.committed <= MAX_INT64
    requires b in e.captured && b !in w.tokens.buckets ==>
               e.Holding() == w.history[id].Holding() && Expired(b, w.tokens.lastNow)
    ensures Balanced(Rewritten(w, id, e, change), b)
  {
    assert Balanced(w, b);
    NeverNegative(w, b);
    Sums.Update(w.history, id, e, HeldIn(b));
    Sums.Update(w.history, id, e, ChargedIn(b));
  }

  lemma ChargeFits(w: World, id: nat, kind: Kind)
    requires Inv(w) && id < |w.history| && w.history[id].status == Live && Harmless(w, Settle(id, kind, 0))
    ensures var e := w.history[id];
            var charge := ChargeFor(w.tokens.buckets, e.captured, e.amount, kind);
            0 <= charge && !Overflows(w.tokens.buckets, e.captured, charge)
  {
    forall b | b in w.history[id].captured
      ensures b in w.tokens.buckets && Addable(w.tokens.buckets[b], 0)
              && w.history[id].amount <= w.tokens.buckets[b].active
    {
      assert Balanced(w, b);
      NeverNegative(w, b);
      LiveIsHeld(w, id, b);
    }
  }

  lemma SettlePreserves(w: World, id: nat, kind: Kind, reading: Time)
    requires Inv(w) && id < |w.history| && w.history[id].status == Live && Harmless(w, Settle(id, kind, reading))
    ensures Inv(NextSettle(w, id, kind, reading))
  {
    var e := w.history[id];
    var charge := ChargeFor(w.tokens.buckets, e.captured, e.amount, kind);
    var e' := e.(status := if kind == Deferred then Ticketed else Closed(charge));
    SettleRewritten(w, id, kind);
    TickPreserves(Rewritten(w, id, e', Releasing(e.amount, charge)), reading);
  }

  /** Before the clock is read, a settlement has rewritten its entry and its buckets. */
  lemma SettleRewritten(w: World, id: nat, kind: Kind)
    requires Inv(w) && id < |w.history| && w.history[id].status == Live && Harmless(w, Settle(id, kind, 0))
    ensures var e := w.history[id];
            var charge := ChargeFor(w.tokens.buckets, e.captured, e.amount, kind);
            var status := if kind == Deferred then Ticketed else Closed(charge);
            Inv(Rewritten(w, id, e.(status := status), Releasing(e.amount, charge)))
  {
    var e := w.history[id];
    var charge := ChargeFor(w.tokens.buckets, e.captured, e.amount, kind);
    var e' := e.(status := if kind == Deferred then Ticketed else Closed(charge));
    ChargeFits(w, id, kind);
    var w' := Rewritten(w, id, e', Releasing(e.amount, charge));
    forall b ensures Balanced(w', b) {
      if b in e.captured { LiveIsHeld(w, id, b); }
      NeverNegative(w, b);
      RewriteKeeps(w, id, e', Releasing(e.amount, charge), b);
    }
  }

  /** A refund never finds less than it gives back. */
  lemma RefundsNeverFail(w: World, id: nat, actual: int)
    requires Inv(w) && id < |w.history| && w.history[id].status == Ticketed && 0 <= actual <= w.history[id].amount
    ensures !Refused(w.tokens.buckets, w.history[id].captured, actual - w.history[id].amount)
  {
    var e := w.history[id];
    forall b | b in e.captured && b in w.tokens.buckets
      ensures e.amount - actual <= w.tokens.buckets[b].committed <= MAX_INT64
    {
      LiveIsHeld(w, id, b);
      assert Balanced(w, b);
    }
  }

  lemma AdjustPreserves(w: World, id: nat, actual: int, reading: Time)
    requires Inv(w) && id < |w.history| && w.history[id].status == Ticketed
    ensures Inv(NextAdjust(w, id, actual, reading))
  {
    var e := w.history[id];
    var applied := TokenBook.Adjust(w.tokens, e.captured, e.amount, actual, reading).1 == None;
    var e' := e.(status := Closed(if applied then actual else e.amount));
    if applied {
      AdjustRewritten(w, id, actual);
      TickPreserves(Rewritten(w, id, e', Shifting(actual - e.amount)), reading);
    } else {
      ClosePreserves(w, id, e');
    }
  }

  lemma AdjustRewritten(w: World, id: nat, actual: int)
    requires Inv(w) && id < |w.history| && w.history[id].status == Ticketed && 0 <= actual
    requires actual != w.history[id].amount ==>
               !Refused(w.tokens.buckets, w.history[id].captured, actual - w.history[id].amount)
    ensures Inv(Rewritten(w, id, w.history[id].(status := Closed(actual)), Shifting(actual - w.history[id].amount)))
  {
    var e, delta := w.history[id], actual - w.history[id].amount;
    var e' := e.(status := Closed(actual));
    var w' := Rewritten(w, id, e', Shifting(delta));
    forall b ensures Balanced(w', b) {
      if b in e.captured { LiveIsHeld(w, id, b); }
      NeverNegative(w, b);
      assert Balanced(w, b);
      RewriteKeeps(w, id, e', Shifting(delta), b);
    }
  }

  lemma ClosePreserves(w: World, id: nat, e: Entry)
    requires Inv(w) && id < |w.history| && w.history[id].status == Ticketed
             && e == w.history[id].(status := Closed(w.history[id].amount))
    ensures Inv(w.(history := w.history[id := e]))
  {
    var w' := w.(history := w.history[id := e]);
    forall b ensures Balanced(w', b) {
      assert Balanced(w, b);
      Sums.Update(w.history, id, e, HeldIn(b));
      Sums.Update(w.history, id, e, ChargedIn(b));
    }
  }

  /** The bucket of a window at `now` is not over at `now`. */
  lemma BucketIsCurrent(key: KeyId, win: Window, now: int)
    requires Locatable(win, now) && 0 < win.duration
    ensures !Expired(BucketAt(key, win, now), now)
  {
    WindowHolds(now, win.duration);
  }

  lemma AdmitPreserves(w: World, key: KeyId, windows: set<Window>, amount: int, captured: set<BucketKey>)
    requires Inv(w) && 0 < amount && (forall win :: win in windows ==> 0 < win.duration)
    requires AllLocatable(windows, w.tokens.lastNow) && AllFit(w.tokens.buckets, key, windows, amount, w.tokens.lastNow)
    requires captured == Captured(key, windows, w.tokens.lastNow)
    ensures Inv(w.(tokens := w.tokens.(buckets := Hold(w.tokens.buckets, captured, amount)),
                   history := w.history + [Entry(captured, amount, Live)]))
  {
    var e := Entry(captured, amount, Live);
    var w' := w.(tokens := w.tokens.(buckets := Hold(w.tokens.buckets, captured, amount)), history := w.history + [e]);
    forall b ensures Balanced(w', b) {
      assert Balanced(w, b);
      Sums.Append(w.history, e, HeldIn(b));
      Sums.Append(w.history, e, ChargedIn(b));
      if b in captured { BucketIsCurrent(key, b.window, w.tokens.lastNow); }
    }
  }

  lemma ReservePreserves(w: World, key: KeyId, windows: seq<Window>, amount: Int64, reading: Time)
    requires Inv(w)
    ensures Inv(NextReserve(w, key, windows, amount, reading))
  {
    var (tokens, admission) := TokenBook.Reserve(w.tokens, key, windows, amount, reading);
    if tokens == w.tokens && !admission.Admitted? {
      assert w.history + [] == w.history;
    } else {
      TickPreserves(w, reading);
      var ticked := w.(tokens := Tick(w.tokens, reading));
      if admission.Admitted? {
        AdmitPreserves(ticked, key, SetOf(windows), amount, admission.captured);
      } else {
        assert w.history + [] == w.history;
      }
    }
  }

  lemma PoliciesIrrelevant(w: World, policies: map<KeyId, set<Window>>)
    requires Inv(w)
    ensures Inv(w.(tokens := w.tokens.(policies := policies)))
  {
    forall b ensures Balanced(w.(tokens := w.tokens.(policies := policies)), b) { assert Balanced(w, b); }
  }

  lemma NextPreserves(w: World, step: Step)
    requires Inv(w) && Harmless(w, step)
    ensures Inv(Next(w, step))
  {
    match step
    case Reserve(key, windows, amount, reading) => ReservePreserves(w, key, windows, amount, reading);
    case Settle(id, kind, reading) =>
      if id < |w.history| && w.history[id].status == Live { SettlePreserves(w, id, kind, reading); }
    case Adjust(id, actual, reading) =>
      if id < |w.history| && w.history[id].status == Ticketed { AdjustPreserves(w, id, actual, reading); }
    case Invalidate(id) =>
      if id < |w.history| && w.history[id].status == Ticketed { ClosePreserves(w, id, Next(w, step).history[id]); }
    case Replace(key, before, after, commit, reading) =>
      TickPreserves(w, reading);
      PoliciesIrrelevant(w.(tokens := Tick(w.tokens, reading)), Next(w, step).tokens.policies);
    case Register(key, after) => PoliciesIrrelevant(w, Next(w, step).tokens.policies);
    case Look(reading) => TickPreserves(w, reading);
  }

  ghost predicate Guarded(w: World, steps: seq<Step>)
    decreases |steps|
  {
    steps == [] || (Harmless(w, steps[0]) && Guarded(Next(w, steps[0]), steps[1..]))
  }

  /** Committed tokens of a kept bucket cover every outstanding ticket at once. */
  lemma TicketsCovered(w: World, b: BucketKey)
    requires Inv(w) && Kept(w, b)
    ensures Sums.Sum(w.history, TicketIn(b)) <= Committed(w, b)
  {
    assert Balanced(w, b);
    Sums.Below(w.history, TicketIn(b), ChargedIn(b));
  }

  lemma {:induction false} RunKeepsInv(w: World, steps: seq<Step>)
    requires Inv(w) && Guarded(w, steps)
    ensures Inv(Run(w, steps))
    decreases |steps|
  {
    if steps != [] {
      NextPreserves(w, steps[0]);
      RunKeepsInv(Next(w, steps[0]), steps[1..]);
    }
  }

  /** The token ledger invariant, in every reachable world and for every bucket: active is the sum of
      the live reservations and within the window; while the bucket is kept, committed is what was
      loaded plus all charges, and covers the outstanding tickets. */
  lemma TokenLedgerInvariant(w: World, steps: seq<Step>, b: BucketKey)
    requires Inv(w) && Guarded(w, steps)
    ensures var w' := Run(w, steps);
            && Inv(w') && Balanced(w', b)
            && (Kept(w', b) ==> Sums.Sum(w'.history, TicketIn(b)) <= Committed(w', b))
  {
    RunKeepsInv(w, steps);
    if Kept(Run(w, steps), b) { TicketsCovered(Run(w, steps), b); }
  }
}
