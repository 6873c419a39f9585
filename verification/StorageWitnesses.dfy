/** Runs of a freshly started gateway, through sink and storage, that end in the states the exact
    conditions of the persistence path single out. */
module StorageWitnesses {
  import opened Wrappers
  import opened Money
  import opened Calendar
  import opened BudgetBook
  import opened BudgetRuns
  import opened BudgetRows
  import opened BudgetPersistence
  import opened BudgetDebts
  import opened BudgetLifetimes
  import opened BudgetWitnesses

  function Serving(w: World, pending: Batch, inflight: Batch): System {
    System(w, pending, inflight, map[], {KEY}, true)
  }

  function Started(t: Instant): System { Boot(map[], At(t), [], {KEY}) }

  function One(delta: int): Batch { map[Ident(KEY, Total) := delta] }

  lemma StartedConserves(t: Instant)
    ensures Started(t) == Serving(Empty(), map[], map[]) && Conserved(Serving(Empty(), map[], map[]))
  {
    assert StartupInput(map[], At(t), []) by {
      forall k, s ensures ValueIn([], k, s) == 0 {}
    }
    FreshIsEmpty();
    BootConservedIff(map[], At(t), [], {KEY});
  }

  lemma ThreeActions(sys: System, a: Action, b: Action, c: Action, s1: System, s2: System, s3: System)
    requires Conserved(sys) && s1 == Act(sys, a) && s2 == Act(s1, b) && s3 == Act(s2, c)
    requires Fair(sys, a) && Fair(s1, b) && Fair(s2, c)
    ensures Acts(sys, [a, b, c]) == s3 && Conserved(s3) && AllFair(sys, [a, b, c])
  {
    ActConserves(sys, a);
    ActConserves(s1, b);
    ActConserves(s2, c);
    assert [a, b, c][1..] == [b, c] && [b, c][1..] == [c] && [c][1..] == [];
    assert Acts(s3, []) == s3 && Acts(s2, [c]) == s3 && Acts(s1, [b, c]) == s3;
    assert AllFair(s3, []) && AllFair(s2, [c]) && AllFair(s1, [b, c]);
  }

  // ---- A sink call after Shutdown has begun ----

  lemma OneCharge(amount: Micros, kind: Kind, t: Instant)
    requires 0 < amount && kind in {Conservative, Deferred}
    ensures var status := if kind == Deferred then Ticketed else Closed(amount);
            Next(Totals(0, amount, [Request(amount, Live, map[])], t), Settle(0, kind, Unknown))
            == Totals(amount, 0, [Request(amount, status, map[Total := amount])], t)
  {
    var e, status := Request(amount, Live, map[]), if kind == Deferred then Ticketed else Closed(amount);
    var e' := Request(amount, status, map[Total := amount]);
    assert [e][0 := e'] == [e'];
    Charged(0, amount, [e], 0, kind, Unknown, amount, [e'], t);
  }

  function ClosedEarly(amount: Micros, t: Instant): seq<Action> {
    [Limiter(Ask(amount, t)), Limiter(Settle(0, Conservative, Unknown)), Close]
  }

  /** A sink call after Shutdown has begun loses its delta. */
  lemma LateNotifyIsLost(amount: Micros, t: Instant)
    requires 0 < amount
    ensures var sys := Acts(Started(t), ClosedEarly(amount, t));
            Conserved(sys) && |sys.world.history| == 1 && !Conserved(Act(sys, Notify(0, OfCharge, Total)))
  {
    StartedConserves(t);
    FirstHold(amount, t);
    OneCharge(amount, Conservative, t);
    var s0, s1 := Serving(Empty(), map[], map[]),
        Serving(Totals(0, amount, [Request(amount, Live, map[])], t), map[], map[]);
    var s2 := Serving(Totals(amount, 0, [Request(amount, Closed(amount), map[Total := amount])], t), map[], map[]);
    var s3 := s2.(accepting := false);
    ThreeActions(s0, Limiter(Ask(amount, t)), Limiter(Settle(0, Conservative, Unknown)), Close, s1, s2, s3);
    NotifyConservesIff(s3, 0, OfCharge, Total);
  }

  // ---- Sums that leave the range ----

  /** A deferred request whose charge has been delivered. */
  function Delivering(amount: Micros, t: Instant): seq<Action> {
    [Limiter(Ask(amount, t)), Limiter(Settle(0, Deferred, Unknown)), Notify(0, OfCharge, Total)]
  }

  /** Its refund is published, and before it reaches the sink another request uses what it freed. */
  function Crowding(actual: Micros, other: Micros, t: Instant): seq<Action> {
    [Limiter(Adjust(0, Known(actual))), Limiter(Ask(other, t)), Limiter(Settle(1, Conservative, Unknown))]
  }

  function Deferring(amount: Micros, owed: map<Scope, int>, t: Instant): World {
    Totals(amount, 0, [Request(amount, Ticketed, owed)], t)
  }

  function Refunded(amount: Micros, actual: Micros, owed: map<Scope, int>): Entry {
    Request(amount, Closed(actual), owed).(revised := map[Total := actual - amount])
  }

  lemma RefundAdjusts(amount: Micros, actual: Micros)
    requires 0 < actual < amount
    ensures AdjustBook(Book(map[Total := Account(Known(amount), Known(0))], LIFETIME, true, 1), {Total}, amount, actual)
            == Adjustment(Some(Book(map[Total := Account(Known(actual), Known(0))], LIFETIME, true, 1)), None,
                          map[Total := actual - amount], true)
  {
    var b, delta := Book(map[Total := Account(Known(amount), Known(0))], LIFETIME, true, 1), actual - amount;
    var r := AdjustBook(b, {Total}, amount, actual);
    assert Adjustable(b.accounts, Total, delta);
    assert Shift(b.accounts, {Total}, delta) == map[Total := Account(Known(actual), Known(0))];
    assert r.emitted == map[Total := delta];
  }

  lemma Refunds(amount: Micros, actual: Micros, owed: map<Scope, int>, t: Instant)
    requires 0 < actual < amount
    ensures Next(Deferring(amount, owed, t), Adjust(0, Known(actual)))
            == Totals(actual, 0, [Refunded(amount, actual, owed)], t)
  {
    RefundAdjusts(amount, actual);
  }

  lemma RefundIsFair(amount: Micros, actual: Micros, owed: map<Scope, int>, pending: Batch, inflight: Batch, t: Instant)
    requires 0 < actual < amount
    ensures Fair(Serving(Deferring(amount, owed, t), pending, inflight), Limiter(Adjust(0, Known(actual))))
  {
    var w := Deferring(amount, owed, t);
    assert Adjustable(AccountsOf(w.ledger, KEY), Total, actual - amount);
  }

  lemma ChargedBeside(e: Entry, spent: Micros, other: Micros, t: Instant)
    requires 0 < other && spent + other <= MAX_MICROS
    ensures Next(Totals(spent, 0, [e], t), Ask(other, t)) == Totals(spent, other, [e, Request(other, Live, map[])], t)
    ensures Next(Totals(spent, other, [e, Request(other, Live, map[])], t), Settle(1, Conservative, Unknown))
            == Totals(spent + other, 0, [e, Request(other, Closed(other), map[Total := other])], t)
  {
    AnotherHold(spent, 0, [e], other, t);
    var b, b' := Request(other, Live, map[]), Request(other, Closed(other), map[Total := other]);
    assert [e] + [b] == [e, b] && [e, b][1 := b'] == [e, b'];
    Charged(spent, other, [e, b], 1, Conservative, Unknown, other, [e, b'], t);
  }

  lemma ChargeArrives(amount: Micros, t: Instant)
    requires 0 < amount
    ensures var sys := Serving(Deferring(amount, map[Total := amount], t), map[], map[]);
            && Fair(sys, Notify(0, OfCharge, Total))
            && Act(sys, Notify(0, OfCharge, Total)) == Serving(Deferring(amount, map[], t), One(amount), map[])
  {
    var e := Request(amount, Ticketed, map[Total := amount]);
    assert e.Sent(OfCharge, Total) == Request(amount, Ticketed, map[]) by { assert e.owed - {Total} == map[]; }
    assert AddTo(map[], Ident(KEY, Total), amount) == One(amount);
  }

  /** The charge of one deferred request is pending. */
  lemma ChargeIsPending(amount: Micros, t: Instant)
    requires 0 < amount
    ensures var sys := Serving(Deferring(amount, map[], t), One(amount), map[]);
            Conserved(sys) && Acts(Started(t), Delivering(amount, t)) == sys
  {
    StartedConserves(t);
    FirstHold(amount, t);
    OneCharge(amount, Deferred, t);
    var s1 := Serving(Totals(0, amount, [Request(amount, Live, map[])], t), map[], map[]);
    var s2 := Serving(Deferring(amount, map[Total := amount], t), map[], map[]);
    var s3 := Serving(Deferring(amount, map[], t), One(amount), map[]);
    ChargeArrives(amount, t);
    ThreeActions(Serving(Empty(), map[], map[]), Limiter(Ask(amount, t)), Limiter(Settle(0, Deferred, Unknown)),
                 Notify(0, OfCharge, Total), s1, s2, s3);
  }

  function Crowded(amount: Micros, actual: Micros, other: Micros, owed: map<Scope, int>, t: Instant): World
    requires actual + other <= MAX_MICROS
  {
    Totals(actual + other, 0, [Refunded(amount, actual, map[]), Request(other, Closed(other), owed)], t)
  }

  lemma Crowds(amount: Micros, actual: Micros, other: Micros, pending: Batch, inflight: Batch, t: Instant)
    requires 0 < actual < amount && 0 < other && actual + other <= MAX_MICROS
    requires Conserved(Serving(Deferring(amount, map[], t), pending, inflight))
    ensures var before := Serving(Deferring(amount, map[], t), pending, inflight);
            var sys := Serving(Crowded(amount, actual, other, map[Total := other], t), pending, inflight);
            Conserved(sys) && Acts(before, Crowding(actual, other, t)) == sys
  {
    var e := Refunded(amount, actual, map[]);
    Refunds(amount, actual, map[], t);
    ChargedBeside(e, actual, other, t);
    var s0, s1 := Serving(Deferring(amount, map[], t), pending, inflight),
        Serving(Totals(actual, 0, [e], t), pending, inflight);
    var s2 := Serving(Totals(actual, other, [e, Request(other, Live, map[])], t), pending, inflight);
    RefundIsFair(amount, actual, map[], pending, inflight, t);
    ThreeActions(s0, Limiter(Adjust(0, Known(actual))), Limiter(Ask(other, t)),
                 Limiter(Settle(1, Conservative, Unknown)), s1, s2,
                 Serving(Crowded(amount, actual, other, map[Total := other], t), pending, inflight));
  }

  /** The charge is pending, and the sink sees the later charge before the refund: the two charges
      together leave the int64 range. */
  lemma PendingOverflowIsReachable(amount: Micros, actual: Micros, other: Micros, t: Instant)
    requires 0 < actual < amount && actual + other <= MAX_MICROS < amount + other
    ensures var sys := Acts(Acts(Started(t), Delivering(amount, t)), Crowding(actual, other, t));
            Conserved(sys) && |sys.world.history| == 2 && !Conserved(Act(sys, Notify(1, OfCharge, Total)))
  {
    ChargeIsPending(amount, t);
    Crowds(amount, actual, other, One(amount), map[], t);
    var sys := Serving(Crowded(amount, actual, other, map[Total := other], t), One(amount), map[]);
    NotifyConservesIff(sys, 1, OfCharge, Total);
  }

  lemma ChargeIsTaken(amount: Micros, t: Instant)
    requires 0 < amount
    ensures var sys := Serving(Deferring(amount, map[], t), map[], One(amount));
            Conserved(sys) && Act(Acts(Started(t), Delivering(amount, t)), Take) == sys
  {
    ChargeIsPending(amount, t);
    ActConserves(Serving(Deferring(amount, map[], t), One(amount), map[]), Take);
  }

  /** The charge is in flight when the sink sees the later charge; the batch fails, and giving it back
      forgets it, because the two together leave the int64 range. */
  lemma LostBatchIsReachable(amount: Micros, actual: Micros, other: Micros, t: Instant)
    requires 0 < actual < amount && actual + other <= MAX_MICROS < amount + other
    ensures var sys := Acts(Act(Acts(Started(t), Delivering(amount, t)), Take), Crowding(actual, other, t));
            var sys' := Act(sys, Notify(1, OfCharge, Total));
            Conserved(sys') && sys'.inflight == One(amount) && !Conserved(Act(sys', Rollback))
  {
    ChargeIsTaken(amount, t);
    Crowds(amount, actual, other, map[], One(amount), t);
    var sys := Serving(Crowded(amount, actual, other, map[Total := other], t), map[], One(amount));
    var sys' := Act(sys, Notify(1, OfCharge, Total));
    ActConserves(sys, Notify(1, OfCharge, Total));
    assert Amount(sys'.pending, Ident(KEY, Total)) == other;
    assert !Fair(sys', Rollback) by { assert Ident(KEY, Total) in sys'.inflight; }
    RollbackConservesIff(sys');
  }

  // ---- A refund that overtakes its charge ----

  /** A second caller of CommitDeferred gets the ticket, and adjusts it, before the charge is delivered. */
  function Overtaking(amount: Micros, actual: Micros, t: Instant): seq<Action> {
    [Limiter(Ask(amount, t)), Limiter(Settle(0, Deferred, Unknown)), Limiter(Adjust(0, Known(actual)))]
  }

  lemma Overtakes(amount: Micros, actual: Micros, t: Instant)
    requires 0 < actual < amount
    ensures var sys := Serving(Totals(actual, 0, [Refunded(amount, actual, map[Total := amount])], t), map[], map[]);
            Conserved(sys) && Acts(Started(t), Overtaking(amount, actual, t)) == sys
  {
    StartedConserves(t);
    FirstHold(amount, t);
    OneCharge(amount, Deferred, t);
    Refunds(amount, actual, map[Total := amount], t);
    RefundIsFair(amount, actual, map[Total := amount], map[], map[], t);
    var s1 := Serving(Totals(0, amount, [Request(amount, Live, map[])], t), map[], map[]);
    var s2 := Serving(Deferring(amount, map[Total := amount], t), map[], map[]);
    ThreeActions(Serving(Empty(), map[], map[]), Limiter(Ask(amount, t)), Limiter(Settle(0, Deferred, Unknown)),
                 Limiter(Adjust(0, Known(actual))), s1, s2,
                 Serving(Totals(actual, 0, [Refunded(amount, actual, map[Total := amount])], t), map[], map[]));
  }

  /** Delivered first and taken alone, the refund asks for more than the row holds: the books are exact,
      and the row guard refuses the batch. */
  lemma RefundFirstIsRefused(amount: Micros, actual: Micros, t: Instant)
    requires 0 < actual < amount
    ensures var sys := Acts(Started(t), Overtaking(amount, actual, t));
            var sys' := Act(Act(sys, Notify(0, OfRevision, Total)), Take);
            && Conserved(sys') && !ChargedFirst(sys, Notify(0, OfRevision, Total))
            && Underflows(sys', Ident(KEY, Total)) && !Accepted(sys'.rows, sys'.keys, sys'.inflight)
  {
    Overtakes(amount, actual, t);
    var sys := Serving(Totals(actual, 0, [Refunded(amount, actual, map[Total := amount])], t), map[], map[]);
    ActConserves(sys, Notify(0, OfRevision, Total));
    var noted := Act(sys, Notify(0, OfRevision, Total));
    assert Amount(noted.pending, Ident(KEY, Total)) == actual - amount;
    ActConserves(noted, Take);
  }
}
