/** Where the budget limiter does and does not keep its promises, exactly. */
module BudgetEdges {
  import opened Wrappers
  import opened Money
  import opened Calendar
  import opened BudgetBook
  import opened BudgetRuns

  // ---- A ticket may outlive its account ----

  /** An adjustment leaves a sound book exactly when it changes the charge or finds every account it
      captured: adjusting to exactly the estimate stores unknown counters for a pruned account. */
  lemma AdjustSoundIff(b: Book, captured: set<Scope>, reserved: Micros, actual: Micros)
    requires WellFormed(b)
    ensures var r := AdjustBook(b, captured, reserved, actual);
            (r.book.Some? ==> WellFormed(r.book.value)) <==> (actual != reserved || captured <= b.accounts.Keys)
  {
    var r := AdjustBook(b, captured, reserved, actual);
    if actual == reserved && !(captured <= b.accounts.Keys) {
      var s :| s in captured && s !in b.accounts;
      assert s in r.book.value.accounts && r.book.value.accounts[s] == Account(Unknown, Unknown);
    } else {
      forall s { AdjustMoves(b, captured, reserved, actual, s); }
    }
  }

  /** How that happens: any admission attempt on a later day forgets a settled day account, the late
      ticket is then adjusted to its own estimate, and from then on the key admits nothing. */
  lemma LateTicketPoisonsKey(b: Book, p: Policy, candidate: Micros, now: Moment, day: nat, reserved: Micros,
                             registered: bool, q: Policy, amount: Micros, later: Moment)
    requires ValidBook(b) && ValidPolicy(p) && !Unlimited(p) && ValidPolicy(q)
    requires Day(day) in b.accounts && b.accounts[Day(day)].active == ZERO && day < now.day
    ensures var pruned := AdmitBook(Some(b), p, candidate, now, 1).0.value;
            var poisoned := AdjustBook(pruned, {Day(day)}, reserved, reserved);
            && Day(day) !in pruned.accounts
            && poisoned.book.Some? && poisoned.error == None
            && ReserveBook(poisoned.book, registered, q, amount, later, 1) == (poisoned.book, Refused(CorruptState))
  {
    AdmitShape(Some(b), p, candidate, now, 1);
    var pruned := AdmitBook(Some(b), p, candidate, now, 1).0.value;
    AdjustSoundIff(pruned, {Day(day)}, reserved, reserved);
    var poisoned := AdjustBook(pruned, {Day(day)}, reserved, reserved);
    assert poisoned.book.Some? && Day(day) in poisoned.book.value.accounts;
  }

  /** The published deltas say what happened to the counters exactly when the charge does not change,
      or the lifetime counter refuses the change, or the captured accounts all accept it, or none does.
      In every other case a delta is published for a charge that was not changed. */
  lemma AdjustPublishesTruthIff(b: Book, captured: set<Scope>, reserved: Micros, actual: Micros)
    requires WellFormed(b)
    ensures var r, delta := AdjustBook(b, captured, reserved, actual), actual - reserved;
            (forall s :: Owed(r.emitted, s) == SpentIn(AccountsIn(r.book), s) - SpentIn(b.accounts, s))
            <==> || delta == 0 || (Total in captured && !Adjustable(b.accounts, Total, delta))
                 || (forall s :: s in captured ==> Adjustable(b.accounts, s, delta))
                 || (forall s :: s in captured ==> !Adjustable(b.accounts, s, delta))
  {
    var r, delta := AdjustBook(b, captured, reserved, actual), actual - reserved;
    if r.applied && delta != 0 {
      forall s { AdjustMoves(b, captured, reserved, actual, s); }
    } else if delta == 0 {
      assert forall s :: SpentIn(AccountsIn(r.book), s) == SpentIn(b.accounts, s);
    } else if r.error == None && exists s :: s in captured && Adjustable(b.accounts, s, delta) {
      var s :| s in captured && Adjustable(b.accounts, s, delta);
      assert s in r.emitted && Owed(r.emitted, s) == delta;
    }
  }

  /** Under the ledger invariant a refund of a retained account never fails. */
  lemma RefundsAlwaysApply(w: World, id: nat, actual: Micros)
    requires Inv(w) && id < |w.history| && w.history[id].status == Ticketed && Current(w, w.history[id])
    requires actual < w.history[id].amount
    requires w.history[id].captured <= AccountsOf(w.ledger, w.history[id].key).Keys
    ensures var e := w.history[id]; AdjustBook(w.ledger.books[e.key], e.captured, e.amount, actual).applied
  {
    var e := w.history[id];
    var b := w.ledger.books[e.key];
    forall s | s in e.captured ensures Adjustable(b.accounts, s, actual - e.amount) { ChargeCovered(w, id, s); }
  }

  // ---- Totals above the int64 range ----

  /** A known cost above the estimate fits the spend of every captured account, but in one of them not
      beside what other requests still hold. */
  predicate Overspends(a: map<Scope, Account>, captured: set<Scope>, amount: Micros, kind: Kind, actual: Money) {
    && kind == KnownCost && actual.Known? && Chargeable(a, captured, actual.micros)
    && exists s :: s in captured && UsedIn(a, s) - amount + actual.micros > MAX_MICROS
  }

  /** A settlement takes the totals of a sound book out of range exactly when it overspends. */
  lemma SettleInRangeIff(b: Book, captured: set<Scope>, amount: Micros, kind: Kind, actual: Money)
    requires ValidBook(b) && captured <= b.accounts.Keys
    requires forall s :: s in captured ==> amount <= ActiveIn(b.accounts, s)
    ensures var r := SettleBook(b, captured, amount, kind, actual);
            (r.book.Some? ==> InRange(r.book.value)) <==> !Overspends(b.accounts, captured, amount, kind, actual)
  {
    var r := SettleBook(b, captured, amount, kind, actual);
    forall s | s in captured ensures SpentIn(b.accounts, s) + amount <= MAX_MICROS {
      assert UsedIn(b.accounts, s) <= MAX_MICROS;
    }
    assert r.applied;
    forall s { SettleMoves(b, captured, amount, kind, actual, s); }
    SettleShape(b, captured, amount, kind, actual);
    if Overspends(b.accounts, captured, amount, kind, actual) {
      var s :| s in captured && UsedIn(b.accounts, s) - amount + actual.micros > MAX_MICROS;
      assert r.charged == actual.micros && UsedIn(AccountsIn(r.book), s) > MAX_MICROS;
    }
  }

  /** From then on the key refuses every admission, whatever the request, as corrupt state. */
  lemma OverspentAdmitsNothing(l: Ledger, key: KeyId, p: Policy, candidate: Money, reading: Instant)
    requires key in l.books && !InRange(l.books[key]) && Considered(l, key, p, candidate)
    ensures BudgetBook.Reserve(l, key, p, candidate, reading) == (l, Refused(CorruptState))
  {
    assert Store(l.books, key, Some(l.books[key])) == l.books;
  }

  /** And a request still in flight for the key ends with an error and its hold stays in the book. */
  lemma OverspentKeepsHolds(w: World, id: nat, kind: Kind, actual: Money)
    requires Inv(w) && id < |w.history| && w.history[id].status == Live && !InRange(w.ledger.books[w.history[id].key])
    ensures var w' := Next(w, Settle(id, kind, actual)); w'.ledger == w.ledger && w'.history[id].status == Stuck
  {
    var e := w.history[id];
    assert ProperEntry(w, e);
    assert Store(w.ledger.books, e.key, Some(w.ledger.books[e.key])) == w.ledger.books;
  }

  // ---- Reset times ----

  /** No account of a period that starts at or after `t`, other than those of the current date. */
  predicate NothingAhead(a: map<Scope, Account>, now: Moment) {
    forall s :: s in a ==> (s.Day? ==> s.day <= now.day) && (s.Month? ==> s.month <= now.month)
  }

  lemma BlockedAgain(book: Option<Book>, p: Policy, candidate: Micros, now: Moment, later: Moment, s: Scope)
    requires ValidPolicy(p) && (book.Some? ==> WellFormed(book.value)) && NotBefore(now, later)
    requires s in Blocked(KeptAt(book, now), p, candidate, now) && s in Captured(p, later)
    ensures var pruned := AdmitBook(book, p, candidate, now, 1).0;
            s in Blocked(KeptAt(pruned, later), p, candidate, later)
            && AdmitBook(pruned, p, candidate, later, 1).1.Refused?
  {
    var pruned := AdmitBook(book, p, candidate, now, 1).0;
    if book.Some? {
      PruneReads(book.value.accounts, now, s);
      PruneReads(pruned.value.accounts, later, s);
      assert pruned.value.accounts == KeptAt(book, now);
    }
  }

  lemma StillBlocked(book: Option<Book>, p: Policy, candidate: Micros, now: Instant, t: Instant)
    requires ValidPolicy(p) && (book.Some? ==> WellFormed(book.value)) && now <= t
    requires var r := AdmitBook(book, p, candidate, At(now), 1).1;
             r.Refused? && r.error.Capacity? && r.error.resetAt.Some? && t < r.error.resetAt.value
    ensures Blocked(KeptAt(AdmitBook(book, p, candidate, At(now), 1).0, At(t)), p, candidate, At(t)) != {}
  {
    DatesMonotone(now, t);
    MonthSpan(now, MonthOf(now));
    MonthSpan(t, MonthOf(now));
    var blocked := Blocked(KeptAt(book, At(now)), p, candidate, At(now));
    var s := if Month(At(now).month) in blocked then Month(At(now).month) else Day(At(now).day);
    assert s in blocked;
    BlockedAgain(book, p, candidate, At(now), At(t), s);
  }

  lemma PrunedStaysReady(book: Option<Book>, registered: bool, p: Policy, candidate: Micros, now: Moment)
    requires ValidPolicy(p) && Ready(book, registered, p) && AdmitBook(book, p, candidate, now, 1).1.Refused?
    ensures Ready(AdmitBook(book, p, candidate, now, 1).0, registered, p)
  {
    AdmitShape(book, p, candidate, now, 1);
    if book.Some? {
      var a := KeptAt(book, now);
      forall s | s in a ensures UsedIn(a, s) <= MAX_MICROS { assert UsedIn(book.value.accounts, s) <= MAX_MICROS; }
    }
  }

  /** The second attempt finds the book the first one pruned, under the same policy, ready. */
  lemma AttemptedAgain(l: Ledger, key: KeyId, p: Policy, candidate: Money, reading: Instant, t: Instant)
    requires Books(l) && (l.lastNow.Some? ==> l.lastNow.value == At(l.lastNow.value.at))
    requires var r := BudgetBook.Reserve(l, key, p, candidate, reading).1; r.Refused? && r.error.Capacity?
    ensures Considered(l, key, p, candidate)
    ensures var now, book := Clock(l, reading), Find(l.books, key);
            var l' := BudgetBook.Reserve(l, key, p, candidate, reading).0;
            var (pruned, r) := AdmitBook(book, p, candidate.micros, now, 1);
            && now == At(now.at) && r == BudgetBook.Reserve(l, key, p, candidate, reading).1 && l'.lastNow == Some(now)
            && BudgetBook.Reserve(l', key, p, candidate, t).1
               == AdmitBook(pruned, p, candidate.micros, Clock(l', t), l'.sequence + 1).1
  {
    ClockMonotone(l, reading);
    var book := Find(l.books, key);
    var l' := BudgetBook.Reserve(l, key, p, candidate, reading).0;
    var pruned := AdmitBook(book, p, candidate.micros, Clock(l, reading), 1).0;
    PrunedStaysReady(book, key in l.policies, p, candidate.micros, Clock(l, reading));
    assert Find(l'.books, key) == pruned;
  }

  /** A rejection that reports a reset time stays a rejection at every reading before it, earlier
      readings included. */
  lemma RejectedBeforeReset(l: Ledger, key: KeyId, p: Policy, candidate: Money, reading: Instant, t: Instant)
    requires Books(l) && (l.lastNow.Some? ==> l.lastNow.value == At(l.lastNow.value.at))
    requires var r := BudgetBook.Reserve(l, key, p, candidate, reading).1;
             r.Refused? && r.error.Capacity? && r.error.resetAt.Some? && t < r.error.resetAt.value
    ensures var l' := BudgetBook.Reserve(l, key, p, candidate, reading).0;
            var r := BudgetBook.Reserve(l', key, p, candidate, t).1;
            r.Refused? && r.error.Capacity?
  {
    AttemptedAgain(l, key, p, candidate, reading, t);
    var now := Clock(l, reading).at;
    ResetDates(now);
    StillBlocked(Find(l.books, key), p, candidate.micros, now, if now <= t then t else now);
  }

  lemma ResetDates(now: Instant)
    ensures var m := At(now); var r := At(NextDay(m)); r.day == m.day + 1 && m.month <= r.month <= m.month + 1
    ensures var m := At(now); var r := At(NextMonth(m)); m.day < r.day && r.month == m.month + 1
    ensures var m := At(now); now < NextDay(m) <= NextMonth(m)
  {
    var m := At(now);
    MonthSpan(now, m.month);
    StartsFaithful(m.month + 1, m.month + 2);
    DatesMonotone(now, NextDay(m));
    assert NextDay(m) <= NextMonth(m);
    DatesMonotone(NextDay(m), NextMonth(m));
  }

  /** An account the first attempt did not block, or that did not exist, accepts the candidate later. */
  lemma FreeLater(book: Option<Book>, p: Policy, candidate: Micros, now: Moment, later: Moment, s: Scope)
    requires ValidPolicy(p) && (book.Some? ==> WellFormed(book.value)) && NothingAhead(AccountsIn(book), now)
    requires s in Captured(p, later) && candidate <= Limit(p, s).micros
    requires s in Captured(p, now) ==> s !in Blocked(KeptAt(book, now), p, candidate, now)
    requires s in Captured(p, now) || (s.Day? && now.day < s.day) || (s.Month? && now.month < s.month)
    requires Blocked(KeptAt(book, now), p, candidate, now) != {}
    ensures s !in Blocked(KeptAt(AdmitBook(book, p, candidate, now, 1).0, later), p, candidate, later)
  {
    var pruned := AdmitBook(book, p, candidate, now, 1).0;
    if book.Some? {
      assert pruned.value.accounts == KeptAt(book, now);
    }
  }

  lemma UnblockedAtReset(book: Option<Book>, p: Policy, candidate: Micros, now: Instant, t: Instant)
    requires ValidPolicy(p) && (book.Some? ==> WellFormed(book.value)) && NothingAhead(AccountsIn(book), At(now))
    requires forall s :: s in Captured(p, At(now)) ==> candidate <= Limit(p, s).micros
    requires var r := AdmitBook(book, p, candidate, At(now), 1).1;
             r.Refused? && r.error.Capacity? && r.error.resetAt.Some? && r.error.resetAt.value <= t
    ensures Blocked(KeptAt(AdmitBook(book, p, candidate, At(now), 1).0, At(t)), p, candidate, At(t)) == {}
  {
    var (pruned, r) := AdmitBook(book, p, candidate, At(now), 1);
    var later := At(t);
    ResetDates(now);
    DatesMonotone(r.error.resetAt.value, t);
    forall s | s in Captured(p, later)
      ensures s !in Blocked(KeptAt(pruned, later), p, candidate, later)
    {
      assert Total in Captured(p, At(now)) <==> p.limited;
      assert Day(At(now).day) in Captured(p, At(now)) <==> p.dayLimited;
      assert Month(At(now).month) in Captured(p, At(now)) <==> p.monthLimited;
      FreeLater(book, p, candidate, At(now), later, s);
    }
  }

  /** Absent other operations, the request is admitted at every reading from the reported reset time
      on, provided it fits each full limit and no account of a future period was loaded. */
  lemma AdmittedAtReset(l: Ledger, key: KeyId, p: Policy, candidate: Money, reading: Instant, t: Instant)
    requires Books(l) && (l.lastNow.Some? ==> l.lastNow.value == At(l.lastNow.value.at))
    requires NothingAhead(AccountsOf(l, key), Clock(l, reading)) && ValidPolicy(p) && candidate.Known?
    requires forall s :: s in Captured(p, Clock(l, reading)) ==> candidate.micros <= Limit(p, s).micros
    requires var r := BudgetBook.Reserve(l, key, p, candidate, reading).1;
             r.Refused? && r.error.Capacity? && r.error.resetAt.Some? && r.error.resetAt.value <= t
    ensures !BudgetBook.Reserve(BudgetBook.Reserve(l, key, p, candidate, reading).0, key, p, candidate, t).1.Refused?
  {
    AttemptedAgain(l, key, p, candidate, reading, t);
    var now := Clock(l, reading).at;
    ResetDates(now);
    UnblockedAtReset(Find(l.books, key), p, candidate.micros, now, t);
  }
}
