/** What the budget limiter answers and records, exactly, with the arithmetic written out
    (internal/limiter/budget.go). */
module BudgetLaws {
  import opened Wrappers
  import opened Money
  import opened Calendar
  import opened BudgetBook
  import opened BudgetRuns

  // ---- What Reserve answers ----

  /** Spent and active of an account, with nothing for one that is not there. */
  function Used(l: Ledger, key: KeyId, s: Scope): int {
    SpentIn(AccountsOf(l, key), s) + ActiveIn(AccountsOf(l, key), s)
  }

  /** With the candidate the account would exceed the limit, if there is one. */
  predicate Over(l: Ledger, key: KeyId, limited: bool, limit: Money, s: Scope, candidate: Micros) {
    limited && limit.Known? && limit.micros < Used(l, key, s) + candidate
  }

  predicate WellAsked(key: KeyId, p: Policy, candidate: Money) {
    && key != "" && candidate.Known?
    && (p.limited <==> p.total.Known?) && (p.dayLimited <==> p.day.Known?) && (p.monthLimited <==> p.month.Known?)
  }

  /** The request drops or changes a limit that the book enforces. */
  predicate Drops(limits: Policy, p: Policy) {
    || (limits.limited && p.total != limits.total)
    || (limits.dayLimited && p.day != limits.day) || (limits.monthLimited && p.month != limits.month)
  }

  /** Which limits are exceeded decides the reported reset: a lifetime budget never resets, otherwise the
      month decides before the day. */
  function Reset(total: bool, month: bool, now: Moment): Option<nat> {
    if total then None else if month then Some(FirstDay(now.month + 1) * DAY) else Some((now.day + 1) * DAY)
  }

  /** Room in every limited scope, or which reset is reported. */
  predicate Judged(l: Ledger, key: KeyId, p: Policy, candidate: Micros, now: Moment, answer: Admission) {
    var total := Over(l, key, p.limited, p.total, Total, candidate);
    var day := Over(l, key, p.dayLimited, p.day, Day(now.day), candidate);
    var month := Over(l, key, p.monthLimited, p.month, Month(now.month), candidate);
    if total || day || month then answer == Refused(Capacity(Reset(total, month, now), total))
    else if candidate == 0 then answer == Unmetered
    else && answer.Held?
         && answer.captured == (if p.limited then {Total} else {}) + (if p.dayLimited then {Day(now.day)} else {})
                               + (if p.monthLimited then {Month(now.month)} else {})
  }

  /** The first of these that applies is the answer: malformed, not the published policy, corrupt state, a
      dropped limit, no limit at all, no room in some limited scope, nothing asked for; otherwise the
      request is held in exactly the limited scopes. */
  lemma ReserveAnswers(l: Ledger, key: KeyId, p: Policy, candidate: Money, reading: Instant)
    requires key in l.policies ==> ValidPolicy(l.policies[key])
    ensures var answer := BudgetBook.Reserve(l, key, p, candidate, reading).1;
            var now := if l.lastNow.Some? && reading < l.lastNow.value.at then l.lastNow.value else At(reading);
            if !WellAsked(key, p, candidate) then answer == Refused(InvalidAdmission)
            else if key in l.policies && l.policies[key] != p then answer == Refused(PolicyConflict)
            else if key in l.books && !ValidBook(l.books[key]) then answer == Refused(CorruptState)
            else if key in l.books && key !in l.policies && Drops(l.books[key].limits, p) then
              answer == Refused(InvalidAdmission)
            else if !p.limited && !p.dayLimited && !p.monthLimited then answer == Unmetered
            else Judged(l, key, p, candidate.micros, now, answer)
  {
    var now, book := Clock(l, reading), Find(l.books, key);
    if Considered(l, key, p, candidate) {
      if Ready(book, key in l.policies, p) {
        AdmitAnswers(l, key, p, candidate.micros, now, l.sequence + 1);
      } else {
        UnreadyAnswers(l, key, p);
      }
    }
  }

  lemma UnreadyAnswers(l: Ledger, key: KeyId, p: Policy)
    requires ValidPolicy(p) && !Ready(Find(l.books, key), key in l.policies, p)
    ensures Unready(Find(l.books, key), key in l.policies, p)
            == if key in l.books && !ValidBook(l.books[key]) then Refused(CorruptState)
               else if key in l.books && key !in l.policies && Drops(l.books[key].limits, p)
               then Refused(InvalidAdmission)
               else Unmetered
    ensures key in l.books && ValidBook(l.books[key]) && (key in l.policies || !Drops(l.books[key].limits, p)) ==>
              Unlimited(p)
    ensures key !in l.books ==> Unlimited(p)
  {
  }

  lemma AdmitAnswers(l: Ledger, key: KeyId, p: Policy, candidate: Micros, now: Moment, next: nat)
    requires ValidPolicy(p) && Ready(Find(l.books, key), key in l.policies, p)
    ensures key in l.books ==> ValidBook(l.books[key]) && (key in l.policies || !Drops(l.books[key].limits, p))
    ensures Judged(l, key, p, candidate, now, AdmitBook(Find(l.books, key), p, candidate, now, next).1)
  {
    BlockedIff(l, key, p, candidate, now);
  }

  lemma BlockedIff(l: Ledger, key: KeyId, p: Policy, candidate: Micros, now: Moment)
    requires ValidPolicy(p) && (key in l.books ==> WellFormed(l.books[key]))
    ensures var blocked := Blocked(KeptAt(Find(l.books, key), now), p, candidate, now);
            && (Total in blocked <==> Over(l, key, p.limited, p.total, Total, candidate))
            && (Day(now.day) in blocked <==> Over(l, key, p.dayLimited, p.day, Day(now.day), candidate))
            && (Month(now.month) in blocked <==> Over(l, key, p.monthLimited, p.month, Month(now.month), candidate))
            && blocked <= {Total, Day(now.day), Month(now.month)}
  {
    if key in l.books {
      forall s { PruneReads(l.books[key].accounts, now, s); }
    }
  }

  /** In particular: a refusal for lack of room reports no reset if and only if the lifetime budget is
      exceeded, the start of the next month when that is not but the monthly one is, and the start of the
      next day in every other case. */
  lemma ResetIff(l: Ledger, key: KeyId, p: Policy, candidate: Money, reading: Instant)
    requires Books(l) && (key in l.policies ==> ValidPolicy(l.policies[key])) && candidate.Known?
    requires var r := BudgetBook.Reserve(l, key, p, candidate, reading).1; r.Refused? && r.error.Capacity?
    ensures var resetAt := BudgetBook.Reserve(l, key, p, candidate, reading).1.error.resetAt;
            var now := if l.lastNow.Some? && reading < l.lastNow.value.at then l.lastNow.value else At(reading);
            var total := Over(l, key, p.limited, p.total, Total, candidate.micros);
            var month := Over(l, key, p.monthLimited, p.month, Month(now.month), candidate.micros);
            && (resetAt == None <==> total)
            && (month && !total ==> resetAt == Some(FirstDay(now.month + 1) * DAY))
            && (!month && !total ==> resetAt == Some((now.day + 1) * DAY))
  {
    ReserveAnswers(l, key, p, candidate, reading);
  }

  /** An attempt that reads the clock forgets exactly the accounts of past periods with nothing active; an
      admitted one adds the candidate to the active amount of exactly the scopes it captured. */
  lemma ReserveRecords(l: Ledger, key: KeyId, p: Policy, candidate: Money, reading: Instant, s: Scope)
    requires Books(l) && Considered(l, key, p, candidate) && Ready(Find(l.books, key), key in l.policies, p)
    ensures var (l', answer) := BudgetBook.Reserve(l, key, p, candidate, reading);
            var now := if l.lastNow.Some? && reading < l.lastNow.value.at then l.lastNow.value else At(reading);
            var a, a' := AccountsOf(l, key), AccountsOf(l', key);
            var past := (s.Day? && s.day < now.day) || (s.Month? && s.month < now.month);
            var held := answer.Held? && s in answer.captured;
            && l'.lastNow == Some(now)
            && (s in a && !held ==> (s !in a' <==> past && ActiveIn(a, s) == 0))
            && (s in a' && s in a ==> SpentIn(a', s) == SpentIn(a, s))
            && ActiveIn(a', s) == ActiveIn(a, s) + (if held then candidate.micros else 0)
            && (held ==> s in a' && SpentIn(a', s) == SpentIn(a, s))
  {
    AdmitRecords(Find(l.books, key), p, candidate.micros, Clock(l, reading), l.sequence + 1, s);
    var outcome := AdmitBook(Find(l.books, key), p, candidate.micros, Clock(l, reading), l.sequence + 1);
    assert AccountsOf(BudgetBook.Reserve(l, key, p, candidate, reading).0, key) == AccountsIn(outcome.0);
  }

  lemma AdmitRecords(book: Option<Book>, p: Policy, candidate: Micros, now: Moment, next: nat, s: Scope)
    requires ValidPolicy(p) && (book.Some? ==> WellFormed(book.value))
    ensures var (after, answer) := AdmitBook(book, p, candidate, now, next);
            var a, a' := AccountsIn(book), AccountsIn(after);
            var past := (s.Day? && s.day < now.day) || (s.Month? && s.month < now.month);
            var held := answer.Held? && s in answer.captured;
            && (s in a && !held ==> (s !in a' <==> past && ActiveIn(a, s) == 0))
            && (s in a' && s in a ==> SpentIn(a', s) == SpentIn(a, s))
            && ActiveIn(a', s) == ActiveIn(a, s) + (if held then candidate else 0)
            && (held ==> s in a' && SpentIn(a', s) == SpentIn(a, s))
  {
    AdmitMoves(book, p, candidate, now, next, s);
  }

  // ---- What a settlement charges ----

  /** The charge can be added to the spend of every captured account. */
  predicate Takes(a: map<Scope, Account>, captured: set<Scope>, charge: Micros) {
    forall s :: s in captured ==> SpentIn(a, s) + charge <= MAX_MICROS
  }

  /** A live reservation of a key whose totals are in range is closed at the known cost if and only if every
      captured account can take it, otherwise at its estimate; a release charges nothing; a deferred
      settlement charges the estimate with the ticket outstanding. The error says why the cost was not
      charged, and nothing else is an error. */
  lemma SettlesAt(w: World, id: nat, kind: Kind, actual: Money)
    requires Inv(w) && id < |w.history| && w.history[id].status == Live && InRange(w.ledger.books[w.history[id].key])
    ensures var e := w.history[id];
            var a, status := AccountsOf(w.ledger, e.key), NextSettle(w, id, kind, actual).history[id].status;
            var error := BudgetBook.Settle(w.ledger, e.key, e.generation, e.captured, e.amount, kind, actual).error;
            match kind
            case Deferred => status == Ticketed && error == None
            case Conservative => status == Closed(e.amount) && error == None
            case Release => status == Closed(0) && error == None
            case KnownCost =>
              if actual.Unknown? then status == Closed(e.amount) && error == Some(InvalidActual)
              else if Takes(a, e.captured, actual.micros) then status == Closed(actual.micros) && error == None
              else status == Closed(e.amount) && error == Some(Arithmetic)
  {
    SettleApplies(w, id, kind, actual);
  }

  /** Its hold is released and its charge added in exactly the captured accounts, and the charge is
      published for each of them unless it is zero. */
  lemma SettlesIn(w: World, id: nat, kind: Kind, actual: Money, s: Scope)
    requires Inv(w) && id < |w.history| && w.history[id].status == Live && InRange(w.ledger.books[w.history[id].key])
    ensures var e, w' := w.history[id], NextSettle(w, id, kind, actual);
            var a, a', charge := AccountsOf(w.ledger, e.key), AccountsOf(w'.ledger, e.key), w'.history[id].Charge();
            && ActiveIn(a', s) == ActiveIn(a, s) - (if s in e.captured then e.amount else 0)
            && SpentIn(a', s) == SpentIn(a, s) + (if s in e.captured then charge else 0)
            && Owed(w'.history[id].owed, s) == if s in e.captured then charge else 0
  {
    SettleApplies(w, id, kind, actual);
    var e := w.history[id];
    var b := w.ledger.books[e.key];
    forall s | s in e.captured ensures s in b.accounts { HoldCovered(w, id, s); }
    SettleMoves(b, e.captured, e.amount, kind, actual, s);
    SettledBook(w, id, kind, actual);
  }

  lemma SettledBook(w: World, id: nat, kind: Kind, actual: Money)
    requires id < |w.history| && w.history[id].status == Live && Current(w, w.history[id])
    ensures var e, w' := w.history[id], NextSettle(w, id, kind, actual);
            var r := SettleBook(w.ledger.books[e.key], e.captured, e.amount, kind, actual);
            && AccountsOf(w'.ledger, e.key) == AccountsIn(r.book)
            && (r.applied ==> && w'.history[id].Charge() == r.charged
                              && w'.history[id].owed == Emission(e.captured, r.charged))
  {
  }

  // ---- What an adjustment changes ----

  /** Every captured account is there and stays in range. */
  predicate Reaches(a: map<Scope, Account>, captured: set<Scope>, delta: int) {
    forall s :: s in captured ==> s in a && 0 <= SpentIn(a, s) + delta <= MAX_MICROS
  }

  /** The charge became the actual cost, in the entry, in every captured account and in what is published. */
  ghost predicate Adjusted(w: World, w': World, id: nat, actual: Micros)
    requires id < |w.history| == |w'.history|
  {
    var e, e' := w.history[id], w'.history[id];
    var a, a', delta := AccountsOf(w.ledger, e.key), AccountsOf(w'.ledger, e.key), actual - e.amount;
    && e'.status == Closed(actual) && e'.revised.Keys == e.captured
    && forall s :: s in e.captured ==> SpentIn(a', s) == SpentIn(a, s) + delta && Owed(e'.revised, s) == delta
  }

  lemma BookAdjustsIff(b: Book, captured: set<Scope>, reserved: Micros, actual: Micros)
    requires WellFormed(b) && actual != reserved && captured != {}
    ensures var r, delta := AdjustBook(b, captured, reserved, actual), actual - reserved;
            && (r.applied <==> Reaches(b.accounts, captured, delta))
            && (r.error == if Total in captured && !(0 <= SpentIn(b.accounts, Total) + delta <= MAX_MICROS)
                           then Some(Arithmetic) else None)
            && (r.applied ==> r.emitted == map s | s in captured :: delta)
            && (!r.applied ==> r.book == Some(b))
  {
    var delta := actual - reserved;
    forall s | s in captured
      ensures Adjustable(b.accounts, s, delta) <==> s in b.accounts && 0 <= SpentIn(b.accounts, s) + delta <= MAX_MICROS
    {}
  }

  lemma AdjustedBook(w: World, id: nat, actual: Micros)
    requires id < |w.history| && w.history[id].status == Ticketed && Current(w, w.history[id])
    requires Total in w.ledger.books[w.history[id].key].accounts
    ensures var e, w' := w.history[id], NextAdjust(w, id, Known(actual));
            var r := AdjustBook(w.ledger.books[e.key], e.captured, e.amount, actual);
            && |w'.history| == |w.history|
            && AccountsOf(w'.ledger, e.key) == AccountsIn(r.book) && w'.history[id].revised == r.emitted
            && w'.history[id].status == Closed(if r.applied then actual else e.amount)
            && BudgetBook.Adjust(w.ledger, e.key, e.generation, e.captured, e.amount, actual).error == r.error
  {
  }

  lemma Applies(w: World, id: nat, actual: Micros)
    requires Inv(w) && id < |w.history| && w.history[id].status == Ticketed && Current(w, w.history[id])
    requires actual != w.history[id].amount
    requires Reaches(AccountsOf(w.ledger, w.history[id].key), w.history[id].captured, actual - w.history[id].amount)
    ensures |NextAdjust(w, id, Known(actual)).history| == |w.history|
    ensures Adjusted(w, NextAdjust(w, id, Known(actual)), id, actual)
  {
    var e := w.history[id];
    assert ProperEntry(w, e);
    var b := w.ledger.books[e.key];
    BookAdjustsIff(b, e.captured, e.amount, actual);
    AdjustedBook(w, id, actual);
    forall s { AdjustMoves(b, e.captured, e.amount, actual, s); }
  }

  /** A ticket adjusted to a cost other than the estimate, above or below it, takes effect if and only if
      every captured account is there and stays in range. Otherwise the estimate stays charged and no
      counter moves. The only error is the lifetime counter leaving its range. */
  lemma AdjustsIff(w: World, id: nat, actual: Micros)
    requires Inv(w) && id < |w.history| && w.history[id].status == Ticketed && Current(w, w.history[id])
    requires actual != w.history[id].amount
    ensures var e, w' := w.history[id], NextAdjust(w, id, Known(actual));
            var a, delta := AccountsOf(w.ledger, e.key), actual - e.amount;
            && (Adjusted(w, w', id, actual) <==> Reaches(a, e.captured, delta))
            && (!Reaches(a, e.captured, delta) ==>
                  w'.history[id].status == Closed(e.amount) && AccountsOf(w'.ledger, e.key) == a)
            && BudgetBook.Adjust(w.ledger, e.key, e.generation, e.captured, e.amount, actual).error
               == if Total in e.captured && !(0 <= SpentIn(a, Total) + delta <= MAX_MICROS)
                  then Some(Arithmetic) else None
  {
    var e := w.history[id];
    assert ProperEntry(w, e);
    BookAdjustsIff(w.ledger.books[e.key], e.captured, e.amount, actual);
    AdjustedBook(w, id, actual);
    if Reaches(AccountsOf(w.ledger, e.key), e.captured, actual - e.amount) { Applies(w, id, actual); }
  }

  // ---- What a replaced policy decides ----

  /** A policy is replaced if and only if both policies are well formed, the one the caller expects is the
      published one, if any is, and the commit succeeds. No counter changes; from then on the key's state
      enforces the new limits, and a request under any other policy is refused as a conflict. */
  lemma ReplacedIff(w: World, key: KeyId, expected: Policy, p: Policy, durable: bool, q: Policy, candidate: Money,
                    reading: Instant)
    requires key in w.ledger.policies ==> ValidPolicy(w.ledger.policies[key])
    ensures var l, l' := w.ledger, BudgetRuns.Next(w, Replace(key, expected, p, durable)).ledger;
            var replaced := && durable && key != "" && ValidPolicy(expected) && ValidPolicy(p)
                            && (key in l.policies ==> l.policies[key] == expected);
            && l'.policies == (if replaced then l.policies[key := p] else l.policies)
            && (forall k :: AccountsOf(l', k) == AccountsOf(l, k))
            && (replaced && key in l.books ==> key in l'.books && l'.books[key].limits == p)
            && (replaced && WellAsked(key, q, candidate) && q != p ==>
                  BudgetBook.Reserve(l', key, q, candidate, reading).1 == Refused(PolicyConflict))
  {
    var l' := BudgetRuns.Next(w, Replace(key, expected, p, durable)).ledger;
    if key in l'.policies && ValidPolicy(l'.policies[key]) { ReserveAnswers(l', key, q, candidate, reading); }
  }
}
