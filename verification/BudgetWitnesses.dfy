/** Runs of a freshly started gateway that end in the states the exact conditions single out. */
module BudgetWitnesses {
  import opened Wrappers
  import opened Money
  import opened Calendar
  import opened BudgetBook
  import opened BudgetRuns
  import opened BudgetRows
  import opened BudgetPersistence
  import opened BudgetLifetimes
  import BudgetEdges

  const KEY: KeyId := "key"

  function Empty(): World { World(EMPTY_LEDGER, [], map[]) }

  lemma FreshIsEmpty()
    ensures Fresh([]) == Empty() && Inv(Empty())
  {
    LoadEstablishesInv([]);
  }

  lemma ThreeSteps(w: World, a: Step, b: Step, c: Step, w1: World, w2: World, w3: World)
    requires Inv(w) && !a.Adjust? && !b.Adjust? && !c.Adjust?
    requires w1 == Next(w, a) && w2 == Next(w1, b) && w3 == Next(w2, c)
    ensures Run(w, [a, b, c]) == w3 && Inv(w3)
  {
    NextPreserves(w, a);
    NextPreserves(w1, b);
    NextPreserves(w2, c);
    assert [a, b, c][1..] == [b, c] && [b, c][1..] == [c] && [c][1..] == [];
    assert Run(w3, []) == w3 && Run(w2, [c]) == w3 && Run(w1, [b, c]) == w3;
  }

  // ---- One key with a lifetime budget ----

  const LIFETIME := Policy(Known(MAX_MICROS), true, Unknown, false, Unknown, false)

  function TotalBook(spent: Micros, active: Micros): Book {
    Book(map[Total := Account(Known(spent), Known(active))], LIFETIME, true, 1)
  }

  function Totals(spent: Micros, active: Micros, h: seq<Entry>, t: Instant): World {
    World(Ledger(map[KEY := TotalBook(spent, active)], map[], 1, Some(At(t))), h, map[])
  }

  function Ask(amount: Micros, t: Instant): Step { Reserve(KEY, LIFETIME, Known(amount), t) }

  function Request(amount: Micros, status: Status, owed: map<Scope, int>): Entry {
    Entry(KEY, 1, amount, {Total}, status, owed, map[])
  }

  lemma FirstHold(amount: Micros, t: Instant)
    requires 0 < amount
    ensures Next(Empty(), Ask(amount, t)) == Totals(0, amount, [Request(amount, Live, map[])], t)
  {
    assert Captured(LIFETIME, At(t)) == {Total};
    assert Blocked(EMPTY_ACCOUNTS, LIFETIME, amount, At(t)) == {};
    assert Hold(EMPTY_ACCOUNTS, {Total}, amount) == map[Total := Account(Known(0), Known(amount))];
    assert Ready(None, false, LIFETIME);
  }

  lemma AnotherHold(spent: Micros, active: Micros, h: seq<Entry>, amount: Micros, t: Instant)
    requires 0 < amount && spent + active + amount <= MAX_MICROS
    ensures Next(Totals(spent, active, h, t), Ask(amount, t))
            == Totals(spent, active + amount, h + [Request(amount, Live, map[])], t)
  {
    var b := Totals(spent, active, h, t).ledger.books[KEY];
    assert ValidBook(b) && !StaleLimits(b.limits, LIFETIME);
    assert Prune(b.accounts, At(t)) == b.accounts;
    assert Captured(LIFETIME, At(t)) == {Total};
    assert Blocked(b.accounts, LIFETIME, amount, At(t)) == {};
    assert Hold(b.accounts, {Total}, amount) == map[Total := Account(Known(spent), Known(active + amount))];
  }

  /** A settlement that fits charges what it wants, in every captured account. */
  lemma Settles(b: Book, captured: set<Scope>, amount: Micros, kind: Kind, actual: Money)
    requires ValidBook(b) && captured <= b.accounts.Keys && (kind == KnownCost ==> actual.Known?)
    requires forall s :: s in captured ==> amount <= ActiveIn(b.accounts, s)
    requires Chargeable(b.accounts, captured, WantedCharge(kind, amount, actual))
    ensures var charge := WantedCharge(kind, amount, actual);
            var after := b.(accounts := Move(b.accounts, captured, amount, charge));
            SettleBook(b, captured, amount, kind, actual) == Settlement(Dropped(after), None, charge, true)
  {
  }

  lemma TotalSettles(spent: Micros, active: Micros, amount: Micros, kind: Kind, actual: Money, charge: Micros)
    requires 0 < amount <= active && spent + active <= MAX_MICROS && charge == WantedCharge(kind, amount, actual)
    requires 0 < charge && spent + charge <= MAX_MICROS && (kind == KnownCost ==> actual.Known?)
    ensures SettleBook(TotalBook(spent, active), {Total}, amount, kind, actual)
            == Settlement(Some(TotalBook(spent + charge, active - amount)), None, charge, true)
    ensures Emission({Total}, charge) == map[Total := charge]
  {
    var b := TotalBook(spent, active);
    Settles(b, {Total}, amount, kind, actual);
    assert Move(b.accounts, {Total}, amount, charge) == TotalBook(spent + charge, active - amount).accounts;
  }

  lemma Charged(spent: Micros, active: Micros, h: seq<Entry>, id: nat, kind: Kind, actual: Money, charge: Micros,
                h': seq<Entry>, t: Instant)
    requires id < |h| && h[id] == Request(h[id].amount, Live, map[]) && 0 < h[id].amount <= active
    requires spent + active <= MAX_MICROS && charge == WantedCharge(kind, h[id].amount, actual)
    requires 0 < charge && spent + charge <= MAX_MICROS && (kind == KnownCost ==> actual.Known?)
    requires var status := if kind == Deferred then Ticketed else Closed(charge);
             h' == h[id := Request(h[id].amount, status, map[Total := charge])]
    ensures Next(Totals(spent, active, h, t), Settle(id, kind, actual))
            == Totals(spent + charge, active - h[id].amount, h', t)
  {
    assert Totals(spent, active, h, t).ledger.books[KEY] == TotalBook(spent, active);
    TotalSettles(spent, active, h[id].amount, kind, actual, charge);
  }

  // ---- A cost above its estimate, beside another request's hold ----

  function Overspending(amount: Micros, other: Micros, cost: Micros, t: Instant): seq<Step> {
    [Ask(amount, t), Ask(other, t), Settle(0, KnownCost, Known(cost))]
  }

  function Overspent(amount: Micros, other: Micros, cost: Micros, t: Instant): World {
    Totals(cost, other, [Request(amount, Closed(cost), map[Total := cost]), Request(other, Live, map[])], t)
  }

  lemma SecondHold(amount: Micros, other: Micros, t: Instant)
    requires 0 < other && amount + other <= MAX_MICROS
    ensures Next(Totals(0, amount, [Request(amount, Live, map[])], t), Ask(other, t))
            == Totals(0, amount + other, [Request(amount, Live, map[]), Request(other, Live, map[])], t)
  {
    var a, b := Request(amount, Live, map[]), Request(other, Live, map[]);
    AnotherHold(0, amount, [a], other, t);
    assert [a] + [b] == [a, b];
  }

  lemma FirstCharge(a: Entry, b: Entry, a': Entry, active: Micros, other: Micros, cost: Micros, t: Instant)
    requires a == Request(a.amount, Live, map[]) && a' == Request(a.amount, Closed(cost), map[Total := cost])
    requires 0 < a.amount && a.amount + other == active && 0 < cost
    ensures Next(Totals(0, active, [a, b], t), Settle(0, KnownCost, Known(cost))) == Totals(cost, other, [a', b], t)
  {
    assert [a, b][0 := a'] == [a', b];
    Charged(0, active, [a, b], 0, KnownCost, Known(cost), cost, [a', b], t);
  }

  lemma CostCharged(amount: Micros, other: Micros, cost: Micros, t: Instant)
    requires 0 < amount && amount + other <= MAX_MICROS && 0 < cost
    ensures Next(Totals(0, amount + other, [Request(amount, Live, map[]), Request(other, Live, map[])], t),
                 Settle(0, KnownCost, Known(cost)))
            == Overspent(amount, other, cost, t)
  {
    FirstCharge(Request(amount, Live, map[]), Request(other, Live, map[]),
                Request(amount, Closed(cost), map[Total := cost]), amount + other, other, cost, t);
  }

  lemma OverspendingRuns(amount: Micros, other: Micros, cost: Micros, t: Instant)
    requires 0 < amount && 0 < other && amount + other <= MAX_MICROS && 0 < cost
    ensures Run(Fresh([]), Overspending(amount, other, cost, t)) == Overspent(amount, other, cost, t)
    ensures Inv(Overspent(amount, other, cost, t))
  {
    FreshIsEmpty();
    FirstHold(amount, t);
    SecondHold(amount, other, t);
    CostCharged(amount, other, cost, t);
    ThreeSteps(Empty(), Ask(amount, t), Ask(other, t), Settle(0, KnownCost, Known(cost)),
               Totals(0, amount, [Request(amount, Live, map[])], t),
               Totals(0, amount + other, [Request(amount, Live, map[]), Request(other, Live, map[])], t),
               Overspent(amount, other, cost, t));
  }

  /** A request that costs more than its estimate, settled while another holds what the cost needs. The
      key then refuses everything and the other request cannot be settled. */
  lemma OverspendingIsReachable(amount: Micros, other: Micros, cost: Micros, t: Instant,
                                p: Policy, candidate: Money, reading: Instant, kind: Kind, actual: Money)
    requires 0 < amount && 0 < other && amount + other <= MAX_MICROS < other + cost
    requires ValidPolicy(p) && candidate.Known?
    ensures var w := Run(Fresh([]), Overspending(amount, other, cost, t));
            && |w.history| == 2 && w.history[1] == Request(other, Live, map[])
            && KEY in w.ledger.books && !InRange(w.ledger.books[KEY])
            && BudgetBook.Reserve(w.ledger, KEY, p, candidate, reading) == (w.ledger, Refused(CorruptState))
            && Next(w, Settle(1, kind, actual)).history[1].status == Stuck
  {
    OverspendingRuns(amount, other, cost, t);
    var w := Overspent(amount, other, cost, t);
    assert UsedIn(w.ledger.books[KEY].accounts, Total) > MAX_MICROS;
    BudgetEdges.OverspentAdmitsNothing(w.ledger, KEY, p, candidate, reading);
    BudgetEdges.OverspentKeepsHolds(w, 1, kind, actual);
  }

  // ---- A ticket that outlives its day ----

  const DAILY := Policy(Known(MAX_MICROS), true, Known(MAX_MICROS), true, Unknown, false)

  function Today(amount: Micros, t: Instant): Step { Reserve(KEY, DAILY, Known(amount), t) }

  function Both(t: Instant): set<Scope> { {Total, Day(DayOf(t))} }

  function Daily(accounts: map<Scope, Account>, now: Instant, e: Entry): World {
    World(Ledger(map[KEY := Book(accounts, DAILY, true, 1)], map[], 1, Some(At(now))), [e], map[])
  }

  function Counters(spent: Micros, active: Micros, t: Instant): map<Scope, Account> {
    map[Total := Account(Known(spent), Known(active)), Day(DayOf(t)) := Account(Known(spent), Known(active))]
  }

  function Ticket(amount: Micros, t: Instant): Entry {
    Entry(KEY, 1, amount, Both(t), Ticketed, map[Total := amount, Day(DayOf(t)) := amount], map[])
  }

  lemma DailyHold(amount: Micros, t: Instant)
    requires 0 < amount
    ensures Next(Empty(), Today(amount, t))
            == Daily(Counters(0, amount, t), t, Entry(KEY, 1, amount, Both(t), Live, map[], map[]))
  {
    assert Captured(DAILY, At(t)) == Both(t);
    assert Blocked(EMPTY_ACCOUNTS, DAILY, amount, At(t)) == {};
    assert Hold(EMPTY_ACCOUNTS, Both(t), amount) == Counters(0, amount, t);
    assert Ready(None, false, DAILY);
  }

  lemma BothMove(amount: Micros, t: Instant)
    ensures var a := Counters(0, amount, t);
            && Chargeable(a, Both(t), amount) && (forall s :: s in Both(t) ==> amount <= ActiveIn(a, s))
            && Move(a, Both(t), amount, amount) == Counters(amount, 0, t)
    ensures amount != 0 ==> Emission(Both(t), amount) == map[Total := amount, Day(DayOf(t)) := amount]
  {
  }

  lemma DailySettles(amount: Micros, t: Instant)
    requires 0 < amount
    ensures SettleBook(Book(Counters(0, amount, t), DAILY, true, 1), Both(t), amount, Deferred, Unknown)
            == Settlement(Some(Book(Counters(amount, 0, t), DAILY, true, 1)), None, amount, true)
    ensures Emission(Both(t), amount) == map[Total := amount, Day(DayOf(t)) := amount]
  {
    BothMove(amount, t);
    Settles(Book(Counters(0, amount, t), DAILY, true, 1), Both(t), amount, Deferred, Unknown);
  }

  lemma DailyCharge(amount: Micros, t: Instant)
    requires 0 < amount
    ensures Next(Daily(Counters(0, amount, t), t, Entry(KEY, 1, amount, Both(t), Live, map[], map[])),
                 Settle(0, Deferred, Unknown))
            == Daily(Counters(amount, 0, t), t, Ticket(amount, t))
  {
    DailySettles(amount, t);
  }

  /** Any later day's admission attempt forgets the settled day account. */
  lemma DailyPrune(amount: Micros, t: Instant, later: Instant)
    requires 0 < amount && DayOf(t) < DayOf(later)
    ensures Next(Daily(Counters(amount, 0, t), t, Ticket(amount, t)), Today(0, later))
            == Daily(map[Total := Account(Known(amount), Known(0))], later, Ticket(amount, t))
  {
    var b := Book(Counters(amount, 0, t), DAILY, true, 1);
    assert ValidBook(b) && !StaleLimits(b.limits, DAILY);
    assert Prune(b.accounts, At(later)) == map[Total := Account(Known(amount), Known(0))];
    assert Captured(DAILY, At(later)) == Both(later);
    assert Blocked(Prune(b.accounts, At(later)), DAILY, 0, At(later)) == {};
  }

  function Late(amount: Micros, t: Instant, later: Instant): seq<Step> {
    [Today(amount, t), Settle(0, Deferred, Unknown), Today(0, later)]
  }

  /** The ticket is still outstanding and its book is still there, but the day account is gone. */
  lemma LateTicketIsReachable(amount: Micros, t: Instant, later: Instant)
    requires 0 < amount && DayOf(t) < DayOf(later)
    ensures var w := Daily(map[Total := Account(Known(amount), Known(0))], later, Ticket(amount, t));
            Run(Fresh([]), Late(amount, t, later)) == w && Inv(w)
  {
    FreshIsEmpty();
    DailyHold(amount, t);
    DailyCharge(amount, t);
    DailyPrune(amount, t, later);
    ThreeSteps(Empty(), Today(amount, t), Settle(0, Deferred, Unknown), Today(0, later),
               Daily(Counters(0, amount, t), t, Entry(KEY, 1, amount, Both(t), Live, map[], map[])),
               Daily(Counters(amount, 0, t), t, Ticket(amount, t)),
               Daily(map[Total := Account(Known(amount), Known(0))], later, Ticket(amount, t)));
  }

  function Poisoned(amount: Micros, t: Instant): Book {
    Book(map[Total := Account(Known(amount), Known(0)), Day(DayOf(t)) := Account(Unknown, Unknown)], DAILY, true, 1)
  }

  lemma EstimateStored(amount: Micros, t: Instant)
    ensures AdjustBook(Book(map[Total := Account(Known(amount), Known(0))], DAILY, true, 1), Both(t), amount, amount)
            == Adjustment(Some(Poisoned(amount, t)), None, map[], true)
  {
    var a := map[Total := Account(Known(amount), Known(0))];
    var missing := map s | s in Both(t) && s !in a :: Account(Unknown, Unknown);
    assert missing == map[Day(DayOf(t)) := Account(Unknown, Unknown)];
    assert a + missing == Poisoned(amount, t).accounts && Day(DayOf(t)) in a + missing;
  }

  lemma LateEstimate(amount: Micros, t: Instant, later: Instant)
    requires 0 < amount && DayOf(t) < DayOf(later)
    ensures var w := Next(Run(Fresh([]), Late(amount, t, later)), Adjust(0, Known(amount)));
            w.ledger == Ledger(map[KEY := Poisoned(amount, t)], map[], 1, Some(At(later)))
  {
    LateTicketIsReachable(amount, t, later);
    EstimateStored(amount, t);
  }

  /** Adjusted to exactly its estimate it poisons the key: every later admission is refused. */
  lemma LateEstimatePoisons(amount: Micros, t: Instant, later: Instant, p: Policy, candidate: Money, reading: Instant)
    requires 0 < amount && DayOf(t) < DayOf(later) && ValidPolicy(p) && candidate.Known?
    ensures var w := Next(Run(Fresh([]), Late(amount, t, later)), Adjust(0, Known(amount)));
            && KEY in w.ledger.books && !WellFormed(w.ledger.books[KEY])
            && BudgetBook.Reserve(w.ledger, KEY, p, candidate, reading) == (w.ledger, Refused(CorruptState))
  {
    LateEstimate(amount, t, later);
    var l := Ledger(map[KEY := Poisoned(amount, t)], map[], 1, Some(At(later)));
    assert Day(DayOf(t)) in l.books[KEY].accounts;
    assert Store(l.books, KEY, Some(l.books[KEY])) == l.books;
  }

  /** Adjusted to anything less, a refund of the lifetime budget is published that no counter shows. */
  lemma LateRefundIsUntrue(amount: Micros, t: Instant, later: Instant, actual: Micros)
    requires actual < amount && DayOf(t) < DayOf(later)
    ensures var w := Run(Fresh([]), Late(amount, t, later));
            var w' := Next(w, Adjust(0, Known(actual)));
            && !Truthful(w, Adjust(0, Known(actual))) && |w'.history| == |w.history| == 1
            && SpentIn(AccountsOf(w'.ledger, KEY), Total) == SpentIn(AccountsOf(w.ledger, KEY), Total) == amount
            && Owed(w.history[0].revised, Total) == 0 && Owed(w'.history[0].revised, Total) == actual - amount
  {
    LateTicketIsReachable(amount, t, later);
    var w := Daily(map[Total := Account(Known(amount), Known(0))], later, Ticket(amount, t));
    var a, delta := AccountsOf(w.ledger, KEY), actual - amount;
    assert Adjustable(a, Total, delta) && !Adjustable(a, Day(DayOf(t)), delta);
    assert Day(DayOf(t)) in Both(t) && Total in Both(t);
  }
}
