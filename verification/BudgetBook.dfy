/** What the budget limiter promises, over values (internal/limiter/budget.go).
    The three budgets of a key (lifetime, UTC day, UTC month) are one kind of thing here:
    accounts of one book, each named by its scope. The class of BudgetLimiter.dfy keeps them
    in separate fields and maps, as the source does, and is proved to follow these functions. */
module BudgetBook {
  import opened Wrappers
  import opened Money
  import opened Calendar

  type KeyId = string

  /** Days and months are named by their number in the calendar. */
  datatype Scope = Total | Day(day: nat) | Month(month: nat)

  datatype Account = Account(spent: Money, active: Money)

  datatype Policy = Policy(total: Money, limited: bool,
                           day: Money, dayLimited: bool,
                           month: Money, monthLimited: bool)

  const UNLIMITED := Policy(Unknown, false, Unknown, false, Unknown, false)

  predicate ValidPolicy(p: Policy) {
    p.limited == p.total.Known? && p.dayLimited == p.day.Known? && p.monthLimited == p.month.Known?
  }

  predicate SameMoney(a: Money, b: Money) { a.Known? && b.Known? && a == b }

  predicate SamePolicy(p: Policy, q: Policy) {
    && p.limited == q.limited && p.dayLimited == q.dayLimited && p.monthLimited == q.monthLimited
    && (p.limited ==> SameMoney(p.total, q.total))
    && (p.dayLimited ==> SameMoney(p.day, q.day))
    && (p.monthLimited ==> SameMoney(p.month, q.month))
  }

  predicate Unlimited(p: Policy) { !p.limited && !p.dayLimited && !p.monthLimited }

  /** The scopes in which an admission at `now` holds its estimate. */
  function Captured(p: Policy, now: Moment): set<Scope> {
    (if p.limited then {Total} else {})
    + (if p.dayLimited then {Day(now.day)} else {})
    + (if p.monthLimited then {Month(now.month)} else {})
  }

  function Limit(p: Policy, s: Scope): Money {
    match s case Total => p.total case Day(_) => p.day case Month(_) => p.month
  }

  /** One key's book. `limits` are the enforcement fields copied from the last applied policy. */
  datatype Book = Book(accounts: map<Scope, Account>, limits: Policy, totalLoaded: bool, generation: nat)

  const EMPTY_ACCOUNTS: map<Scope, Account> := map[Total := Account(ZERO, ZERO)]

  function SpentIn(a: map<Scope, Account>, s: Scope): Micros {
    if s in a && a[s].spent.Known? then a[s].spent.micros else 0
  }

  function ActiveIn(a: map<Scope, Account>, s: Scope): Micros {
    if s in a && a[s].active.Known? then a[s].active.micros else 0
  }

  function UsedIn(a: map<Scope, Account>, s: Scope): nat { SpentIn(a, s) + ActiveIn(a, s) }

  ghost predicate WellFormed(b: Book) {
    && 0 < b.generation && Total in b.accounts
    && (b.limits.limited ==> b.limits.total.Known?)
    && (b.limits.dayLimited ==> b.limits.day.Known?)
    && (b.limits.monthLimited ==> b.limits.month.Known?)
    && forall s :: s in b.accounts ==> b.accounts[s].spent.Known? && b.accounts[s].active.Known?
  }

  ghost predicate InRange(b: Book) {
    forall s :: s in b.accounts ==> UsedIn(b.accounts, s) <= MAX_MICROS
  }

  /** validateBudgetState: what Reserve and settlement insist on before they touch a book. */
  ghost predicate ValidBook(b: Book) { WellFormed(b) && InRange(b) }

  // ---- Admission ----

  datatype BudgetError =
    | InvalidAdmission
    | PolicyConflict
    | CorruptState
    | Capacity(resetAt: Option<nat>, totalRejected: bool)

  datatype Admission =
    | Refused(error: BudgetError)
    | Unmetered
    | Held(captured: set<Scope>, generation: nat)

  predicate Past(s: Scope, now: Moment) {
    match s
    case Total => false
    case Day(d) => d < now.day
    case Month(m) => m < now.month
  }

  function Prune(a: map<Scope, Account>, now: Moment): map<Scope, Account> {
    map s | s in a && !(Past(s, now) && a[s].active == ZERO) :: a[s]
  }

  function Blocked(a: map<Scope, Account>, p: Policy, candidate: Micros, now: Moment): set<Scope>
    requires ValidPolicy(p)
  {
    set s | s in Captured(p, now) && Limit(p, s).micros < UsedIn(a, s) + candidate
  }

  /** When waiting can help. A blocked lifetime budget never resets. */
  function ResetAt(blocked: set<Scope>, now: Moment): Option<nat> {
    if Total in blocked then None
    else if Month(now.month) in blocked then Some(NextMonth(now))
    else if Day(now.day) in blocked then Some(NextDay(now))
    else None
  }

  function Hold(a: map<Scope, Account>, captured: set<Scope>, amount: Micros): map<Scope, Account>
    requires forall s :: s in captured ==> UsedIn(a, s) + amount <= MAX_MICROS
  {
    a + map s | s in captured ::
          assert UsedIn(a, s) + amount <= MAX_MICROS;
          Account(Known(SpentIn(a, s)), Known(ActiveIn(a, s) + amount))
  }

  /** Keys that were never registered may only repeat the limits their book already enforces. */
  predicate StaleLimits(limits: Policy, p: Policy) {
    || (limits.limited && !(p.limited && SameMoney(limits.total, p.total)))
    || (limits.dayLimited && !(p.dayLimited && SameMoney(limits.day, p.day)))
    || (limits.monthLimited && !(p.monthLimited && SameMoney(limits.month, p.month)))
  }

  /** The book is sound, its limits are not stale, and there is a limit to check. */
  ghost predicate Ready(book: Option<Book>, registered: bool, p: Policy) {
    !Unlimited(p) && (book.Some? ==> ValidBook(book.value) && (registered || !StaleLimits(book.value.limits, p)))
  }

  ghost function Unready(book: Option<Book>, registered: bool, p: Policy): Admission {
    if book.Some? && !ValidBook(book.value) then Refused(CorruptState)
    else if book.Some? && !registered && StaleLimits(book.value.limits, p) then Refused(InvalidAdmission)
    else Unmetered
  }

  function KeptAt(book: Option<Book>, now: Moment): map<Scope, Account> {
    if book.Some? then Prune(book.value.accounts, now) else EMPTY_ACCOUNTS
  }

  function Opened(book: Option<Book>, p: Policy, accounts: map<Scope, Account>, next: nat): Book {
    if book.Some? then Book(accounts, p, p.limited || book.value.totalLoaded, book.value.generation)
    else Book(accounts, p, p.limited, next)
  }

  /** All limited scopes fit, or nothing is held in any of them. */
  function AdmitBook(book: Option<Book>, p: Policy, candidate: Micros, now: Moment, next: nat)
    : (Option<Book>, Admission)
    requires ValidPolicy(p)
  {
    var kept := KeptAt(book, now);
    var pruned := if book.Some? then Some(book.value.(accounts := kept)) else None;
    var blocked := Blocked(kept, p, candidate, now);
    if blocked != {} then (pruned, Refused(Capacity(ResetAt(blocked, now), Total in blocked)))
    else if candidate == 0 then (pruned, Unmetered)
    else
      var captured := Captured(p, now);
      assert forall s :: s in captured ==> s !in blocked;
      var result := Opened(book, p, Hold(kept, captured, candidate), next);
      (Some(result), Held(captured, result.generation))
  }

  ghost function ReserveBook(book: Option<Book>, registered: bool, p: Policy, candidate: Micros, now: Moment, next: nat)
    : (Option<Book>, Admission)
    requires ValidPolicy(p)
  {
    if Ready(book, registered, p) then AdmitBook(book, p, candidate, now, next)
    else (book, Unready(book, registered, p))
  }

  // ---- Settlement ----

  datatype Kind = KnownCost | Conservative | Release | Deferred

  datatype SettleError = StaleState | BrokenHold | InvalidActual | Arithmetic

  /** `charged` counts only when the settlement was `applied`. */
  datatype Settlement = Settlement(book: Option<Book>, error: Option<SettleError>, charged: Micros, applied: bool)

  predicate Chargeable(a: map<Scope, Account>, captured: set<Scope>, charge: Micros) {
    forall s :: s in captured ==> SpentIn(a, s) + charge <= MAX_MICROS
  }

  function Move(a: map<Scope, Account>, captured: set<Scope>, amount: Micros, charge: Micros): map<Scope, Account>
    requires Chargeable(a, captured, charge)
    requires forall s :: s in captured ==> amount <= ActiveIn(a, s)
  {
    a + map s | s in captured :: Account(Known(SpentIn(a, s) + charge), Known(ActiveIn(a, s) - amount))
  }

  /** A book with nothing spent, nothing active and no period account is deleted. */
  function Dropped(b: Book): Option<Book> {
    if b.accounts == EMPTY_ACCOUNTS then None else Some(b)
  }

  function WantedCharge(kind: Kind, amount: Micros, actual: Money): Micros {
    match kind
    case Release => 0
    case KnownCost => if actual.Known? then actual.micros else amount
    case _ => amount
  }

  ghost function SettleBook(b: Book, captured: set<Scope>, amount: Micros, kind: Kind, actual: Money): Settlement
  {
    if !ValidBook(b) then Settlement(Some(b), Some(StaleState), 0, false)
    else if exists s :: s in captured && ActiveIn(b.accounts, s) < amount then
      Settlement(Some(b), Some(BrokenHold), 0, false)
    else
      var wanted := WantedCharge(kind, amount, actual);
      var exact := Chargeable(b.accounts, captured, wanted);
      var charge := if exact then wanted else amount;
      if !Chargeable(b.accounts, captured, charge) then Settlement(Some(b), Some(Arithmetic), 0, false)
      else
        var error := if !exact then Some(Arithmetic)
                     else if kind == KnownCost && actual.Unknown? then Some(InvalidActual) else None;
        Settlement(Dropped(b.(accounts := Move(b.accounts, captured, amount, charge))), error, charge, true)
  }

  // ---- Adjustment of a deferred charge ----

  datatype Adjustment = Adjustment(book: Option<Book>, error: Option<SettleError>, emitted: map<Scope, int>,
                                   applied: bool)

  predicate Adjustable(a: map<Scope, Account>, s: Scope, delta: int) {
    s in a && a[s].spent.Known? && 0 <= a[s].spent.micros + delta <= MAX_MICROS
  }

  function Shift(a: map<Scope, Account>, captured: set<Scope>, delta: int): map<Scope, Account>
    requires forall s :: s in captured ==> Adjustable(a, s, delta)
  {
    a + map s | s in captured ::
          assert Adjustable(a, s, delta);
          a[s].(spent := Known(a[s].spent.micros + delta))
  }

  /** Adjust as the code does it. With a pruned account the code emits without mutating when the
      cost differs from the estimate, and stores an account with unknown counters when it does not. */
  function AdjustBook(b: Book, captured: set<Scope>, reserved: Micros, actual: Micros): Adjustment
    requires Total in b.accounts
  {
    var a := b.accounts;
    var delta := actual - reserved;
    if a[Total].spent.Unknown? || a[Total].active.Unknown? then
      Adjustment(Some(b), Some(StaleState), map[], false)
    else if delta == 0 then
      var touched := a + map s | s in captured && s !in a :: Account(Unknown, Unknown);
      Adjustment(Dropped(b.(accounts := touched)), None, map[], true)
    else if Total in captured && !Adjustable(a, Total, delta) then
      Adjustment(Some(b), Some(Arithmetic), map[], false)
    else
      var emitted := map s | s in captured && Adjustable(a, s, delta) :: delta;
      if forall s :: s in captured ==> Adjustable(a, s, delta) then
        Adjustment(Dropped(b.(accounts := Shift(a, captured, delta))), None, emitted, true)
      else
        Adjustment(Some(b), None, emitted, false)
  }

  // ---- The ledger of all keys ----

  datatype Ledger = Ledger(books: map<KeyId, Book>, policies: map<KeyId, Policy>, sequence: nat,
                           lastNow: Option<Moment>)

  /** A reading before the last one is clamped to it. */
  function Clock(l: Ledger, reading: Instant): Moment {
    if l.lastNow.Some? && reading < l.lastNow.value.at then l.lastNow.value else At(reading)
  }

  function Find<K, V>(m: map<K, V>, k: K): Option<V> { if k in m then Some(m[k]) else None }

  function Store(books: map<KeyId, Book>, key: KeyId, book: Option<Book>): map<KeyId, Book> {
    if book.Some? then books[key := book.value] else books - {key}
  }

  /** Reserve looks at the book only for a well-formed request made under the published policy. */
  predicate Considered(l: Ledger, key: KeyId, p: Policy, candidate: Money) {
    key != "" && candidate.Known? && ValidPolicy(p) && (key in l.policies ==> SamePolicy(l.policies[key], p))
  }

  /** The clock is read only once the book and the policy have been accepted. */
  ghost function ClockRead(l: Ledger, key: KeyId, p: Policy, reading: Instant): Option<Moment> {
    if Ready(Find(l.books, key), key in l.policies, p) then Some(Clock(l, reading)) else None
  }

  function Record(l: Ledger, key: KeyId, now: Option<Moment>, outcome: (Option<Book>, Admission)): Ledger {
    l.(books := Store(l.books, key, outcome.0),
       sequence := if key !in l.books && outcome.1.Held? then l.sequence + 1 else l.sequence,
       lastNow := if now.Some? then now else l.lastNow)
  }

  ghost function Decide(l: Ledger, key: KeyId, p: Policy, candidate: Money, reading: Instant): (Option<Book>, Admission)
    requires Considered(l, key, p, candidate)
  {
    ReserveBook(Find(l.books, key), key in l.policies, p, candidate.micros, Clock(l, reading), l.sequence + 1)
  }

  ghost function Reserve(l: Ledger, key: KeyId, p: Policy, candidate: Money, reading: Instant): (Ledger, Admission) {
    if !Considered(l, key, p, candidate) then
      (l, Refused(if key == "" || candidate.Unknown? || !ValidPolicy(p) then InvalidAdmission else PolicyConflict))
    else
      var outcome := Decide(l, key, p, candidate, reading);
      (Record(l, key, ClockRead(l, key, p, reading), outcome), outcome.1)
  }

  datatype Settled = Settled(ledger: Ledger, error: Option<SettleError>, charged: Micros, applied: bool)

  /** Settles against the book of the reservation's generation, or not at all. */
  ghost function Settle(l: Ledger, key: KeyId, generation: nat, captured: set<Scope>, amount: Micros, kind: Kind,
                        actual: Money)
    : Settled
  {
    if key in l.books && l.books[key].generation == generation then
      var r := SettleBook(l.books[key], captured, amount, kind, actual);
      Settled(l.(books := Store(l.books, key, r.book)), r.error, r.charged, r.applied)
    else Settled(l, Some(StaleState), 0, false)
  }

  datatype Adjusted = Adjusted(ledger: Ledger, error: Option<SettleError>, emitted: map<Scope, int>)

  ghost function Adjust(l: Ledger, key: KeyId, generation: nat, captured: set<Scope>, reserved: Micros, actual: Micros)
    : (r: Adjusted)
    ensures r.error != None ==> r.ledger == l && r.emitted == map[]
  {
    assert forall key :: key in l.books ==> Store(l.books, key, Some(l.books[key])) == l.books;
    if key in l.books && l.books[key].generation == generation && Total in l.books[key].accounts then
      var r := AdjustBook(l.books[key], captured, reserved, actual);
      Adjusted(l.(books := Store(l.books, key, r.book)), r.error, r.emitted)
    else Adjusted(l, Some(StaleState), map[])
  }

  predicate Replaceable(l: Ledger, key: KeyId, expected: Policy, p: Policy) {
    && key != "" && ValidPolicy(expected) && ValidPolicy(p)
    && (key in l.policies ==> SamePolicy(l.policies[key], expected))
  }

  /** The policy commit point: published policy and the enforcement fields change together. */
  function Publish(l: Ledger, key: KeyId, p: Policy): Ledger {
    l.(policies := l.policies[key := p],
       books := if key in l.books
                then l.books[key := l.books[key].(limits := p, totalLoaded := l.books[key].totalLoaded || p.limited)]
                else l.books)
  }

  // ---- Loading committed spend before serving ----

  datatype SpentRow = SpentRow(key: KeyId, scope: Scope, spent: Money)

  const EMPTY_LEDGER := Ledger(map[], map[], 0, None)

  predicate SameTarget(a: SpentRow, b: SpentRow) { a.key == b.key && a.scope == b.scope }

  predicate ValidRows(rows: seq<SpentRow>) {
    && (forall i :: 0 <= i < |rows| ==> rows[i].key != "" && rows[i].spent.Known?)
    && (forall i, j :: 0 <= i < j < |rows| ==> !SameTarget(rows[i], rows[j]))
  }

  predicate AlreadyLoaded(l: Ledger, row: SpentRow) {
    row.key in l.books
    && if row.scope == Total then l.books[row.key].totalLoaded else row.scope in l.books[row.key].accounts
  }

  ghost predicate Sound(l: Ledger) { forall k :: k in l.books ==> k != "" && ValidBook(l.books[k]) }

  function LoadedBook(b: Book, scope: Scope, spent: Money): Book {
    var active := if scope in b.accounts && scope == Total then b.accounts[scope].active else ZERO;
    b.(accounts := b.accounts[scope := Account(spent, active)], totalLoaded := b.totalLoaded || scope == Total)
  }

  /** Rows of zero spend create nothing. */
  function LoadRow(l: Ledger, row: SpentRow): Ledger {
    if row.spent == ZERO then l
    else if row.key in l.books then
      l.(books := l.books[row.key := LoadedBook(l.books[row.key], row.scope, row.spent)])
    else
      l.(books := l.books[row.key := LoadedBook(Book(EMPTY_ACCOUNTS, UNLIMITED, false, l.sequence + 1), row.scope,
                                                row.spent)],
         sequence := l.sequence + 1)
  }

  function LoadRows(l: Ledger, rows: seq<SpentRow>): Ledger {
    if rows == [] then l else LoadRow(LoadRows(l, rows[..|rows| - 1]), rows[|rows| - 1])
  }

  /** Strict and atomic: either every row is loaded or nothing changes. */
  ghost function Load(l: Ledger, rows: seq<SpentRow>): Result<Ledger, BudgetError> {
    if !ValidRows(rows) then Err(InvalidAdmission)
    else if !Sound(l) then Err(CorruptState)
    else if exists i :: 0 <= i < |rows| && AlreadyLoaded(l, rows[i]) then Err(InvalidAdmission)
    else Ok(LoadRows(l, rows))
  }
}
