/** The budget limiter as the source keeps it: one record per key, with the lifetime counters in
    fields and the day and month counters in maps, updated in place under locks
    (internal/limiter/budget.go). Days and months are keyed by their calendar number instead of
    their start time. */
module BudgetLimiter {
  import opened Wrappers
  import opened Money
  import opened Calendar
  import opened BudgetBook

  datatype BudgetState = BudgetState(spent: Money, active: Money,
                                     dayBuckets: map<nat, Account>, monthBuckets: map<nat, Account>,
                                     limits: Policy, totalLoaded: bool, generation: nat)

  function DayName(d: nat): Scope { Day(d) }

  function MonthName(m: nat): Scope { Month(m) }

  ghost predicate Periods(buckets: map<nat, Account>, a: map<Scope, Account>, name: nat -> Scope) {
    forall p :: (name(p) in a <==> p in buckets) && (p in buckets ==> a[name(p)] == buckets[p])
  }

  /** The accounts a record stands for. */
  ghost predicate Represents(st: BudgetState, a: map<Scope, Account>) {
    && Total in a && a[Total] == Account(st.spent, st.active)
    && Periods(st.dayBuckets, a, DayName) && Periods(st.monthBuckets, a, MonthName)
  }

  ghost predicate StandsFor(st: BudgetState, b: Book) {
    && Represents(st, b.accounts) && b.limits == st.limits && b.totalLoaded == st.totalLoaded
    && b.generation == st.generation
  }

  predicate KnownInRange(a: Account) { a.spent.Known? && a.active.Known? && Add(a.spent, a.active).Ok? }

  /** validateBudgetState. */
  predicate ValidState(st: BudgetState) {
    && st.generation != 0 && KnownInRange(Account(st.spent, st.active))
    && (st.limits.limited ==> st.limits.total.Known?)
    && (st.limits.dayLimited ==> st.limits.day.Known?)
    && (st.limits.monthLimited ==> st.limits.month.Known?)
    && (forall d :: d in st.dayBuckets ==> KnownInRange(st.dayBuckets[d]))
    && (forall m :: m in st.monthBuckets ==> KnownInRange(st.monthBuckets[m]))
  }

  lemma ValidStateIff(st: BudgetState, b: Book)
    requires StandsFor(st, b)
    ensures ValidState(st) <==> ValidBook(b)
  {
    if ValidBook(b) {
      assert UsedIn(b.accounts, Total) <= MAX_MICROS;
      forall d | d in st.dayBuckets ensures KnownInRange(st.dayBuckets[d]) {
        assert Day(d) in b.accounts && UsedIn(b.accounts, Day(d)) <= MAX_MICROS;
      }
      forall m | m in st.monthBuckets ensures KnownInRange(st.monthBuckets[m]) {
        assert Month(m) in b.accounts && UsedIn(b.accounts, Month(m)) <= MAX_MICROS;
      }
    } else if ValidState(st) {
      forall s | s in b.accounts
        ensures b.accounts[s].spent.Known? && b.accounts[s].active.Known? && UsedIn(b.accounts, s) <= MAX_MICROS
      {
        match s
        case Total =>
        case Day(d) => assert DayName(d) == s;
        case Month(m) => assert MonthName(m) == s;
      }
    }
  }

  /** Subtracts what is used from the limit and compares the candidate with the rest. */
  predicate RejectedBy(limit: Money, account: Account, candidate: Money)
    requires limit.Known? && candidate.Known? && KnownInRange(account)
  {
    var remaining := Subtract(limit, Add(account.spent, account.active).value);
    remaining.Err? || remaining.value.micros < candidate.micros
  }

  function Read(buckets: map<nat, Account>, p: nat): Account {
    if p in buckets then buckets[p] else Account(ZERO, ZERO)
  }

  function PrunedBuckets(buckets: map<nat, Account>, current: nat): map<nat, Account> {
    map p | p in buckets && !(p < current && buckets[p].active == ZERO) :: buckets[p]
  }

  /** Forgets the periods before the current one in which nothing is active. */
  method PruneBuckets(buckets: map<nat, Account>, current: nat) returns (kept: map<nat, Account>)
    ensures kept == PrunedBuckets(buckets, current)
  {
    kept := buckets;
    var left := buckets.Keys;
    while left != {}
      invariant left <= buckets.Keys
      invariant kept.Keys <= buckets.Keys && forall p :: p in kept ==> kept[p] == buckets[p]
      invariant forall p :: p in left ==> p in kept
      invariant forall p :: p in buckets && p !in left ==>
                              (p in kept <==> !(p < current && buckets[p].active == ZERO))
      decreases left
    {
      var p :| p in left;
      left := left - {p};
      if p < current && buckets[p].active == ZERO {
        kept := kept - {p};
      }
    }
  }

  function PrunedState(st: BudgetState, now: Moment): BudgetState {
    st.(dayBuckets := PrunedBuckets(st.dayBuckets, now.day), monthBuckets := PrunedBuckets(st.monthBuckets, now.month))
  }

  lemma PruneMatches(st: BudgetState, a: map<Scope, Account>, now: Moment)
    requires Represents(st, a)
    ensures Represents(PrunedState(st, now), Prune(a, now))
    ensures ValidState(st) ==> ValidState(PrunedState(st, now))
  {
  }

  lemma BlockedAt(a: map<Scope, Account>, p: Policy, candidate: Micros, now: Moment)
    requires ValidPolicy(p)
    ensures var blocked := Blocked(a, p, candidate, now);
            && (Total in blocked <==> p.limited && p.total.micros < UsedIn(a, Total) + candidate)
            && (Day(now.day) in blocked <==> p.dayLimited && p.day.micros < UsedIn(a, Day(now.day)) + candidate)
            && (Month(now.month) in blocked
                <==> p.monthLimited && p.month.micros < UsedIn(a, Month(now.month)) + candidate)
            && (blocked == {} <==> Total !in blocked && Day(now.day) !in blocked && Month(now.month) !in blocked)
  {
  }

  /** Subtracting and comparing decides exactly whether the sum exceeds the limit. */
  lemma RejectedIff(limit: Money, account: Account, candidate: Money)
    requires limit.Known? && candidate.Known? && KnownInRange(account)
    ensures RejectedBy(limit, account, candidate)
            <==> limit.micros < account.spent.micros + account.active.micros + candidate.micros
  {
  }

  /** Reading a bucket, or zero when there is none, reads the account. */
  lemma ReadsMatch(st: BudgetState, a: map<Scope, Account>, now: Moment)
    requires ValidState(st) && Represents(st, a)
    ensures KnownInRange(Read(st.dayBuckets, now.day)) && KnownInRange(Read(st.monthBuckets, now.month))
    ensures st.spent == Known(SpentIn(a, Total)) && st.active == Known(ActiveIn(a, Total))
    ensures Read(st.dayBuckets, now.day) == Account(Known(SpentIn(a, Day(now.day))), Known(ActiveIn(a, Day(now.day))))
    ensures Read(st.monthBuckets, now.month)
            == Account(Known(SpentIn(a, Month(now.month))), Known(ActiveIn(a, Month(now.month))))
  {
  }

  /** Which budgets reject the candidate. */
  method CheckLimits(st: BudgetState, ghost a: map<Scope, Account>, p: Policy, candidate: Money, now: Moment)
    returns (total: bool, day: bool, month: bool)
    requires ValidState(st) && Represents(st, a) && ValidPolicy(p) && candidate.Known?
    ensures var blocked := Blocked(a, p, candidate.micros, now);
            && (total <==> Total in blocked) && (day <==> Day(now.day) in blocked)
               && (month <==> Month(now.month) in blocked)
            && (blocked == {} <==> !total && !day && !month)
  {
    ReadsMatch(st, a, now);
    BlockedAt(a, p, candidate.micros, now);
    total, day, month := false, false, false;
    if p.limited {
      RejectedIff(p.total, Account(st.spent, st.active), candidate);
      total := RejectedBy(p.total, Account(st.spent, st.active), candidate);
    }
    if p.dayLimited {
      RejectedIff(p.day, Read(st.dayBuckets, now.day), candidate);
      day := RejectedBy(p.day, Read(st.dayBuckets, now.day), candidate);
    }
    if p.monthLimited {
      RejectedIff(p.month, Read(st.monthBuckets, now.month), candidate);
      month := RejectedBy(p.month, Read(st.monthBuckets, now.month), candidate);
    }
  }

  lemma NotBlockedFits(a: map<Scope, Account>, p: Policy, candidate: Micros, now: Moment)
    requires ValidPolicy(p) && Blocked(a, p, candidate, now) == {}
    ensures forall s :: s in Captured(p, now) ==> UsedIn(a, s) + candidate <= MAX_MICROS
  {
    forall s | s in Captured(p, now) ensures UsedIn(a, s) + candidate <= MAX_MICROS {
      assert s !in Blocked(a, p, candidate, now);
    }
  }

  function Raised(account: Account, candidate: Money): Account
    requires account.active.Known? && candidate.Known? && Add(account.active, candidate).Ok?
  {
    Account(account.spent, Add(account.active, candidate).value)
  }

  lemma HeldMatches(a: map<Scope, Account>, captured: set<Scope>, candidate: Money, s: Scope, account: Account)
    requires candidate.Known? && s in captured && account == Account(Known(SpentIn(a, s)), Known(ActiveIn(a, s)))
    requires forall t :: t in captured ==> UsedIn(a, t) + candidate.micros <= MAX_MICROS
    ensures Add(account.active, candidate).Ok?
    ensures Hold(a, captured, candidate.micros)[s] == Raised(account, candidate)
  {
    assert UsedIn(a, s) + candidate.micros <= MAX_MICROS;
  }

  lemma HoldOnlyCaptured(a: map<Scope, Account>, captured: set<Scope>, amount: Micros)
    requires forall t :: t in captured ==> UsedIn(a, t) + amount <= MAX_MICROS
    ensures OnlyCaptured(a, Hold(a, captured, amount), captured)
  {
  }

  /** Replacing one bucket replaces the one account of that kind that was captured. */
  lemma UpdatePeriods(buckets: map<nat, Account>, a: map<Scope, Account>, a': map<Scope, Account>, captured: set<Scope>,
                      name: nat -> Scope, target: Option<nat>, account: Account)
    requires Periods(buckets, a, name)
    requires forall p: nat :: name(p) in captured <==> target == Some(p)
    requires OnlyCaptured(a, a', captured)
    requires target.Some? ==> a'[name(target.value)] == account
    ensures Periods(if target.Some? then buckets[target.value := account] else buckets, a', name)
  {
  }

  /** The budgets a reservation holds in: the flags and starts kept by its owner. */
  datatype Capture = Capture(total: bool, day: Option<nat>, month: Option<nat>)

  function ScopesOf(c: Capture): set<Scope> {
    (if c.total then {Total} else {})
    + (if c.day.Some? then {Day(c.day.value)} else {})
    + (if c.month.Some? then {Month(c.month.value)} else {})
  }

  function CaptureOf(p: Policy, now: Moment): Capture {
    Capture(p.limited, if p.dayLimited then Some(now.day) else None, if p.monthLimited then Some(now.month) else None)
  }

  lemma CaptureMatches(p: Policy, now: Moment)
    ensures ScopesOf(CaptureOf(p, now)) == Captured(p, now)
    ensures Total in Captured(p, now) <==> p.limited
    ensures Day(now.day) in Captured(p, now) <==> p.dayLimited
    ensures Month(now.month) in Captured(p, now) <==> p.monthLimited
  {
  }

  lemma CaptureNames(c: Capture)
    ensures Total in ScopesOf(c) <==> c.total
    ensures forall d: nat :: DayName(d) in ScopesOf(c) <==> c.day == Some(d)
    ensures forall m: nat :: MonthName(m) in ScopesOf(c) <==> c.month == Some(m)
  {
  }

  /** From `a` to `a'` only captured accounts changed or appeared. */
  ghost predicate OnlyCaptured(a: map<Scope, Account>, a': map<Scope, Account>, captured: set<Scope>) {
    forall s :: (s in a' <==> s in a || s in captured) && (s in a && s !in captured ==> a'[s] == a[s])
  }

  /** The record with new counters in the captured budgets. */
  function Rewrite(st: BudgetState, c: Capture, total: Account, day: Account, month: Account): BudgetState {
    st.(spent := if c.total then total.spent else st.spent,
        active := if c.total then total.active else st.active,
        dayBuckets := if c.day.Some? then st.dayBuckets[c.day.value := day] else st.dayBuckets,
        monthBuckets := if c.month.Some? then st.monthBuckets[c.month.value := month] else st.monthBuckets)
  }

  lemma Rewritten(st: BudgetState, a: map<Scope, Account>, c: Capture, a': map<Scope, Account>,
                  total: Account, day: Account, month: Account)
    requires Represents(st, a) && OnlyCaptured(a, a', ScopesOf(c))
    requires c.total ==> Total in a' && a'[Total] == total
    requires c.day.Some? ==> Day(c.day.value) in a' && a'[Day(c.day.value)] == day
    requires c.month.Some? ==> Month(c.month.value) in a' && a'[Month(c.month.value)] == month
    ensures Represents(Rewrite(st, c, total, day, month), a')
  {
    CaptureNames(c);
    UpdatePeriods(st.dayBuckets, a, a', ScopesOf(c), DayName, c.day, day);
    UpdatePeriods(st.monthBuckets, a, a', ScopesOf(c), MonthName, c.month, month);
  }

  /** Adds the candidate to the active amount of every budget the policy limits. */
  method HoldCandidate(st: BudgetState, ghost a: map<Scope, Account>, p: Policy, candidate: Money, now: Moment)
    returns (held: BudgetState)
    requires ValidState(st) && Represents(st, a) && ValidPolicy(p) && candidate.Known?
    requires forall s :: s in Captured(p, now) ==> UsedIn(a, s) + candidate.micros <= MAX_MICROS
    ensures Represents(held, Hold(a, Captured(p, now), candidate.micros))
    ensures held.limits == p && held.totalLoaded == (st.totalLoaded || p.limited) && held.generation == st.generation
  {
    ghost var c := CaptureOf(p, now);
    ghost var a' := Hold(a, Captured(p, now), candidate.micros);
    CaptureMatches(p, now);
    HoldOnlyCaptured(a, Captured(p, now), candidate.micros);
    ReadsMatch(st, a, now);
    var total, day, month := Account(st.spent, st.active), Read(st.dayBuckets, now.day),
        Read(st.monthBuckets, now.month);
    if p.limited {
      HeldMatches(a, Captured(p, now), candidate, Total, total);
      total := Raised(total, candidate);
    }
    if p.dayLimited {
      HeldMatches(a, Captured(p, now), candidate, Day(now.day), day);
      day := Raised(day, candidate);
    }
    if p.monthLimited {
      HeldMatches(a, Captured(p, now), candidate, Month(now.month), month);
      month := Raised(month, candidate);
    }
    Rewritten(st, a, c, a', total, day, month);
    held := Rewrite(st, CaptureOf(p, now), total, day, month).(limits := p, totalLoaded := st.totalLoaded || p.limited);
  }

  // ---- Settlement of one record ----

  /** The bucket the owner captured; a month that is gone reads as unknown counters, a day as zero. */
  function CapturedDay(st: BudgetState, c: Capture): Account {
    if c.day.Some? then Read(st.dayBuckets, c.day.value) else Account(ZERO, ZERO)
  }

  function CapturedMonth(st: BudgetState, c: Capture): Account {
    if c.month.None? then Account(ZERO, ZERO)
    else if c.month.value in st.monthBuckets then st.monthBuckets[c.month.value]
    else Account(Unknown, Unknown)
  }

  predicate Releases(account: Account, amount: Micros) {
    var released := Subtract(account.active, Known(amount));
    released.Ok? && released.value.Known?
  }

  predicate Accepts(account: Account, charge: Micros) {
    var charged := Add(account.spent, Known(charge));
    charged.Ok? && charged.value.Known?
  }

  function Moved(account: Account, amount: Micros, charge: Micros): Account
    requires Releases(account, amount) && Accepts(account, charge)
  {
    Account(Add(account.spent, Known(charge)).value, Subtract(account.active, Known(amount)).value)
  }

  /** The captured accounts, read through the record. */
  ghost predicate CapturedReads(a: map<Scope, Account>, s: Scope, account: Account) {
    && SpentIn(a, s) == (if account.spent.Known? then account.spent.micros else 0)
    && ActiveIn(a, s) == (if account.active.Known? then account.active.micros else 0)
    && (account.spent.Known? <==> account.active.Known?)
    && (account.active.Known? && account.active.micros > 0 ==> s in a)
    && UsedIn(a, s) <= MAX_MICROS
  }

  lemma CapturedReadsHold(st: BudgetState, a: map<Scope, Account>, c: Capture)
    requires ValidState(st) && Represents(st, a)
    ensures CapturedReads(a, Total, Account(st.spent, st.active))
    ensures c.day.Some? ==> CapturedReads(a, Day(c.day.value), CapturedDay(st, c))
    ensures c.month.Some? ==> CapturedReads(a, Month(c.month.value), CapturedMonth(st, c))
  {
    if c.day.Some? { assert DayName(c.day.value) == Day(c.day.value); }
    if c.month.Some? { assert MonthName(c.month.value) == Month(c.month.value); }
  }

  lemma ScopeCases(c: Capture, s: Scope)
    requires s in ScopesOf(c)
    ensures (c.total && s == Total) || (c.day.Some? && s == Day(c.day.value))
            || (c.month.Some? && s == Month(c.month.value))
  {
  }

  predicate AllRelease(st: BudgetState, c: Capture, amount: Micros) {
    && (c.total ==> Releases(Account(st.spent, st.active), amount))
    && (c.day.Some? ==> Releases(CapturedDay(st, c), amount))
    && (c.month.Some? ==> Releases(CapturedMonth(st, c), amount))
  }

  predicate AllAccept(st: BudgetState, c: Capture, charge: Micros) {
    && (c.total ==> Accepts(Account(st.spent, st.active), charge))
    && (c.day.Some? ==> Accepts(CapturedDay(st, c), charge))
    && (c.month.Some? ==> Accepts(CapturedMonth(st, c), charge))
  }

  lemma AllReleaseIff(st: BudgetState, a: map<Scope, Account>, c: Capture, amount: Micros)
    requires ValidState(st) && Represents(st, a) && 0 < amount
    ensures AllRelease(st, c, amount) <==> forall s :: s in ScopesOf(c) ==> amount <= ActiveIn(a, s)
  {
    CapturedReadsHold(st, a, c);
    CaptureNames(c);
    if AllRelease(st, c, amount) {
      forall s | s in ScopesOf(c) ensures amount <= ActiveIn(a, s) { ScopeCases(c, s); }
    }
  }

  lemma AllAcceptIff(st: BudgetState, a: map<Scope, Account>, c: Capture, amount: Micros, charge: Micros)
    requires ValidState(st) && Represents(st, a) && 0 < amount && AllRelease(st, c, amount)
    ensures AllAccept(st, c, charge) <==> Chargeable(a, ScopesOf(c), charge)
    ensures AllAccept(st, c, amount)
  {
    CapturedReadsHold(st, a, c);
    CaptureNames(c);
    if AllAccept(st, c, charge) {
      forall s | s in ScopesOf(c) ensures SpentIn(a, s) + charge <= MAX_MICROS { ScopeCases(c, s); }
    }
  }

  lemma MovedMatches(a: map<Scope, Account>, captured: set<Scope>, amount: Micros, charge: Micros, s: Scope,
                     account: Account)
    requires s in captured && Chargeable(a, captured, charge) && CapturedReads(a, s, account)
    requires forall t :: t in captured ==> amount <= ActiveIn(a, t)
    requires Releases(account, amount) && Accepts(account, charge)
    ensures Move(a, captured, amount, charge)[s] == Moved(account, amount, charge)
  {
    assert amount <= ActiveIn(a, s);
  }

  lemma MoveOnlyCaptured(a: map<Scope, Account>, captured: set<Scope>, amount: Micros, charge: Micros)
    requires Chargeable(a, captured, charge) && forall t :: t in captured ==> amount <= ActiveIn(a, t)
    ensures OnlyCaptured(a, Move(a, captured, amount, charge), captured)
  {
  }

  /** The charge of a settlement: nothing for a release, the actual cost if it is known and fits in every
      captured budget, the estimate otherwise. */
  method ChooseCharge(st: BudgetState, ghost a: map<Scope, Account>, c: Capture, amount: Micros, kind: Kind,
                      actual: Money)
    returns (charged: Micros, error: Option<SettleError>)
    requires ValidState(st) && Represents(st, a) && 0 < amount && AllRelease(st, c, amount)
    ensures var wanted := WantedCharge(kind, amount, actual);
            var exact := Chargeable(a, ScopesOf(c), wanted);
            && charged == (if exact then wanted else amount)
            && error == if !exact then Some(Arithmetic)
                        else if kind == KnownCost && actual.Unknown? then Some(InvalidActual) else None
    ensures AllAccept(st, c, charged) && Chargeable(a, ScopesOf(c), charged)
  {
    error := None;
    charged := amount;
    if kind == Release {
      charged := 0;
    } else if kind == KnownCost && actual.Known? {
      charged := actual.micros;
    } else if kind == KnownCost {
      error := Some(InvalidActual);
    }
    AllAcceptIff(st, a, c, amount, charged);
    if !AllAccept(st, c, charged) {
      charged, error := amount, Some(Arithmetic);
      AllAcceptIff(st, a, c, amount, charged);
    }
  }

  /** Releases the hold and adds the charge in every captured budget. */
  method MoveState(st: BudgetState, ghost a: map<Scope, Account>, c: Capture, amount: Micros, charge: Micros)
    returns (after: BudgetState)
    requires ValidState(st) && Represents(st, a) && AllRelease(st, c, amount) && AllAccept(st, c, charge)
    requires Chargeable(a, ScopesOf(c), charge) && forall s :: s in ScopesOf(c) ==> amount <= ActiveIn(a, s)
    ensures Represents(after, Move(a, ScopesOf(c), amount, charge))
    ensures after.limits == st.limits && after.totalLoaded == st.totalLoaded && after.generation == st.generation
  {
    CapturedReadsHold(st, a, c);
    CaptureNames(c);
    var total, day, month := Account(st.spent, st.active), CapturedDay(st, c), CapturedMonth(st, c);
    if c.total {
      MovedMatches(a, ScopesOf(c), amount, charge, Total, total);
      total := Moved(total, amount, charge);
    }
    if c.day.Some? {
      MovedMatches(a, ScopesOf(c), amount, charge, DayName(c.day.value), day);
      day := Moved(day, amount, charge);
    }
    if c.month.Some? {
      MovedMatches(a, ScopesOf(c), amount, charge, MonthName(c.month.value), month);
      month := Moved(month, amount, charge);
    }
    MoveOnlyCaptured(a, ScopesOf(c), amount, charge);
    Rewritten(st, a, c, Move(a, ScopesOf(c), amount, charge), total, day, month);
    after := Rewrite(st, c, total, day, month);
  }

  // ---- Adjustment of one record ----

  /** A missing bucket reads as unknown counters. */
  function RawRead(buckets: map<nat, Account>, p: Option<nat>): Account {
    if p.Some? && p.value in buckets then buckets[p.value] else Account(Unknown, Unknown)
  }

  /** The checked change of a spent counter: the code adds an increase or subtracts a refund. */
  function Changed(spent: Money, delta: int): Money
    requires -MAX_MICROS <= delta <= MAX_MICROS
  {
    var changed := if delta >= 0 then Add(spent, Known(delta)) else Subtract(spent, Known(-delta));
    if changed.Ok? then changed.value else Unknown
  }

  lemma ChangedIff(a: map<Scope, Account>, s: Scope, account: Account, delta: int)
    requires -MAX_MICROS <= delta <= MAX_MICROS
    requires if s in a then account == a[s] else account == Account(Unknown, Unknown)
    ensures Changed(account.spent, delta).Known? <==> Adjustable(a, s, delta)
    ensures Adjustable(a, s, delta) ==> Changed(account.spent, delta) == Known(a[s].spent.micros + delta)
  {
  }

  lemma RawReadMatches(st: BudgetState, a: map<Scope, Account>, c: Capture)
    requires Represents(st, a)
    ensures c.day.Some? ==> RawRead(st.dayBuckets, c.day) == if Day(c.day.value) in a then a[Day(c.day.value)]
            else Account(Unknown, Unknown)
    ensures c.month.Some? ==>
              RawRead(st.monthBuckets, c.month) == if Month(c.month.value) in a then a[Month(c.month.value)]
                else Account(Unknown, Unknown)
  {
    if c.day.Some? { assert DayName(c.day.value) == Day(c.day.value); }
    if c.month.Some? { assert MonthName(c.month.value) == Month(c.month.value); }
  }

  /** Which captured accounts an adjustment can change, and what it publishes for each. */
  lemma AllAdjustableIff(st: BudgetState, a: map<Scope, Account>, c: Capture, delta: int)
    requires Represents(st, a) && -MAX_MICROS <= delta <= MAX_MICROS
    ensures c.total ==> (Changed(st.spent, delta).Known? <==> Adjustable(a, Total, delta))
    ensures c.day.Some? ==> (Changed(RawRead(st.dayBuckets, c.day).spent, delta).Known?
                             <==> Adjustable(a, Day(c.day.value), delta))
    ensures c.month.Some? ==> (Changed(RawRead(st.monthBuckets, c.month).spent, delta).Known?
                               <==> Adjustable(a, Month(c.month.value), delta))
    ensures (forall s :: s in ScopesOf(c) ==> Adjustable(a, s, delta))
            <==> && (c.total ==> Adjustable(a, Total, delta))
                 && (c.day.Some? ==> Adjustable(a, Day(c.day.value), delta))
                 && (c.month.Some? ==> Adjustable(a, Month(c.month.value), delta))
  {
    RawReadMatches(st, a, c);
    ChangedIff(a, Total, Account(st.spent, st.active), delta);
    if c.day.Some? { ChangedIff(a, Day(c.day.value), RawRead(st.dayBuckets, c.day), delta); }
    if c.month.Some? { ChangedIff(a, Month(c.month.value), RawRead(st.monthBuckets, c.month), delta); }
    CaptureNames(c);
    if c.day.Some? { assert DayName(c.day.value) in ScopesOf(c); }
    if c.month.Some? { assert MonthName(c.month.value) in ScopesOf(c); }
    forall s | s in ScopesOf(c)
      ensures s == Total || (c.day.Some? && s == Day(c.day.value)) || (c.month.Some? && s == Month(c.month.value))
    {
      ScopeCases(c, s);
    }
  }

  /** What Adjust does when the actual cost is the estimate: every captured bucket is written back as it
      was read, so a bucket that is gone comes back with unknown counters. */
  method TouchState(st: BudgetState, ghost a: map<Scope, Account>, c: Capture) returns (after: BudgetState)
    requires Represents(st, a)
    ensures Represents(after, a + map s | s in ScopesOf(c) && s !in a :: Account(Unknown, Unknown))
    ensures after.limits == st.limits && after.totalLoaded == st.totalLoaded && after.generation == st.generation
  {
    ghost var touched := a + map s | s in ScopesOf(c) && s !in a :: Account(Unknown, Unknown);
    CaptureNames(c);
    RawReadMatches(st, a, c);
    if c.day.Some? { assert DayName(c.day.value) in ScopesOf(c); }
    if c.month.Some? { assert MonthName(c.month.value) in ScopesOf(c); }
    assert OnlyCaptured(a, touched, ScopesOf(c));
    var total, day, month := Account(st.spent, st.active), RawRead(st.dayBuckets, c.day),
        RawRead(st.monthBuckets, c.month);
    Rewritten(st, a, c, touched, total, day, month);
    after := Rewrite(st, c, total, day, month);
  }

  lemma ShiftMatches(a: map<Scope, Account>, captured: set<Scope>, delta: int, s: Scope)
    requires -MAX_MICROS <= delta <= MAX_MICROS && (forall t :: t in captured ==> Adjustable(a, t, delta))
             && s in captured
    ensures s in a && Shift(a, captured, delta)[s] == Account(Changed(a[s].spent, delta), a[s].active)
  {
    assert Adjustable(a, s, delta);
  }

  lemma ShiftOnlyCaptured(a: map<Scope, Account>, captured: set<Scope>, delta: int)
    requires forall t :: t in captured ==> Adjustable(a, t, delta)
    ensures OnlyCaptured(a, Shift(a, captured, delta), captured)
  {
    forall s | s in captured ensures s in a { assert Adjustable(a, s, delta); }
  }

  /** Changes the spent counter of every captured budget. */
  method ShiftState(st: BudgetState, ghost a: map<Scope, Account>, c: Capture, delta: int) returns (after: BudgetState)
    requires Represents(st, a) && -MAX_MICROS <= delta <= MAX_MICROS
    requires forall s :: s in ScopesOf(c) ==> Adjustable(a, s, delta)
    ensures Represents(after, Shift(a, ScopesOf(c), delta))
    ensures after.limits == st.limits && after.totalLoaded == st.totalLoaded && after.generation == st.generation
  {
    CaptureNames(c);
    RawReadMatches(st, a, c);
    var total, day, month := Account(st.spent, st.active), RawRead(st.dayBuckets, c.day),
        RawRead(st.monthBuckets, c.month);
    if c.total {
      ShiftMatches(a, ScopesOf(c), delta, Total);
      total := total.(spent := Changed(total.spent, delta));
    }
    if c.day.Some? {
      ShiftMatches(a, ScopesOf(c), delta, DayName(c.day.value));
      day := day.(spent := Changed(day.spent, delta));
    }
    if c.month.Some? {
      ShiftMatches(a, ScopesOf(c), delta, MonthName(c.month.value));
      month := month.(spent := Changed(month.spent, delta));
    }
    ShiftOnlyCaptured(a, ScopesOf(c), delta);
    Rewritten(st, a, c, Shift(a, ScopesOf(c), delta), total, day, month);
    after := Rewrite(st, c, total, day, month);
  }

  /** The deltas of the captured budgets that accept the change. */
  method EmitDeltas(st: BudgetState, ghost a: map<Scope, Account>, c: Capture, delta: int)
    returns (emitted: map<Scope, int>, complete: bool)
    requires Represents(st, a) && -MAX_MICROS <= delta <= MAX_MICROS && (c.total ==> Adjustable(a, Total, delta))
    ensures emitted == map s | s in ScopesOf(c) && Adjustable(a, s, delta) :: delta
    ensures complete <==> forall s :: s in ScopesOf(c) ==> Adjustable(a, s, delta)
  {
    AllAdjustableIff(st, a, c, delta);
    CaptureNames(c);
    emitted, complete := map[], true;
    if c.total { emitted := emitted[Total := delta]; }
    if c.day.Some? {
      assert DayName(c.day.value) in ScopesOf(c);
      if Changed(RawRead(st.dayBuckets, c.day).spent, delta).Known? {
        emitted := emitted[Day(c.day.value) := delta];
      } else {
        complete := false;
      }
    }
    if c.month.Some? {
      assert MonthName(c.month.value) in ScopesOf(c);
      if Changed(RawRead(st.monthBuckets, c.month).spent, delta).Known? {
        emitted := emitted[Month(c.month.value) := delta];
      } else {
        complete := false;
      }
    }
    forall s | s in ScopesOf(c)
      ensures s == Total || (c.day.Some? && s == Day(c.day.value)) || (c.month.Some? && s == Month(c.month.value))
    {
      ScopeCases(c, s);
    }
  }

  /** The accounts of a key, or those of a key without a record. */
  function Standing(l: Ledger, key: KeyId): map<Scope, Account> {
    if key in l.books then l.books[key].accounts else EMPTY_ACCOUNTS
  }

  function PrunedLedger(l: Ledger, key: KeyId, now: Moment): Ledger {
    if key in l.books
    then l.(books := l.books[key := l.books[key].(accounts := Prune(l.books[key].accounts, now))]) else l
  }

  /** Pruning, checking and holding one after the other is one admission. */
  lemma AdmitByParts(l: Ledger, key: KeyId, p: Policy, candidate: Micros, now: Moment)
    requires ValidPolicy(p)
    ensures var outcome := AdmitBook(Find(l.books, key), p, candidate, now, l.sequence + 1);
            var pruned := PrunedLedger(l, key, now);
            var kept := Standing(pruned, key);
            var blocked := Blocked(kept, p, candidate, now);
            if blocked != {} || candidate == 0 then
              && Record(l, key, None, outcome) == pruned
              && outcome.1 == if blocked == {} then Unmetered
                 else Refused(Capacity(ResetAt(blocked, now), Total in blocked))
            else
              && (forall s :: s in Captured(p, now) ==> UsedIn(kept, s) + candidate <= MAX_MICROS)
              && var b := Opened(Find(pruned.books, key), p, Hold(kept, Captured(p, now), candidate), l.sequence + 1);
                 && outcome.1 == Held(Captured(p, now), b.generation)
                 && Record(l, key, None, outcome)
                    == pruned.(books := pruned.books[key := b],
                              sequence := l.sequence + if key in l.books then 0 else 1)
  {
    if Blocked(KeptAt(Find(l.books, key), now), p, candidate, now) == {} {
      NotBlockedFits(KeptAt(Find(l.books, key), now), p, candidate, now);
    }
  }

  lemma ReserveByParts(l: Ledger, key: KeyId, p: Policy, candidate: Money, reading: Instant)
    requires Considered(l, key, p, candidate)
    ensures var found, registered := Find(l.books, key), key in l.policies;
            var now := Clock(l, reading);
            BudgetBook.Reserve(l, key, p, candidate, reading)
            == if Ready(found, registered, p)
               then var outcome := AdmitBook(found, p, candidate.micros, now, l.sequence + 1);
                    (Record(l.(lastNow := Some(now)), key, None, outcome), outcome.1)
               else (l, Unready(found, registered, p))
  {
    assert Store(l.books, key, Find(l.books, key)) == l.books;
  }

  lemma EmptyIff(st: BudgetState, b: Book)
    requires StandsFor(st, b)
    ensures st.spent == ZERO && st.active == ZERO && st.dayBuckets == map[] && st.monthBuckets == map[]
            <==> b.accounts == EMPTY_ACCOUNTS
  {
    forall d: nat ensures Day(d) in b.accounts <==> d in st.dayBuckets { assert DayName(d) == Day(d); }
    forall m: nat ensures Month(m) in b.accounts <==> m in st.monthBuckets { assert MonthName(m) == Month(m); }
    assert EMPTY_ACCOUNTS == map[Total := Account(ZERO, ZERO)];
    if st.dayBuckets == map[] && st.monthBuckets == map[] {
      forall s: Scope ensures s in b.accounts <==> s == Total {}
      assert b.accounts == map[Total := Account(st.spent, st.active)];
    }
  }

  lemma SettleByParts(b: Book, captured: set<Scope>, amount: Micros, kind: Kind, actual: Money, charged: Micros)
    requires ValidBook(b) && forall s :: s in captured ==> amount <= ActiveIn(b.accounts, s)
    requires var wanted := WantedCharge(kind, amount, actual);
             charged == if Chargeable(b.accounts, captured, wanted) then wanted else amount
    requires Chargeable(b.accounts, captured, charged)
    ensures SettleBook(b, captured, amount, kind, actual)
            == Settlement(Dropped(b.(accounts := Move(b.accounts, captured, amount, charged))),
                          if !Chargeable(b.accounts, captured, WantedCharge(kind, amount, actual)) then Some(Arithmetic)
                          else if kind == KnownCost && actual.Unknown? then Some(InvalidActual) else None,
                          charged, true)
  {
  }

  function TouchedBook(b: Book, captured: set<Scope>): Book {
    b.(accounts := b.accounts + map s | s in captured && s !in b.accounts :: Account(Unknown, Unknown))
  }

  lemma AdjustByParts(b: Book, captured: set<Scope>, reserved: Micros, actual: Micros)
    requires Total in b.accounts
    ensures var r, delta := AdjustBook(b, captured, reserved, actual), actual - reserved;
            if b.accounts[Total].spent.Unknown? || b.accounts[Total].active.Unknown? then
              r.error == Some(StaleState) && r.emitted == map[] && r.book == Some(b)
            else if delta == 0 then
              r.error == None && r.emitted == map[] && r.book == Dropped(TouchedBook(b, captured))
            else if Total in captured && !Adjustable(b.accounts, Total, delta) then
              r.error == Some(Arithmetic) && r.emitted == map[] && r.book == Some(b)
            else
              && r.error == None
              && r.emitted == (map s | s in captured && Adjustable(b.accounts, s, delta) :: delta)
              && r.book == if forall s :: s in captured ==> Adjustable(b.accounts, s, delta)
                           then Dropped(b.(accounts := Shift(b.accounts, captured, delta))) else Some(b)
  {
  }

  /** Adjust on one record: the record to store, if any, stands for `adjusted`. */
  method AdjustState(st: BudgetState, ghost b: Book, reserved: Micros, c: Capture, actual: Micros)
    returns (error: Option<SettleError>, emitted: map<Scope, int>, after: Option<BudgetState>, ghost adjusted: Book)
    requires StandsFor(st, b)
    ensures var r := AdjustBook(b, ScopesOf(c), reserved, actual);
            && (error, emitted) == (r.error, r.emitted)
            && if after.Some? then StandsFor(after.value, adjusted) && r.book == Dropped(adjusted)
               else r.book == Some(b)
  {
    AdjustByParts(b, ScopesOf(c), reserved, actual);
    ChangedIff(b.accounts, Total, Account(st.spent, st.active), actual - reserved);
    CaptureNames(c);
    emitted, after, adjusted := map[], None, b;
    if st.spent.Unknown? || st.active.Unknown? { return Some(StaleState), emitted, after, adjusted; }
    if actual == reserved {
      var touched := TouchState(st, b.accounts, c);
      return None, emitted, Some(touched), TouchedBook(b, ScopesOf(c));
    }
    if c.total && Changed(st.spent, actual - reserved).Unknown? { return Some(Arithmetic), emitted, after, adjusted; }
    var complete;
    emitted, complete := EmitDeltas(st, b.accounts, c, actual - reserved);
    if complete {
      var shifted := ShiftState(st, b.accounts, c, actual - reserved);
      after, adjusted := Some(shifted), b.(accounts := Shift(b.accounts, ScopesOf(c), actual - reserved));
    }
    error := None;
  }

  datatype ReplaceError = InvalidReplacement | ReplacementConflict | CommitFailed

  /** LoadSpent's first pass: every row well formed, no identity twice. */
  method CheckRows(rows: seq<SpentRow>) returns (valid: bool)
    ensures valid <==> ValidRows(rows)
  {
    var identities: set<(KeyId, Scope)> := {};
    for i := 0 to |rows|
      invariant ValidRows(rows[..i])
      invariant forall k, s ::
                  (k, s) in identities <==> exists j :: 0 <= j < i && rows[j].key == k && rows[j].scope == s
    {
      if rows[i].key == "" || rows[i].spent.Unknown? { return false; }
      if (rows[i].key, rows[i].scope) in identities {
        var j :| 0 <= j < i && rows[j].key == rows[i].key && rows[j].scope == rows[i].scope;
        assert SameTarget(rows[j], rows[i]);
        return false;
      }
      identities := identities + {(rows[i].key, rows[i].scope)};
    }
    assert rows[..|rows|] == rows;
    return true;
  }

  predicate HasScope(st: BudgetState, s: Scope) {
    match s
    case Total => st.totalLoaded
    case Day(d) => d in st.dayBuckets
    case Month(m) => m in st.monthBuckets
  }

  lemma LoadedIff(st: BudgetState, b: Book, s: Scope)
    requires StandsFor(st, b)
    ensures HasScope(st, s) <==> if s == Total then b.totalLoaded else s in b.accounts
  {
    match s
    case Total =>
    case Day(d) => assert DayName(d) == s;
    case Month(m) => assert MonthName(m) == s;
  }

  function LoadedState(st: BudgetState, s: Scope, spent: Money): BudgetState {
    match s
    case Total => st.(spent := spent, totalLoaded := true)
    case Day(d) => st.(dayBuckets := st.dayBuckets[d := Account(spent, ZERO)])
    case Month(m) => st.(monthBuckets := st.monthBuckets[m := Account(spent, ZERO)])
  }

  lemma LoadMatches(st: BudgetState, b: Book, s: Scope, spent: Money)
    requires StandsFor(st, b)
    ensures StandsFor(LoadedState(st, s, spent), LoadedBook(b, s, spent))
  {
  }

  class BudgetLimiter {
    var states: map<KeyId, BudgetState>
    var policies: map<KeyId, Policy>
    var sequence: nat
    var lastNow: Option<Instant>
    ghost var ledger: Ledger

    /** The fields stand for the ledger. */
    ghost predicate Valid()
      reads this
    {
      && ledger.books.Keys == states.Keys
      && (forall k :: k in states ==> StandsFor(states[k], ledger.books[k]))
      && ledger.policies == policies && ledger.sequence == sequence
      && ledger.lastNow == if lastNow.Some? then Some(At(lastNow.value)) else None
    }

    constructor ()
      ensures Valid() && ledger == EMPTY_LEDGER
    {
      states, policies, sequence, lastNow := map[], map[], 0, None;
      ledger := EMPTY_LEDGER;
    }

    /** Readings that move back are clamped to the last one. */
    method NowTime(reading: Instant) returns (now: Moment)
      requires Valid()
      modifies this`lastNow, this`ledger
      ensures Valid() && now == Clock(old(ledger), reading) && ledger == old(ledger).(lastNow := Some(now))
    {
      var current: Instant := if lastNow.Some? && reading < lastNow.value then lastNow.value else reading;
      lastNow := Some(current);
      now := At(current);
      ledger := ledger.(lastNow := Some(now));
    }

    method PutState(key: KeyId, st: BudgetState, ghost b: Book)
      requires Valid() && StandsFor(st, b)
      modifies this`states, this`ledger
      ensures Valid() && states == old(states)[key := st]
              && ledger == old(ledger).(books := old(ledger).books[key := b])
    {
      states := states[key := st];
      ledger := ledger.(books := ledger.books[key := b]);
    }

    method PruneKey(key: KeyId, now: Moment)
      requires Valid() && (key in states ==> ValidState(states[key]))
      modifies this`states, this`ledger
      ensures Valid() && (key in states ==> ValidState(states[key]))
      ensures ledger == PrunedLedger(old(ledger), key, now)
    {
      if key in states {
        PruneMatches(states[key], ledger.books[key].accounts, now);
        var days := PruneBuckets(states[key].dayBuckets, now.day);
        var months := PruneBuckets(states[key].monthBuckets, now.month);
        ghost var b := ledger.books[key];
        PutState(key, states[key].(dayBuckets := days, monthBuckets := months), b.(accounts := Prune(b.accounts, now)));
      }
    }

    method HoldKey(key: KeyId, p: Policy, candidate: Money, now: Moment) returns (generation: nat)
      requires Valid() && (key in states ==> ValidState(states[key])) && ValidPolicy(p) && candidate.Known?
      requires forall s :: s in Captured(p, now) ==> UsedIn(Standing(ledger, key), s) + candidate.micros <= MAX_MICROS
      modifies this`states, this`sequence, this`ledger
      ensures Valid()
      ensures var held := Hold(Standing(old(ledger), key), Captured(p, now), candidate.micros);
              var b := Opened(Find(old(ledger).books, key), p, held, old(sequence) + 1);
              && generation == b.generation
              && ledger == old(ledger).(books := old(ledger).books[key := b],
                                        sequence := old(sequence) + if key in old(states) then 0 else 1)
    {
      var st := BudgetState(ZERO, ZERO, map[], map[], UNLIMITED, false, sequence + 1);
      if key in states {
        st := states[key];
      } else {
        sequence := sequence + 1;
      }
      ghost var accounts := Standing(ledger, key);
      var held := HoldCandidate(st, accounts, p, candidate, now);
      ledger := ledger.(sequence := sequence);
      PutState(key, held, Opened(Find(ledger.books, key), p, Hold(accounts, Captured(p, now), candidate.micros),
                                 sequence));
      return held.generation;
    }

    /** Checks every limit first, then holds in all of them or in none. */
    method Admit(key: KeyId, p: Policy, candidate: Money, now: Moment) returns (admission: Admission)
      requires Valid() && (key in states ==> ValidState(states[key]))
      requires ValidPolicy(p) && candidate.Known?
      modifies this`states, this`sequence, this`ledger
      ensures Valid()
      ensures var outcome := AdmitBook(Find(old(ledger).books, key), p, candidate.micros, now, old(sequence) + 1);
              admission == outcome.1 && ledger == Record(old(ledger), key, None, outcome)
    {
      AdmitByParts(ledger, key, p, candidate.micros, now);
      PruneKey(key, now);
      ghost var kept := Standing(ledger, key);
      var st := if key in states then states[key] else BudgetState(ZERO, ZERO, map[], map[], UNLIMITED, false, 1);
      var total, day, month := CheckLimits(st, kept, p, candidate, now);
      if total || day || month {
        var reset := None;
        if !total && month {
          reset := Some(NextMonth(now));
        } else if day && !total {
          reset := Some(NextDay(now));
        }
        return Refused(Capacity(reset, total));
      }
      if candidate == ZERO { return Unmetered; }
      var generation := HoldKey(key, p, candidate, now);
      return Held(Captured(p, now), generation);
    }

    method AdmitNow(key: KeyId, p: Policy, candidate: Money, reading: Instant) returns (admission: Admission)
      requires Valid() && (key in states ==> ValidState(states[key]))
      requires ValidPolicy(p) && candidate.Known?
      modifies this
      ensures Valid()
      ensures var now := Clock(old(ledger), reading);
              var outcome := AdmitBook(Find(old(ledger).books, key), p, candidate.micros, now,
                                       old(ledger).sequence + 1);
              admission == outcome.1 && ledger == Record(old(ledger).(lastNow := Some(now)), key, None, outcome)
    {
      var now := NowTime(reading);
      admission := Admit(key, p, candidate, now);
    }

    method Reserve(key: KeyId, p: Policy, candidate: Money, reading: Instant) returns (admission: Admission)
      requires Valid()
      modifies this
      ensures Valid() && (ledger, admission) == BudgetBook.Reserve(old(ledger), key, p, candidate, reading)
    {
      if key == "" || candidate.Unknown? || !ValidPolicy(p) { return Refused(InvalidAdmission); }
      if key in policies && !SamePolicy(policies[key], p) { return Refused(PolicyConflict); }
      ReserveByParts(ledger, key, p, candidate, reading);
      if key in states {
        ValidStateIff(states[key], ledger.books[key]);
        if !ValidState(states[key]) { return Refused(CorruptState); }
        if key !in policies && StaleLimits(states[key].limits, p) { return Refused(InvalidAdmission); }
      }
      if Unlimited(p) { return Unmetered; }
      admission := AdmitNow(key, p, candidate, reading);
    }

    /** Records a settled or adjusted record; one with nothing spent, active or retained is deleted. */
    method StoreState(key: KeyId, st: BudgetState, ghost b: Book)
      requires Valid() && StandsFor(st, b)
      modifies this`states, this`ledger
      ensures Valid() && ledger == old(ledger).(books := Store(old(ledger).books, key, Dropped(b)))
    {
      EmptyIff(st, b);
      if st.spent == ZERO && st.active == ZERO && st.dayBuckets == map[] && st.monthBuckets == map[] {
        states := states - {key};
      } else {
        states := states[key := st];
      }
      ledger := ledger.(books := Store(ledger.books, key, Dropped(b)));
    }

    /** settleReservation for a reservation that holds something. */
    method Settle(key: KeyId, generation: nat, amount: Micros, c: Capture, kind: Kind, actual: Money)
      returns (error: Option<SettleError>, charged: Micros, applied: bool)
      requires Valid() && 0 < amount
      modifies this`states, this`ledger
      ensures Valid()
      ensures Settled(ledger, error, charged, applied)
              == BudgetBook.Settle(old(ledger), key, generation, ScopesOf(c), amount, kind, actual)
    {
      if key !in states || states[key].generation != generation { return Some(StaleState), 0, false; }
      var st := states[key];
      ghost var b := ledger.books[key];
      ValidStateIff(st, b);
      assert Store(ledger.books, key, Some(b)) == ledger.books;
      if !ValidState(st) { return Some(StaleState), 0, false; }
      AllReleaseIff(st, b.accounts, c, amount);
      if !AllRelease(st, c, amount) { return Some(BrokenHold), 0, false; }
      charged, error := ChooseCharge(st, b.accounts, c, amount, kind, actual);
      SettleByParts(b, ScopesOf(c), amount, kind, actual, charged);
      var after := MoveState(st, b.accounts, c, amount, charged);
      StoreState(key, after, b.(accounts := Move(b.accounts, ScopesOf(c), amount, charged)));
      applied := true;
    }

    /** The body of BudgetAdjustmentTicket.Adjust for a known actual cost. */
    method AdjustCharge(key: KeyId, generation: nat, reserved: Micros, c: Capture, actual: Micros)
      returns (error: Option<SettleError>, emitted: map<Scope, int>)
      requires Valid()
      modifies this`states, this`ledger
      ensures Valid()
      ensures Adjusted(ledger, error, emitted) == Adjust(old(ledger), key, generation, ScopesOf(c), reserved, actual)
    {
      if key !in states || states[key].generation != generation { return Some(StaleState), map[]; }
      ghost var b := ledger.books[key];
      assert Store(ledger.books, key, Some(b)) == ledger.books;
      var after;
      ghost var adjusted;
      error, emitted, after, adjusted := AdjustState(states[key], b, reserved, c, actual);
      if after.Some? { StoreState(key, after.value, adjusted); }
    }

    // ---- Policies ----

    /** `durable`: whether the commit closure, run between the checks and the publication, succeeds. */
    method ReplacePolicy(key: KeyId, expected: Policy, p: Policy, durable: bool)
      returns (error: Option<ReplaceError>)
      requires Valid()
      modifies this`policies, this`states, this`ledger
      ensures Valid()
      ensures ledger == if Replaceable(old(ledger), key, expected, p) && durable
              then Publish(old(ledger), key, p) else old(ledger)
      ensures error == None <==> Replaceable(old(ledger), key, expected, p) && durable
      ensures error == Some(CommitFailed) <==> Replaceable(old(ledger), key, expected, p) && !durable
      ensures error == Some(InvalidReplacement) <==> key == "" || !ValidPolicy(expected) || !ValidPolicy(p)
    {
      if key == "" || !ValidPolicy(expected) || !ValidPolicy(p) { return Some(InvalidReplacement); }
      if key in policies && !SamePolicy(policies[key], expected) { return Some(ReplacementConflict); }
      if !durable { return Some(CommitFailed); }
      ghost var published := Publish(ledger, key, p);
      policies := policies[key := p];
      ledger := ledger.(policies := policies);
      if key in states {
        var st := states[key];
        PutState(key, st.(limits := p, totalLoaded := st.totalLoaded || p.limited), published.books[key]);
      }
      error := None;
    }

    /** Seeds the identity of a policy before serving; the enforcement fields are left alone. */
    method RegisterPolicy(key: KeyId, p: Policy)
      requires Valid()
      modifies this`policies, this`ledger
      ensures Valid()
      ensures ledger == if key != "" && ValidPolicy(p) then old(ledger).(policies := old(ledger).policies[key := p])
                        else old(ledger)
    {
      if key != "" && ValidPolicy(p) {
        policies := policies[key := p];
        ledger := ledger.(policies := policies);
      }
    }

    // ---- Loading ----

    method LoadOne(row: SpentRow)
      requires Valid()
      modifies this`states, this`sequence, this`ledger
      ensures Valid() && ledger == LoadRow(old(ledger), row)
    {
      if row.spent == ZERO { return; }
      var st := BudgetState(ZERO, ZERO, map[], map[], UNLIMITED, false, sequence + 1);
      ghost var b := Book(EMPTY_ACCOUNTS, UNLIMITED, false, sequence + 1);
      if row.key in states {
        st := states[row.key];
        b := ledger.books[row.key];
      } else {
        sequence := sequence + 1;
        ledger := ledger.(sequence := sequence);
      }
      LoadMatches(st, b, row.scope, row.spent);
      PutState(row.key, LoadedState(st, row.scope, row.spent), LoadedBook(b, row.scope, row.spent));
    }

    method StatesSound() returns (sound: bool)
      requires Valid()
      ensures sound <==> Sound(ledger)
    {
      var left := states.Keys;
      while left != {}
        invariant left <= states.Keys
        invariant forall k :: k in states && k !in left ==> k != "" && ValidBook(ledger.books[k])
        decreases left
      {
        var k :| k in left;
        ValidStateIff(states[k], ledger.books[k]);
        if k == "" || !ValidState(states[k]) { return false; }
        left := left - {k};
      }
      return true;
    }

    /** Whether some row names a budget that was already loaded. */
    method SomeLoaded(rows: seq<SpentRow>) returns (some: bool)
      requires Valid()
      ensures some <==> exists i :: 0 <= i < |rows| && AlreadyLoaded(ledger, rows[i])
    {
      for i := 0 to |rows|
        invariant forall j :: 0 <= j < i ==> !AlreadyLoaded(ledger, rows[j])
      {
        if rows[i].key in states {
          var st := states[rows[i].key];
          LoadedIff(st, ledger.books[rows[i].key], rows[i].scope);
          if HasScope(st, rows[i].scope) { return true; }
        }
      }
      return false;
    }

    /** Strict and atomic: a rejected batch changes nothing. */
    method LoadSpent(rows: seq<SpentRow>) returns (error: Option<BudgetError>)
      requires Valid()
      modifies this`states, this`sequence, this`ledger
      ensures Valid()
      ensures match Load(old(ledger), rows)
              case Ok(l) => ledger == l && error == None
              case Err(e) => ledger == old(ledger) && error == Some(e)
    {
      var wellFormed := CheckRows(rows);
      if !wellFormed { return Some(InvalidAdmission); }
      var sound := StatesSound();
      if !sound { return Some(CorruptState); }
      var loaded := SomeLoaded(rows);
      if loaded { return Some(InvalidAdmission); }
      ghost var before := ledger;
      for i := 0 to |rows|
        invariant Valid() && ledger == LoadRows(before, rows[..i])
      {
        assert rows[..i + 1][..i] == rows[..i];
        LoadOne(rows[i]);
      }
      assert rows[..|rows|] == rows;
      error := None;
    }
  }
}
