/** What the ledger invariant gives to the users of the budget limiter, and where the code falls short. */
module BudgetTheorems {
  import opened Wrappers
  import opened Money
  import opened Calendar
  import opened BudgetBook
  import opened BudgetRuns
  import Sums
  import Cost
  import Laws = BudgetLaws

  // ---- Deferred settlement refines direct settlement ----

  /** The counters of a retained account depend only on what each reservation holds and is
      charged, not on how it came to be charged: by a direct commit or by a later adjustment. */
  lemma HistoryDecidesBalances(w: World, v: World, k: KeyId, s: Scope)
    requires Inv(w) && Inv(v) && w.loaded == v.loaded && |w.history| == |v.history|
    requires forall i :: 0 <= i < |w.history| ==>
                           var e, f := w.history[i], v.history[i];
                           e.In(k, s) == f.In(k, s) && e.Holding() == f.Holding() && e.Charge() == f.Charge()
    requires Kept(w, k, s) && Kept(v, k, s)
    ensures ActiveIn(AccountsOf(w.ledger, k), s) == ActiveIn(AccountsOf(v.ledger, k), s)
    ensures SpentIn(AccountsOf(w.ledger, k), s) == SpentIn(AccountsOf(v.ledger, k), s)
  {
    assert Balanced(w, k, s) && Balanced(v, k, s);
    Sums.Agree(w.history, v.history, HeldIn(k, s), HeldIn(k, s));
    Sums.Agree(w.history, v.history, ChargedIn(k, s), ChargedIn(k, s));
  }

  function Spent(w: World, k: KeyId, s: Scope): int { SpentIn(AccountsOf(w.ledger, k), s) }

  function Active(w: World, k: KeyId, s: Scope): int { ActiveIn(AccountsOf(w.ledger, k), s) }

  /** From `w` to `w'` the account changed by `spent` and `active`. */
  predicate Changed(w: World, w': World, k: KeyId, s: Scope, spent: int, active: int) {
    Spent(w', k, s) == Spent(w, k, s) + spent && Active(w', k, s) == Active(w, k, s) + active
  }

  /** The account changed by that much if the reservation captured it, and not at all otherwise. */
  predicate ChangedWhere(w: World, w': World, e: Entry, s: Scope, spent: int, active: int) {
    if s in e.captured then Changed(w, w', e.key, s, spent, active) else Changed(w, w', e.key, s, 0, 0)
  }

  lemma SettleCharges(w: World, id: nat, kind: Kind, actual: Money)
    requires Inv(w) && id < |w.history| && w.history[id].status == Live && InRange(w.ledger.books[w.history[id].key])
    ensures var e, status := w.history[id], NextSettle(w, id, kind, actual).history[id].status;
            match kind
            case Deferred => status == Ticketed
            case Conservative => status == Closed(e.amount)
            case Release => status == Closed(0)
            case KnownCost =>
              status == Closed(if actual.Known? && Chargeable(w.ledger.books[e.key].accounts, e.captured, actual.micros)
                               then actual.micros else e.amount)
  {
    SettleApplies(w, id, kind, actual);
  }

  lemma SettledAccounts(w: World, id: nat, kind: Kind, actual: Money)
    requires id < |w.history| && w.history[id].status == Live && Current(w, w.history[id])
    ensures var e := w.history[id];
            var r := SettleBook(w.ledger.books[e.key], e.captured, e.amount, kind, actual);
            && AccountsOf(NextSettle(w, id, kind, actual).ledger, e.key) == AccountsIn(r.book)
            && (r.applied ==> NextSettle(w, id, kind, actual).history[id].Charge() == r.charged)
  {
  }

  /** A settlement of a book whose totals are in range charges and releases in the captured
      accounts, and nowhere else. */
  lemma SettleChanges(w: World, id: nat, kind: Kind, actual: Money, s: Scope)
    requires Inv(w) && id < |w.history| && w.history[id].status == Live && InRange(w.ledger.books[w.history[id].key])
    ensures var e, w' := w.history[id], NextSettle(w, id, kind, actual);
            ChangedWhere(w, w', e, s, w'.history[id].Charge(), 0 - e.amount)
  {
    SettleApplies(w, id, kind, actual);
    var e := w.history[id];
    var b := w.ledger.books[e.key];
    forall s | s in e.captured ensures s in b.accounts { HoldCovered(w, id, s); }
    SettleMoves(b, e.captured, e.amount, kind, actual, s);
    SettledAccounts(w, id, kind, actual);
  }

  lemma AdjustedAccounts(w: World, id: nat, actual: Micros)
    requires id < |w.history| && w.history[id].status == Ticketed && Current(w, w.history[id])
    requires Total in w.ledger.books[w.history[id].key].accounts
    ensures var e, w' := w.history[id], NextAdjust(w, id, Known(actual));
            var r := AdjustBook(w.ledger.books[e.key], e.captured, e.amount, actual);
            && AccountsOf(w'.ledger, e.key) == AccountsIn(r.book)
            && w'.history[id].status == Closed(if r.applied then actual else e.amount)
  {
  }

  /** An adjustment replaces the estimate by the actual cost, or changes nothing. */
  lemma AdjustChanges(w: World, id: nat, actual: Money, s: Scope)
    requires Inv(w) && id < |w.history| && w.history[id].status == Ticketed && Harmless(w, Adjust(id, actual))
    ensures var e, w' := w.history[id], NextAdjust(w, id, actual);
            && w'.history[id].status.Closed?
            && w'.history[id].Charge() in {e.amount, if actual.Known? then actual.micros else e.amount}
            && ChangedWhere(w, w', e, s, w'.history[id].Charge() - e.amount, 0)
  {
    if actual.Known? && Current(w, w.history[id]) { BookAdjusted(w, id, actual.micros, s); }
  }

  lemma BookAdjusted(w: World, id: nat, actual: Micros, s: Scope)
    requires Inv(w) && id < |w.history| && w.history[id].status == Ticketed && Harmless(w, Adjust(id, Known(actual)))
    requires Current(w, w.history[id])
    ensures var e, w' := w.history[id], NextAdjust(w, id, Known(actual));
            && w'.history[id].status in {Closed(actual), Closed(e.amount)}
            && ChangedWhere(w, w', e, s, w'.history[id].Charge() - e.amount, 0)
  {
    var e := w.history[id];
    AdjustMoves(w.ledger.books[e.key], e.captured, e.amount, actual, s);
    AdjustedAccounts(w, id, actual);
  }

  /** The adjustment replaces the estimate, upwards or downwards. */
  predicate Replaces(v: World, e: Entry, actual: Micros) {
    actual == e.amount || (Current(v, e) && Laws.Reaches(AccountsOf(v.ledger, e.key), e.captured, actual - e.amount))
  }

  lemma ChargedIff(v: World, id: nat, actual: Micros)
    requires Inv(v) && id < |v.history| && v.history[id].status == Ticketed && Harmless(v, Adjust(id, Known(actual)))
    ensures NextAdjust(v, id, Known(actual)).history[id].Charge()
            == if Replaces(v, v.history[id], actual) then actual else v.history[id].amount
  {
    if Current(v, v.history[id]) && actual != v.history[id].amount { Laws.AdjustsIff(v, id, actual); }
  }

  /** Deferring at `w` and adjusting at any later world `v` charges the actual cost if and only if the
      key's state is still the one reserved in and every captured account is there and stays in range;
      then every account changes by what committing that cost at `w` would have changed it by. Otherwise
      the estimate stays charged. `EntriesMoveForward` says that such a `v` is any world reached from
      `w` before the ticket is consumed. */
  lemma DeferredRefinesDirect(w: World, v: World, id: nat, actual: Micros, s: Scope)
    requires Inv(w) && id < |w.history| && w.history[id].status == Live && InRange(w.ledger.books[w.history[id].key])
    requires Chargeable(w.ledger.books[w.history[id].key].accounts, w.history[id].captured, actual)
    requires Inv(v) && id < |v.history| && v.history[id].status == Ticketed && Harmless(v, Adjust(id, Known(actual)))
    requires SameIdentity(v.history[id], w.history[id])
    ensures var e, adjusted := w.history[id], NextAdjust(v, id, Known(actual));
            var charge := adjusted.history[id].Charge();
            && ChangedWhere(w, NextSettle(w, id, Deferred, Unknown), e, s, e.amount, 0 - e.amount)
            && ChangedWhere(v, adjusted, e, s, charge - e.amount, 0)
            && charge == (if Replaces(v, v.history[id], actual) then actual else e.amount)
            && (charge == actual ==> ChangedWhere(w, NextSettle(w, id, KnownCost, Known(actual)), e, s, charge,
                                                  0 - e.amount))
  {
    SettledBothWays(w, id, actual, s);
    AdjustChanges(v, id, Known(actual), s);
    ChargedIff(v, id, actual);
  }

  lemma SettledBothWays(w: World, id: nat, actual: Micros, s: Scope)
    requires Inv(w) && id < |w.history| && w.history[id].status == Live && InRange(w.ledger.books[w.history[id].key])
    requires Chargeable(w.ledger.books[w.history[id].key].accounts, w.history[id].captured, actual)
    ensures ChangedWhere(w, NextSettle(w, id, Deferred, Unknown), w.history[id], s, w.history[id].amount,
                         0 - w.history[id].amount)
    ensures ChangedWhere(w, NextSettle(w, id, KnownCost, Known(actual)), w.history[id], s, actual,
                         0 - w.history[id].amount)
  {
    SettleCharges(w, id, KnownCost, Known(actual));
    SettleCharges(w, id, Deferred, Unknown);
    SettleChanges(w, id, KnownCost, Known(actual), s);
    SettleChanges(w, id, Deferred, Unknown, s);
  }

  // ---- One-shot terminal operations ----

  predicate SameIdentity(e: Entry, f: Entry) {
    e.key == f.key && e.generation == f.generation && e.amount == f.amount && e.captured == f.captured
  }

  predicate Forward(e: Entry, f: Entry) {
    && SameIdentity(e, f)
    && (e.status == f.status || e.status.Live? || (e.status.Ticketed? && f.status.Closed?))
  }

  lemma NextMovesForward(w: World, step: Step, id: nat)
    requires id < |w.history|
    ensures var w' := Next(w, step); id < |w'.history| && Forward(w.history[id], w'.history[id])
  {
  }

  /** In every run an admitted reservation keeps its identity, settles at most once, and its ticket
      is consumed at most once: after that no operation changes its charge. */
  lemma {:induction false} EntriesMoveForward(w: World, steps: seq<Step>, id: nat)
    requires id < |w.history|
    ensures var w' := Run(w, steps); id < |w'.history| && Forward(w.history[id], w'.history[id])
    decreases |steps|
  {
    if steps != [] {
      NextMovesForward(w, steps[0], id);
      EntriesMoveForward(Next(w, steps[0]), steps[1..], id);
    }
  }

  /** From the moment a reservation was released it contributes nothing to any account, whatever else
      goes on: the counters are those of the other reservations. */
  lemma ReleasedLeavesNoTrace(w: World, steps: seq<Step>, id: nat, k: KeyId, s: Scope)
    requires Inv(w) && Guarded(w, steps) && id < |w.history| && w.history[id].status == Closed(0)
    ensures var w' := Run(w, steps);
            && id < |w'.history|
            && var others := w'.history[..id] + w'.history[id + 1..];
               && Active(w', k, s) == Sums.Sum(others, HeldIn(k, s))
               && (Kept(w', k, s) ==> Spent(w', k, s) == Base(w', k, s) + Sums.Sum(others, ChargedIn(k, s)))
  {
    EntriesMoveForward(w, steps, id);
    LedgerInvariant(w, steps);
    var w' := Run(w, steps);
    assert Balanced(w', k, s);
    Sums.Without(w'.history, id, HeldIn(k, s));
    Sums.Without(w'.history, id, ChargedIn(k, s));
  }

  function TicketIn(k: KeyId, s: Scope): Entry -> int {
    (e: Entry) => if e.In(k, s) && e.status == Ticketed then e.amount else 0
  }

  /** The spend of a retained account covers every outstanding ticket at once. */
  lemma TicketsCovered(w: World, k: KeyId, s: Scope)
    requires Inv(w) && Kept(w, k, s)
    ensures Sums.Sum(w.history, TicketIn(k, s)) <= Spent(w, k, s)
  {
    assert Balanced(w, k, s);
    Sums.Below(w.history, TicketIn(k, s), ChargedIn(k, s));
  }

  // ---- Safety of a fixed policy ----

  /** What a reservation was charged beyond its estimate. */
  function OverrunIn(k: KeyId, s: Scope): Entry -> int {
    (e: Entry) => if e.In(k, s) && e.amount < e.Charge() then e.Charge() - e.amount else 0
  }

  ghost predicate WithinLimit(w: World, k: KeyId, s: Scope)
    requires k in w.ledger.policies
  {
    Limit(w.ledger.policies[k], s).Known? ==>
      Spent(w, k, s) + Active(w, k, s) <= Limit(w.ledger.policies[k], s).micros + Sums.Sum(w.history, OverrunIn(k, s))
  }

  /** Other keys' policies may change; this key's does not. */
  predicate FixedPolicy(step: Step, k: KeyId) { step.Replace? || step.Register? ==> step.key != k }

  /** Admission never takes an account above its limit: where it holds anything, all of it fits. */
  lemma AdmitFits(book: Option<Book>, registered: bool, p: Policy, candidate: Micros, now: Moment, next: nat, s: Scope)
    requires ValidPolicy(p) && (book.Some? ==> WellFormed(book.value))
    ensures var (after, admission) := ReserveBook(book, registered, p, candidate, now, next);
            if admission.Held? && s in admission.captured
            then Limit(p, s).Known? && UsedIn(AccountsIn(after), s) <= Limit(p, s).micros
            else UsedIn(AccountsIn(after), s) <= UsedIn(AccountsIn(book), s)
  {
    if Ready(book, registered, p) {
      AdmitMoves(book, p, candidate, now, next, s);
      var admission := AdmitBook(book, p, candidate, now, next).1;
      assert admission.Held? && s in admission.captured ==> s !in Blocked(KeptAt(book, now), p, candidate, now);
    }
  }

  lemma AdmittedWithinLimit(w: World, key: KeyId, p: Policy, candidate: Money, reading: Instant, k: KeyId, s: Scope)
    requires Inv(w) && k in w.ledger.policies && WithinLimit(w, k, s) && Considered(w.ledger, key, p, candidate)
    requires ValidPolicy(w.ledger.policies[k])
    ensures WithinLimit(NextReserve(w, key, p, candidate, reading), k, s)
  {
    var l := w.ledger;
    AdmitFits(Find(l.books, key), key in l.policies, p, candidate.micros, Clock(l, reading), l.sequence + 1, s);
    EnterWithinLimit(w, key, p, candidate.micros, ClockRead(l, key, p, reading),
                     Decide(l, key, p, candidate, reading), k, s);
  }

  lemma EnterWithinLimit(w: World, key: KeyId, p: Policy, amount: Micros, now: Option<Moment>,
                         outcome: (Option<Book>, Admission),
                         k: KeyId, s: Scope)
    requires k in w.ledger.policies && WithinLimit(w, k, s)
             && (key in w.ledger.policies ==> SamePolicy(w.ledger.policies[key], p))
    requires if outcome.1.Held? && s in outcome.1.captured
             then Limit(p, s).Known? && UsedIn(AccountsIn(outcome.0), s) <= Limit(p, s).micros
             else UsedIn(AccountsIn(outcome.0), s) <= UsedIn(AccountsOf(w.ledger, key), s)
    requires ValidPolicy(w.ledger.policies[k]) && ValidPolicy(p)
    ensures WithinLimit(Enter(w, key, amount, now, outcome), k, s)
  {
    var w' := Enter(w, key, amount, now, outcome);
    Sums.Bounds(w.history, OverrunIn(k, s));
    if outcome.1.Held? {
      Sums.Append(w.history, w'.history[|w.history|], OverrunIn(k, s));
    } else {
      assert w'.history == w.history;
    }
    assert AccountsOf(w'.ledger, k) == if k == key then AccountsIn(outcome.0) else AccountsOf(w.ledger, k);
  }

  lemma PolicyFixed(w: World, step: Step, k: KeyId)
    requires FixedPolicy(step, k) && k in w.ledger.policies
    ensures k in Next(w, step).ledger.policies && Next(w, step).ledger.policies[k] == w.ledger.policies[k]
  {
  }

  /** The reservation captured what the policy limits, at some date. */
  ghost predicate UnderPolicy(e: Entry, p: Policy) { exists now :: e.captured == Captured(p, now) }

  lemma NewEntryUnderPolicy(w: World, step: Step, k: KeyId)
    requires k in w.ledger.policies && |Next(w, step).history| > |w.history|
    ensures var h := Next(w, step).history;
            && |h| == |w.history| + 1 && h[..|w.history|] == w.history
            && (h[|w.history|].key == k ==> UnderPolicy(h[|w.history|], w.ledger.policies[k]))
  {
    var e, p := Next(w, step).history[|w.history|], step.policy;
    if e.key == k {
      var now := Clock(w.ledger, step.reading);
      assert e.captured == Captured(p, now) == Captured(w.ledger.policies[k], now);
    }
  }

  /** Until the key's policy changes again, every reservation admitted for the key was admitted under
      the published policy: it holds money in exactly the scopes that policy limits. */
  lemma {:induction false} AdmittedUnderPublishedPolicy(w: World, steps: seq<Step>, k: KeyId, i: nat)
    requires k in w.ledger.policies && forall j :: 0 <= j < |steps| ==> FixedPolicy(steps[j], k)
    requires |w.history| <= i < |Run(w, steps).history| && Run(w, steps).history[i].key == k
    ensures UnderPolicy(Run(w, steps).history[i], w.ledger.policies[k])
    decreases |steps|
  {
    var w' := Next(w, steps[0]);
    PolicyFixed(w, steps[0], k);
    if |w'.history| <= i {
      AdmittedUnderPublishedPolicy(w', steps[1..], k, i);
    } else {
      NewEntryUnderPolicy(w, steps[0], k);
      EntriesMoveForward(w', steps[1..], i);
    }
  }

  /** One step under a fixed policy keeps every limited account within its limit plus the overruns. */
  lemma NextWithinLimit(w: World, step: Step, k: KeyId, s: Scope)
    requires Inv(w) && Harmless(w, step) && FixedPolicy(step, k)
    requires k in w.ledger.policies && ValidPolicy(w.ledger.policies[k]) && WithinLimit(w, k, s)
    ensures k in Next(w, step).ledger.policies && WithinLimit(Next(w, step), k, s)
  {
    PolicyFixed(w, step, k);
    match step
    case Reserve(key, p, candidate, reading) =>
      if Considered(w.ledger, key, p, candidate) { AdmittedWithinLimit(w, key, p, candidate, reading, k, s); }
    case Settle(id, kind, actual) =>
      if id < |w.history| && w.history[id].status == Live { SettledWithinLimit(w, id, kind, actual, k, s); }
    case Adjust(id, actual) =>
      if id < |w.history| && w.history[id].status == Ticketed { AdjustedWithinLimit(w, id, actual, k, s); }
    case Invalidate(id) => RecordedWithinLimit(w, step, k, s);
    case Replace(_, _, _, _) =>
    case Register(_, _) =>
    case Deliver(_, _, _) => RecordedWithinLimit(w, step, k, s);
  }

  lemma RecordedWithinLimit(w: World, step: Step, k: KeyId, s: Scope)
    requires (step.Invalidate? || step.Deliver?) && k in w.ledger.policies && WithinLimit(w, k, s)
    ensures WithinLimit(Next(w, step), k, s)
  {
    if step.id < |w.history| { Sums.Update(w.history, step.id, Next(w, step).history[step.id], OverrunIn(k, s)); }
  }

  lemma SettledWithinLimit(w: World, id: nat, kind: Kind, actual: Money, k: KeyId, s: Scope)
    requires Inv(w) && id < |w.history| && w.history[id].status == Live
    requires k in w.ledger.policies && WithinLimit(w, k, s)
    ensures WithinLimit(NextSettle(w, id, kind, actual), k, s)
  {
    var e, w' := w.history[id], NextSettle(w, id, kind, actual);
    Sums.Update(w.history, id, w'.history[id], OverrunIn(k, s));
    SettleApplies(w, id, kind, actual);
    if e.key != k {
      assert AccountsOf(w'.ledger, k) == AccountsOf(w.ledger, k);
    } else if InRange(w.ledger.books[k]) {
      SettleChanges(w, id, kind, actual, s);
    }
  }

  lemma AdjustLeavesOthers(w: World, id: nat, actual: Money, k: KeyId)
    requires id < |w.history| && w.history[id].status == Ticketed && w.history[id].key != k
    ensures AccountsOf(NextAdjust(w, id, actual).ledger, k) == AccountsOf(w.ledger, k)
  {
  }

  lemma AdjustedWithinLimit(w: World, id: nat, actual: Money, k: KeyId, s: Scope)
    requires Inv(w) && id < |w.history| && w.history[id].status == Ticketed && Harmless(w, Adjust(id, actual))
    requires k in w.ledger.policies && WithinLimit(w, k, s)
    ensures WithinLimit(NextAdjust(w, id, actual), k, s)
  {
    var w' := NextAdjust(w, id, actual);
    Sums.Update(w.history, id, w'.history[id], OverrunIn(k, s));
    if w.history[id].key != k {
      AdjustLeavesOthers(w, id, actual, k);
    } else {
      AdjustChanges(w, id, actual, s);
    }
  }

  /** Run-level safety: while the policy of a key stays fixed, spent plus active of each limited
      scope never exceeds the limit by more than the sum of what single requests cost beyond
      their own estimates. */
  lemma {:induction false} RunWithinLimit(w: World, steps: seq<Step>, k: KeyId, s: Scope)
    requires Inv(w) && Guarded(w, steps) && (forall i :: 0 <= i < |steps| ==> FixedPolicy(steps[i], k))
    requires k in w.ledger.policies && ValidPolicy(w.ledger.policies[k]) && WithinLimit(w, k, s)
    ensures var w' := Run(w, steps);
            k in w'.ledger.policies && w'.ledger.policies[k] == w.ledger.policies[k] && WithinLimit(w', k, s)
    decreases |steps|
  {
    if steps != [] {
      NextPreserves(w, steps[0]);
      PolicyFixed(w, steps[0], k);
      NextWithinLimit(w, steps[0], k, s);
      RunWithinLimit(Next(w, steps[0]), steps[1..], k, s);
    }
  }

  datatype Plan = Plan(input: int, output: int, rates: Cost.Rates)

  function Price(plan: Plan): Result<Money, Cost.CostError> {
    Cost.CalculateCost(Cost.Count(plan.input), Cost.Count(plan.output), plan.rates)
  }

  predicate WithinPlan(used: Plan, plan: Plan) {
    && used.rates == plan.rates && plan.rates.Rates? && 0 <= plan.rates.input && 0 <= plan.rates.output
    && 0 <= used.input <= plan.input && 0 <= used.output <= plan.output
  }

  ghost predicate PricedWithin(cost: Money, plan: Plan) {
    exists used :: WithinPlan(used, plan) && Price(used) == Ok(cost)
  }

  /** The reservation holds the price of the plan and was released, charged that price, or charged the
      price of usage within the plan. */
  ghost predicate Planned(e: Entry, plan: Plan) {
    && Price(plan) == Ok(Known(e.amount))
    && (e.Charge() == 0 || e.Charge() == e.amount || PricedWithin(Known(e.Charge()), plan))
  }

  lemma PlannedNeverOverruns(e: Entry, plan: Plan)
    requires Planned(e, plan)
    ensures e.Charge() <= e.amount
  {
    if e.Charge() != 0 && e.Charge() != e.amount {
      var used :| WithinPlan(used, plan) && Price(used) == Ok(Known(e.Charge()));
      Cost.CostMonotone(used.input, used.output, plan.input, plan.output, plan.rates.input, plan.rates.output);
    }
  }

  ghost predicate AllPlanned(h: seq<Entry>, plans: nat -> Plan) {
    forall i: nat :: i < |h| ==> Planned(h[i], plans(i))
  }

  /** What a caller does: it reserves the price of the request's plan, and it settles or adjusts at a known
      cost only when that is the price of usage within the plan. */
  ghost predicate KeepsPlan(w: World, step: Step, plans: nat -> Plan) {
    match step
    case Reserve(_, _, candidate, _) =>
      |Next(w, step).history| > |w.history| ==> Price(plans(|w.history|)) == Ok(candidate)
    case Settle(id, KnownCost, Known(cost)) =>
      id < |w.history| && w.history[id].status == Live ==> PricedWithin(Known(cost), plans(id))
    case Adjust(id, Known(cost)) =>
      id < |w.history| && w.history[id].status == Ticketed ==> PricedWithin(Known(cost), plans(id))
    case _ => true
  }

  ghost predicate KeepPlans(w: World, steps: seq<Step>, plans: nat -> Plan)
    decreases |steps|
  {
    steps == [] || (KeepsPlan(w, steps[0], plans) && KeepPlans(Next(w, steps[0]), steps[1..], plans))
  }

  lemma SettledAsPlanned(w: World, id: nat, kind: Kind, actual: Money)
    requires id < |w.history| && w.history[id].status == Live
    ensures var e, e' := w.history[id], NextSettle(w, id, kind, actual).history[id];
            && e'.amount == e.amount
            && (e'.Charge() in {0, e.amount} || (kind == KnownCost && actual == Known(e'.Charge())))
  {
  }

  lemma NextStaysPlanned(w: World, step: Step, plans: nat -> Plan)
    requires AllPlanned(w.history, plans) && KeepsPlan(w, step, plans)
    ensures AllPlanned(Next(w, step).history, plans)
  {
    var h := Next(w, step).history;
    forall i: nat | i < |h| ensures Planned(h[i], plans(i)) {
      if i < |w.history| {
        assert Planned(w.history[i], plans(i));
        if step.Settle? && step.id == i && w.history[i].status == Live {
          SettledAsPlanned(w, i, step.kind, step.actual);
        }
      }
    }
  }

  lemma {:induction false} RunStaysPlanned(w: World, steps: seq<Step>, plans: nat -> Plan)
    requires AllPlanned(w.history, plans) && KeepPlans(w, steps, plans)
    ensures AllPlanned(Run(w, steps).history, plans)
    decreases |steps|
  {
    if steps != [] {
      NextStaysPlanned(w, steps[0], plans);
      RunStaysPlanned(Next(w, steps[0]), steps[1..], plans);
    }
  }

  /** If every request reserves the price of its plan and is settled within it, no limit of a fixed
      policy is ever exceeded. */
  lemma PlannedRunsStayWithinLimits(w: World, steps: seq<Step>, plans: nat -> Plan, k: KeyId, s: Scope)
    requires Inv(w) && Guarded(w, steps) && (forall i :: 0 <= i < |steps| ==> FixedPolicy(steps[i], k))
    requires k in w.ledger.policies && ValidPolicy(w.ledger.policies[k]) && WithinLimit(w, k, s)
    requires AllPlanned(w.history, plans) && KeepPlans(w, steps, plans)
    ensures var p := w.ledger.policies[k];
            Limit(p, s).Known? ==> Spent(Run(w, steps), k, s) + Active(Run(w, steps), k, s) <= Limit(p, s).micros
  {
    RunWithinLimit(w, steps, k, s);
    RunStaysPlanned(w, steps, plans);
    var h := Run(w, steps).history;
    forall i: nat | i < |h| ensures OverrunIn(k, s)(h[i]) == 0 { PlannedNeverOverruns(h[i], plans(i)); }
    Sums.Zero(h, OverrunIn(k, s));
  }
}
