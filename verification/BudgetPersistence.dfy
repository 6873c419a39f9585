/** The path of committed spend from the limiter to the durable rows and back through a restart:
    limiter, notification, accumulator, in-flight batch, rows. */
module BudgetPersistence {
  import opened Wrappers
  import opened Money
  import opened Calendar
  import opened BudgetBook
  import opened BudgetRuns
  import opened BudgetRows
  import Sums

  /** `accepting`: Shutdown of the accumulator has not begun. */
  datatype System = System(world: World, pending: Batch, inflight: Batch, rows: Rows, keys: set<KeyId>, accepting: bool)

  datatype Action =
    | Limiter(step: Step)
    | Notify(id: nat, notice: Notice, scope: Scope)
    | Take
    | Commit
    | Rollback
    | Close

  predicate Unsent(w: World, id: nat, notice: Notice, s: Scope) {
    id < |w.history| && s in w.history[id].Unsent(notice)
  }

  /** Limiter steps publish; Notify calls the sink with one published delta, which drops it once
      Shutdown has begun; the single worker takes the pending batch and either commits it or restores it. */
  ghost function Act(sys: System, action: Action): System {
    match action
    case Limiter(step) => if step.Deliver? then sys else sys.(world := Next(sys.world, step))
    case Notify(id, notice, s) =>
      if Unsent(sys.world, id, notice, s) then
        var e := sys.world.history[id];
        sys.(world := Next(sys.world, Deliver(id, notice, s)),
             pending := if sys.accepting then AddTo(sys.pending, Ident(e.key, s), e.Unsent(notice)[s]) else sys.pending)
      else sys
    case Take => if sys.inflight == map[] then sys.(inflight := sys.pending, pending := map[]) else sys
    case Commit =>
      if Accepted(sys.rows, sys.keys, sys.inflight)
      then sys.(rows := Updated(sys.rows, sys.keys, sys.inflight), inflight := map[]) else sys
    case Rollback => sys.(pending := Merged(sys.pending, sys.inflight), inflight := map[])
    case Close => sys.(accepting := false)
  }

  ghost function Acts(sys: System, actions: seq<Action>): System
    decreases |actions|
  {
    if actions == [] then sys else Acts(Act(sys, actions[0]), actions[1..])
  }

  // ---- Conservation ----

  function OwedBy(e: Entry, s: Scope): int { Owed(e.owed, s) + Owed(e.revised, s) }

  function OwedIn(k: KeyId, s: Scope): Entry -> int { (e: Entry) => if e.key == k then OwedBy(e, s) else 0 }

  /** What the rows, the batch in flight, the accumulator and the undelivered notifications add up to. */
  ghost function Published(sys: System, k: KeyId, s: Scope): int {
    Row(sys.rows, Ident(k, s)) + Amount(sys.inflight, Ident(k, s)) + Amount(sys.pending, Ident(k, s))
    + Sums.Sum(sys.world.history, OwedIn(k, s))
  }

  ghost function Charges(w: World, k: KeyId, s: Scope): int { Base(w, k, s) + Sums.Sum(w.history, ChargedIn(k, s)) }

  predicate QuietEntry(e: Entry) {
    && e.owed.Keys + e.revised.Keys <= e.captured && (forall s :: s in e.owed ==> 0 <= e.owed[s])
    && (e.status.Live? || e.status.Stuck? ==> e.owed == map[])
    && (e.status.Live? || e.status.Stuck? || e.status.Ticketed? ==> e.revised == map[])
  }

  ghost predicate Conserved(sys: System) {
    && Inv(sys.world)
    && (forall i :: 0 <= i < |sys.world.history| ==> QuietEntry(sys.world.history[i]))
    && (forall k, s :: Published(sys, k, s) == Charges(sys.world, k, s))
  }

  /** The guard of the branch of Adjust that publishes a delta without changing the charge:
      the captured accounts accept the change together or not at all. */
  predicate Truthful(w: World, step: Step) {
    step.Adjust? && step.id < |w.history| && w.history[step.id].status == Ticketed && Current(w, w.history[step.id])
    && step.actual.Known? ==>
      var e := w.history[step.id];
      var a, delta := AccountsOf(w.ledger, e.key), step.actual.micros - e.amount;
      || delta == 0 || (Total in e.captured && !Adjustable(a, Total, delta))
      || (forall s :: s in e.captured ==> Adjustable(a, s, delta))
      || (forall s :: s in e.captured ==> !Adjustable(a, s, delta))
  }

  /** Adjustments find their accounts, sink calls come before Shutdown, and the sums of pending deltas
      stay in the int64 range. */
  predicate Fair(sys: System, action: Action) {
    match action
    case Limiter(step) => Harmless(sys.world, step) && Truthful(sys.world, step)
    case Notify(id, notice, s) =>
      Unsent(sys.world, id, notice, s) ==>
        var e := sys.world.history[id];
        sys.accepting && InInt64(Amount(sys.pending, Ident(e.key, s)) + e.Unsent(notice)[s])
    case Rollback => forall id :: id in sys.inflight ==> InInt64(Amount(sys.pending, id) + sys.inflight[id])
    case _ => true
  }

  /** The entry a step replaced changed its charge by what it newly owes. */
  lemma EntryReplaced(w: World, w': World, id: nat, k: KeyId, s: Scope)
    requires id < |w.history| == |w'.history| && w'.history == w.history[id := w'.history[id]] && w'.loaded == w.loaded
    requires w'.history[id].key == w.history[id].key && w'.history[id].captured == w.history[id].captured
    requires QuietEntry(w.history[id]) && QuietEntry(w'.history[id])
    requires s in w.history[id].captured ==>
               w'.history[id].Charge() - w.history[id].Charge() == OwedBy(w'.history[id], s) - OwedBy(w.history[id], s)
    ensures Charges(w', k, s) - Charges(w, k, s)
            == Sums.Sum(w'.history, OwedIn(k, s)) - Sums.Sum(w.history, OwedIn(k, s))
  {
    Sums.Update(w.history, id, w'.history[id], OwedIn(k, s));
    Sums.Update(w.history, id, w'.history[id], ChargedIn(k, s));
  }

  lemma SettlePublishes(w: World, id: nat, kind: Kind, actual: Money)
    requires Inv(w) && id < |w.history| && w.history[id].status == Live && QuietEntry(w.history[id])
    ensures var w' := NextSettle(w, id, kind, actual);
            && QuietEntry(w'.history[id])
            && forall s :: s in w.history[id].captured ==> OwedBy(w'.history[id], s) == w'.history[id].Charge()
  {
    SettleApplies(w, id, kind, actual);
  }

  lemma AdjustPublishes(w: World, id: nat, actual: Money)
    requires Inv(w) && id < |w.history| && w.history[id].status == Ticketed && QuietEntry(w.history[id])
    requires Truthful(w, Adjust(id, actual))
    ensures var e, e' := w.history[id], NextAdjust(w, id, actual).history[id];
            && QuietEntry(e')
            && forall s :: s in e.captured ==> OwedBy(e', s) - OwedBy(e, s) == e'.Charge() - e.Charge()
  {
    var e := w.history[id];
    assert ProperEntry(w, e);
    if actual.Known? && Current(w, e) {
      var r := AdjustBook(w.ledger.books[e.key], e.captured, e.amount, actual.micros);
      assert !r.applied ==> r.emitted == map[];
    }
  }

  ghost predicate Follows(w: World, w': World, k: KeyId, s: Scope) {
    Charges(w', k, s) - Charges(w, k, s) == Sums.Sum(w'.history, OwedIn(k, s)) - Sums.Sum(w.history, OwedIn(k, s))
  }

  predicate AllQuiet(h: seq<Entry>) { forall i :: 0 <= i < |h| ==> QuietEntry(h[i]) }

  lemma EnterFollows(w: World, key: KeyId, amount: Micros, now: Option<Moment>, outcome: (Option<Book>, Admission),
                     k: KeyId, s: Scope)
    requires AllQuiet(w.history)
    ensures var w' := Enter(w, key, amount, now, outcome); Follows(w, w', k, s) && AllQuiet(w'.history)
  {
    var w' := Enter(w, key, amount, now, outcome);
    if outcome.1.Held? {
      Sums.Append(w.history, w'.history[|w.history|], OwedIn(k, s));
      Sums.Append(w.history, w'.history[|w.history|], ChargedIn(k, s));
    } else {
      assert w'.history == w.history;
    }
  }

  lemma ReserveFollows(w: World, key: KeyId, p: Policy, candidate: Money, reading: Instant, k: KeyId, s: Scope)
    requires AllQuiet(w.history)
    ensures var w' := NextReserve(w, key, p, candidate, reading); Follows(w, w', k, s) && AllQuiet(w'.history)
  {
    if Considered(w.ledger, key, p, candidate) {
      EnterFollows(w, key, candidate.micros, ClockRead(w.ledger, key, p, reading),
                   Decide(w.ledger, key, p, candidate, reading), k, s);
    }
  }

  lemma SettleFollows(w: World, id: nat, kind: Kind, actual: Money, k: KeyId, s: Scope)
    requires Inv(w) && AllQuiet(w.history) && id < |w.history| && w.history[id].status == Live
    ensures var w' := NextSettle(w, id, kind, actual); Follows(w, w', k, s) && AllQuiet(w'.history)
  {
    SettlePublishes(w, id, kind, actual);
    EntryReplaced(w, NextSettle(w, id, kind, actual), id, k, s);
  }

  lemma AdjustFollows(w: World, id: nat, actual: Money, k: KeyId, s: Scope)
    requires Inv(w) && AllQuiet(w.history) && id < |w.history| && w.history[id].status == Ticketed
    requires Truthful(w, Adjust(id, actual))
    ensures var w' := NextAdjust(w, id, actual); Follows(w, w', k, s) && AllQuiet(w'.history)
  {
    AdjustPublishes(w, id, actual);
    EntryReplaced(w, NextAdjust(w, id, actual), id, k, s);
  }

  lemma NextFollows(w: World, step: Step, k: KeyId, s: Scope)
    requires Inv(w) && AllQuiet(w.history) && Truthful(w, step) && !step.Deliver?
    ensures Follows(w, Next(w, step), k, s) && AllQuiet(Next(w, step).history)
  {
    match step
    case Reserve(key, p, candidate, reading) => ReserveFollows(w, key, p, candidate, reading, k, s);
    case Settle(id, kind, actual) =>
      if id < |w.history| && w.history[id].status == Live { SettleFollows(w, id, kind, actual, k, s); }
    case Adjust(id, actual) =>
      if id < |w.history| && w.history[id].status == Ticketed { AdjustFollows(w, id, actual, k, s); }
    case Invalidate(id) =>
      if id < |w.history| && w.history[id].status == Ticketed { EntryReplaced(w, Next(w, step), id, k, s); }
    case Replace(key, expected, p, durable) =>
    case Register(key, p) =>
  }

  lemma StepConserves(sys: System, step: Step)
    requires Conserved(sys) && Harmless(sys.world, step) && Truthful(sys.world, step) && !step.Deliver?
    ensures Conserved(sys.(world := Next(sys.world, step)))
  {
    NextPreserves(sys.world, step);
    var sys' := sys.(world := Next(sys.world, step));
    forall k, s ensures Published(sys', k, s) == Charges(sys'.world, k, s) && AllQuiet(sys'.world.history) {
      assert Published(sys, k, s) == Charges(sys.world, k, s);
      NextFollows(sys.world, step, k, s);
    }
    NextFollows(sys.world, step, "", Total);
  }

  lemma SentOwesLess(e: Entry, notice: Notice, scope: Scope, s: Scope)
    requires scope in e.Unsent(notice)
    ensures var e' := e.Sent(notice, scope);
            && e'.key == e.key && e'.captured == e.captured && e'.Charge() == e.Charge()
            && OwedBy(e', s) == OwedBy(e, s) - if s == scope then e.Unsent(notice)[s] else 0
  {
  }

  lemma DeliverFollows(w: World, id: nat, notice: Notice, scope: Scope, k: KeyId, s: Scope)
    requires Unsent(w, id, notice, scope)
    ensures var w' := Next(w, Deliver(id, notice, scope));
            && Charges(w', k, s) == Charges(w, k, s)
            && Sums.Sum(w'.history, OwedIn(k, s)) == Sums.Sum(w.history, OwedIn(k, s))
                - (if k == w.history[id].key && s == scope then w.history[id].Unsent(notice)[s] else 0)
  {
    var e := w.history[id].Sent(notice, scope);
    SentOwesLess(w.history[id], notice, scope, s);
    Sums.Update(w.history, id, e, OwedIn(k, s));
    Sums.Update(w.history, id, e, ChargedIn(k, s));
  }

  lemma NotifyConserves(sys: System, id: nat, notice: Notice, scope: Scope)
    requires Conserved(sys) && Unsent(sys.world, id, notice, scope) && Fair(sys, Notify(id, notice, scope))
    ensures Conserved(Act(sys, Notify(id, notice, scope)))
  {
    var sys' := Act(sys, Notify(id, notice, scope));
    NextPreserves(sys.world, Deliver(id, notice, scope));
    forall k, s ensures Published(sys', k, s) == Charges(sys'.world, k, s) {
      assert Published(sys, k, s) == Charges(sys.world, k, s);
      DeliverFollows(sys.world, id, notice, scope, k, s);
    }
  }

  /** What is stored, in flight or pending for one row. */
  function Delivered(sys: System, id: Ident): int {
    Row(sys.rows, id) + Amount(sys.inflight, id) + Amount(sys.pending, id)
  }

  /** Storage actions only move spend between the three. */
  lemma StorageMoves(sys: System, action: Action, id: Ident)
    requires (action.Take? || action.Commit? || action.Rollback? || action.Close?) && Fair(sys, action)
    ensures Act(sys, action).world == sys.world && Delivered(Act(sys, action), id) == Delivered(sys, id)
  {
  }

  lemma StorageConserves(sys: System, action: Action)
    requires Conserved(sys) && (action.Take? || action.Commit? || action.Rollback? || action.Close?)
             && Fair(sys, action)
    ensures Conserved(Act(sys, action))
  {
    var sys' := Act(sys, action);
    forall k, s ensures Published(sys', k, s) == Charges(sys'.world, k, s) {
      assert Published(sys, k, s) == Charges(sys.world, k, s);
      StorageMoves(sys, action, Ident(k, s));
    }
    StorageMoves(sys, action, Ident("", Total));
  }

  lemma ActConserves(sys: System, action: Action)
    requires Conserved(sys) && Fair(sys, action)
    ensures Conserved(Act(sys, action))
  {
    match action
    case Limiter(step) => if !step.Deliver? { StepConserves(sys, step); }
    case Notify(id, notice, s) => if Unsent(sys.world, id, notice, s) { NotifyConserves(sys, id, notice, s); }
    case _ => StorageConserves(sys, action);
  }

  ghost predicate AllFair(sys: System, actions: seq<Action>)
    decreases |actions|
  {
    actions == [] || (Fair(sys, actions[0]) && AllFair(Act(sys, actions[0]), actions[1..]))
  }

  /** A sink call keeps the books exact if and only if Shutdown has not begun and the pending sum stays
      in the int64 range. */
  lemma NotifyConservesIff(sys: System, id: nat, notice: Notice, scope: Scope)
    requires Conserved(sys) && Unsent(sys.world, id, notice, scope)
    requires sys.world.history[id].Unsent(notice)[scope] != 0
    ensures Conserved(Act(sys, Notify(id, notice, scope))) <==> Fair(sys, Notify(id, notice, scope))
  {
    if Fair(sys, Notify(id, notice, scope)) {
      NotifyConserves(sys, id, notice, scope);
    } else {
      var k, sys' := sys.world.history[id].key, Act(sys, Notify(id, notice, scope));
      DeliverFollows(sys.world, id, notice, scope, k, scope);
      assert Published(sys, k, scope) == Charges(sys.world, k, scope);
      assert Published(sys', k, scope) != Charges(sys'.world, k, scope);
    }
  }

  /** Giving a failed batch back keeps the books exact if and only if every sum stays in the int64 range:
      a delta whose sum does not is forgotten. */
  lemma RollbackConservesIff(sys: System)
    requires Conserved(sys) && forall id :: id in sys.inflight ==> sys.inflight[id] != 0
    ensures Conserved(Act(sys, Rollback)) <==> Fair(sys, Rollback)
  {
    if Fair(sys, Rollback) {
      StorageConserves(sys, Rollback);
    } else {
      var id :| id in sys.inflight && !InInt64(Amount(sys.pending, id) + sys.inflight[id]);
      var k, s, sys' := id.key, id.scope, Act(sys, Rollback);
      assert id == Ident(k, s) && Published(sys, k, s) == Charges(sys.world, k, s);
      assert Published(sys', k, s) != Charges(sys'.world, k, s);
    }
  }

  /** In every run, for every key and scope, rows plus the batch in flight plus pending plus undelivered
      notifications are what was loaded plus what all reservations are charged. */
  lemma {:induction false} ConservationInvariant(sys: System, actions: seq<Action>)
    requires Conserved(sys) && AllFair(sys, actions)
    ensures Conserved(Acts(sys, actions))
    decreases |actions|
  {
    if actions != [] {
      ActConserves(sys, actions[0]);
      ConservationInvariant(Act(sys, actions[0]), actions[1..]);
    }
  }

  /** So the committed spend of a retained account is what is stored or on its way to storage. */
  lemma RetainedSpendIsPublished(sys: System, k: KeyId, s: Scope)
    requires Conserved(sys) && Kept(sys.world, k, s)
    ensures SpentIn(AccountsOf(sys.world.ledger, k), s) == Published(sys, k, s)
  {
    assert Published(sys, k, s) == Charges(sys.world, k, s);
    assert Balanced(sys.world, k, s);
  }

  // ---- No batch ever asks for a debt ----

  /** What is undelivered of a charge and its revision does not exceed the charge they amount to. */
  predicate Covered(e: Entry) { forall s :: s in e.captured ==> OwedBy(e, s) <= e.Charge() }

  predicate Tidy(batch: Batch, keys: set<KeyId>) { forall id :: id in batch ==> batch[id] != 0 && id.key in keys }

  ghost predicate Solvent(sys: System) {
    && Conserved(sys)
    && Tidy(sys.inflight, sys.keys) && Tidy(sys.pending, sys.keys)
    && (forall id :: 0 <= Row(sys.rows, id) + Amount(sys.inflight, id))
    && (forall i :: 0 <= i < |sys.world.history| ==>
        Covered(sys.world.history[i]) && sys.world.history[i].key in sys.keys)
  }

  /** A refund is delivered to the sink only after the charge it gives back, and requests are admitted
      for stored keys only. */
  predicate ChargedFirst(sys: System, action: Action) {
    match action
    case Notify(id, OfRevision, s) =>
      Unsent(sys.world, id, OfRevision, s) && sys.world.history[id].revised[s] < 0 ==>
        !Unsent(sys.world, id, OfCharge, s)
    case Limiter(Reserve(key, _, _, _)) => key in sys.keys
    case _ => true
  }

  /** Rows, flight and pending together never go negative: every delivered refund has its delivered charge. */
  lemma DeliveredNonNegative(sys: System, k: KeyId, s: Scope)
    requires Conserved(sys) && forall i :: 0 <= i < |sys.world.history| ==> Covered(sys.world.history[i])
    ensures 0 <= Row(sys.rows, Ident(k, s)) + Amount(sys.inflight, Ident(k, s)) + Amount(sys.pending, Ident(k, s))
  {
    assert Published(sys, k, s) == Charges(sys.world, k, s);
    var h := sys.world.history;
    forall i | 0 <= i < |h| ensures OwedIn(k, s)(h[i]) <= ChargedIn(k, s)(h[i]) {
      assert Covered(h[i]) && QuietEntry(h[i]);
    }
    Sums.Below(h, OwedIn(k, s), ChargedIn(k, s));
  }

  lemma StepCovers(w: World, keys: set<KeyId>, step: Step)
    requires Inv(w) && AllQuiet(w.history) && Truthful(w, step)
    requires forall i :: 0 <= i < |w.history| ==> Covered(w.history[i]) && w.history[i].key in keys
    requires step.Reserve? ==> step.key in keys
    requires !step.Deliver?
    ensures forall i :: 0 <= i < |Next(w, step).history| ==>
                          Covered(Next(w, step).history[i]) && Next(w, step).history[i].key in keys
  {
    if step.Settle? && step.id < |w.history| && w.history[step.id].status == Live {
      SettlePublishes(w, step.id, step.kind, step.actual);
    } else if step.Adjust? && step.id < |w.history| && w.history[step.id].status == Ticketed {
      AdjustPublishes(w, step.id, step.actual);
    }
  }

  lemma NotifySolvent(sys: System, id: nat, notice: Notice, s: Scope)
    requires Solvent(sys) && Unsent(sys.world, id, notice, s)
    requires Fair(sys, Notify(id, notice, s)) && ChargedFirst(sys, Notify(id, notice, s))
    ensures Solvent(Act(sys, Notify(id, notice, s)))
  {
    NotifyConserves(sys, id, notice, s);
    var e, e' := sys.world.history[id], Act(sys, Notify(id, notice, s)).world.history[id];
    assert Covered(e) && QuietEntry(e) && e'.Charge() == e.Charge();
    assert Covered(e');
  }

  lemma ActSolvent(sys: System, action: Action)
    requires Solvent(sys) && Fair(sys, action) && ChargedFirst(sys, action)
    ensures Solvent(Act(sys, action))
  {
    match action
    case Limiter(step) =>
      ActConserves(sys, action);
      if !step.Deliver? { StepCovers(sys.world, sys.keys, step); }
    case Notify(id, notice, s) => if Unsent(sys.world, id, notice, s) { NotifySolvent(sys, id, notice, s); }
    case _ => StorageSolvent(sys, action);
  }

  lemma StorageSolvent(sys: System, action: Action)
    requires Solvent(sys) && Fair(sys, action) && (action.Take? || action.Commit? || action.Rollback? || action.Close?)
    ensures Solvent(Act(sys, action))
  {
    ActConserves(sys, action);
    var sys' := Act(sys, action);
    forall id ensures 0 <= Row(sys'.rows, id) + Amount(sys'.inflight, id) {
      DeliveredNonNegative(sys, id.key, id.scope);
      assert Ident(id.key, id.scope) == id && 0 <= Row(sys.rows, id) + Amount(sys.inflight, id);
    }
  }

  ghost predicate AllChargedFirst(sys: System, actions: seq<Action>)
    decreases |actions|
  {
    actions == [] || (ChargedFirst(sys, actions[0]) && AllChargedFirst(Act(sys, actions[0]), actions[1..]))
  }

  /** Through any sequence of sink calls, flushes, failures and retries the stored spend never has to
      go below zero: a batch can be refused for a row overflow but never for an underflow. */
  lemma {:induction false} BatchesNeverUnderflow(sys: System, actions: seq<Action>)
    requires Solvent(sys) && AllFair(sys, actions) && AllChargedFirst(sys, actions)
    ensures var sys' := Acts(sys, actions);
            && Solvent(sys')
            && forall id :: id in sys'.inflight ==>
                              (Admissible(sys'.rows, sys'.keys, Delta(id, sys'.inflight[id]))
                               <==> Row(sys'.rows, id) + sys'.inflight[id] <= MAX_MICROS)
    decreases |actions|
  {
    if actions != [] {
      ActSolvent(sys, actions[0]);
      BatchesNeverUnderflow(Act(sys, actions[0]), actions[1..]);
    } else {
      assert forall id :: 0 <= Row(sys.rows, id) + Amount(sys.inflight, id);
    }
  }

  // ---- Restart ----

  /** The spend a list of rows gives to one account. */
  function ValueIn(rows: seq<SpentRow>, k: KeyId, s: Scope): Micros {
    if rows == [] then 0
    else
      var last := rows[|rows| - 1];
      if last.key == k && last.scope == s && last.spent.Known? then last.spent.micros
      else ValueIn(rows[..|rows| - 1], k, s)
  }

  lemma {:induction false} AbsentReadsZero(rows: seq<SpentRow>, k: KeyId, s: Scope)
    requires forall i :: 0 <= i < |rows| ==> !(rows[i].key == k && rows[i].scope == s)
    ensures ValueIn(rows, k, s) == 0
  {
    if rows != [] { AbsentReadsZero(rows[..|rows| - 1], k, s); }
  }

  lemma {:induction false} LoadShape(rows: seq<SpentRow>)
    requires ValidRows(rows)
    ensures var l := LoadRows(EMPTY_LEDGER, rows); Books(l) && l.lastNow == None && l.policies == map[]
  {
    if rows != [] {
      LoadShape(rows[..|rows| - 1]);
    }
  }

  lemma LoadRowReads(l: Ledger, row: SpentRow, k: KeyId, s: Scope)
    requires row.spent.Known? && (row.key in l.books ==> Total in l.books[row.key].accounts)
    ensures var a := AccountsOf(LoadRow(l, row), k);
            if row.key == k && row.scope == s && row.spent != ZERO
            then SpentIn(a, s) == row.spent.micros && ActiveIn(a, s) <= ActiveIn(AccountsOf(l, k), s)
            else SpentIn(a, s) == SpentIn(AccountsOf(l, k), s) && ActiveIn(a, s) == ActiveIn(AccountsOf(l, k), s)
  {
  }

  /** Loading into an empty limiter gives every account exactly its row and no active amount. */
  lemma {:induction false} LoadReads(rows: seq<SpentRow>, k: KeyId, s: Scope)
    requires ValidRows(rows)
    ensures var a := AccountsOf(LoadRows(EMPTY_LEDGER, rows), k);
            SpentIn(a, s) == ValueIn(rows, k, s) && ActiveIn(a, s) == 0
  {
    if rows != [] {
      var front, last := rows[..|rows| - 1], rows[|rows| - 1];
      LoadReads(front, k, s);
      LoadShape(front);
      LoadRowReads(LoadRows(EMPTY_LEDGER, front), last, k, s);
      if last.key == k && last.scope == s {
        forall i | 0 <= i < |front| ensures !(front[i].key == k && front[i].scope == s) {
          assert !SameTarget(rows[i], last);
        }
        AbsentReadsZero(front, k, s);
      }
    }
  }

  function LoadedFrom(l: Ledger): map<KeyId, map<Scope, Micros>> {
    map k | k in l.books :: map s | s in l.books[k].accounts :: SpentIn(l.books[k].accounts, s)
  }

  function Fresh(rows: seq<SpentRow>): World {
    var l := LoadRows(EMPTY_LEDGER, rows);
    World(l, [], LoadedFrom(l))
  }

  /** A freshly loaded limiter satisfies the ledger invariant, so every run above may start from it. */
  lemma LoadEstablishesInv(rows: seq<SpentRow>)
    requires ValidRows(rows)
    ensures Load(EMPTY_LEDGER, rows) == Ok(Fresh(rows).ledger)
    ensures Inv(Fresh(rows))
  {
    LoadShape(rows);
    forall k, s ensures Balanced(Fresh(rows), k, s) { LoadReads(rows, k, s); }
  }
}
