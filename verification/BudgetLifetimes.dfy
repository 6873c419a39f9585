/** From start-up to start-up: which systems a process starts from, and what survives a restart
    (cmd/gateway/main.go, internal/storage/budget_buckets.go). */
module BudgetLifetimes {
  import opened Wrappers
  import opened Money
  import opened Calendar
  import opened BudgetBook
  import opened BudgetRuns
  import opened BudgetRows
  import opened BudgetPersistence
  import Sums

  // ---- Start-up ----

  predicate Restored(s: Scope, now: Moment) { s == Total || s == Day(now.day) || s == Month(now.month) }

  predicate Ahead(s: Scope, now: Moment) {
    match s
    case Total => false
    case Day(d) => now.day < d
    case Month(m) => now.month < m
  }

  /** DeleteExpiredDays and DeleteExpiredMonths. */
  function Swept(rows: Rows, now: Moment): Rows { map id | id in rows && !Past(id.scope, now) :: rows[id] }

  /** The start-up input: the total rows, and the rows of the current day and month. */
  ghost predicate StartupInput(rows: Rows, now: Moment, input: seq<SpentRow>) {
    && ValidRows(input)
    && forall k, s :: ValueIn(input, k, s) == if Restored(s, now) then Row(rows, Ident(k, s)) else 0
  }

  /** The system a process starts from. */
  function Boot(rows: Rows, now: Moment, input: seq<SpentRow>, keys: set<KeyId>): System {
    System(Fresh(input), map[], map[], Swept(rows, now), keys, true)
  }

  ghost predicate NoneAhead(rows: Rows, now: Moment) {
    forall id :: id in rows && rows[id] != 0 ==> !Ahead(id.scope, now)
  }

  lemma BootPublishes(rows: Rows, now: Moment, input: seq<SpentRow>, keys: set<KeyId>, k: KeyId, s: Scope)
    requires StartupInput(rows, now, input)
    ensures var sys := Boot(rows, now, input, keys);
            && Published(sys, k, s) == Row(Swept(rows, now), Ident(k, s))
            && Charges(sys.world, k, s) == if Restored(s, now) then Row(rows, Ident(k, s)) else 0
  {
    LoadReads(input, k, s);
  }

  /** A process starts with exact books if and only if no stored spend is dated after its clock: a row
      of a later day or month is neither deleted nor loaded. */
  lemma BootConservedIff(rows: Rows, now: Moment, input: seq<SpentRow>, keys: set<KeyId>)
    requires StartupInput(rows, now, input)
    ensures Conserved(Boot(rows, now, input, keys)) <==> NoneAhead(rows, now)
  {
    var sys := Boot(rows, now, input, keys);
    LoadEstablishesInv(input);
    forall k, s ensures Published(sys, k, s) == Charges(sys.world, k, s)
                        <==> (Ident(k, s) in rows && rows[Ident(k, s)] != 0 ==> !Ahead(s, now))
    {
      BootPublishes(rows, now, input, keys, k, s);
    }
    if Conserved(sys) {
      forall id | id in rows && rows[id] != 0 ensures !Ahead(id.scope, now) {
        assert Published(sys, id.key, id.scope) == Charges(sys.world, id.key, id.scope);
        assert id == Ident(id.key, id.scope);
      }
    }
  }

  /** Then every batch it will submit is covered as well. */
  lemma BootSolvent(rows: Rows, now: Moment, input: seq<SpentRow>, keys: set<KeyId>)
    requires StartupInput(rows, now, input) && NoneAhead(rows, now)
    ensures Solvent(Boot(rows, now, input, keys))
  {
    BootConservedIff(rows, now, input, keys);
  }

  /** The clock moved back across a restart: yesterday's process left a row of what is now tomorrow.
      It stays stored, is not loaded, and the books do not start out exact. */
  lemma LaterRowIsLost()
    ensures exists rows, now, input, keys ::
              StartupInput(rows, now, input) && now == At(now.at) && !Conserved(Boot(rows, now, input, keys))
  {
    var t := 40 * DAY;
    var now := At(t);
    var id := Ident("key", Day(41));
    var rows: Rows := map[id := 5];
    assert DayOf(t) == 40;
    assert StartupInput(rows, now, []) by {
      forall k, s ensures ValueIn([], k, s) == if Restored(s, now) then Row(rows, Ident(k, s)) else 0 {}
    }
    BootConservedIff(rows, now, [], {"key"});
    assert id in rows && rows[id] != 0 && Ahead(id.scope, now);
  }

  /** So in every run from there, until the process ends, every microdollar is accounted for. */
  lemma StartedSystemsConserve(rows: Rows, now: Moment, input: seq<SpentRow>, keys: set<KeyId>, actions: seq<Action>)
    requires StartupInput(rows, now, input) && NoneAhead(rows, now) && AllFair(Boot(rows, now, input, keys), actions)
    ensures Conserved(Acts(Boot(rows, now, input, keys), actions))
  {
    BootConservedIff(rows, now, input, keys);
    ConservationInvariant(Boot(rows, now, input, keys), actions);
  }

  // ---- Nothing is dated after the clock ----

  predicate Begun(captured: set<Scope>, now: Option<Moment>) {
    now.Some? && forall s :: s in captured ==> !Ahead(s, now.value)
  }

  /** Every scope a reservation captured had begun when the clock was last read. */
  ghost predicate Dated(w: World) {
    forall i :: 0 <= i < |w.history| ==> Begun(w.history[i].captured, w.ledger.lastNow)
  }

  lemma ReserveKeepsDated(w: World, key: KeyId, p: Policy, candidate: Money, reading: Instant)
    requires Inv(w) && Dated(w)
    ensures Dated(NextReserve(w, key, p, candidate, reading))
  {
    var w' := NextReserve(w, key, p, candidate, reading);
    ClockMonotone(w.ledger, reading);
    forall i | 0 <= i < |w'.history| ensures Begun(w'.history[i].captured, w'.ledger.lastNow) {
      if i < |w.history| {
        assert w'.history[i] == w.history[i] && Begun(w.history[i].captured, w.ledger.lastNow);
      }
    }
  }

  lemma NextKeepsDated(w: World, step: Step)
    requires Inv(w) && Dated(w)
    ensures Dated(Next(w, step)) && Next(w, step).loaded == w.loaded
  {
    if step.Reserve? {
      ReserveKeepsDated(w, step.key, step.policy, step.candidate, step.reading);
    } else {
      var w' := Next(w, step);
      forall i | 0 <= i < |w'.history| ensures Begun(w'.history[i].captured, w'.ledger.lastNow) {
        assert w'.history[i].captured == w.history[i].captured && Begun(w.history[i].captured, w.ledger.lastNow);
      }
    }
  }

  lemma {:induction false} ActsKeepDated(sys: System, actions: seq<Action>)
    requires Conserved(sys) && AllFair(sys, actions) && Dated(sys.world)
    ensures var sys' := Acts(sys, actions);
            Dated(sys'.world) && sys'.world.loaded == sys.world.loaded && sys'.keys == sys.keys
    decreases |actions|
  {
    if actions != [] {
      ActConserves(sys, actions[0]);
      match actions[0] {
        case Limiter(step) => NextKeepsDated(sys.world, step);
        case Notify(id, notice, s) => NextKeepsDated(sys.world, Deliver(id, notice, s));
        case _ =>
      }
      ActsKeepDated(Act(sys, actions[0]), actions[1..]);
    }
  }

  /** Everything delivered and written: where a process may end without losing spend. */
  predicate Quiet(sys: System) {
    && sys.pending == map[] && sys.inflight == map[]
    && forall i :: 0 <= i < |sys.world.history| ==> sys.world.history[i].owed == sys.world.history[i].revised == map[]
  }

  /** Everything published was delivered, and everything delivered was written. */
  ghost predicate Settled(sys: System) { Conserved(sys) && Quiet(sys) }

  /** Stored spend was loaded or charged to a reservation that captured the scope. */
  lemma StoredIsDated(sys: System, start: Moment, now: Moment, id: Ident)
    requires Settled(sys) && Dated(sys.world) && NotBefore(start, now)
    requires sys.world.ledger.lastNow.Some? ==> NotBefore(sys.world.ledger.lastNow.value, now)
    requires forall k, s :: Base(sys.world, k, s) != 0 ==> !Ahead(s, start)
    ensures id in sys.rows && sys.rows[id] != 0 ==> !Ahead(id.scope, now)
  {
    var k, s, h := id.key, id.scope, sys.world.history;
    assert id == Ident(k, s) && Published(sys, k, s) == Charges(sys.world, k, s);
    Sums.Zero(h, OwedIn(k, s));
    if forall i :: 0 <= i < |h| ==> s !in h[i].captured {
      Sums.Zero(h, ChargedIn(k, s));
    } else {
      var i :| 0 <= i < |h| && s in h[i].captured;
      assert Begun(h[i].captured, sys.world.ledger.lastNow);
    }
  }

  // ---- Restart ----

  /** After everything was delivered and the last batch committed, a restart at any time restores, in
      each account it loads and the old process still kept, exactly the spend the old process had. */
  lemma RestartRestoresSpend(sys: System, now: Moment, input: seq<SpentRow>, k: KeyId, s: Scope)
    requires Settled(sys) && StartupInput(sys.rows, now, input) && Restored(s, now) && Kept(sys.world, k, s)
    ensures SpentIn(AccountsOf(Boot(sys.rows, now, input, sys.keys).world.ledger, k), s)
            == SpentIn(AccountsOf(sys.world.ledger, k), s)
  {
    RetainedSpendIsPublished(sys, k, s);
    Sums.Zero(sys.world.history, OwedIn(k, s));
    LoadReads(input, k, s);
  }

  /** One process: when it started, what it loaded, and what happened until it ended. */
  datatype Life = Life(now: Moment, input: seq<SpentRow>, actions: seq<Action>)

  ghost function Ended(rows: Rows, keys: set<KeyId>, life: Life): System {
    Acts(Boot(rows, life.now, life.input, keys), life.actions)
  }

  predicate NotEarlier(sys: System, start: Moment, now: Moment) {
    NotBefore(start, now) && (sys.world.ledger.lastNow.Some? ==> NotBefore(sys.world.ledger.lastNow.value, now))
  }

  /** Each process loads what the one before stored and keeps the guards; each but the last ends with
      everything written, and the next does not start on an earlier date than it had seen. */
  ghost predicate Chained(rows: Rows, keys: set<KeyId>, lives: seq<Life>)
    decreases |lives|
  {
    lives == [] ||
    var sys := Boot(rows, lives[0].now, lives[0].input, keys);
    var end := Acts(sys, lives[0].actions);
    && StartupInput(rows, lives[0].now, lives[0].input)
    && AllFair(sys, lives[0].actions) && AllChargedFirst(sys, lives[0].actions)
    && (1 < |lives| ==>
          Quiet(end) && NotEarlier(end, lives[0].now, lives[1].now) && Chained(end.rows, keys, lives[1..]))
  }

  /** What the last of a chain of processes started from. */
  ghost function StoredBefore(rows: Rows, keys: set<KeyId>, lives: seq<Life>): Rows
    decreases |lives|
  {
    if |lives| <= 1 then rows else StoredBefore(Ended(rows, keys, lives[0]).rows, keys, lives[1..])
  }

  lemma OneLifeConserves(rows: Rows, keys: set<KeyId>, life: Life)
    requires StartupInput(rows, life.now, life.input) && NoneAhead(rows, life.now)
    requires AllFair(Boot(rows, life.now, life.input, keys), life.actions)
    requires AllChargedFirst(Boot(rows, life.now, life.input, keys), life.actions)
    ensures Solvent(Ended(rows, keys, life)) && Dated(Ended(rows, keys, life).world)
    ensures Ended(rows, keys, life).world.loaded == Fresh(life.input).loaded
  {
    var sys := Boot(rows, life.now, life.input, keys);
    BootSolvent(rows, life.now, life.input, keys);
    BatchesNeverUnderflow(sys, life.actions);
    ActsKeepDated(sys, life.actions);
  }

  lemma LoadedIsRestored(rows: Rows, now: Moment, input: seq<SpentRow>, k: KeyId, s: Scope)
    requires StartupInput(rows, now, input)
    ensures Base(Fresh(input), k, s) != 0 ==> !Ahead(s, now)
  {
    LoadReads(input, k, s);
  }

  /** The next process starts with exact books again. */
  lemma NextLifeStarts(rows: Rows, keys: set<KeyId>, life: Life, now: Moment, input: seq<SpentRow>)
    requires StartupInput(rows, life.now, life.input) && NoneAhead(rows, life.now)
    requires AllFair(Boot(rows, life.now, life.input, keys), life.actions)
    requires AllChargedFirst(Boot(rows, life.now, life.input, keys), life.actions)
    requires Quiet(Ended(rows, keys, life)) && NotEarlier(Ended(rows, keys, life), life.now, now)
    requires StartupInput(Ended(rows, keys, life).rows, now, input)
    ensures NoneAhead(Ended(rows, keys, life).rows, now)
    ensures Conserved(Boot(Ended(rows, keys, life).rows, now, input, keys))
  {
    var end := Ended(rows, keys, life);
    OneLifeConserves(rows, keys, life);
    forall k, s ensures Base(end.world, k, s) != 0 ==> !Ahead(s, life.now) {
      LoadedIsRestored(rows, life.now, life.input, k, s);
    }
    forall id
      ensures id in end.rows && end.rows[id] != 0 ==> !Ahead(id.scope, now)
    {
      StoredIsDated(end, life.now, now, id);
    }
    BootConservedIff(end.rows, now, input, keys);
  }

  /** Through any chain of process lifetimes the books stay exact and every batch stays covered: at
      every moment of the last one, loaded spend plus charges is stored, in flight, pending or on
      its way to the sink. */
  lemma {:induction false} EveryLifetimeConserves(rows: Rows, keys: set<KeyId>, lives: seq<Life>)
    requires lives != [] && Chained(rows, keys, lives) && NoneAhead(rows, lives[0].now)
    ensures var last := lives[|lives| - 1];
            var before := StoredBefore(rows, keys, lives);
            && StartupInput(before, last.now, last.input) && NoneAhead(before, last.now)
            && Solvent(Ended(before, keys, last))
    decreases |lives|
  {
    OneLifeConserves(rows, keys, lives[0]);
    if 1 < |lives| {
      NextLifeStarts(rows, keys, lives[0], lives[1].now, lives[1].input);
      EveryLifetimeConserves(Ended(rows, keys, lives[0]).rows, keys, lives[1..]);
    }
  }
}
