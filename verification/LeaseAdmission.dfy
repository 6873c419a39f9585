/** Composite admission (internal/limiter/lease.go): concurrency first, then tokens, then budget,
    with what was taken given back in reverse order when a later resource refuses. */
module LeaseAdmission {
  import opened Wrappers
  import Money
  import WindowClock
  import Windows
  import Calendar
  import BudgetBook
  import BudgetRuns
  import BudgetLimiter
  import BudgetReservations
  import TokenBook
  import TokenRuns
  import TokenLimiter
  import TokenReservations
  import opened Concurrency

  datatype Resource = ConcurrencySlot | TokenWindows | Budget

  datatype AdmissionError = AdmissionError(resource: Resource, resetAt: Option<int>, invalid: bool)

  datatype Options = Options(key: KeyId, maxConcurrency: int, windows: seq<Windows.Window>,
                             tokenAmount: WindowClock.Int64,
                             policy: BudgetBook.Policy, candidate: Money.Money)

  /** The clock readings the stages of one admission take. */
  datatype Readings = Readings(reserve: WindowClock.Time, rollback: WindowClock.Time, budget: Calendar.Instant)

  predicate BudgetRequested(o: Options) { o.policy.limited || o.candidate.Known? }

  // ---- What each resource decides ----

  predicate SlotsGone(m: Slots, o: Options) { 0 < o.maxConcurrency <= ActiveIn(m, o.key) }

  /** A negative amount is malformed; a zero amount asks for nothing. */
  ghost predicate TokensRefuse(t: TokenBook.Tokens, o: Options, reading: WindowClock.Time) {
    o.tokenAmount < 0 || (0 < o.tokenAmount
                          && TokenBook.Reserve(t, o.key, o.windows, o.tokenAmount, reading).1.Rejected?)
  }

  ghost function TokensAfter(t: TokenBook.Tokens, o: Options, reading: WindowClock.Time): TokenBook.Tokens {
    if 0 < o.tokenAmount then TokenBook.Reserve(t, o.key, o.windows, o.tokenAmount, reading).0 else t
  }

  ghost predicate BudgetRefuses(l: BudgetBook.Ledger, o: Options, reading: Calendar.Instant) {
    BudgetRequested(o) && (o.candidate.Unknown?
                           || BudgetBook.Reserve(l, o.key, o.policy, o.candidate, reading).1.Refused?)
  }

  ghost function BudgetAfter(l: BudgetBook.Ledger, o: Options, reading: Calendar.Instant): BudgetBook.Ledger {
    if BudgetRequested(o) then BudgetBook.Reserve(l, o.key, o.policy, o.candidate, reading).0 else l
  }

  /** What a refusal reports: a time when there will be room, or that waiting does not help. */
  ghost function TokenRefusal(t: TokenBook.Tokens, o: Options, reading: WindowClock.Time): AdmissionError
    requires TokensRefuse(t, o, reading)
  {
    if o.tokenAmount < 0 then AdmissionError(TokenWindows, None, true)
    else AdmissionError(TokenWindows, TokenBook.Reserve(t, o.key, o.windows, o.tokenAmount, reading).1.resetAt, false)
  }

  ghost function BudgetRefusal(l: BudgetBook.Ledger, o: Options, reading: Calendar.Instant): AdmissionError
    requires BudgetRefuses(l, o, reading)
  {
    if o.candidate.Unknown? then AdmissionError(Budget, None, true)
    else
      match BudgetBook.Reserve(l, o.key, o.policy, o.candidate, reading).1.error
      case Capacity(resetAt, _) => AdmissionError(Budget, resetAt, false)
      case _ => AdmissionError(Budget, None, true)
  }

  // ---- What a refused admission leaves unchanged ----

  /** Every bucket whose window is not over reads as before. */
  ghost predicate SameTokens(t: TokenBook.Tokens, t': TokenBook.Tokens) {
    && t'.policies == t.policies && t.lastNow <= t'.lastNow
    && forall b :: !TokenBook.Expired(b, t'.lastNow) ==> TokenBook.At(t'.buckets, b) == TokenBook.At(t.buckets, b)
  }

  /** Every account that is still there is as before; one that is gone belonged to a past period with nothing active. */
  ghost predicate SameAccount(l: BudgetBook.Ledger, l': BudgetBook.Ledger, k: KeyId, s: BudgetBook.Scope) {
    var a, a' := BudgetRuns.AccountsOf(l, k), BudgetRuns.AccountsOf(l', k);
    if s in a' then s in a && a'[s] == a[s]
    else s in a ==> a[s].active == Money.ZERO && l'.lastNow.Some? && BudgetBook.Past(s, l'.lastNow.value)
  }

  ghost predicate SameBudgets(l: BudgetBook.Ledger, l': BudgetBook.Ledger) {
    l'.policies == l.policies && l'.sequence == l.sequence && forall k, s :: SameAccount(l, l', k, s)
  }

  lemma RejectedTokensUnchanged(t: TokenBook.Tokens, key: KeyId, windows: seq<Windows.Window>,
                                amount: WindowClock.Int64,
                                reading: WindowClock.Time)
    requires !TokenBook.Reserve(t, key, windows, amount, reading).1.Admitted?
    ensures SameTokens(t, TokenBook.Reserve(t, key, windows, amount, reading).0)
  {
  }

  /** Releasing a reservation that was just made, even at a later reading, is as if it had not been made. */
  lemma ReleaseUndoesReserve(t: TokenBook.Tokens, key: KeyId, windows: seq<Windows.Window>, amount: WindowClock.Int64,
                             reading: WindowClock.Time, later: WindowClock.Time)
    requires TokenBook.Reserve(t, key, windows, amount, reading).1.Admitted?
    ensures var (held, admission) := TokenBook.Reserve(t, key, windows, amount, reading);
            SameTokens(t, TokenBook.Settle(held, admission.captured, amount, TokenBook.Release, later))
  {
    var (held, admission) := TokenBook.Reserve(t, key, windows, amount, reading);
    var released := TokenBook.Settle(held, admission.captured, amount, TokenBook.Release, later);
    forall b | !TokenBook.Expired(b, released.lastNow)
      ensures TokenBook.At(released.buckets, b) == TokenBook.At(t.buckets, b)
    {
      assert !TokenBook.Expired(b, held.lastNow);
    }
  }

  lemma RefusedBudgetUnchanged(l: BudgetBook.Ledger, key: KeyId, p: BudgetBook.Policy, candidate: Money.Money,
                               reading: Calendar.Instant)
    requires BudgetBook.Reserve(l, key, p, candidate, reading).1.Refused?
    ensures SameBudgets(l, BudgetBook.Reserve(l, key, p, candidate, reading).0)
  {
    if BudgetBook.Considered(l, key, p, candidate) {
      BudgetLimiter.ReserveByParts(l, key, p, candidate, reading);
    }
  }

  class ResourceLease {
    const concurrency: Lease
    const tokens: TokenReservations.TokenReservation?
    const budget: BudgetReservations.BudgetReservation?

    constructor (concurrency: Lease, tokens: TokenReservations.TokenReservation?,
                 budget: BudgetReservations.BudgetReservation?)
      ensures this.concurrency == concurrency && this.tokens == tokens && this.budget == budget
    {
      this.concurrency, this.tokens, this.budget := concurrency, tokens, budget;
    }
  }

  class ResourceLeaseCoordinator {
    const concurrency: ConcurrencyLimiter?
    const tokens: TokenLimiter.TokenLimiter?
    const budgets: BudgetLimiter.BudgetLimiter?

    constructor (concurrency: ConcurrencyLimiter?, tokens: TokenLimiter.TokenLimiter?,
                 budgets: BudgetLimiter.BudgetLimiter?)
      ensures this.concurrency == concurrency && this.tokens == tokens && this.budgets == budgets
    {
      this.concurrency, this.tokens, this.budgets := concurrency, tokens, budgets;
    }

    ghost predicate Valid()
      reads concurrency, budgets
    {
      (concurrency != null ==> concurrency.Valid()) && (budgets != null ==> budgets.Valid())
    }

    ghost function Tokens(): Option<TokenBook.Tokens>
      reads tokens
    {
      if tokens == null then None else Some(tokens.State())
    }

    ghost function Budgets(): Option<BudgetBook.Ledger>
      reads budgets
    {
      if budgets == null then None else Some(budgets.ledger)
    }

    /** Both limiters have admitted what was asked of them, and the lease owns what they gave. */
    ghost predicate Admitted(lease: ResourceLease, t: Option<TokenBook.Tokens>, l: Option<BudgetBook.Ledger>,
                             o: Options, at: Readings)
      reads tokens, budgets
    {
      && Tokens() == (if t.None? then None else Some(TokensAfter(t.value, o, at.reserve)))
      && Budgets() == (if l.None? then None else Some(BudgetAfter(l.value, o, at.budget)))
      && (lease.tokens != null <==> t.Some? && 0 < o.tokenAmount)
      && (lease.budget != null <==> l.Some? && BudgetRequested(o))
    }

    /** The reservation holds what Reserve at `before` admitted. */
    ghost predicate Holds(r: TokenReservations.TokenReservation?, before: TokenBook.Tokens, o: Options,
                          reading: WindowClock.Time)
      reads tokens, r
    {
      tokens != null &&
      if r == null || r.limiter == null then tokens.State() == before
      else
        var (t, admission) := TokenBook.Reserve(before, o.key, o.windows, o.tokenAmount, reading);
        && r.limiter == tokens && r.ticket == null && r.amount == o.tokenAmount && 0 < r.amount && r.keys != []
        && admission == TokenBook.Admitted(TokenLimiter.KeysOf(r.keys)) && tokens.State() == t
    }

    /** The token stage. */
    method AdmitTokens(o: Options, reading: WindowClock.Time)
      returns (r: TokenReservations.TokenReservation?, error: Option<AdmissionError>)
      modifies tokens
      ensures r != null ==> fresh(r) && !r.finalized && TokenLimiter.Distinct(r.keys)
      ensures error != None ==> r == null && (tokens != null ==> SameTokens(old(tokens.State()), tokens.State()))
      ensures error == None ==> if tokens == null then r == null else Holds(r, old(tokens.State()), o, reading)
      ensures error != None <==> tokens != null && TokensRefuse(old(tokens.State()), o, reading)
      ensures error != None ==> error.value == TokenRefusal(old(tokens.State()), o, reading)
      ensures error == None && tokens != null ==>
                tokens.State() == TokensAfter(old(tokens.State()), o, reading) && (r != null <==> 0 < o.tokenAmount)
    {
      r, error := null, None;
      if tokens == null { return; }
      if o.tokenAmount < 0 { return null, Some(AdmissionError(TokenWindows, None, true)); }
      if o.tokenAmount == 0 { return; }
      ghost var before := tokens.State();
      var resetAt;
      r, resetAt := TokenReservations.Reserve(tokens, o.key, o.windows, o.tokenAmount, reading,
                                              TokenRuns.World(before, [], map[]));
      if r == null {
        RejectedTokensUnchanged(before, o.key, o.windows, o.tokenAmount, reading);
        error := Some(AdmissionError(TokenWindows, resetAt, false));
      }
    }

    /** Gives the token reservation back before the request went upstream: no bucket keeps anything of it. */
    method RollBack(r: TokenReservations.TokenReservation?, ghost before: TokenBook.Tokens, ghost o: Options,
                    ghost reading: WindowClock.Time, later: WindowClock.Time)
      returns (deltas: seq<(TokenBook.BucketKey, int)>)
      requires r != null ==> Holds(r, before, o, reading) && !r.finalized && TokenLimiter.Distinct(r.keys)
      modifies r, tokens
      ensures deltas == []
      ensures r != null ==> SameTokens(before, tokens.State())
      ensures r == null && tokens != null ==> tokens.State() == old(tokens.State())
    {
      deltas := [];
      if r != null {
        ghost var e := TokenRuns.Entry(TokenLimiter.KeysOf(r.keys), r.amount, TokenRuns.Live);
        if r.limiter != null { ReleaseUndoesReserve(before, o.key, o.windows, o.tokenAmount, reading, later); }
        var error;
        error, deltas := r.Finalize(TokenBook.Release, later, TokenRuns.World(tokens.State(), [e], map[]), 0);
      }
    }

    /** The budget stage: nothing held when it fails. */
    method AdmitBudget(o: Options, reading: Calendar.Instant)
      returns (r: BudgetReservations.BudgetReservation?, error: Option<AdmissionError>)
      requires budgets != null ==> budgets.Valid()
      modifies budgets
      ensures budgets != null ==> budgets.Valid()
      ensures error != None && budgets != null ==> SameBudgets(old(budgets.ledger), budgets.ledger)
      ensures error != None <==> budgets != null && BudgetRefuses(old(budgets.ledger), o, reading)
      ensures error != None ==> r == null && error.value == BudgetRefusal(old(budgets.ledger), o, reading)
      ensures error == None ==>
                if budgets == null then r == null
                else && budgets.ledger == BudgetAfter(old(budgets.ledger), o, reading)
                     && (r != null <==> BudgetRequested(o))
    {
      r, error := null, None;
      if budgets == null || !BudgetRequested(o) { return; }
      if o.candidate.Unknown? { return null, Some(AdmissionError(Budget, None, true)); }
      ghost var before := budgets.ledger;
      var refusal;
      r, refusal := BudgetReservations.Reserve(budgets, o.key, o.policy, o.candidate, reading,
                                               BudgetRuns.World(before, [], map[]));
      if r == null {
        RefusedBudgetUnchanged(before, o.key, o.policy, o.candidate, reading);
        var capacity := refusal.value.Capacity?;
        error := Some(AdmissionError(Budget, if capacity then refusal.value.resetAt else None, !capacity));
      }
    }

    /** After the slot: all of the rest, or none of it and the slot given back. */
    method FinishAdmission(slot: Lease, o: Options, at: Readings)
      returns (lease: ResourceLease?, error: Option<AdmissionError>, deltas: seq<(TokenBook.BucketKey, int)>)
      requires Valid() && !slot.released && (slot.limiter != null ==> slot.limiter == concurrency)
      modifies slot`released, concurrency, tokens, budgets
      ensures Valid() && (lease == null <==> error != None) && deltas == []
      ensures lease == null ==>
                && (tokens != null ==> SameTokens(old(tokens.State()), tokens.State()))
                && (budgets != null ==> SameBudgets(old(budgets.ledger), budgets.ledger))
                && slot.released
                && (concurrency != null ==>
                      && concurrency.made == old(concurrency.made)
                      && concurrency.states == if slot.limiter == null then old(concurrency.states)
                                               else Lowered(old(concurrency.states), old(slot.Record())))
      ensures lease != null ==>
                && fresh(lease) && lease.concurrency == slot && !slot.released
                && (concurrency != null ==> concurrency.states == old(concurrency.states))
      ensures lease == null <==> (tokens != null && TokensRefuse(old(tokens.State()), o, at.reserve))
                                 || (budgets != null && BudgetRefuses(old(budgets.ledger), o, at.budget))
      ensures error != None ==>
                error.value == if tokens != null && TokensRefuse(old(tokens.State()), o, at.reserve)
                  then TokenRefusal(old(tokens.State()), o, at.reserve)
                  else BudgetRefusal(old(budgets.ledger), o, at.budget)
      ensures lease != null ==> Admitted(lease, old(Tokens()), old(Budgets()), o, at)
    {
      lease, deltas := null, [];
      ghost var before := if tokens == null then TokenBook.Tokens(map[], map[], 0) else tokens.State();
      var reservation;
      reservation, error := AdmitTokens(o, at.reserve);
      if error != None {
        slot.ReleaseOwned();
        return;
      }
      var budget;
      budget, error := AdmitBudget(o, at.budget);
      if error != None {
        deltas := RollBack(reservation, before, o, at.reserve, at.rollback);
        slot.ReleaseOwned();
        return;
      }
      lease := new ResourceLease(slot, reservation, budget);
    }

    /** All or nothing: a failed Acquire leaves every count, bucket and account as it was and publishes no delta. */
    method Acquire(o: Options, at: Readings)
      returns (lease: ResourceLease?, error: Option<AdmissionError>, deltas: seq<(TokenBook.BucketKey, int)>)
      requires Valid()
      modifies concurrency, tokens, budgets
      ensures Valid() && (lease == null <==> error != None) && deltas == []
      ensures lease == null ==>
                && (concurrency != null ==> concurrency.states == old(concurrency.states))
                && (tokens != null ==> SameTokens(old(tokens.State()), tokens.State()))
                && (budgets != null ==> SameBudgets(old(budgets.ledger), budgets.ledger))
      ensures lease == null <==> || o.maxConcurrency < 0
                                 || (concurrency != null && SlotsGone(old(concurrency.states), o))
                                 || (tokens != null && TokensRefuse(old(tokens.State()), o, at.reserve))
                                 || (budgets != null && BudgetRefuses(old(budgets.ledger), o, at.budget))
      ensures error != None ==>
                error.value
                == if o.maxConcurrency < 0 || (concurrency != null && SlotsGone(old(concurrency.states), o))
                   then AdmissionError(ConcurrencySlot, None, o.maxConcurrency < 0)
                   else if tokens != null && TokensRefuse(old(tokens.State()), o, at.reserve)
                   then TokenRefusal(old(tokens.State()), o, at.reserve)
                   else BudgetRefusal(old(budgets.ledger), o, at.budget)
      ensures lease != null ==> Admitted(lease, old(Tokens()), old(Budgets()), o, at)
      ensures lease != null ==>
                && 0 <= o.maxConcurrency && !lease.concurrency.released && lease.concurrency.key == o.key
                && (concurrency != null ==>
                      concurrency.states == if o.maxConcurrency == 0 then old(concurrency.states)
                                            else Grown(old(concurrency.states), old(concurrency.made), o.key))
                && (concurrency != null && 0 < o.maxConcurrency ==>
                    ActiveIn(concurrency.states, o.key) <= o.maxConcurrency)
    {
      if o.maxConcurrency < 0 { return null, Some(AdmissionError(ConcurrencySlot, None, true)), []; }
      var slot: Lease?;
      if concurrency == null {
        slot := new Lease(null, o.key, 0);
      } else {
        slot := concurrency.Acquire(o.key, o.maxConcurrency);
        if slot == null { return null, Some(AdmissionError(ConcurrencySlot, None, false)), []; }
        if slot.limiter != null {
          ReturnUndoesAcquire(old(concurrency.states), old(concurrency.made), o.key, slot.Record());
        }
      }
      lease, error, deltas := FinishAdmission(slot, o, at);
    }

    /** The slot is held, was not given to a request before, and counts against the key's own limiter; without
        a limit a slot that is not counted will do. */
    ghost predicate Promotes(provisional: Lease, key: KeyId, limited: bool)
      reads provisional, concurrency
    {
      && !provisional.released && !provisional.claimed
      && if provisional.limiter == null then !limited && provisional.key in {"", key}
         else && provisional.limiter == concurrency && provisional.key == key
              && key in concurrency.states && concurrency.states[key].identity == provisional.identity
              && 0 < concurrency.states[key].active
    }

    /** Promotes a slot already held. A refused adoption changes nothing at all; once adopted, a
        failure gives the slot back, and the caller's own Release is then a no-op. */
    method AcquireWithProvisional(provisional: Lease?, o: Options, at: Readings)
      returns (lease: ResourceLease?, error: Option<AdmissionError>, deltas: seq<(TokenBook.BucketKey, int)>)
      requires Valid()
      modifies provisional, concurrency, tokens, budgets
      ensures Valid() && (lease == null <==> error != None) && deltas == []
      ensures lease == null ==>
                && (tokens != null ==> SameTokens(old(tokens.State()), tokens.State()))
                && (budgets != null ==> SameBudgets(old(budgets.ledger), budgets.ledger))
      ensures lease == null && provisional != null && provisional.claimed && !old(provisional.claimed) ==>
                && provisional.released && !old(provisional.released)
                && (provisional.limiter != null ==>
                      concurrency == provisional.limiter
                      && concurrency.states == Lowered(old(concurrency.states), old(provisional.Record())))
      ensures lease != null <==> && 0 <= o.maxConcurrency
                                 && provisional != null && old(Promotes(provisional, o.key, 0 < o.maxConcurrency))
                                 && !(tokens != null && TokensRefuse(old(tokens.State()), o, at.reserve))
                                 && !(budgets != null && BudgetRefuses(old(budgets.ledger), o, at.budget))
      ensures error != None ==>
                error.value
                == if o.maxConcurrency < 0
                      || provisional == null || !old(Promotes(provisional, o.key, 0 < o.maxConcurrency))
                   then AdmissionError(ConcurrencySlot, None, true)
                   else if tokens != null && TokensRefuse(old(tokens.State()), o, at.reserve)
                   then TokenRefusal(old(tokens.State()), o, at.reserve)
                   else BudgetRefusal(old(budgets.ledger), o, at.budget)
      ensures lease == null && (provisional == null || provisional.claimed == old(provisional.claimed))
              && concurrency != null ==>
                concurrency.states == old(concurrency.states)
      ensures lease != null ==>
                && provisional != null && lease.concurrency == provisional
                && provisional.claimed && !provisional.released
                && Admitted(lease, old(Tokens()), old(Budgets()), o, at)
                && (concurrency != null ==> concurrency.states == old(concurrency.states))
    {
      if provisional == null || o.maxConcurrency < 0 {
        return null, Some(AdmissionError(ConcurrencySlot, None, true)), [];
      }
      var adopted := provisional.AdoptFor(concurrency, o.key, o.maxConcurrency > 0);
      if !adopted { return null, Some(AdmissionError(ConcurrencySlot, None, true)), []; }
      lease, error, deltas := FinishAdmission(provisional, o, at);
    }
  }
}
