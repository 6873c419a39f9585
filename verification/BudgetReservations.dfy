/** Reservations and adjustment tickets as objects (internal/limiter/budget.go). Each method is one
    step of a run: an object stands for the history entry of its reservation before and after. */
module BudgetReservations {
  import opened Wrappers
  import opened Money
  import opened Calendar
  import opened BudgetBook
  import opened BudgetLimiter
  import Runs = BudgetRuns

  /** What the Adjust step of an outstanding ticket leaves behind. */
  lemma AdjustStep(w: Runs.World, id: nat, actual: Money, e: Runs.Entry, next: Runs.World)
    requires id < |w.history| && e == w.history[id] && next == Runs.Next(w, Runs.Adjust(id, actual))
    ensures |next.history| == |w.history|
    ensures e.status != Runs.Ticketed ==> next == w
    ensures e.status == Runs.Ticketed ==>
              var e' := next.history[id];
              && e'.status.Closed?
              && if actual.Unknown? then next.ledger == w.ledger && e'.revised == e.revised
                 else
                   var r := BudgetBook.Adjust(w.ledger, e.key, e.generation, e.captured, e.amount, actual.micros);
                   next.ledger == r.ledger && (r.error == None ==> e'.revised == r.emitted)
                   && (r.error != None ==> r.emitted == map[])
  {
  }

  /** What the Settle step of a live reservation leaves behind. */
  lemma SettleStep(w: Runs.World, id: nat, kind: Kind, actual: Money, e: Runs.Entry, next: Runs.World)
    requires id < |w.history| && e == w.history[id] && next == Runs.Next(w, Runs.Settle(id, kind, actual))
    ensures |next.history| == |w.history|
    ensures e.status != Runs.Live ==> next == w
    ensures e.status == Runs.Live ==>
              var e' := next.history[id];
              && e' == e.(status := e'.status, owed := e'.owed) && e'.status != Runs.Live
              && var r := BudgetBook.Settle(w.ledger, e.key, e.generation, e.captured, e.amount, kind, actual);
                 && next.ledger == r.ledger && (r.error == None ==> r.applied)
                 && (e'.status == Runs.Ticketed <==> kind == Deferred && r.error == None)
                 && (e.owed == map[] ==> e'.owed == if r.applied then Runs.Emission(e.captured, r.charged) else map[])
  {
  }

  class BudgetAdjustmentTicket {
    var limiter: BudgetLimiter?
    var key: KeyId
    var generation: nat
    var reserved: Money
    const capture: Capture
    var consumed: bool
    var resultErr: Option<SettleError>

    constructor (limiter: BudgetLimiter?, key: KeyId, generation: nat, reserved: Micros, capture: Capture)
      ensures this.limiter == limiter && this.key == key && this.generation == generation
      ensures this.reserved == Known(reserved) && this.capture == capture && !consumed
    {
      this.limiter, this.key, this.generation, this.reserved := limiter, key, generation, Known(reserved);
      this.capture, consumed, resultErr := capture, false, None;
    }

    /** An unconsumed ticket is an entry whose ticket is outstanding. */
    ghost predicate Stands(e: Runs.Entry)
      reads this
    {
      && (e.status == Runs.Ticketed <==> !consumed)
      && (!consumed ==> key != "" && generation != 0 && e.key == key && e.generation == generation
                        && reserved == Known(e.amount) && e.captured == ScopesOf(capture))
    }

    /** One shot: a first call is the run's Adjust step, later calls change nothing and repeat the first error. */
    method Adjust(actual: Money, ghost w: Runs.World, ghost id: nat)
      returns (error: Option<SettleError>, emitted: map<Scope, int>)
      requires limiter != null ==> limiter.Valid() && reserved.Known?
      modifies this`consumed, this`resultErr, limiter
      ensures limiter != null ==> limiter.Valid()
      ensures consumed && resultErr == error && (error != None ==> emitted == map[])
      ensures !old(consumed) && actual.Unknown? ==> error == Some(InvalidActual)
      ensures !old(consumed) && actual.Known? && (limiter == null || key == "" || generation == 0) ==>
                error == Some(StaleState)
      ensures !old(consumed) && actual.Known? && limiter != null && key != "" && generation != 0 ==>
                Adjusted(limiter.ledger, error, emitted)
                == BudgetBook.Adjust(old(limiter.ledger), key, generation, ScopesOf(capture), reserved.micros,
                                     actual.micros)
      ensures old(consumed) ==>
                && error == old(resultErr) && emitted == map[]
                && (limiter != null ==> limiter.ledger == old(limiter.ledger))
      ensures limiter != null && old(limiter.ledger) == w.ledger && id < |w.history| && old(Stands(w.history[id])) ==>
                var next := Runs.Next(w, Runs.Adjust(id, actual));
                && limiter.ledger == next.ledger && |next.history| == |w.history|
                && Stands(next.history[id])
                && (!old(consumed) && error == None ==> next.history[id].revised == emitted)
    {
      if id < |w.history| { AdjustStep(w, id, actual, w.history[id], Runs.Next(w, Runs.Adjust(id, actual))); }
      emitted := map[];
      if consumed { return resultErr, emitted; }
      consumed := true;
      if actual.Unknown? {
        error := Some(InvalidActual);
      } else if limiter == null || key == "" || generation == 0 {
        error := Some(StaleState);
      } else {
        error, emitted := limiter.AdjustCharge(key, generation, reserved.micros, capture, actual.micros);
      }
      resultErr := error;
    }

    /** Gives the ticket up: the conservative charge stays for good. */
    method Invalidate(ghost w: Runs.World, ghost id: nat)
      modifies this
      ensures consumed && limiter == null && resultErr == old(resultErr)
      ensures id < |w.history| && old(Stands(w.history[id])) ==>
                var next := Runs.Next(w, Runs.Invalidate(id));
                next.ledger == w.ledger && |next.history| == |w.history| && Stands(next.history[id])
    {
      consumed := true;
      limiter, key, generation, reserved := null, "", 0, Unknown;
    }
  }

  class BudgetReservation {
    const limiter: BudgetLimiter
    const key: KeyId
    const generation: nat
    const amount: Micros
    const capture: Capture
    const metered: bool
    var finalized: bool
    var finalErr: Option<SettleError>
    var charged: Micros
    var ticket: BudgetAdjustmentTicket?

    constructor (limiter: BudgetLimiter, key: KeyId, generation: nat, amount: Micros, capture: Capture, metered: bool)
      ensures this.limiter == limiter && this.key == key && this.generation == generation && this.amount == amount
      ensures this.capture == capture && this.metered == metered && !finalized && ticket == null
    {
      this.limiter, this.key, this.generation, this.amount := limiter, key, generation, amount;
      this.capture, this.metered, finalized, finalErr, charged, ticket := capture, metered, false, None, 0, null;
    }

    ghost predicate Stands(e: Runs.Entry)
      reads this, ticket
    {
      && metered && 0 < amount && key != "" && generation != 0
      && e.key == key && e.generation == generation && e.amount == amount && e.captured == ScopesOf(capture)
      && (e.status == Runs.Live <==> !finalized) && (!finalized ==> e.owed == map[])
      && (ticket != null ==> finalized && ticket.Stands(e))
      && (e.status == Runs.Ticketed ==> ticket != null)
    }

    method SettleHeld(kind: Kind, actual: Money) returns (error: Option<SettleError>, emitted: map<Scope, int>)
      requires limiter.Valid() && 0 < amount
      modifies this`charged, this`ticket, limiter
      ensures limiter.Valid()
      ensures var r := BudgetBook.Settle(old(limiter.ledger), key, generation, ScopesOf(capture), amount, kind, actual);
              && limiter.ledger == r.ledger && error == r.error && charged == r.charged
              && emitted == if r.applied then Runs.Emission(ScopesOf(capture), r.charged) else map[]
      ensures if kind == Deferred && error == None
              then ticket != null && fresh(ticket) && ticket.limiter == limiter && !ticket.consumed
                   && ticket.key == key && ticket.generation == generation && ticket.reserved == Known(amount)
                   && ticket.capture == capture
              else ticket == old(ticket)
    {
      var applied;
      error, charged, applied := limiter.Settle(key, generation, amount, capture, kind, actual);
      emitted := if applied && charged != 0 then map s | s in ScopesOf(capture) :: charged else map[];
      if kind == Deferred && error == None {
        ticket := new BudgetAdjustmentTicket(limiter, key, generation, amount, capture);
      }
    }

    /** Commit, CompleteConservative, ReleaseBeforeUpstream and CommitDeferred share this: the first
        call is the run's Settle step, later calls change nothing and repeat its result. */
    method Finalize(kind: Kind, actual: Money, ghost w: Runs.World, ghost id: nat)
      returns (error: Option<SettleError>, emitted: map<Scope, int>)
      requires limiter.Valid()
      modifies this, limiter
      ensures limiter.Valid() && finalized && finalErr == error
      ensures old(finalized) ==> && error == old(finalErr) && charged == old(charged) && ticket == old(ticket)
                                 && emitted == map[] && limiter.ledger == old(limiter.ledger)
      ensures !old(finalized) && ticket != null ==>
                fresh(ticket) && ticket.limiter == (if metered && amount != 0 then limiter else null)
      ensures !metered ==> limiter.ledger == old(limiter.ledger) && emitted == map[]
      ensures !old(finalized) && !metered ==>
                charged == 0 && error == if kind == KnownCost && actual.Unknown? then Some(InvalidActual) else None
      ensures !old(finalized) && metered && 0 < amount ==>
                var r := BudgetBook.Settle(old(limiter.ledger), key, generation, ScopesOf(capture), amount, kind,
                                           actual);
                limiter.ledger == r.ledger && error == r.error && charged == r.charged
      ensures old(limiter.ledger) == w.ledger && id < |w.history| && old(Stands(w.history[id])) ==>
                var next := Runs.Next(w, Runs.Settle(id, kind, actual));
                && limiter.ledger == next.ledger && |next.history| == |w.history|
                && Stands(next.history[id])
                && (!old(finalized) ==> next.history[id].owed == emitted)
    {
      if id < |w.history| {
        SettleStep(w, id, kind, actual, w.history[id], Runs.Next(w, Runs.Settle(id, kind, actual)));
      }
      emitted := map[];
      if finalized { return finalErr, emitted; }
      finalized, charged, ticket, error := true, 0, null, None;
      if !metered || amount == 0 {
        if kind == KnownCost && actual.Unknown? { error := Some(InvalidActual); }
        if kind == Deferred { ticket := new BudgetAdjustmentTicket(null, "", 0, amount, capture); }
      } else {
        error, emitted := SettleHeld(kind, actual);
      }
      finalErr := error;
    }
  }

  /** What the Reserve step leaves behind; a held admission captures the scopes of the clock reading it records. */
  lemma ReserveStep(w: Runs.World, key: KeyId, p: Policy, candidate: Money, reading: Instant, next: Runs.World)
    requires next == Runs.Next(w, Runs.Reserve(key, p, candidate, reading))
    ensures var (after, admission) := BudgetBook.Reserve(w.ledger, key, p, candidate, reading);
            && next.ledger == after
            && if admission.Held? then
                 && key != "" && candidate.Known? && 0 < candidate.micros && 0 < admission.generation
                 && after.lastNow.Some? && admission.captured == Captured(p, after.lastNow.value)
                 && next.history == w.history + [Runs.Entry(key, admission.generation, candidate.micros,
                                                            admission.captured, Runs.Live, map[], map[])]
               else next.history == w.history
  {
  }

  method Reserve(limiter: BudgetLimiter, key: KeyId, p: Policy, candidate: Money, reading: Instant, ghost w: Runs.World)
    returns (r: BudgetReservation?, error: Option<BudgetError>)
    requires limiter.Valid() && limiter.ledger == w.ledger
    modifies limiter
    ensures limiter.Valid() && (r == null <==> error.Some?)
    ensures var admission := BudgetBook.Reserve(w.ledger, key, p, candidate, reading).1;
            error == if admission.Refused? then Some(admission.error) else None
    ensures var next := Runs.Next(w, Runs.Reserve(key, p, candidate, reading));
            && limiter.ledger == next.ledger
            && if r != null && r.metered then
                 fresh(r) && |next.history| == |w.history| + 1 && next.history[..|w.history|] == w.history
                 && r.Stands(next.history[|w.history|])
               else next.history == w.history
  {
    ReserveStep(w, key, p, candidate, reading, Runs.Next(w, Runs.Reserve(key, p, candidate, reading)));
    var admission := limiter.Reserve(key, p, candidate, reading);
    error := None;
    match admission
    case Refused(e) => return null, Some(e);
    case Unmetered => r := new BudgetReservation(limiter, key, 0, 0, Capture(false, None, None), false);
    case Held(_, generation) =>
      var now := At(limiter.lastNow.value);
      CaptureMatches(p, now);
      r := new BudgetReservation(limiter, key, generation, candidate.micros, CaptureOf(p, now), true);
  }
}
