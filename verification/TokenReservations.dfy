/** Token reservations and adjustment tickets as objects (internal/limiter/token.go). Each method is
    one step of a run: an object stands for the history entry of its reservation before and after. */
module TokenReservations {
  import opened Wrappers
  import opened WindowClock
  import opened Windows
  import opened TokenBook
  import opened TokenLimiter
  import Runs = TokenRuns

  class TokenAdjustmentTicket {
    var limiter: TokenLimiter?
    var keys: seq<BucketKey>
    var reserved: int
    var consumed: bool
    var finalErr: Option<TokenError>

    constructor (limiter: TokenLimiter?, keys: seq<BucketKey>, reserved: int)
      ensures this.limiter == limiter && this.keys == keys && this.reserved == reserved && !consumed && finalErr == None
    {
      this.limiter, this.keys, this.reserved, consumed, finalErr := limiter, keys, reserved, false, None;
    }

    ghost predicate Stands(e: Runs.Entry)
      reads this
    {
      && (e.status == Runs.Ticketed <==> !consumed)
      && (!consumed ==> keys != [] && e.captured == KeysOf(keys) && e.amount == reserved)
    }

    /** One shot: a first call is the run's Adjust step, later calls change nothing and repeat the first error. */
    method Adjust(actual: int, reading: Time, ghost w: Runs.World, ghost id: nat)
      returns (error: Option<TokenError>, deltas: seq<(BucketKey, int)>)
      requires Distinct(keys)
      modifies this`consumed, this`finalErr, limiter
      ensures consumed && finalErr == error && (error != None ==> deltas == [])
      ensures !old(consumed) && (limiter == null || keys == []) ==>
                error == if actual < 0 then Some(InvalidUsage) else None
      ensures !old(consumed) && limiter != null && keys != [] ==>
                (limiter.State(), error) == TokenBook.Adjust(old(limiter.State()), KeysOf(keys), reserved, actual,
                                                             reading)
      ensures old(consumed) ==>
                && error == old(finalErr) && deltas == []
                && (limiter != null ==> limiter.State() == old(limiter.State()))
      ensures limiter != null && old(limiter.State()) == w.tokens && id < |w.history| && old(Stands(w.history[id])) ==>
                var next := Runs.Next(w, Runs.Adjust(id, actual, reading));
                && limiter.State() == next.tokens && |next.history| == |w.history| && Stands(next.history[id])
                && (!old(consumed) && error == None ==> deltas == Deltas(w.tokens.buckets, keys, actual - reserved))
    {
      deltas := [];
      if consumed { return finalErr, deltas; }
      consumed, error := true, None;
      if actual < 0 {
        error := Some(InvalidUsage);
      } else if limiter != null && keys != [] {
        error, deltas := limiter.AdjustCharge(keys, reserved, actual, reading);
      }
      finalErr := error;
    }

    /** Gives the ticket up, unless it was used already: the estimate stays charged for good. */
    method Invalidate(ghost w: Runs.World, ghost id: nat)
      modifies this
      ensures consumed && finalErr == old(finalErr) && (old(consumed) ==> limiter == old(limiter) && keys == old(keys))
      ensures id < |w.history| && old(Stands(w.history[id])) ==>
                var next := Runs.Next(w, Runs.Invalidate(id));
                next.tokens == w.tokens && |next.history| == |w.history| && Stands(next.history[id])
    {
      if !consumed { consumed, limiter, keys, reserved := true, null, [], 0; }
    }
  }

  class TokenReservation {
    const limiter: TokenLimiter?
    const keys: seq<BucketKey>
    const amount: Int64
    var finalized: bool
    var finalErr: Option<TokenError>
    var ticket: TokenAdjustmentTicket?

    constructor (limiter: TokenLimiter?, keys: seq<BucketKey>, amount: Int64)
      ensures this.limiter == limiter && this.keys == keys && this.amount == amount && !finalized && ticket == null
    {
      this.limiter, this.keys, this.amount, finalized, finalErr, ticket := limiter, keys, amount, false, None, null;
    }

    ghost predicate Stands(e: Runs.Entry)
      reads this, ticket
    {
      && limiter != null && keys != [] && 0 < amount && e.captured == KeysOf(keys) && e.amount == amount
      && (e.status == Runs.Live <==> !finalized)
      && (ticket != null ==> finalized && ticket.Stands(e))
      && (e.status == Runs.Ticketed ==> ticket != null)
    }

    /** Commit, AbortConservative, ReleaseBeforeUpstream and CommitDeferred share this: the first call
        is the run's Settle step, later calls change nothing and repeat its error. */
    method Finalize(kind: Kind, reading: Time, ghost w: Runs.World, ghost id: nat)
      returns (error: Option<TokenError>, deltas: seq<(BucketKey, int)>)
      requires Distinct(keys)
      modifies this, limiter
      ensures finalized && finalErr == error
      ensures old(finalized) ==> && error == old(finalErr) && ticket == old(ticket) && deltas == []
                                 && (limiter != null ==> limiter.State() == old(limiter.State()))
      ensures !old(finalized) ==> (ticket != null <==> kind == Deferred) && (ticket != null ==> fresh(ticket))
      ensures limiter == null ==> deltas == []
      ensures !old(finalized) && limiter == null ==>
                error == if kind.Known? && kind.usage < 0 then Some(InvalidUsage) else None
      ensures !old(finalized) && limiter != null && keys != [] && 0 < amount ==>
                var m, captured := old(limiter.buckets), KeysOf(keys);
                error == None <==> && !Overflows(m, captured, ChargeFor(m, captured, amount, kind))
                                   && (kind.Known? ==> 0 <= kind.usage && !Broken(m, captured, amount)
                                                       && !Overflows(m, captured, kind.usage))
      ensures limiter != null && old(limiter.State()) == w.tokens && id < |w.history| && old(Stands(w.history[id])) ==>
                var next := Runs.Next(w, Runs.Settle(id, kind, reading));
                && limiter.State() == next.tokens && |next.history| == |w.history| && Stands(next.history[id])
                && (!old(finalized) ==>
                      deltas == Deltas(w.tokens.buckets, keys, ChargeFor(w.tokens.buckets, KeysOf(keys), amount, kind)))
    {
      deltas := [];
      if finalized { return finalErr, deltas; }
      finalized, ticket, error := true, null, None;
      if limiter == null || keys == [] || amount <= 0 {
        if kind.Known? && kind.usage < 0 { error := Some(InvalidUsage); }
      } else {
        error, deltas := limiter.Finalize(keys, amount, kind, reading);
      }
      if kind == Deferred { ticket := new TokenAdjustmentTicket(limiter, keys, amount); }
      finalErr := error;
    }
  }

  method Reserve(limiter: TokenLimiter, key: KeyId, windows: seq<Window>, amount: Int64, reading: Time,
                 ghost w: Runs.World)
    returns (r: TokenReservation?, resetAt: Option<int>)
    requires limiter.State() == w.tokens
    modifies limiter
    ensures var next := Runs.Next(w, Runs.Reserve(key, windows, amount, reading));
            && limiter.State() == next.tokens
            && if r != null && r.limiter != null then
                 && fresh(r) && |next.history| == |w.history| + 1 && next.history[..|w.history|] == w.history
                 && r.Stands(next.history[|w.history|])
               else next.history == w.history
    ensures r == null ==> TokenBook.Reserve(w.tokens, key, windows, amount, reading).1 == Rejected(resetAt)
    ensures r != null ==> fresh(r) && !r.finalized && r.amount == amount && Distinct(r.keys) && resetAt == None
    ensures r != null ==> var admission := TokenBook.Reserve(w.tokens, key, windows, amount, reading).1;
                          if r.limiter == null then admission == Unmetered
                          else r.limiter == limiter && admission == Admitted(KeysOf(r.keys))
  {
    var reply := limiter.Reserve(key, windows, amount, reading);
    match reply
    case Denied(at) => return null, at;
    case NoOp =>
      r := new TokenReservation(null, [], amount);
      return r, None;
    case Granted(keys) =>
      r := new TokenReservation(limiter, keys, amount);
      return r, None;
  }
}
