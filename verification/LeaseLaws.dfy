/** When a composite admission is refused, and what the caller is told, in terms of the counters of the
    limiters (internal/limiter/lease.go). */
module LeaseLaws {
  import opened Wrappers
  import opened LeaseAdmission
  import Calendar
  import WindowClock
  import BudgetBook
  import BudgetLaws
  import TokenBook
  import TokenLaws

  /** Tokens refuse if and only if the amount is negative, or some is asked for, with windows, and the
      request is malformed, cannot be placed at the clock, or finds no room in some window. */
  lemma TokensRefuseIff(t: TokenBook.Tokens, o: Options, reading: WindowClock.Time)
    ensures var now := if reading < t.lastNow then t.lastNow else reading;
            TokensRefuse(t, o, reading)
            <==> || o.tokenAmount < 0
                 || (0 < o.tokenAmount && o.windows != []
                     && !(&& TokenLaws.WellAsked(t, o.key, o.windows, o.tokenAmount)
                          && TokenLaws.AllPlaced(o.windows, now)
                          && forall w :: w in o.windows ==> TokenLaws.RoomIn(t, o.key, w, o.tokenAmount, now)))
  {
    TokenLaws.AdmittedIff(t, o.key, o.windows, o.tokenAmount, reading);
  }

  /** A refusal reports the latest reset among the windows that will have room, and only a negative amount as
      invalid. */
  lemma TokensRefusedUntil(t: TokenBook.Tokens, o: Options, reading: WindowClock.Time)
    requires TokensRefuse(t, o, reading)
    ensures var now, e := if reading < t.lastNow then t.lastNow else reading, TokenRefusal(t, o, reading);
            && e.resource == TokenWindows && (e.invalid <==> o.tokenAmount < 0)
            && if 0 < o.tokenAmount && TokenLaws.WellAsked(t, o.key, o.windows, o.tokenAmount)
                  && TokenLaws.AllPlaced(o.windows, now) then
                 && (e.resetAt == None <==>
                       forall w :: w in o.windows ==> !TokenLaws.RoomLater(t, o.key, w, o.tokenAmount, now))
                 && (forall w :: w in o.windows && TokenLaws.RoomLater(t, o.key, w, o.tokenAmount, now) ==>
                                 e.resetAt.Some? && now - now % w.duration + w.duration <= e.resetAt.value)
               else e.resetAt == None
  {
    if 0 < o.tokenAmount { TokenLaws.RejectedUntil(t, o.key, o.windows, o.tokenAmount, reading); }
  }

  /** The request does not fit the state: malformed, not the published policy, a key without valid state, or
      without one of the limits its state enforces. */
  ghost predicate Unfit(l: BudgetBook.Ledger, o: Options) {
    || !BudgetLaws.WellAsked(o.key, o.policy, o.candidate)
    || (o.key in l.policies && l.policies[o.key] != o.policy)
    || (o.key in l.books && !BudgetBook.ValidBook(l.books[o.key]))
    || (o.key in l.books && o.key !in l.policies && BudgetLaws.Drops(l.books[o.key].limits, o.policy))
  }

  ghost predicate Exceeds(l: BudgetBook.Ledger, o: Options, now: Calendar.Moment)
    requires o.candidate.Known?
  {
    var candidate := o.candidate.micros;
    || BudgetLaws.Over(l, o.key, o.policy.limited, o.policy.total, BudgetBook.Total, candidate)
    || BudgetLaws.Over(l, o.key, o.policy.dayLimited, o.policy.day, BudgetBook.Day(now.day), candidate)
    || BudgetLaws.Over(l, o.key, o.policy.monthLimited, o.policy.month, BudgetBook.Month(now.month), candidate)
  }

  /** A budget refuses if and only if its cost is not known although a lifetime limit is set, or it is known
      and the request does not fit the state or would exceed a limit; it reports when the exceeded limits
      reset, and everything else as invalid. */
  lemma BudgetRefusesIff(l: BudgetBook.Ledger, o: Options, reading: Calendar.Instant)
    requires o.key in l.policies ==> BudgetBook.ValidPolicy(l.policies[o.key])
    ensures var last := l.lastNow;
            var now := if last.Some? && reading < last.value.at then last.value else Calendar.At(reading);
            && (BudgetRefuses(l, o, reading)
                <==> if o.candidate.Unknown? then o.policy.limited else Unfit(l, o) || Exceeds(l, o, now))
            && (BudgetRefuses(l, o, reading) ==>
                  var e := BudgetRefusal(l, o, reading);
                  && e.resource == Budget && (e.invalid <==> o.candidate.Unknown? || Unfit(l, o))
                  && e.resetAt == if e.invalid then None
                                  else BudgetLaws.Reset(
                                         BudgetLaws.Over(l, o.key, o.policy.limited, o.policy.total, BudgetBook.Total,
                                                         o.candidate.micros),
                                         BudgetLaws.Over(l, o.key, o.policy.monthLimited, o.policy.month,
                                                         BudgetBook.Month(now.month), o.candidate.micros), now))
  {
    if o.candidate.Known? { BudgetLaws.ReserveAnswers(l, o.key, o.policy, o.candidate, reading); }
  }
}
