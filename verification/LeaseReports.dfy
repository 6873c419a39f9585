/** What the callers of a composite lease are told about its children, over the runs of all three limiters
    (internal/limiter/lease.go): which tickets they get, and when an error. */
module LeaseReports {
  import opened Wrappers
  import opened LeaseRuns
  import BudgetBook
  import Money
  import TokenBook
  import WindowClock
  import B = BudgetRuns
  import F = LeaseFinish
  import T = TokenRuns

  /** Deferred tokens are ticketed until the ticket is used up; others are closed, without a ticket. */
  predicate TokenTold(e: T.Entry, t: nat, kind: TokenBook.Kind, a: F.Answer) {
    && a.ticket == (if kind == TokenBook.Deferred then Some(t) else None)
    && (e.status.Closed? || (e.status.Ticketed? && kind == TokenBook.Deferred))
  }

  /** The same for a budget, unless its settlement was refused: then there is an error and no ticket. */
  predicate BudgetTold(e: B.Entry, b: nat, kind: BudgetBook.Kind, a: F.Answer) {
    && a.ticket == (if kind == BudgetBook.Deferred && !e.status.Stuck? then Some(b) else None)
    && (e.status.Stuck? ==> a.budgetErr.Some?)
    && (e.status.Closed? || e.status.Stuck? || (e.status.Ticketed? && kind == BudgetBook.Deferred))
  }

  ghost predicate TrueAnswer(r: Request, event: F.Event, a: F.Answer, tok: seq<T.Entry>, bud: seq<B.Entry>) {
    match event
    case TokenSettled(kind) =>
      r.token.Some? && r.token.value < |tok| && TokenTold(tok[r.token.value], r.token.value, kind, a)
    case BudgetSettled(kind, _) =>
      r.budget.Some? && r.budget.value < |bud| && BudgetTold(bud[r.budget.value], r.budget.value, kind, a)
    case SlotReturned => true
  }

  ghost predicate AllTrue(r: Request, l: F.Lease, tok: seq<T.Entry>, bud: seq<B.Entry>) {
    |l.answers| == |l.log| && forall n :: 0 <= n < |l.log| ==> TrueAnswer(r, l.log[n], l.answers[n], tok, bud)
  }

  ghost predicate Truthful(w: World, q: nat) {
    IsAdmitted(w, q) ==> AllTrue(w.requests[q], w.requests[q].stage.lease, w.tokens.history, w.budgets.history)
  }

  // ---- One settlement ----

  lemma TokenReplies(w: T.World, t: nat, kind: TokenBook.Kind, reading: WindowClock.Time, r: Request, a: F.Answer)
    requires t < |w.history| && w.history[t].status == T.Live && r.token == Some(t)
    requires a.ticket == TokenTicket(r, T.Next(w, T.Settle(t, kind, reading)).history)
    ensures TokenTold(T.Next(w, T.Settle(t, kind, reading)).history[t], t, kind, a)
  {
  }

  lemma BudgetReplies(w: B.World, b: nat, kind: BudgetBook.Kind, actual: Money.Money, r: Request, a: F.Answer)
    requires b < |w.history| && w.history[b].status == B.Live && r.budget == Some(b)
    requires a.ticket == BudgetTicket(r, B.Next(w, B.Settle(b, kind, actual)).history)
    requires a.budgetErr == BudgetError(r, w, kind, actual)
    ensures BudgetTold(B.Next(w, B.Settle(b, kind, actual)).history[b], b, kind, a)
  {
  }

  /** Later steps use tickets up; they give none and take no answer back. */
  lemma AnswerStays(r: Request, event: F.Event, a: F.Answer, tok: seq<T.Entry>, bud: seq<B.Entry>, tok': seq<T.Entry>,
                  bud': seq<B.Entry>)
    requires TrueAnswer(r, event, a, tok, bud) && SameToken(r, tok, tok') && SameBudget(r, bud, bud')
    ensures TrueAnswer(r, event, a, tok', bud')
  {
  }

  // ---- Every step ----

  lemma OthersStayTruthful(w: World, step: Step, q: nat)
    requires Inv(w) && q < |w.requests| && Actor(step) != Some(q) && Truthful(w, q)
    ensures Truthful(Next(w, step), q)
  {
    TokensApart(w, step, q);
    BudgetsApart(w, step, q);
    LimitersMove(w, step);
    assert Next(w, step).requests[q] == w.requests[q];
    if IsAdmitted(w, q) {
      var r, l := w.requests[q], w.requests[q].stage.lease;
      forall n | 0 <= n < |l.log|
        ensures TrueAnswer(r, l.log[n], l.answers[n], TokensAfter(w, step).history, BudgetsAfter(w, step).history)
      {
        AnswerStays(r, l.log[n], l.answers[n], w.tokens.history, w.budgets.history, TokensAfter(w, step).history,
                  BudgetsAfter(w, step).history);
      }
    }
  }

  /** The event that the call adds to the log, with the answer that was computed for it. */
  lemma Appends(l: F.Lease, call: F.Step)
    requires F.Inv(l) && |l.answers| == |l.log|
    ensures var l' := F.Next(l, call);
            || (l'.log == l.log && l'.answers == l.answers)
            || (call.Settle? && |l'.log| == |l.log| + 1 && l'.log[..|l.log|] == l.log
                && l'.answers == l.answers + [call.answer])
  {
  }

  /** An event that was answered is not the one that is due, so its entry is not the one that moves. */
  lemma OlderStays(w: World, i: nat, step: Step, n: nat)
    requires Inv(w) && IsAdmitted(w, i) && step.Terminal? && step.i == i && Truthful(w, i)
    requires n < |w.requests[i].stage.lease.log|
    ensures var r, l := w.requests[i], w.requests[i].stage.lease;
            TrueAnswer(r, l.log[n], l.answers[n], TokensAfter(w, step).history, BudgetsAfter(w, step).history)
  {
    assert Fine(w, i);
    SettledAsTold(w, i, step);
    TerminalReaches(w, i, step);
  }

  lemma NewestHolds(w: World, i: nat, step: Step)
    requires Inv(w) && IsAdmitted(w, i) && step.Terminal? && step.i == i && step.call.Settle?
    requires Settled(w, i, step.call).Some?
    ensures TrueAnswer(w.requests[i], Settled(w, i, step.call).value, Reply(w, i, step), TokensAfter(w, step).history,
                       BudgetsAfter(w, step).history)
  {
    assert Fine(w, i);
    var r, a := w.requests[i], Reply(w, i, step);
    SettledAsTold(w, i, step);
    TerminalReaches(w, i, step);
    match Settled(w, i, step.call).value
    case TokenSettled(kind) => TokenReplies(w.tokens, r.token.value, kind, step.reading, r, a);
    case BudgetSettled(kind, actual) => BudgetReplies(w.budgets, r.budget.value, kind, actual, r, a);
    case SlotReturned =>
  }

  lemma OldersStay(w: World, i: nat, step: Step)
    requires Inv(w) && IsAdmitted(w, i) && step.Terminal? && step.i == i && Truthful(w, i)
    ensures AllTrue(w.requests[i], w.requests[i].stage.lease, TokensAfter(w, step).history,
                    BudgetsAfter(w, step).history)
  {
    forall n: nat | n < |w.requests[i].stage.lease.log| { OlderStays(w, i, step, n); }
  }

  lemma OneMore(r: Request, l: F.Lease, call: F.Step, tok: seq<T.Entry>, bud: seq<B.Entry>)
    requires F.Inv(l) && AllTrue(r, l, tok, bud)
    requires call.Settle? && |l.log| < |F.Next(l, call).log| ==>
               TrueAnswer(r, F.Next(l, call).log[|l.log|], call.answer, tok, bud)
    ensures AllTrue(r, F.Next(l, call), tok, bud)
  {
    Appends(l, call);
  }

  lemma AllStayTrue(w: World, i: nat, step: Step)
    requires Inv(w) && IsAdmitted(w, i) && step.Terminal? && step.i == i && Truthful(w, i)
    ensures AllTrue(w.requests[i], F.Next(w.requests[i].stage.lease, Told(w, i, step)), TokensAfter(w, step).history,
                    BudgetsAfter(w, step).history)
  {
    assert F.Inv(w.requests[i].stage.lease) by { assert Fine(w, i); }
    OldersStay(w, i, step);
    if step.call.Settle? && Settled(w, i, step.call).Some? {
      NewestHolds(w, i, step);
      SettledAsTold(w, i, step);
    }
    OneMore(w.requests[i], w.requests[i].stage.lease, Told(w, i, step), TokensAfter(w, step).history,
            BudgetsAfter(w, step).history);
  }

  lemma TerminalRecords(w: World, i: nat, step: Step)
    requires IsAdmitted(w, i) && step.Terminal? && step.i == i
    ensures i < |Next(w, step).requests|
    ensures Next(w, step).requests[i] == w.requests[i].(
              stage := Admitted(F.Next(w.requests[i].stage.lease, Told(w, i, step))))
  {
    RecordsMove(w, step, i);
  }

  lemma StageAside(r: Request, stage: Stage, l: F.Lease, tok: seq<T.Entry>, bud: seq<B.Entry>)
    requires AllTrue(r, l, tok, bud)
    ensures AllTrue(r.(stage := stage), l, tok, bud)
  {
    forall n | 0 <= n < |l.log| ensures TrueAnswer(r.(stage := stage), l.log[n], l.answers[n], tok, bud) {
      assert TrueAnswer(r, l.log[n], l.answers[n], tok, bud);
    }
  }

  lemma TerminalStaysTruthful(w: World, i: nat, step: Step)
    requires Inv(w) && IsAdmitted(w, i) && step.Terminal? && step.i == i && Truthful(w, i)
    ensures Truthful(Next(w, step), i)
  {
    AllStayTrue(w, i, step);
    var r, l' := w.requests[i], F.Next(w.requests[i].stage.lease, Told(w, i, step));
    StageAside(r, Admitted(l'), l', TokensAfter(w, step).history, BudgetsAfter(w, step).history);
    TerminalRecords(w, i, step);
    LimitersMove(w, step);
  }

  /** Only a terminal call settles anything for an admitted request; an admission starts with nothing settled. */
  lemma AdmittedRests(w: World, i: nat, step: Step)
    requires IsAdmitted(w, i) && Actor(step) == Some(i) && !step.Terminal?
    ensures i < |Next(w, step).requests| && Next(w, step).requests[i] == w.requests[i]
    ensures TokensAfter(w, step) == w.tokens && BudgetsAfter(w, step) == w.budgets
  {
    RecordsMove(w, step, i);
    assert TokenPart(w, step) == None && BudgetPart(w, step) == None;
  }

  lemma AdmittedAnew(w: World, i: nat, step: Step)
    requires i < |w.requests| && !IsAdmitted(w, i) && Actor(step) == Some(i)
    ensures IsAdmitted(Next(w, step), i) ==>
              Next(w, step).requests[i].stage.lease.log == [] && Next(w, step).requests[i].stage.lease.answers == []
  {
    RecordsMove(w, step, i);
  }

  lemma NextStaysTruthful(w: World, step: Step, q: nat)
    requires Inv(w) && (q < |w.requests| ==> Truthful(w, q))
    ensures Truthful(Next(w, step), q)
  {
    RequestsAfter(w, step);
    if |w.requests| <= q {
    } else if Actor(step) != Some(q) {
      OthersStayTruthful(w, step, q);
    } else if !IsAdmitted(w, q) {
      AdmittedAnew(w, q, step);
    } else if step.Terminal? {
      TerminalStaysTruthful(w, q, step);
    } else {
      AdmittedRests(w, q, step);
      LimitersMove(w, step);
    }
  }

  lemma {:induction false} RunStaysTruthful(w: World, steps: seq<Step>, q: nat)
    requires Inv(w) && (q < |w.requests| ==> Truthful(w, q))
    ensures Truthful(Run(w, steps), q)
    decreases |steps|
  {
    if steps != [] {
      NextKeepsInv(w, steps[0]);
      NextStaysTruthful(w, steps[0], q);
      RunStaysTruthful(Next(w, steps[0]), steps[1..], q);
    }
  }

  // ---- What the callers get ----

  /** The tokens' share of the report. */
  predicate TokensReported(r: Request, report: F.Report, o: F.Outcome, tok: seq<T.Entry>) {
    if r.token.None? then report.tokenTicket == None && report.tokenErr == None
    else
      && r.token.value < |tok|
      && report.tokenTicket == (if o in {F.Deferred, F.DeferredBudgetConservative} then r.token else None)
      && (tok[r.token.value].status.Closed? || (tok[r.token.value].status.Ticketed? && report.tokenTicket.Some?))
  }

  /** And the budget's: a settlement the limiter refused is an error, and leaves no ticket. */
  predicate BudgetReported(r: Request, report: F.Report, o: F.Outcome, bud: seq<B.Entry>) {
    if r.budget.None? then report.budgetTicket == None && report.budgetErr == None
    else
      && r.budget.value < |bud|
      && var status := bud[r.budget.value].status;
         && report.budgetTicket == (if o == F.Deferred && !status.Stuck? then r.budget else None)
         && (status.Stuck? ==> report.budgetErr.Some?)
         && (status.Closed? || status.Stuck? || (status.Ticketed? && report.budgetTicket.Some?))
  }

  /** In every run, every caller of a finished lease is given a ticket for each child the outcome deferred,
      which is that of the lease's own reservation, and none for the others; so an entry has an
      outstanding ticket only if the callers have it. A budget settlement that did not take place is
      reported as an error. */
  lemma CallersGetTheTickets(w: World, steps: seq<Step>, i: nat, c: nat)
    requires Fresh(w) && IsAdmitted(Run(w, steps), i)
    requires var l := Run(w, steps).requests[i].stage.lease; c < |l.callers| && l.callers[c].Returned?
    ensures var w' := Run(w, steps);
            var r, l := w'.requests[i], w'.requests[i].stage.lease;
            && l.leader.Some?
            && TokensReported(r, l.callers[c].report, l.leader.value.1, w'.tokens.history)
            && BudgetReported(r, l.callers[c].report, l.leader.value.1, w'.budgets.history)
  {
    RunKeepsInv(w, steps);
    RunStaysTruthful(w, steps, i);
    var w' := Run(w, steps);
    assert Fine(w', i);
    Reported(w'.requests[i], w'.requests[i].stage.lease, w'.tokens.history, w'.budgets.history);
  }

  lemma Reported(r: Request, l: F.Lease, tok: seq<T.Entry>, bud: seq<B.Entry>)
    requires F.Inv(l) && l.finalized && l.children == F.Children(r.token.Some?, r.budget.Some?)
    requires AllTrue(r, l, tok, bud)
    ensures TokensReported(r, l.published, l.leader.value.1, tok)
    ensures BudgetReported(r, l.published, l.leader.value.1, bud)
  {
    var o := l.leader.value.1;
    if r.token.Some? { assert l.log[0] == F.TokenSettled(F.TokenCall(o)); }
    if r.budget.Some? { assert l.log[if r.token.Some? then 1 else 0] == F.BudgetCall(o); }
  }
}
