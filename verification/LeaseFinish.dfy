/** Terminal operations of a composite lease, called concurrently (internal/limiter/lease.go).
    The first caller to take the lock settles the children, outside the lock; the others wait for
    what it publishes. Each step below is one region under the lock, or one call to a child. */
module LeaseFinish {
  import opened Wrappers
  import opened WindowClock
  import Money
  import BudgetBook
  import TokenBook

  datatype Outcome =
    | Known(actual: Int64, actualKnown: bool, cost: Money.Money)
    | Conservative
    | Release
    | Deferred
    | DeferredBudgetConservative

  datatype Event =
    | TokenSettled(tokens: TokenBook.Kind)
    | BudgetSettled(budget: BudgetBook.Kind, actual: Money.Money)
    | SlotReturned

  /** What the children answered. Tickets are named by number. */
  datatype Report = Report(tokenErr: Option<TokenBook.TokenError>, budgetErr: Option<BudgetBook.SettleError>,
                           tokenTicket: Option<nat>, budgetTicket: Option<nat>)

  const NO_REPORT := Report(None, None, None, None)

  /** A child's answer to one call: its error and the ticket it made, if the call asked for one. */
  datatype Answer = Answer(tokenErr: Option<TokenBook.TokenError>, budgetErr: Option<BudgetBook.SettleError>,
                           ticket: Option<nat>)

  datatype Caller =
    | Entering(outcome: Outcome)
    | Waiting
    | Leading(outcome: Outcome, stage: nat, report: Report)
    | Returned(report: Report)

  datatype Children = Children(hasTokens: bool, hasBudget: bool)

  /** `leader` records who took the lock first, and with which outcome; `log` and `answers` what was asked
      of the children and what they answered. */
  datatype Lease = Lease(children: Children, finalizing: bool, finalized: bool, published: Report,
                         log: seq<Event>, answers: seq<Answer>, callers: seq<Caller>, leader: Option<(nat, Outcome)>)

  function TokenCall(o: Outcome): TokenBook.Kind {
    match o
    case Known(actual, actualKnown, _) => if actualKnown then TokenBook.Known(actual) else TokenBook.Conservative
    case Conservative => TokenBook.Conservative
    case Release => TokenBook.Release
    case _ => TokenBook.Deferred
  }

  function BudgetCall(o: Outcome): Event {
    match o
    case Known(_, _, cost) => BudgetSettled(BudgetBook.KnownCost, cost)
    case Release => BudgetSettled(BudgetBook.Release, Money.ZERO)
    case Deferred => BudgetSettled(BudgetBook.Deferred, Money.Unknown)
    case _ => BudgetSettled(BudgetBook.Conservative, Money.Unknown)
  }

  /** Tokens, then budget, then the slot, whatever the children answer. */
  function Plan(c: Children, o: Outcome): seq<Event> {
    (if c.hasTokens then [TokenSettled(TokenCall(o))] else [])
    + (if c.hasBudget then [BudgetCall(o)] else []) + [SlotReturned]
  }

  function Note(r: Report, e: Event, a: Answer): Report {
    match e
    case TokenSettled(kind) =>
      r.(tokenErr := a.tokenErr, tokenTicket := if kind == TokenBook.Deferred then a.ticket else None)
    case BudgetSettled(kind, _) =>
      r.(budgetErr := a.budgetErr, budgetTicket := if kind == BudgetBook.Deferred then a.ticket else None)
    case SlotReturned => r
  }

  // ---- Steps ----

  datatype Step =
    | Call(outcome: Outcome)
    | Enter(caller: nat)
    | Settle(caller: nat, answer: Answer)
    | Publish(caller: nat)
    | Wake(caller: nat)

  function Move(l: Lease, i: nat, c: Caller): Lease
    requires i < |l.callers|
  {
    l.(callers := l.callers[i := c])
  }

  function Next(l: Lease, step: Step): Lease {
    match step
    case Call(outcome) => l.(callers := l.callers + [Entering(outcome)])
    case Enter(i) =>
      if i < |l.callers| && l.callers[i].Entering? then
        if l.finalized then Move(l, i, Returned(l.published))
        else if l.finalizing then Move(l, i, Waiting)
        else Move(l, i, Leading(l.callers[i].outcome, 0, NO_REPORT))
             .(finalizing := true, leader := Some((i, l.callers[i].outcome)))
      else l
    case Settle(i, answer) =>
      if i < |l.callers| && l.callers[i].Leading? && l.callers[i].stage < |Plan(l.children, l.callers[i].outcome)| then
        var c := l.callers[i];
        var event := Plan(l.children, c.outcome)[c.stage];
        Move(l, i, c.(stage := c.stage + 1, report := Note(c.report, event, answer)))
        .(log := l.log + [event], answers := l.answers + [answer])
      else l
    case Publish(i) =>
      if i < |l.callers| && l.callers[i].Leading? && l.callers[i].stage == |Plan(l.children, l.callers[i].outcome)| then
        Move(l, i, Returned(l.callers[i].report))
        .(published := l.callers[i].report, finalized := true, finalizing := false)
      else l
    case Wake(i) =>
      if i < |l.callers| && l.callers[i].Waiting? && l.finalized then Move(l, i, Returned(l.published)) else l
  }

  ghost function Run(l: Lease, steps: seq<Step>): Lease
    decreases |steps|
  {
    if steps == [] then l else Run(Next(l, steps[0]), steps[1..])
  }

  function Fresh(c: Children): Lease {
    Lease(c, false, false, NO_REPORT, [], [], [], None)
  }

  /** A report repeats the answer to one event: its error, and its ticket exactly when the child was asked
      to defer. */
  predicate TellsOf(r: Report, e: Event, a: Answer) {
    match e
    case TokenSettled(kind) =>
      r.tokenErr == a.tokenErr && r.tokenTicket == if kind == TokenBook.Deferred then a.ticket else None
    case BudgetSettled(kind, _) =>
      r.budgetErr == a.budgetErr && r.budgetTicket == if kind == BudgetBook.Deferred then a.ticket else None
    case SlotReturned => true
  }

  /** And all the answers so far, with nothing for a child that the lease does not have. */
  ghost predicate Tells(r: Report, c: Children, log: seq<Event>, answers: seq<Answer>) {
    && |answers| == |log| && (forall n :: 0 <= n < |log| ==> TellsOf(r, log[n], answers[n]))
    && (!c.hasTokens ==> r.tokenErr == None && r.tokenTicket == None)
    && (!c.hasBudget ==> r.budgetErr == None && r.budgetTicket == None)
  }

  /** No one is in charge yet, the leader is at work, or its report is published. */
  ghost predicate Inv(l: Lease) {
    && (forall i :: 0 <= i < |l.callers| && l.callers[i].Leading? ==>
        l.finalizing && l.leader == Some((i, l.callers[i].outcome)))
    && (forall i :: 0 <= i < |l.callers| && l.callers[i].Returned? ==>
        l.finalized && l.callers[i].report == l.published)
    && match l.leader
       case None =>
         && l.log == [] && l.answers == [] && !l.finalizing && !l.finalized
         && forall i :: 0 <= i < |l.callers| ==> l.callers[i].Entering?
       case Some(who) =>
         && who.0 < |l.callers| && l.finalizing != l.finalized
         && (l.finalized ==> && l.log == Plan(l.children, who.1) && l.callers[who.0] == Returned(l.published)
                             && Tells(l.published, l.children, l.log, l.answers))
         && (l.finalizing ==> && l.callers[who.0].Leading? && l.callers[who.0].outcome == who.1
                              && l.callers[who.0].stage <= |Plan(l.children, who.1)|
                              && l.log == Plan(l.children, who.1)[..l.callers[who.0].stage]
                              && Tells(l.callers[who.0].report, l.children, l.log, l.answers))
  }

  lemma EnterKeepsInv(l: Lease, i: nat)
    requires Inv(l) && i < |l.callers| && l.callers[i].Entering?
    ensures Inv(Next(l, Enter(i)))
  {
  }

  /** Each child is asked once, so noting an answer contradicts none that was noted before. */
  lemma NoteTells(r: Report, c: Children, o: Outcome, stage: nat, answers: seq<Answer>, answer: Answer)
    requires stage < |Plan(c, o)| && Tells(r, c, Plan(c, o)[..stage], answers)
    ensures Tells(Note(r, Plan(c, o)[stage], answer), c, Plan(c, o)[..stage + 1], answers + [answer])
  {
    var plan := Plan(c, o);
    assert forall n :: 0 <= n < stage ==> plan[..stage + 1][n] == plan[..stage][n] == plan[n];
  }

  lemma SettleKeepsInv(l: Lease, i: nat, answer: Answer)
    requires Inv(l) && i < |l.callers| && l.callers[i].Leading?
             && l.callers[i].stage < |Plan(l.children, l.callers[i].outcome)|
    ensures Inv(Next(l, Settle(i, answer)))
  {
    var plan, stage := Plan(l.children, l.callers[i].outcome), l.callers[i].stage;
    assert plan[..stage] + [plan[stage]] == plan[..stage + 1];
    NoteTells(l.callers[i].report, l.children, l.callers[i].outcome, stage, l.answers, answer);
  }

  lemma PublishKeepsInv(l: Lease, i: nat)
    requires Inv(l) && i < |l.callers| && l.callers[i].Leading?
             && l.callers[i].stage == |Plan(l.children, l.callers[i].outcome)|
    ensures Inv(Next(l, Publish(i)))
  {
  }

  lemma NextKeepsInv(l: Lease, step: Step)
    requires Inv(l)
    ensures Inv(Next(l, step)) && Next(l, step).children == l.children
  {
    if Next(l, step) != l {
      match step
      case Call(outcome) =>
      case Enter(i) => EnterKeepsInv(l, i);
      case Settle(i, answer) => SettleKeepsInv(l, i, answer);
      case Publish(i) => PublishKeepsInv(l, i);
      case Wake(i) =>
    }
  }

  lemma {:induction false} RunKeepsInv(l: Lease, steps: seq<Step>)
    requires Inv(l)
    ensures Inv(Run(l, steps)) && Run(l, steps).children == l.children
    decreases |steps|
  {
    if steps != [] {
      NextKeepsInv(l, steps[0]);
      RunKeepsInv(Next(l, steps[0]), steps[1..]);
    }
  }

  function Occurs(e: Event, log: seq<Event>): nat { multiset(log)[e] }

  /** Each child was settled once, with the outcome, and the slot was returned once. */
  predicate EachOnce(log: seq<Event>, c: Children, o: Outcome) {
    && |log| == (if c.hasTokens then 1 else 0) + (if c.hasBudget then 1 else 0) + 1
    && Occurs(SlotReturned, log) == 1
    && Occurs(TokenSettled(TokenCall(o)), log) == (if c.hasTokens then 1 else 0)
    && Occurs(BudgetCall(o), log) == if c.hasBudget then 1 else 0
  }

  lemma PlanSettlesOnce(c: Children, o: Outcome)
    ensures EachOnce(Plan(c, o), c, o)
  {
  }

  /** The outcomes the callers asked for, in the order of their calls. */
  function Asked(steps: seq<Step>): seq<Outcome> {
    if steps == [] then [] else (if steps[0].Call? then [steps[0].outcome] else []) + Asked(steps[1..])
  }

  ghost predicate AsAsked(l: Lease, asked: seq<Outcome>) {
    && |l.callers| == |asked|
    && (forall i :: 0 <= i < |asked| && l.callers[i].Entering? ==> l.callers[i].outcome == asked[i])
    && (l.leader.Some? ==> l.leader.value.0 < |asked| && l.leader.value.1 == asked[l.leader.value.0])
  }

  lemma {:induction false} RunAsAsked(l: Lease, steps: seq<Step>, asked: seq<Outcome>)
    requires AsAsked(l, asked)
    ensures AsAsked(Run(l, steps), asked + Asked(steps))
    decreases |steps|
  {
    if steps != [] {
      var called := if steps[0].Call? then [steps[0].outcome] else [];
      assert AsAsked(Next(l, steps[0]), asked + called);
      RunAsAsked(Next(l, steps[0]), steps[1..], asked + called);
      assert asked + called + Asked(steps[1..]) == asked + Asked(steps);
    } else {
      assert asked + Asked(steps) == asked;
    }
  }

  /** In every interleaving of terminal calls the children are settled by one caller, with the one
      outcome it asked for, in order and at most once each; once that is published each was settled exactly once,
      the slot was returned exactly once, and every caller that returned got the same report: what the
      children answered. */
  lemma OneOutcome(c: Children, steps: seq<Step>)
    ensures var l := Run(Fresh(c), steps);
            && (l.log == [] || (l.leader.Some? && l.log <= Plan(l.children, l.leader.value.1)))
            && (l.leader.Some? ==> && l.leader.value.0 < |Asked(steps)|
                                   && l.leader.value.1 == Asked(steps)[l.leader.value.0])
            && (l.finalized ==> && l.leader.Some? && l.log == Plan(l.children, l.leader.value.1)
                                && EachOnce(l.log, l.children, l.leader.value.1)
                                && Tells(l.published, l.children, l.log, l.answers))
            && forall i :: 0 <= i < |l.callers| && l.callers[i].Returned? ==>
                 l.finalized && l.callers[i].report == l.published
  {
    var l := Run(Fresh(c), steps);
    RunKeepsInv(Fresh(c), steps);
    RunAsAsked(Fresh(c), steps, []);
    if l.leader.Some? { PlanSettlesOnce(l.children, l.leader.value.1); }
  }

  /** Nobody is stuck: while some caller has not returned, some caller can take a step. */
  lemma SomeoneCanMove(c: Children, steps: seq<Step>, i: nat)
    requires var l := Run(Fresh(c), steps); i < |l.callers| && !l.callers[i].Returned?
    ensures var l := Run(Fresh(c), steps);
            exists step: Step :: !step.Call? && Next(l, step) != l
  {
    var l := Run(Fresh(c), steps);
    RunKeepsInv(Fresh(c), steps);
    if l.callers[i].Entering? {
      assert Next(l, Enter(i)) != l by { assert Next(l, Enter(i)).callers[i] != l.callers[i]; }
    } else if l.finalized {
      assert Next(l, Wake(i)).callers[i] != l.callers[i];
    } else {
      var j := l.leader.value.0;
      var answer := Answer(None, None, None);
      if l.callers[j].stage < |Plan(l.children, l.callers[j].outcome)| {
        assert Next(l, Settle(j, answer)).log != l.log;
      } else {
        assert Next(l, Publish(j)).finalized != l.finalized;
      }
    }
  }

  /** What an outcome charges in the two limiters, for any hold that can be settled: nothing for a
      release, the estimates for a conservative or deferred end, the known amounts when they can be
      recorded; and which of the two keep a ticket. */
  lemma OutcomeCharges(o: Outcome, m: TokenBook.Buckets, captured: set<TokenBook.BucketKey>, tokens: int,
                       money: Money.Micros)
    requires !TokenBook.Broken(m, captured, tokens)
    ensures var charged := TokenBook.ChargeFor(m, captured, tokens, TokenCall(o));
            var cost := BudgetBook.WantedCharge(BudgetCall(o).budget, money, BudgetCall(o).actual);
            match o
            case Release => charged == 0 && cost == 0
            case Known(actual, known, price) =>
              && charged == (if known && 0 <= actual && !TokenBook.Overflows(m, captured, actual)
                             then actual as int else tokens)
              && cost == if price.Known? then price.micros else money
            case _ => charged == tokens && cost == money
    ensures TokenCall(o) == TokenBook.Deferred <==> o in {Deferred, DeferredBudgetConservative}
    ensures BudgetCall(o).budget == BudgetBook.Deferred <==> o == Deferred
    ensures BudgetCall(o).budget == BudgetBook.KnownCost <==> o.Known?
  {
  }
}
