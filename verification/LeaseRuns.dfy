/** Composite leases over the runs of all three limiters (internal/limiter/lease.go): any number of
    requests take a slot, tokens and budget one after the other, with the steps of every other
    request, ticket holder and policy change between any two of them. A lease that was admitted is
    finished by the concurrent callers of LeaseFinish. */
module LeaseRuns {
  import opened Wrappers
  import Calendar
  import Money
  import WindowClock
  import Windows
  import Sums
  import BudgetBook
  import TokenBook
  import A = LeaseAdmission
  import B = BudgetRuns
  import C = Concurrency
  import F = LeaseFinish
  import T = TokenRuns

  /** How far an Acquire has got. `Undoing`: the budget refused and tokens are held. `Returning`: only the
      slot is left to give back. `Leaving`: it is flagged and not counted down yet. */
  datatype Stage = Entering | Slotted | Held | Undoing | Returning | Leaving | Refused | Admitted(lease: F.Lease)

  /** `slot`, `token` and `budget` name what the request was given in the three histories. */
  datatype Request = Request(options: A.Options, stage: Stage,
                             slot: Option<nat>, token: Option<nat>, budget: Option<nat>)

  /** `tokenOf`, `budgetOf` and `slotOf` name the request each reservation and adopted slot was given to. */
  datatype World = World(slots: C.World, tokens: T.World, budgets: B.World, requests: seq<Request>,
                         tokenOf: seq<nat>, budgetOf: seq<nat>, slotOf: map<nat, nat>)

  datatype Step =
    | Arrive(options: A.Options)
    | TakeSlot(i: nat)
    | Adopt(i: nat, lease: nat)
    | TakeTokens(i: nat, reading: WindowClock.Time)
    | TakeBudget(i: nat, at: Calendar.Instant)
    | UndoTokens(i: nat, reading: WindowClock.Time)
    | MarkSlot(i: nat)
    | ReturnSlot(i: nat)
    | Terminal(i: nat, call: F.Step, reading: WindowClock.Time)
    | Tokens(tokenStep: T.Step)
    | Budgets(budgetStep: B.Step)
    | Slots(slotStep: C.Step)

  // ---- What a step does in each limiter ----

  predicate At(w: World, i: nat, stage: Stage) { i < |w.requests| && w.requests[i].stage == stage }

  predicate IsAdmitted(w: World, i: nat) { i < |w.requests| && w.requests[i].stage.Admitted? }

  /** The child the terminal call settles, if it settles one. */
  function Settled(w: World, i: nat, call: F.Step): Option<F.Event> {
    if !IsAdmitted(w, i) then None
    else
      var before, after := w.requests[i].stage.lease.log, F.Next(w.requests[i].stage.lease, call).log;
      if |before| < |after| then Some(after[|before|]) else None
  }

  function TokenPart(w: World, step: Step): Option<T.Step> {
    match step
    case TakeTokens(i, reading) =>
      if At(w, i, Slotted) && 0 < w.requests[i].options.tokenAmount then
        var o := w.requests[i].options; Some(T.Reserve(o.key, o.windows, o.tokenAmount, reading))
      else None
    case UndoTokens(i, reading) =>
      if At(w, i, Undoing) && w.requests[i].token.Some?
      then Some(T.Settle(w.requests[i].token.value, TokenBook.Release, reading)) else None
    case Terminal(i, call, reading) =>
      var event := Settled(w, i, call);
      if event.Some? && event.value.TokenSettled? && w.requests[i].token.Some?
      then Some(T.Settle(w.requests[i].token.value, event.value.tokens, reading)) else None
    case Tokens(s) => if s.Reserve? || s.Settle? then None else Some(s)
    case _ => None
  }

  function BudgetPart(w: World, step: Step): Option<B.Step> {
    match step
    case TakeBudget(i, at) =>
      if At(w, i, Held) && A.BudgetRequested(w.requests[i].options) && w.requests[i].options.candidate.Known? then
        var o := w.requests[i].options; Some(B.Reserve(o.key, o.policy, o.candidate, at))
      else None
    case Terminal(i, call, _) =>
      var event := Settled(w, i, call);
      if event.Some? && event.value.BudgetSettled? && w.requests[i].budget.Some?
      then Some(B.Settle(w.requests[i].budget.value, event.value.budget, event.value.actual)) else None
    case Budgets(s) => if s.Reserve? || s.Settle? then None else Some(s)
    case _ => None
  }

  predicate Adoptable(w: World, i: nat, id: nat)
    requires i < |w.requests|
  {
    var o := w.requests[i].options;
    && id !in w.slotOf && id < |w.slots.leases|
    && C.Adoptable(w.slots.slots, w.slots.leases[id], o.key, 0 < o.maxConcurrency)
  }

  /** The slot of the request was flagged as released and its count is still to be lowered. */
  predicate Owing(w: World, i: nat) {
    && i < |w.requests| && w.requests[i].slot.Some? && w.requests[i].slot.value < |w.slots.leases|
    && w.slots.leases[w.requests[i].slot.value].released
    && (w.requests[i].stage == Leaving || w.requests[i].stage.Admitted?)
  }

  function SlotPart(w: World, step: Step): Option<C.Step> {
    match step
    case TakeSlot(i) =>
      if At(w, i, Entering) && 0 <= w.requests[i].options.maxConcurrency
      then Some(C.Acquire(w.requests[i].options.key, w.requests[i].options.maxConcurrency)) else None
    case Adopt(i, id) =>
      if At(w, i, Entering) && 0 <= w.requests[i].options.maxConcurrency && Adoptable(w, i, id)
      then Some(C.Adopt(id, w.requests[i].options.key, 0 < w.requests[i].options.maxConcurrency)) else None
    case MarkSlot(i) =>
      if At(w, i, Returning) && w.requests[i].slot.Some? then Some(C.ReleaseOwned(w.requests[i].slot.value)) else None
    case ReturnSlot(i) => if Owing(w, i) then Some(C.ReturnSlot(w.requests[i].slot.value)) else None
    case Terminal(i, call, _) =>
      var event := Settled(w, i, call);
      if event.Some? && event.value.SlotReturned? && w.requests[i].slot.Some?
      then Some(C.ReleaseOwned(w.requests[i].slot.value)) else None
    // Provisional slots are taken and given back outside any Acquire.
    case Slots(s) =>
      if s.Acquire? || ((s.Release? || s.ReturnSlot?) && s.id !in w.slotOf) then Some(s) else None
    case _ => None
  }

  ghost function TokensAfter(w: World, step: Step): T.World {
    if TokenPart(w, step).Some? then T.Next(w.tokens, TokenPart(w, step).value) else w.tokens
  }

  ghost function BudgetsAfter(w: World, step: Step): B.World {
    if BudgetPart(w, step).Some? then B.Next(w.budgets, BudgetPart(w, step).value) else w.budgets
  }

  function SlotsAfter(w: World, step: Step): C.World {
    if SlotPart(w, step).Some? then C.Next(w.slots, SlotPart(w, step).value) else w.slots
  }

  // ---- What it does to its request ----

  /** What a refused budget leaves to be given back. */
  function GiveBack(r: Request): Request { r.(stage := if r.token.Some? then Undoing else Returning) }

  function Admit(r: Request): Request {
    r.(stage := Admitted(F.Fresh(F.Children(r.token.Some?, r.budget.Some?))))
  }

  ghost function AfterTokens(w: World, r: Request, reading: WindowClock.Time, after: T.World): Request {
    var o := r.options;
    if A.TokensRefuse(w.tokens.tokens, o, reading) then r.(stage := Returning)
    else if |w.tokens.history| < |after.history| then r.(stage := Held, token := Some(|w.tokens.history|))
    else r.(stage := Held)
  }

  ghost function AfterBudget(w: World, r: Request, at: Calendar.Instant, after: B.World): Request {
    if A.BudgetRefuses(w.budgets.ledger, r.options, at) then GiveBack(r)
    else if |w.budgets.history| < |after.history| then Admit(r.(budget := Some(|w.budgets.history|)))
    else Admit(r)
  }

  /** What the settled child answers: a ticket exactly when its entry is left with one outstanding, and the
      budget's error. Which error the tokens answer is left to the call. */
  ghost function Reply(w: World, i: nat, step: Step): F.Answer
    requires i < |w.requests| && step.Terminal? && step.call.Settle?
  {
    var r, event := w.requests[i], Settled(w, i, step.call);
    if event.None? || event.value.SlotReturned? then F.Answer(None, None, None)
    else if event.value.TokenSettled? then
      F.Answer(step.call.answer.tokenErr, None, TokenTicket(r, TokensAfter(w, step).history))
    else
      F.Answer(None, BudgetError(r, w.budgets, event.value.budget, event.value.actual),
               BudgetTicket(r, BudgetsAfter(w, step).history))
  }

  function TokenTicket(r: Request, tok: seq<T.Entry>): Option<nat> {
    if r.token.Some? && r.token.value < |tok| && tok[r.token.value].status == T.Ticketed then r.token else None
  }

  function BudgetTicket(r: Request, bud: seq<B.Entry>): Option<nat> {
    if r.budget.Some? && r.budget.value < |bud| && bud[r.budget.value].status == B.Ticketed then r.budget else None
  }

  ghost function BudgetError(r: Request, w: B.World, kind: BudgetBook.Kind, actual: Money.Money)
    : Option<BudgetBook.SettleError>
  {
    if r.budget.Some? && r.budget.value < |w.history| then
      var e := w.history[r.budget.value];
      BudgetBook.Settle(w.ledger, e.key, e.generation, e.captured, e.amount, kind, actual).error
    else None
  }

  ghost function Told(w: World, i: nat, step: Step): F.Step
    requires i < |w.requests| && step.Terminal?
  {
    if step.call.Settle? then step.call.(answer := Reply(w, i, step)) else step.call
  }

  ghost function Moved(w: World, i: nat, step: Step): Request
    requires i < |w.requests|
  {
    var r := w.requests[i];
    match step
    case TakeSlot(_) =>
      if r.stage != Entering then r
      else if |w.slots.leases| < |SlotsAfter(w, step).leases| then r.(stage := Slotted, slot := Some(|w.slots.leases|))
      else r.(stage := Refused)
    case Adopt(_, id) =>
      if r.stage != Entering then r
      else if SlotPart(w, step).Some? then r.(stage := Slotted, slot := Some(id)) else r.(stage := Refused)
    case TakeTokens(_, reading) => if r.stage != Slotted then r else AfterTokens(w, r, reading, TokensAfter(w, step))
    case TakeBudget(_, at) => if r.stage != Held then r else AfterBudget(w, r, at, BudgetsAfter(w, step))
    case UndoTokens(_, _) => if r.stage != Undoing then r else r.(stage := Returning)
    case MarkSlot(_) => if r.stage != Returning then r else r.(stage := Leaving)
    case ReturnSlot(_) => if r.stage != Leaving then r else r.(stage := Refused)
    case Terminal(_, _, _) =>
      if !r.stage.Admitted? then r else r.(stage := Admitted(F.Next(r.stage.lease, Told(w, i, step))))
    case _ => r
  }

  function Actor(step: Step): Option<nat> {
    match step
    case Arrive(_) => None
    case Tokens(_) => None
    case Budgets(_) => None
    case Slots(_) => None
    case _ => Some(step.i)
  }

  /** The limiters move by their own steps; the acting request records what it was given. */
  ghost function Next(w: World, step: Step): World {
    var w' := w.(slots := SlotsAfter(w, step), tokens := TokensAfter(w, step), budgets := BudgetsAfter(w, step));
    if step.Arrive? then w'.(requests := w.requests + [Request(step.options, Entering, None, None, None)])
    else if Actor(step).None? || |w.requests| <= Actor(step).value then w'
    else
      var i := Actor(step).value;
      var r, r' := w.requests[i], Moved(w, i, step);
      w'.(requests := w.requests[i := r'],
          tokenOf := if r'.token == r.token then w.tokenOf else w.tokenOf + [i],
          budgetOf := if r'.budget == r.budget then w.budgetOf else w.budgetOf + [i],
          slotOf := if r'.slot == r.slot || r'.slot.None? then w.slotOf else w.slotOf[r'.slot.value := i])
  }

  ghost function Run(w: World, steps: seq<Step>): World
    decreases |steps|
  {
    if steps == [] then w else Run(Next(w, steps[0]), steps[1..])
  }

  // ---- What every request has ----

  /** A token reservation that was rolled back is charged nothing. */
  predicate TokenGone(r: Request, tok: seq<T.Entry>) {
    r.token.Some? ==> r.token.value < |tok| && tok[r.token.value].status == T.Closed(0)
  }

  predicate TokenIs(r: Request, tok: seq<T.Entry>, live: bool) {
    r.token.Some? ==> r.token.value < |tok| && (tok[r.token.value].status == T.Live <==> live)
  }

  predicate BudgetIs(r: Request, bud: seq<B.Entry>, live: bool) {
    r.budget.Some? ==> r.budget.value < |bud| && (bud[r.budget.value].status == B.Live <==> live)
  }

  predicate SlotIs(r: Request, leases: seq<C.LeaseRecord>, released: bool) {
    && r.slot.Some? && r.slot.value < |leases| && leases[r.slot.value].released == released
    && (!released ==> !leases[r.slot.value].returned)
  }

  function Count(b: bool): nat { if b then 1 else 0 }

  /** Which children a lease has still to settle: tokens first, then budget, then the slot. */
  predicate TokensDue(l: F.Lease) { l.children.hasTokens && |l.log| == 0 }

  predicate BudgetDue(l: F.Lease) { l.children.hasBudget && |l.log| <= Count(l.children.hasTokens) }

  predicate SlotDue(l: F.Lease) { |l.log| <= Count(l.children.hasTokens) + Count(l.children.hasBudget) }

  ghost predicate Consistent(r: Request, leases: seq<C.LeaseRecord>, tok: seq<T.Entry>, bud: seq<B.Entry>) {
    match r.stage
    case Entering => r.slot == r.token == r.budget == None
    case Slotted => r.token == r.budget == None && SlotIs(r, leases, false)
    case Held => r.budget == None && TokenIs(r, tok, true) && SlotIs(r, leases, false)
    case Undoing => r.budget == None && r.token.Some? && TokenIs(r, tok, true) && SlotIs(r, leases, false)
    case Returning => r.budget == None && TokenGone(r, tok) && SlotIs(r, leases, false)
    case Leaving => r.budget == None && TokenGone(r, tok) && SlotIs(r, leases, true)
    case Refused =>
      && r.budget == None && TokenGone(r, tok)
      && (r.slot.Some? ==> SlotIs(r, leases, true) && leases[r.slot.value].returned)
    case Admitted(l) =>
      && F.Inv(l) && l.children == F.Children(r.token.Some?, r.budget.Some?)
      && TokenIs(r, tok, TokensDue(l)) && BudgetIs(r, bud, BudgetDue(l)) && SlotIs(r, leases, !SlotDue(l))
  }

  predicate HasSlot(r: Request, leases: seq<C.LeaseRecord>) {
    && 0 <= r.options.maxConcurrency
    && (0 < r.options.maxConcurrency ==>
          && r.slot.Some? && r.slot.value < |leases|
          && leases[r.slot.value].counted && leases[r.slot.value].key == r.options.key)
  }

  /** The reservation of all the windows asked for, unless nothing or no window was asked for. */
  predicate HasTokens(r: Request, tok: seq<T.Entry>) {
    && 0 <= r.options.tokenAmount
    && (0 < r.options.tokenAmount && r.options.windows != [] ==>
          && r.token.Some? && r.token.value < |tok| && tok[r.token.value].amount == r.options.tokenAmount
          && (forall b :: b in tok[r.token.value].captured ==> b.key == r.options.key)
          && (set b | b in tok[r.token.value].captured :: b.window) == Windows.SetOf(r.options.windows))
  }

  /** One account for each limit of the policy, and no other. */
  predicate Covers(captured: set<BudgetBook.Scope>, p: BudgetBook.Policy) {
    && (BudgetBook.Total in captured <==> p.limited)
    && ((exists s :: s in captured && s.Day?) <==> p.dayLimited)
    && ((exists s :: s in captured && s.Month?) <==> p.monthLimited)
  }

  /** A reservation of the candidate cost, which is known if a lifetime limit is set, unless it is nothing or
      nothing is limited. */
  predicate HasBudget(r: Request, bud: seq<B.Entry>) {
    var p := r.options.policy;
    && (p.limited ==> r.options.candidate.Known?)
    && (r.options.candidate.Known? && r.options.candidate.micros != 0
        && (p.limited || p.dayLimited || p.monthLimited) ==>
          && r.budget.Some? && r.budget.value < |bud|
          && bud[r.budget.value].amount == r.options.candidate.micros && bud[r.budget.value].key == r.options.key
          && Covers(bud[r.budget.value].captured, p))
  }

  /** An admitted request has all it asked for. */
  predicate Granted(r: Request, leases: seq<C.LeaseRecord>, tok: seq<T.Entry>, bud: seq<B.Entry>) {
    match r.stage
    case Slotted => HasSlot(r, leases)
    case Held => HasSlot(r, leases) && HasTokens(r, tok)
    case Admitted(_) => HasSlot(r, leases) && HasTokens(r, tok) && HasBudget(r, bud)
    case _ => true
  }

  /** What a request was given is its own. */
  predicate Linked(w: World, q: nat)
    requires q < |w.requests|
  {
    var r := w.requests[q];
    && (r.token.Some? ==> r.token.value < |w.tokenOf| && w.tokenOf[r.token.value] == q)
    && (r.budget.Some? ==> r.budget.value < |w.budgetOf| && w.budgetOf[r.budget.value] == q)
    && (r.slot.Some? ==> r.slot.value in w.slotOf && w.slotOf[r.slot.value] == q)
  }

  /** And every reservation was given to a request. */
  ghost predicate TokensGiven(of: seq<nat>, n: nat, requests: seq<Request>) {
    |of| == n && forall t :: 0 <= t < |of| ==> of[t] < |requests| && requests[of[t]].token == Some(t)
  }

  ghost predicate BudgetsGiven(of: seq<nat>, n: nat, requests: seq<Request>) {
    |of| == n && forall b :: 0 <= b < |of| ==> of[b] < |requests| && requests[of[b]].budget == Some(b)
  }

  ghost predicate SlotsGiven(of: map<nat, nat>, n: nat, requests: seq<Request>) {
    forall id :: id in of ==> id < n && of[id] < |requests| && requests[of[id]].slot == Some(id)
  }

  ghost predicate Given(w: World) {
    && TokensGiven(w.tokenOf, |w.tokens.history|, w.requests)
    && BudgetsGiven(w.budgetOf, |w.budgets.history|, w.requests)
    && SlotsGiven(w.slotOf, |w.slots.leases|, w.requests)
  }

  ghost predicate Fine(w: World, q: nat)
    requires q < |w.requests|
  {
    && Linked(w, q) && Consistent(w.requests[q], w.slots.leases, w.tokens.history, w.budgets.history)
    && Granted(w.requests[q], w.slots.leases, w.tokens.history, w.budgets.history)
  }

  ghost predicate Inv(w: World) {
    C.Inv(w.slots) && Given(w) && forall q: nat :: q < |w.requests| ==> Fine(w, q)
  }

  // ---- What a limiter's step leaves alone ----

  /** Only an outstanding ticket may have been used up meanwhile. */
  predicate TokenEased(e: T.Entry, e': T.Entry) {
    && e'.captured == e.captured && e'.amount == e.amount
    && (e'.status == e.status || (e.status.Ticketed? && e'.status.Closed?))
  }

  predicate BudgetEased(e: B.Entry, e': B.Entry) {
    && e'.key == e.key && e'.captured == e.captured && e'.amount == e.amount
    && (e'.status == e.status || (e.status.Ticketed? && e'.status.Closed?))
  }

  lemma TokenStepEases(w: T.World, step: T.Step, j: nat)
    requires j < |w.history| && !(step.Settle? && step.id == j)
    ensures j < |T.Next(w, step).history| && TokenEased(w.history[j], T.Next(w, step).history[j])
  {
  }

  lemma BudgetStepEases(w: B.World, step: B.Step, j: nat)
    requires j < |w.history| && !(step.Settle? && step.id == j)
    ensures j < |B.Next(w, step).history| && BudgetEased(w.history[j], B.Next(w, step).history[j])
  {
  }

  lemma SlotStepKeeps(w: C.World, step: C.Step, j: nat)
    requires j < |w.leases| && (step.Acquire? || step.id != j)
    ensures j < |C.Next(w, step).leases| && C.Next(w, step).leases[j] == w.leases[j]
  {
  }

  predicate SameSlot(r: Request, leases: seq<C.LeaseRecord>, leases': seq<C.LeaseRecord>) {
    r.slot.Some? && r.slot.value < |leases| ==>
      r.slot.value < |leases'| && leases'[r.slot.value] == leases[r.slot.value]
  }

  predicate SameToken(r: Request, tok: seq<T.Entry>, tok': seq<T.Entry>) {
    r.token.Some? && r.token.value < |tok| ==>
      r.token.value < |tok'| && TokenEased(tok[r.token.value], tok'[r.token.value])
  }

  predicate SameBudget(r: Request, bud: seq<B.Entry>, bud': seq<B.Entry>) {
    r.budget.Some? && r.budget.value < |bud| ==>
      r.budget.value < |bud'| && BudgetEased(bud[r.budget.value], bud'[r.budget.value])
  }

  lemma StaysConsistent(r: Request, leases: seq<C.LeaseRecord>, tok: seq<T.Entry>, bud: seq<B.Entry>,
                        leases': seq<C.LeaseRecord>, tok': seq<T.Entry>, bud': seq<B.Entry>)
    requires Consistent(r, leases, tok, bud) && Granted(r, leases, tok, bud)
    requires SameSlot(r, leases, leases') && SameToken(r, tok, tok') && SameBudget(r, bud, bud')
    ensures Consistent(r, leases', tok', bud') && Granted(r, leases', tok', bud')
  {
  }

  /** What a step does in one limiter does not touch what belongs to another request. */
  lemma TokensApart(w: World, step: Step, q: nat)
    requires Inv(w) && q < |w.requests| && Actor(step) != Some(q)
    ensures SameToken(w.requests[q], w.tokens.history, TokensAfter(w, step).history)
  {
    assert Fine(w, q);
    var r, part := w.requests[q], TokenPart(w, step);
    if Actor(step).Some? && Actor(step).value < |w.requests| { assert Fine(w, Actor(step).value); }
    if r.token.Some? && r.token.value < |w.tokens.history| && part.Some? {
      TokenStepEases(w.tokens, part.value, r.token.value);
    }
  }

  lemma BudgetsApart(w: World, step: Step, q: nat)
    requires Inv(w) && q < |w.requests| && Actor(step) != Some(q)
    ensures SameBudget(w.requests[q], w.budgets.history, BudgetsAfter(w, step).history)
  {
    assert Fine(w, q);
    var r, part := w.requests[q], BudgetPart(w, step);
    if Actor(step).Some? && Actor(step).value < |w.requests| { assert Fine(w, Actor(step).value); }
    if r.budget.Some? && r.budget.value < |w.budgets.history| && part.Some? {
      BudgetStepEases(w.budgets, part.value, r.budget.value);
    }
  }

  lemma SlotsApart(w: World, step: Step, q: nat)
    requires Inv(w) && q < |w.requests| && Actor(step) != Some(q)
    ensures SameSlot(w.requests[q], w.slots.leases, SlotsAfter(w, step).leases)
  {
    assert Fine(w, q);
    var r, part := w.requests[q], SlotPart(w, step);
    if Actor(step).Some? && Actor(step).value < |w.requests| { assert Fine(w, Actor(step).value); }
    if r.slot.Some? && r.slot.value < |w.slots.leases| && part.Some? {
      SlotStepKeeps(w.slots, part.value, r.slot.value);
    }
  }

  // ---- The acting request ----

  /** Where the step leaves the acting request, and what it was newly given. */
  ghost predicate MovesFine(w: World, i: nat, step: Step)
    requires i < |w.requests|
  {
    var r, r' := w.requests[i], Moved(w, i, step);
    var leases, tok, bud := SlotsAfter(w, step).leases, TokensAfter(w, step).history, BudgetsAfter(w, step).history;
    && Consistent(r', leases, tok, bud) && Granted(r', leases, tok, bud)
    && NewToken(w, r, r', tok) && NewBudget(w, r, r', bud) && NewSlot(w, r, r', leases)
  }

  predicate NewToken(w: World, r: Request, r': Request, tok: seq<T.Entry>) {
    if r'.token == r.token then |tok| == |w.tokens.history|
    else r'.token == Some(|w.tokens.history|) && r.token == None && |tok| == |w.tokens.history| + 1
  }

  predicate NewBudget(w: World, r: Request, r': Request, bud: seq<B.Entry>) {
    if r'.budget == r.budget then |bud| == |w.budgets.history|
    else r'.budget == Some(|w.budgets.history|) && r.budget == None && |bud| == |w.budgets.history| + 1
  }

  predicate NewSlot(w: World, r: Request, r': Request, leases: seq<C.LeaseRecord>) {
    && |w.slots.leases| <= |leases|
    && (r'.slot == r.slot
        || (r.slot == None && r'.slot.Some? && r'.slot.value !in w.slotOf && r'.slot.value < |leases|))
  }

  lemma SlotMoves(w: World, i: nat, step: Step)
    requires Inv(w) && i < |w.requests| && (step.TakeSlot? || step.Adopt?) && step.i == i
    ensures MovesFine(w, i, step)
  {
    assert Fine(w, i);
  }

  lemma ReserveGivesTokens(w: T.World, key: TokenBook.KeyId, windows: seq<Windows.Window>, amount: WindowClock.Int64,
                           reading: WindowClock.Time)
    requires !TokenBook.Reserve(w.tokens, key, windows, amount, reading).1.Rejected?
    ensures var h := T.Next(w, T.Reserve(key, windows, amount, reading)).history;
            if windows == [] then h == w.history
            else && |h| == |w.history| + 1 && h[|w.history|].status == T.Live && h[|w.history|].amount == amount
                 && (forall b :: b in h[|w.history|].captured ==> b.key == key)
                 && (set b | b in h[|w.history|].captured :: b.window) == Windows.SetOf(windows)
  {
    if windows != [] {
      var now := TokenBook.Clock(w.tokens, reading);
      var ws := Windows.SetOf(windows);
      var captured := TokenBook.Captured(key, ws, now);
      forall win | win in ws ensures win in set b | b in captured :: b.window {
        assert TokenBook.BucketAt(key, win, now) in captured;
      }
      assert (set b | b in captured :: b.window) == ws;
    }
  }

  lemma TokenMoves(w: World, i: nat, step: Step)
    requires Inv(w) && i < |w.requests| && step.TakeTokens? && step.i == i
    ensures MovesFine(w, i, step)
  {
    assert Fine(w, i);
    var o := w.requests[i].options;
    if At(w, i, Slotted) && 0 < o.tokenAmount && !A.TokensRefuse(w.tokens.tokens, o, step.reading) {
      ReserveGivesTokens(w.tokens, o.key, o.windows, o.tokenAmount, step.reading);
    }
  }

  lemma ReserveGivesBudget(w: B.World, key: BudgetBook.KeyId, p: BudgetBook.Policy, candidate: Money.Money,
                           at: Calendar.Instant)
    requires !BudgetBook.Reserve(w.ledger, key, p, candidate, at).1.Refused? && candidate.Known?
    ensures var h := B.Next(w, B.Reserve(key, p, candidate, at)).history;
            && (candidate.micros != 0 && !BudgetBook.Unlimited(p) ==> |h| == |w.history| + 1)
            && (|h| != |w.history| ==>
                  && |h| == |w.history| + 1 && h[|w.history|].status == B.Live
                  && h[|w.history|].amount == candidate.micros && h[|w.history|].key == key
                  && Covers(h[|w.history|].captured, p))
  {
    var now := BudgetBook.Clock(w.ledger, at);
    CapturedCovers(p, now);
  }

  lemma CapturedCovers(p: BudgetBook.Policy, now: Calendar.Moment)
    ensures Covers(BudgetBook.Captured(p, now), p)
  {
    var captured := BudgetBook.Captured(p, now);
    assert p.dayLimited ==> BudgetBook.Day(now.day) in captured;
    assert p.monthLimited ==> BudgetBook.Month(now.month) in captured;
  }

  lemma RefusedGivesNothing(w: B.World, key: BudgetBook.KeyId, p: BudgetBook.Policy, candidate: Money.Money,
                            at: Calendar.Instant)
    requires BudgetBook.Reserve(w.ledger, key, p, candidate, at).1.Refused?
    ensures B.Next(w, B.Reserve(key, p, candidate, at)).history == w.history
  {
  }

  lemma BudgetRefused(w: World, i: nat, step: Step)
    requires Inv(w) && At(w, i, Held) && step.TakeBudget? && step.i == i
    requires A.BudgetRefuses(w.budgets.ledger, w.requests[i].options, step.at)
    ensures MovesFine(w, i, step)
  {
    assert Fine(w, i);
    var o := w.requests[i].options;
    if BudgetPart(w, step).Some? { RefusedGivesNothing(w.budgets, o.key, o.policy, o.candidate, step.at); }
  }

  /** With a live budget reservation, or none, a request that holds the rest is admitted with all of it. */
  lemma AdmitsHeld(r: Request, budget: Option<nat>, leases: seq<C.LeaseRecord>, tok: seq<T.Entry>, bud: seq<B.Entry>)
    requires TokenIs(r, tok, true) && SlotIs(r, leases, false) && HasSlot(r, leases) && HasTokens(r, tok)
    requires BudgetIs(r.(budget := budget), bud, true) && HasBudget(r.(budget := budget), bud)
    ensures var r' := Admit(r.(budget := budget)); Consistent(r', leases, tok, bud) && Granted(r', leases, tok, bud)
  {
  }

  lemma BudgetGranted(w: World, i: nat, step: Step)
    requires Inv(w) && At(w, i, Held) && step.TakeBudget? && step.i == i
    requires !A.BudgetRefuses(w.budgets.ledger, w.requests[i].options, step.at)
    ensures MovesFine(w, i, step)
  {
    assert Fine(w, i);
    var r, o, bud := w.requests[i], w.requests[i].options, BudgetsAfter(w, step).history;
    if A.BudgetRequested(o) { ReserveGivesBudget(w.budgets, o.key, o.policy, o.candidate, step.at); }
    var budget := if |w.budgets.history| < |bud| then Some(|w.budgets.history|) else None;
    AdmitsHeld(r, budget, w.slots.leases, w.tokens.history, bud);
    assert Moved(w, i, step) == Admit(r.(budget := budget));
  }

  lemma BudgetMoves(w: World, i: nat, step: Step)
    requires Inv(w) && i < |w.requests| && step.TakeBudget? && step.i == i
    ensures MovesFine(w, i, step)
  {
    if !At(w, i, Held) {
      assert Fine(w, i);
    } else if A.BudgetRefuses(w.budgets.ledger, w.requests[i].options, step.at) {
      BudgetRefused(w, i, step);
    } else {
      BudgetGranted(w, i, step);
    }
  }

  lemma UndoMoves(w: World, i: nat, step: Step)
    requires Inv(w) && i < |w.requests| && step.UndoTokens? && step.i == i
    ensures MovesFine(w, i, step)
  {
    assert Fine(w, i);
  }

  lemma MarkMoves(w: World, i: nat, step: Step)
    requires Inv(w) && i < |w.requests| && step.MarkSlot? && step.i == i
    ensures MovesFine(w, i, step)
  {
    assert Fine(w, i);
  }

  lemma ReturnMoves(w: World, i: nat, step: Step)
    requires Inv(w) && i < |w.requests| && step.ReturnSlot? && step.i == i
    ensures MovesFine(w, i, step)
  {
    assert Fine(w, i);
  }

  lemma PlanOrder(c: F.Children, o: F.Outcome, n: nat)
    requires n < |F.Plan(c, o)|
    ensures n <= Count(c.hasTokens) + Count(c.hasBudget)
    ensures F.Plan(c, o)[n].TokenSettled? <==> c.hasTokens && n == 0
    ensures F.Plan(c, o)[n].BudgetSettled? <==> !(c.hasTokens && n == 0) && c.hasBudget && n <= Count(c.hasTokens)
  {
  }

  lemma OnlySettlingLogs(l: F.Lease, call: F.Step)
    requires F.Next(l, call).log != l.log
    ensures call.Settle? && call.caller < |l.callers| && l.callers[call.caller].Leading?
    ensures var c := l.callers[call.caller];
            var plan := F.Plan(l.children, c.outcome);
            c.stage < |plan| && F.Next(l, call).log == l.log + [plan[c.stage]]
  {
  }

  lemma LogFollowsPlan(l: F.Lease, call: F.Step) returns (o: F.Outcome)
    requires F.Inv(l) && F.Next(l, call).log != l.log
    ensures |l.log| < |F.Plan(l.children, o)| && F.Next(l, call).log == l.log + [F.Plan(l.children, o)[|l.log|]]
  {
    OnlySettlingLogs(l, call);
    o := l.callers[call.caller].outcome;
    assert l.leader == Some((call.caller, o));
    assert |l.log| == l.callers[call.caller].stage;
  }

  /** A terminal call that settles a child settles the one that is due. */
  lemma SettlesWhatIsDue(l: F.Lease, call: F.Step)
    requires F.Inv(l)
    ensures var l' := F.Next(l, call);
            && F.Inv(l') && l'.children == l.children
            && if |l'.log| == |l.log| then l'.log == l.log
               else && |l'.log| == |l.log| + 1 && SlotDue(l)
                    && (l'.log[|l.log|].TokenSettled? <==> TokensDue(l))
                    && (l'.log[|l.log|].BudgetSettled? <==> !TokensDue(l) && BudgetDue(l))
  {
    F.NextKeepsInv(l, call);
    if F.Next(l, call).log != l.log {
      var o := LogFollowsPlan(l, call);
      PlanOrder(l.children, o, |l.log|);
    }
  }

  /** What is settled does not depend on the answer. */
  lemma SettledAsTold(w: World, i: nat, step: Step)
    requires IsAdmitted(w, i) && F.Inv(w.requests[i].stage.lease) && step.Terminal?
    ensures var l := w.requests[i].stage.lease;
            var l' := F.Next(l, Told(w, i, step));
            && l'.log == F.Next(l, step.call).log && F.Inv(l') && l'.children == l.children
            && if |l'.log| == |l.log| then l'.log == l.log
               else && |l'.log| == |l.log| + 1 && SlotDue(l)
                    && (l'.log[|l.log|].TokenSettled? <==> TokensDue(l))
                    && (l'.log[|l.log|].BudgetSettled? <==> !TokensDue(l) && BudgetDue(l))
  {
    SettlesWhatIsDue(w.requests[i].stage.lease, Told(w, i, step));
  }

  predicate SameReservation(e: B.Entry, e': B.Entry) {
    e'.key == e.key && e'.captured == e.captured && e'.amount == e.amount
  }

  lemma TokenSettles(w: T.World, id: nat, kind: TokenBook.Kind, reading: WindowClock.Time)
    requires id < |w.history| && w.history[id].status == T.Live
    ensures var h := T.Next(w, T.Settle(id, kind, reading)).history;
            && |h| == |w.history| && h[id].status != T.Live
            && h[id].captured == w.history[id].captured && h[id].amount == w.history[id].amount
  {
  }

  lemma BudgetSettles(w: B.World, id: nat, kind: BudgetBook.Kind, actual: Money.Money)
    requires id < |w.history| && w.history[id].status == B.Live
    ensures var h := B.Next(w, B.Settle(id, kind, actual)).history;
            |h| == |w.history| && h[id].status != B.Live && SameReservation(w.history[id], h[id])
  {
  }

  lemma SlotReleases(w: C.World, id: nat)
    requires id < |w.leases| && !w.leases[id].released
    ensures var leases := C.Next(w, C.ReleaseOwned(id)).leases;
            && |leases| == |w.leases| && leases[id].released
            && leases[id].counted == w.leases[id].counted && leases[id].key == w.leases[id].key
  {
  }

  /** A lease that settled the child that was due stays in step with what the request has. */
  lemma LeaseStays(r: Request, l': F.Lease, leases: seq<C.LeaseRecord>, tok: seq<T.Entry>, bud: seq<B.Entry>,
                   leases': seq<C.LeaseRecord>, tok': seq<T.Entry>, bud': seq<B.Entry>)
    requires r.stage.Admitted? && Granted(r, leases, tok, bud) && F.Inv(l')
    requires l'.children == F.Children(r.token.Some?, r.budget.Some?)
    requires TokenIs(r, tok', TokensDue(l')) && BudgetIs(r, bud', BudgetDue(l')) && SlotIs(r, leases', !SlotDue(l'))
    requires r.token.Some? && r.token.value < |tok| ==>
               tok'[r.token.value].captured == tok[r.token.value].captured
               && tok'[r.token.value].amount == tok[r.token.value].amount
    requires r.budget.Some? && r.budget.value < |bud| ==> SameReservation(bud[r.budget.value], bud'[r.budget.value])
    requires r.slot.Some? && r.slot.value < |leases| ==>
               leases'[r.slot.value].counted == leases[r.slot.value].counted
               && leases'[r.slot.value].key == leases[r.slot.value].key
    ensures Consistent(r.(stage := Admitted(l')), leases', tok', bud')
    ensures Granted(r.(stage := Admitted(l')), leases', tok', bud')
  {
  }

  /** The terminal call reaches the limiter of the child it settles, and no other. */
  lemma TerminalReaches(w: World, i: nat, step: Step)
    requires IsAdmitted(w, i) && step.Terminal? && step.i == i
    requires Consistent(w.requests[i], w.slots.leases, w.tokens.history, w.budgets.history)
    ensures var r, l := w.requests[i], w.requests[i].stage.lease;
            var event := Settled(w, i, step.call);
            && TokenPart(w, step) == (if event.Some? && event.value.TokenSettled?
                                      then Some(T.Settle(r.token.value, event.value.tokens, step.reading)) else None)
            && BudgetPart(w, step) == (if event.Some? && event.value.BudgetSettled?
                                       then Some(B.Settle(r.budget.value, event.value.budget, event.value.actual))
                                       else None)
            && SlotPart(w, step) == (if event.Some? && event.value.SlotReturned?
                                     then Some(C.ReleaseOwned(r.slot.value)) else None)
  {
    SettledAsTold(w, i, step);
  }

  lemma TerminalMoves(w: World, i: nat, step: Step)
    requires Inv(w) && i < |w.requests| && step.Terminal? && step.i == i
    ensures MovesFine(w, i, step)
  {
    assert Fine(w, i);
    if IsAdmitted(w, i) { AdmittedMoves(w, i, step); }
  }

  lemma AdmittedMoves(w: World, i: nat, step: Step)
    requires IsAdmitted(w, i) && step.Terminal? && step.i == i
    requires Consistent(w.requests[i], w.slots.leases, w.tokens.history, w.budgets.history)
    requires Granted(w.requests[i], w.slots.leases, w.tokens.history, w.budgets.history)
    ensures MovesFine(w, i, step)
  {
    var r, l, event := w.requests[i], w.requests[i].stage.lease, Settled(w, i, step.call);
    SettledAsTold(w, i, step);
    TerminalReaches(w, i, step);
    if event.Some? {
      match event.value
      case TokenSettled(kind) => TokenSettles(w.tokens, r.token.value, kind, step.reading);
      case BudgetSettled(kind, actual) => BudgetSettles(w.budgets, r.budget.value, kind, actual);
      case SlotReturned => SlotReleases(w.slots, r.slot.value);
    }
    LeaseStays(r, F.Next(l, Told(w, i, step)), w.slots.leases, w.tokens.history, w.budgets.history,
               SlotsAfter(w, step).leases, TokensAfter(w, step).history, BudgetsAfter(w, step).history);
  }

  lemma ActorMoves(w: World, i: nat, step: Step)
    requires Inv(w) && i < |w.requests| && Actor(step) == Some(i)
    ensures MovesFine(w, i, step)
  {
    match step
    case TakeSlot(_) => SlotMoves(w, i, step);
    case Adopt(_, _) => SlotMoves(w, i, step);
    case TakeTokens(_, _) => TokenMoves(w, i, step);
    case TakeBudget(_, _) => BudgetMoves(w, i, step);
    case UndoTokens(_, _) => UndoMoves(w, i, step);
    case MarkSlot(_) => MarkMoves(w, i, step);
    case ReturnSlot(_) => ReturnMoves(w, i, step);
    case Terminal(_, _, _) => TerminalMoves(w, i, step);
  }

  // ---- Every step keeps it ----

  lemma OthersStayFine(w: World, step: Step, q: nat)
    requires Inv(w) && q < |w.requests| && Actor(step) != Some(q)
    requires Actor(step).Some? && Actor(step).value < |w.requests| ==> MovesFine(w, Actor(step).value, step)
    ensures q < |Next(w, step).requests| && Fine(Next(w, step), q)
  {
    assert Fine(w, q);
    TokensApart(w, step, q);
    BudgetsApart(w, step, q);
    SlotsApart(w, step, q);
    StaysConsistent(w.requests[q], w.slots.leases, w.tokens.history, w.budgets.history,
                    SlotsAfter(w, step).leases, TokensAfter(w, step).history, BudgetsAfter(w, step).history);
  }

  lemma ActorStaysLinked(w: World, step: Step, i: nat)
    requires Inv(w) && i < |w.requests| && Actor(step) == Some(i) && MovesFine(w, i, step)
    ensures i < |Next(w, step).requests| && Linked(Next(w, step), i) && Next(w, step).requests[i] == Moved(w, i, step)
  {
    assert Linked(w, i) by { assert Fine(w, i); }
  }

  lemma ActorStaysFine(w: World, step: Step, i: nat)
    requires Inv(w) && i < |w.requests| && Actor(step) == Some(i) && MovesFine(w, i, step)
    ensures i < |Next(w, step).requests| && Fine(Next(w, step), i)
  {
    ActorStaysLinked(w, step, i);
    LimitersMove(w, step);
  }

  lemma LimitersMove(w: World, step: Step)
    ensures var w' := Next(w, step);
            w'.slots == SlotsAfter(w, step) && w'.tokens == TokensAfter(w, step) && w'.budgets == BudgetsAfter(w, step)
  {
  }

  lemma SlotStepCounts(w: C.World, step: C.Step)
    requires C.Inv(w)
    ensures C.Inv(C.Next(w, step)) && |w.leases| <= |C.Next(w, step).leases|
  {
    C.NextKeepsInv(w, step);
  }

  lemma SlotsStayCounted(w: World, step: Step)
    requires Inv(w)
    ensures C.Inv(SlotsAfter(w, step)) && |w.slots.leases| <= |SlotsAfter(w, step).leases|
  {
    if SlotPart(w, step).Some? { SlotStepCounts(w.slots, SlotPart(w, step).value); }
  }

  lemma OutsideGivesNothing(w: World, step: Step)
    requires Actor(step).None? || |w.requests| <= Actor(step).value
    ensures |TokensAfter(w, step).history| == |w.tokens.history|
    ensures |BudgetsAfter(w, step).history| == |w.budgets.history|
  {
  }

  lemma ArrivalTakesNothing(w: World, r: Request)
    requires Given(w)
    ensures Given(w.(requests := w.requests + [r]))
  {
  }

  lemma MoreSlots(w: World, slots: C.World)
    requires Given(w) && |w.slots.leases| <= |slots.leases|
    ensures Given(w.(slots := slots))
  {
  }

  lemma TokensStayGiven(of: seq<nat>, n: nat, requests: seq<Request>, i: nat, r: Request, of': seq<nat>, n': nat)
    requires TokensGiven(of, n, requests) && i < |requests|
    requires if r.token == requests[i].token then of' == of && n' == n
             else requests[i].token == None && r.token == Some(n) && of' == of + [i] && n' == n + 1
    ensures TokensGiven(of', n', requests[i := r])
  {
  }

  lemma BudgetsStayGiven(of: seq<nat>, n: nat, requests: seq<Request>, i: nat, r: Request, of': seq<nat>, n': nat)
    requires BudgetsGiven(of, n, requests) && i < |requests|
    requires if r.budget == requests[i].budget then of' == of && n' == n
             else requests[i].budget == None && r.budget == Some(n) && of' == of + [i] && n' == n + 1
    ensures BudgetsGiven(of', n', requests[i := r])
  {
  }

  lemma SlotsStayGiven(of: map<nat, nat>, n: nat, requests: seq<Request>, i: nat, r: Request, of': map<nat, nat>,
                       n': nat)
    requires SlotsGiven(of, n, requests) && i < |requests| && n <= n'
    requires if r.slot == requests[i].slot then of' == of
             else requests[i].slot == None && r.slot.Some? && r.slot.value < n' && of' == of[r.slot.value := i]
    ensures SlotsGiven(of', n', requests[i := r])
  {
  }

  lemma RecordsMove(w: World, step: Step, i: nat)
    requires i < |w.requests| && Actor(step) == Some(i)
    ensures var r, r', w' := w.requests[i], Moved(w, i, step), Next(w, step);
            && w'.requests == w.requests[i := r']
            && w'.tokenOf == (if r'.token == r.token then w.tokenOf else w.tokenOf + [i])
            && w'.budgetOf == (if r'.budget == r.budget then w.budgetOf else w.budgetOf + [i])
            && w'.slotOf == if r'.slot == r.slot || r'.slot.None? then w.slotOf else w.slotOf[r'.slot.value := i]
  {
  }

  lemma ActorStaysGiven(w: World, step: Step, i: nat)
    requires Inv(w) && i < |w.requests| && Actor(step) == Some(i) && MovesFine(w, i, step)
    ensures Given(Next(w, step))
  {
    var r', w' := Moved(w, i, step), Next(w, step);
    LimitersMove(w, step);
    RecordsMove(w, step, i);
    TokensStayGiven(w.tokenOf, |w.tokens.history|, w.requests, i, r', w'.tokenOf, |w'.tokens.history|);
    BudgetsStayGiven(w.budgetOf, |w.budgets.history|, w.requests, i, r', w'.budgetOf, |w'.budgets.history|);
    SlotsStayGiven(w.slotOf, |w.slots.leases|, w.requests, i, r', w'.slotOf, |w'.slots.leases|);
  }

  predicate Acts(w: World, step: Step) { Actor(step).Some? && Actor(step).value < |w.requests| }

  lemma StaysGiven(w: World, step: Step)
    requires Inv(w)
    ensures Given(Next(w, step))
  {
    if Acts(w, step) {
      ActorMoves(w, Actor(step).value, step);
      ActorStaysGiven(w, step, Actor(step).value);
    } else {
      SlotsStayCounted(w, step);
      OutsideGivesNothing(w, step);
      MoreSlots(w, SlotsAfter(w, step));
      if step.Arrive? { ArrivalTakesNothing(w, Request(step.options, Entering, None, None, None)); }
    }
  }

  lemma StaysFine(w: World, step: Step, q: nat)
    requires Inv(w) && q < |w.requests|
    ensures q < |Next(w, step).requests| && Fine(Next(w, step), q)
  {
    if Acts(w, step) { ActorMoves(w, Actor(step).value, step); }
    if Actor(step) == Some(q) { ActorStaysFine(w, step, q); } else { OthersStayFine(w, step, q); }
  }

  lemma RequestsAfter(w: World, step: Step)
    ensures |w.requests| <= |Next(w, step).requests| <= |w.requests| + 1
    ensures |Next(w, step).requests| == |w.requests| + 1 ==>
              var r := Next(w, step).requests[|w.requests|]; r == Request(r.options, Entering, None, None, None)
  {
  }

  lemma NextKeepsInv(w: World, step: Step)
    requires Inv(w)
    ensures Inv(Next(w, step))
  {
    SlotsStayCounted(w, step);
    LimitersMove(w, step);
    StaysGiven(w, step);
    RequestsAfter(w, step);
    forall q: nat | q < |Next(w, step).requests| ensures Fine(Next(w, step), q) {
      if q < |w.requests| { StaysFine(w, step, q); }
    }
  }

  lemma {:induction false} RunKeepsInv(w: World, steps: seq<Step>)
    requires Inv(w)
    ensures Inv(Run(w, steps))
    decreases |steps|
  {
    if steps != [] {
      NextKeepsInv(w, steps[0]);
      RunKeepsInv(Next(w, steps[0]), steps[1..]);
    }
  }

  // ---- The limiters' own invariants ----

  ghost predicate Harmless(w: World, step: Step) {
    && (TokenPart(w, step).Some? ==> T.Harmless(w.tokens, TokenPart(w, step).value))
    && (BudgetPart(w, step).Some? ==> B.Harmless(w.budgets, BudgetPart(w, step).value))
  }

  ghost predicate Guarded(w: World, steps: seq<Step>)
    decreases |steps|
  {
    steps == [] || (Harmless(w, steps[0]) && Guarded(Next(w, steps[0]), steps[1..]))
  }

  lemma {:induction false} LedgersStay(w: World, steps: seq<Step>)
    requires T.Inv(w.tokens) && B.Inv(w.budgets) && Guarded(w, steps)
    ensures T.Inv(Run(w, steps).tokens) && B.Inv(Run(w, steps).budgets)
    decreases |steps|
  {
    if steps != [] {
      if TokenPart(w, steps[0]).Some? { T.NextPreserves(w.tokens, TokenPart(w, steps[0]).value); }
      if BudgetPart(w, steps[0]).Some? { B.NextPreserves(w.budgets, BudgetPart(w, steps[0]).value); }
      LedgersStay(Next(w, steps[0]), steps[1..]);
    }
  }

  /** Nothing reserved yet; spend may have been loaded and policies registered. */
  ghost predicate Fresh(w: World) {
    && w.slots == C.World(map[], 0, []) && w.tokens.history == [] && w.budgets.history == []
    && w.requests == [] && w.tokenOf == [] && w.budgetOf == [] && w.slotOf == map[]
  }

  // ---- All or nothing ----

  /** In every interleaving an admitted request has the slot, all the windows and all the scopes it asked
      for, and a refused one has no budget reservation, a token reservation that is closed at zero if it
      had one, and a slot that is back if it had one. */
  lemma AllOrNothing(w: World, steps: seq<Step>, i: nat)
    requires Fresh(w) && i < |Run(w, steps).requests|
    ensures var w' := Run(w, steps);
            var r := w'.requests[i];
            && (r.stage.Admitted? ==>
                  && HasSlot(r, w'.slots.leases) && HasTokens(r, w'.tokens.history) && HasBudget(r, w'.budgets.history))
            && (r.stage == Refused ==>
                  && r.budget == None && TokenGone(r, w'.tokens.history)
                  && (r.slot.Some? ==> r.slot.value < |w'.slots.leases| && w'.slots.leases[r.slot.value].returned))
  {
    RunKeepsInv(w, steps);
    assert Fine(Run(w, steps), i);
  }

  /** The counters of a bucket are those of the other requests. */
  ghost predicate TokensOfOthers(w: T.World, t: nat, b: TokenBook.BucketKey) {
    && t < |w.history|
    && var others := w.history[..t] + w.history[t + 1..];
       && T.Active(w, b) == Sums.Sum(others, T.HeldIn(b))
       && (T.Kept(w, b) ==> T.Committed(w, b) == T.Base(w, b) + Sums.Sum(others, T.ChargedIn(b)))
  }

  /** And so is the count of a key. */
  ghost predicate SlotsOfOthers(w: C.World, id: nat, key: C.KeyId) {
    && id < |w.leases|
    && C.ActiveIn(w.slots, key) == Sums.Sum(w.leases[..id] + w.leases[id + 1..], C.HoldingOf(key))
  }

  lemma ClosedAtZero(w: T.World, t: nat, b: TokenBook.BucketKey)
    requires T.Inv(w) && t < |w.history| && w.history[t].status == T.Closed(0)
    ensures TokensOfOthers(w, t, b)
  {
    assert T.Balanced(w, b);
    Sums.Without(w.history, t, T.HeldIn(b));
    Sums.Without(w.history, t, T.ChargedIn(b));
  }

  lemma GivenBack(w: C.World, id: nat, key: C.KeyId)
    requires C.Inv(w) && id < |w.leases| && w.leases[id].returned
    ensures SlotsOfOthers(w, id, key)
  {
    Sums.Without(w.leases, id, C.HoldingOf(key));
    assert C.ActiveIn(w.slots, key) == C.Holders(w, key);
  }

  /** So a failed Acquire contributes to no bucket, no account and no count, whatever was or will be
      interleaved: it has no budget reservation, and the other counters are those of other requests. */
  lemma FailedAcquireLeavesNothing(w: World, steps: seq<Step>, i: nat, b: TokenBook.BucketKey, key: C.KeyId)
    requires Fresh(w) && T.Inv(w.tokens) && B.Inv(w.budgets) && Guarded(w, steps)
    requires i < |Run(w, steps).requests| && Run(w, steps).requests[i].stage == Refused
    ensures var w' := Run(w, steps);
            var r := w'.requests[i];
            && r.budget == None
            && (r.token.Some? ==> TokensOfOthers(w'.tokens, r.token.value, b))
            && (r.slot.Some? ==> SlotsOfOthers(w'.slots, r.slot.value, key))
  {
    RunKeepsInv(w, steps);
    LedgersStay(w, steps);
    var w' := Run(w, steps);
    var r := w'.requests[i];
    assert Fine(w', i);
    if r.token.Some? { ClosedAtZero(w'.tokens, r.token.value, b); }
    if r.slot.Some? { GivenBack(w'.slots, r.slot.value, key); }
  }

  // ---- Nothing leaks ----

  /** Refused, or admitted and finished with its slot counted down. */
  predicate Over(w: World, i: nat)
    requires i < |w.requests|
  {
    var r := w.requests[i];
    || r.stage == Refused
    || (r.stage.Admitted? && r.stage.lease.finalized && r.slot.Some? && r.slot.value < |w.slots.leases|
        && w.slots.leases[r.slot.value].returned)
  }

  /** No request is on its way and no provisional slot is out. */
  ghost predicate AllOver(w: World) {
    && (forall i: nat :: i < |w.requests| ==> Over(w, i))
    && (forall id :: 0 <= id < |w.slots.leases| && id !in w.slotOf ==> !C.Holds(w.slots.leases[id]))
  }

  lemma FinishedIsSettled(l: F.Lease)
    requires F.Inv(l) && l.finalized
    ensures !TokensDue(l) && !BudgetDue(l) && !SlotDue(l)
  {
  }

  lemma OverIsSettled(w: World, i: nat)
    requires Inv(w) && i < |w.requests| && Over(w, i)
    ensures var r := w.requests[i];
            && TokenIs(r, w.tokens.history, false) && BudgetIs(r, w.budgets.history, false)
            && (r.slot.Some? ==> r.slot.value < |w.slots.leases| && w.slots.leases[r.slot.value].returned)
  {
    assert Fine(w, i);
    if w.requests[i].stage.Admitted? { FinishedIsSettled(w.requests[i].stage.lease); }
  }

  function StuckIn(k: BudgetBook.KeyId, s: BudgetBook.Scope): B.Entry -> int {
    (e: B.Entry) => if e.In(k, s) && e.status == B.Stuck then e.amount else 0
  }

  /** Once every request was refused or has finished, no token window has anything active, no concurrency
      slot is taken, and the only budget still held is that of settlements the limiter refused because
      its totals had left the int64 range. */
  lemma NothingLeaks(w: World, steps: seq<Step>, b: TokenBook.BucketKey, key: C.KeyId, s: BudgetBook.Scope)
    requires Fresh(w) && T.Inv(w.tokens) && B.Inv(w.budgets) && Guarded(w, steps) && AllOver(Run(w, steps))
    ensures var w' := Run(w, steps);
            && T.Active(w'.tokens, b) == 0 && C.ActiveIn(w'.slots.slots, key) == 0
            && BudgetBook.ActiveIn(B.AccountsOf(w'.budgets.ledger, key), s)
               == Sums.Sum(w'.budgets.history, StuckIn(key, s))
  {
    RunKeepsInv(w, steps);
    LedgersStay(w, steps);
    var w' := Run(w, steps);
    NoTokensActive(w', b);
    NoSlotsTaken(w', key);
    OnlyStuckHeld(w', key, s);
  }

  lemma NoTokensActive(w: World, b: TokenBook.BucketKey)
    requires Inv(w) && T.Inv(w.tokens) && AllOver(w)
    ensures T.Active(w.tokens, b) == 0
  {
    var h := w.tokens.history;
    forall t | 0 <= t < |h| ensures T.HeldIn(b)(h[t]) == 0 { OverIsSettled(w, w.tokenOf[t]); }
    Sums.Zero(h, T.HeldIn(b));
    assert T.Balanced(w.tokens, b);
  }

  lemma NoSlotsTaken(w: World, key: C.KeyId)
    requires Inv(w) && AllOver(w)
    ensures C.ActiveIn(w.slots.slots, key) == 0
  {
    var leases := w.slots.leases;
    forall id | 0 <= id < |leases| ensures C.HoldingOf(key)(leases[id]) == 0 {
      if id in w.slotOf { OverIsSettled(w, w.slotOf[id]); }
    }
    Sums.Zero(leases, C.HoldingOf(key));
    assert C.ActiveIn(w.slots.slots, key) == C.Holders(w.slots, key);
  }

  lemma OnlyStuckHeld(w: World, key: BudgetBook.KeyId, s: BudgetBook.Scope)
    requires Inv(w) && B.Inv(w.budgets) && AllOver(w)
    ensures BudgetBook.ActiveIn(B.AccountsOf(w.budgets.ledger, key), s) == Sums.Sum(w.budgets.history, StuckIn(key, s))
  {
    var h := w.budgets.history;
    forall t | 0 <= t < |h| ensures B.HeldIn(key, s)(h[t]) == StuckIn(key, s)(h[t]) { OverIsSettled(w, w.budgetOf[t]); }
    Sums.Agree(h, h, B.HeldIn(key, s), StuckIn(key, s));
    assert B.Balanced(w.budgets, key, s);
  }
}
