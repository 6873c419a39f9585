/** Runs of the budget limiter: any interleaving of its atomic steps.
    A reservation is an entry of the history, named by its position. */
module BudgetRuns {
  import opened Wrappers
  import opened Money
  import opened Calendar
  import opened BudgetBook
  import Sums

  /** `Stuck`: finalized with an error while its hold stayed in the book.
      `Ticketed`: charged at the estimate, with its adjustment ticket outstanding. */
  datatype Status = Live | Stuck | Ticketed | Closed(charge: Micros)

  /** The two times a reservation publishes deltas: when it is settled and when its charge is revised. */
  datatype Notice = OfCharge | OfRevision

  /** `owed` and `revised` are the deltas of the charge and of its revision that the sink has not been
      called with yet. Each is a sink call of its own, and they may be made in either order. */
  datatype Entry = Entry(key: KeyId, generation: nat, amount: Micros, captured: set<Scope>, status: Status,
                         owed: map<Scope, int>, revised: map<Scope, int>)
  {
    function Unsent(notice: Notice): map<Scope, int> { if notice == OfCharge then owed else revised }

    function Sent(notice: Notice, s: Scope): Entry {
      if notice == OfCharge then this.(owed := owed - {s}) else this.(revised := revised - {s})
    }

    function Holding(): Micros { if status.Live? || status.Stuck? then amount else 0 }

    function Charge(): Micros {
      match status
      case Closed(charge) => charge
      case Ticketed => amount
      case _ => 0
    }

    predicate In(k: KeyId, s: Scope) { key == k && s in captured }
  }

  datatype World = World(ledger: Ledger, history: seq<Entry>, loaded: map<KeyId, map<Scope, Micros>>)

  function HeldIn(k: KeyId, s: Scope): Entry -> int { (e: Entry) => if e.In(k, s) then e.Holding() else 0 }

  function ChargedIn(k: KeyId, s: Scope): Entry -> int { (e: Entry) => if e.In(k, s) then e.Charge() else 0 }

  function AccountsOf(l: Ledger, k: KeyId): map<Scope, Account> {
    if k in l.books then l.books[k].accounts else map[]
  }

  function Base(w: World, k: KeyId, s: Scope): Micros {
    if k in w.loaded && s in w.loaded[k] then w.loaded[k][s] else 0
  }

  // ---- Steps ----

  datatype Step =
    | Reserve(key: KeyId, policy: Policy, candidate: Money, reading: Instant)
    | Settle(id: nat, kind: Kind, actual: Money)
    | Adjust(id: nat, actual: Money)
    | Invalidate(id: nat)
    | Replace(key: KeyId, expected: Policy, policy: Policy, durable: bool)
    | Register(key: KeyId, policy: Policy)
    | Deliver(id: nat, notice: Notice, scope: Scope)

  function Emission(captured: set<Scope>, charge: Micros): map<Scope, int> {
    if charge == 0 then map[] else map s | s in captured :: charge
  }

  function Owed(owed: map<Scope, int>, s: Scope): int { if s in owed then owed[s] else 0 }

  predicate Current(w: World, e: Entry) {
    e.key in w.ledger.books && w.ledger.books[e.key].generation == e.generation
  }

  function Put(w: World, id: nat, e: Entry, book: Option<Book>): World
    requires id < |w.history|
  {
    w.(ledger := w.ledger.(books := Store(w.ledger.books, e.key, book)), history := w.history[id := e])
  }

  function Mark(w: World, id: nat, status: Status): World
    requires id < |w.history|
  {
    w.(history := w.history[id := w.history[id].(status := status)])
  }

  function Enter(w: World, key: KeyId, amount: Micros, now: Option<Moment>, outcome: (Option<Book>, Admission)): World {
    w.(ledger := Record(w.ledger, key, now, outcome),
       history := w.history + (if outcome.1.Held?
                               then [Entry(key, outcome.1.generation, amount, outcome.1.captured, Live, map[], map[])]
                               else []))
  }

  ghost function NextReserve(w: World, key: KeyId, p: Policy, candidate: Money, reading: Instant): World {
    if !Considered(w.ledger, key, p, candidate) then w
    else Enter(w, key, candidate.micros, ClockRead(w.ledger, key, p, reading),
               Decide(w.ledger, key, p, candidate, reading))
  }

  ghost function NextSettle(w: World, id: nat, kind: Kind, actual: Money): World
    requires id < |w.history| && w.history[id].status == Live
  {
    var e := w.history[id];
    if !Current(w, e) then Mark(w, id, Stuck)
    else
      var r := SettleBook(w.ledger.books[e.key], e.captured, e.amount, kind, actual);
      var status := if !r.applied then Stuck
                    else if kind == Deferred && r.error == None then Ticketed
                    else Closed(r.charged);
      var owed := if r.applied then Emission(e.captured, r.charged) else map[];
      Put(w, id, e.(status := status, owed := owed), r.book)
  }

  ghost function NextAdjust(w: World, id: nat, actual: Money): World
    requires id < |w.history| && w.history[id].status == Ticketed
  {
    var e := w.history[id];
    if actual.Unknown? || !Current(w, e) || Total !in w.ledger.books[e.key].accounts then Mark(w, id, Closed(e.amount))
    else
      var r := AdjustBook(w.ledger.books[e.key], e.captured, e.amount, actual.micros);
      var status := Closed(if r.applied then actual.micros else e.amount);
      Put(w, id, e.(status := status, revised := r.emitted), r.book)
  }

  /** One atomic step. Terminal calls on a settled reservation or a consumed ticket do nothing. */
  ghost function Next(w: World, step: Step): World {
    match step
    case Reserve(key, p, candidate, reading) => NextReserve(w, key, p, candidate, reading)
    case Settle(id, kind, actual) =>
      if id < |w.history| && w.history[id].status == Live then NextSettle(w, id, kind, actual) else w
    case Adjust(id, actual) =>
      if id < |w.history| && w.history[id].status == Ticketed then NextAdjust(w, id, actual) else w
    case Invalidate(id) =>
      if id < |w.history| && w.history[id].status == Ticketed then Mark(w, id, Closed(w.history[id].amount)) else w
    case Replace(key, expected, p, durable) =>
      if Replaceable(w.ledger, key, expected, p) && durable then w.(ledger := Publish(w.ledger, key, p)) else w
    case Register(key, p) =>
      if key != "" && ValidPolicy(p) then w.(ledger := w.ledger.(policies := w.ledger.policies[key := p])) else w
    case Deliver(id, notice, s) =>
      if id < |w.history| then w.(history := w.history[id := w.history[id].Sent(notice, s)]) else w
  }

  ghost function Run(w: World, steps: seq<Step>): World
    decreases |steps|
  {
    if steps == [] then w else Run(Next(w, steps[0]), steps[1..])
  }

  // ---- The ledger invariant ----

  predicate Kept(w: World, k: KeyId, s: Scope) {
    s in AccountsOf(w.ledger, k) || (w.ledger.lastNow.Some? ==> !Past(s, w.ledger.lastNow.value))
  }

  ghost predicate Balanced(w: World, k: KeyId, s: Scope) {
    && ActiveIn(AccountsOf(w.ledger, k), s) == Sums.Sum(w.history, HeldIn(k, s))
    && (Kept(w, k, s) ==>
          SpentIn(AccountsOf(w.ledger, k), s) == Base(w, k, s) + Sums.Sum(w.history, ChargedIn(k, s)))
  }

  predicate ProperEntry(w: World, e: Entry) {
    && e.key != "" && 0 < e.amount && e.captured != {}
    && (e.status.Live? || e.status.Stuck? ==> Current(w, e))
    && (e.status.Ticketed? && Total in e.captured ==> Current(w, e))
  }

  ghost predicate Books(l: Ledger) {
    forall k :: k in l.books ==> k != "" && WellFormed(l.books[k]) && l.books[k].generation <= l.sequence
  }

  /** In every scope: active is the sum of the unsettled reservations that captured it, and the
      committed spend is what was loaded plus what every reservation is charged. A reservation
      that still holds money, or whose ticket refunds the lifetime budget, finds its own book. */
  ghost predicate Inv(w: World) {
    && Books(w.ledger)
    && (w.ledger.lastNow.Some? ==> w.ledger.lastNow.value == At(w.ledger.lastNow.value.at))
    && (forall i :: 0 <= i < |w.history| ==> ProperEntry(w, w.history[i]))
    && (forall k, s :: Balanced(w, k, s))
  }

  /** The guard of the one branch that breaks the books: an adjustment to exactly the estimate
      must find every account its reservation captured. */
  predicate Harmless(w: World, step: Step) {
    step.Adjust? && step.id < |w.history| && w.history[step.id].status == Ticketed && Current(w, w.history[step.id])
    && step.actual == Known(w.history[step.id].amount)
    ==> w.history[step.id].captured <= AccountsOf(w.ledger, w.history[step.id].key).Keys
  }

  /** A hold is never larger than the active amount of an account it captured. */
  lemma HoldCovered(w: World, id: nat, s: Scope)
    requires Inv(w) && id < |w.history| && s in w.history[id].captured
    ensures w.history[id].Holding() <= ActiveIn(AccountsOf(w.ledger, w.history[id].key), s)
  {
    var e := w.history[id];
    assert Balanced(w, e.key, s);
    Sums.Bounds(w.history, HeldIn(e.key, s));
    assert HeldIn(e.key, s)(e) == e.Holding();
  }

  /** The charge of a reservation is part of the spend of every account that still records it. */
  lemma ChargeCovered(w: World, id: nat, s: Scope)
    requires Inv(w) && id < |w.history| && s in w.history[id].captured && Kept(w, w.history[id].key, s)
    ensures w.history[id].Charge() <= SpentIn(AccountsOf(w.ledger, w.history[id].key), s)
  {
    var e := w.history[id];
    assert Balanced(w, e.key, s);
    Sums.Bounds(w.history, ChargedIn(e.key, s));
    assert ChargedIn(e.key, s)(e) == e.Charge();
  }

  /** If one entry changes its holding and its charge, and the accounts it captured change by
      the same amounts, the whole ledger stays balanced. */
  lemma Rebalance(w: World, id: nat, e': Entry, book: Option<Book>)
    requires Inv(w) && id < |w.history|
    requires var e := w.history[id]; e'.key == e.key && e'.captured == e.captured
    requires var e := w.history[id];
             var w' := Put(w, id, e', book);
             var a, a' := AccountsOf(w.ledger, e.key), AccountsOf(w'.ledger, e.key);
             forall s ::
               && ActiveIn(a', s) == ActiveIn(a, s) + (if s in e.captured then e'.Holding() - e.Holding() else 0)
               && (Kept(w', e.key, s) ==>
                     && Kept(w, e.key, s)
                     && SpentIn(a', s) == SpentIn(a, s) + (if s in e.captured then e'.Charge() - e.Charge() else 0))
    ensures forall k, s :: Balanced(Put(w, id, e', book), k, s)
  {
    forall k, s ensures Balanced(Put(w, id, e', book), k, s) { RebalanceAt(w, id, e', book, k, s); }
  }

  lemma RebalanceAt(w: World, id: nat, e': Entry, book: Option<Book>, k: KeyId, s: Scope)
    requires Inv(w) && id < |w.history|
    requires var e := w.history[id]; e'.key == e.key && e'.captured == e.captured
    requires var e := w.history[id];
             var w' := Put(w, id, e', book);
             var a, a' := AccountsOf(w.ledger, e.key), AccountsOf(w'.ledger, e.key);
             && ActiveIn(a', s) == ActiveIn(a, s) + (if s in e.captured then e'.Holding() - e.Holding() else 0)
             && (Kept(w', e.key, s) ==>
                   && Kept(w, e.key, s)
                   && SpentIn(a', s) == SpentIn(a, s) + (if s in e.captured then e'.Charge() - e.Charge() else 0))
    ensures Balanced(Put(w, id, e', book), k, s)
  {
    var w' := Put(w, id, e', book);
    assert Balanced(w, k, s);
    Sums.Update(w.history, id, e', HeldIn(k, s));
    Sums.Update(w.history, id, e', ChargedIn(k, s));
    if k != e'.key {
      assert AccountsOf(w'.ledger, k) == AccountsOf(w.ledger, k);
      assert Base(w', k, s) == Base(w, k, s);
    }
  }

  /** A balanced ledger has a book for every entry that holds money or can refund the lifetime budget. */
  lemma Anchored(w: World, i: nat)
    requires forall k, s :: Balanced(w, k, s)
    requires i < |w.history| && 0 < w.history[i].amount && w.history[i].captured != {}
    requires var e := w.history[i]; e.status.Live? || e.status.Stuck? || (e.status.Ticketed? && Total in e.captured)
    ensures w.history[i].key in w.ledger.books
  {
    var e := w.history[i];
    var s :| s in e.captured && (e.status.Ticketed? ==> s == Total);
    assert Balanced(w, e.key, s);
    Sums.Bounds(w.history, HeldIn(e.key, s));
    Sums.Bounds(w.history, ChargedIn(e.key, s));
    assert HeldIn(e.key, s)(e) == e.Holding() && ChargedIn(e.key, s)(e) == e.Charge();
  }

  lemma PutKeepsInv(w: World, id: nat, e': Entry, book: Option<Book>)
    requires Inv(w) && id < |w.history| && Current(w, w.history[id])
    requires var e := w.history[id];
             e'.key == e.key && e'.captured == e.captured && e'.amount == e.amount && e'.generation == e.generation
    requires book.Some? ==> WellFormed(book.value) && book.value.generation == w.history[id].generation
    requires forall k, s :: Balanced(Put(w, id, e', book), k, s)
    ensures Inv(Put(w, id, e', book))
  {
    var w' := Put(w, id, e', book);
    forall i | 0 <= i < |w'.history| ensures ProperEntry(w', w'.history[i]) {
      assert ProperEntry(w, w.history[i]);
      var f := w'.history[i];
      if f.status.Live? || f.status.Stuck? || (f.status.Ticketed? && Total in f.captured) {
        Anchored(w', i);
      }
    }
  }

  /** Under the invariant a settlement releases its hold exactly when the totals of the book are
      in the int64 range; it never meets a stale book or a missing hold. */
  lemma SettleApplies(w: World, id: nat, kind: Kind, actual: Money)
    requires Inv(w) && id < |w.history| && w.history[id].status == Live
    ensures var e := w.history[id];
            && Current(w, e)
            && var b := w.ledger.books[e.key];
               var r := SettleBook(b, e.captured, e.amount, kind, actual);
               && (r.applied <==> InRange(b))
               && (!r.applied ==> r.book == Some(b) && r.error == Some(StaleState))
               && (r.applied && r.error != None && kind != KnownCost ==> false)
  {
    var e := w.history[id];
    assert ProperEntry(w, e);
    var b := w.ledger.books[e.key];
    forall s | s in e.captured
      ensures e.amount <= ActiveIn(b.accounts, s)
      ensures InRange(b) ==> SpentIn(b.accounts, s) + e.amount <= MAX_MICROS
    {
      HoldCovered(w, id, s);
      assert s in b.accounts;
      assert InRange(b) ==> UsedIn(b.accounts, s) <= MAX_MICROS;
    }
  }

  function AccountsIn(book: Option<Book>): map<Scope, Account> { if book.Some? then book.value.accounts else map[] }

  /** Deleting an empty book changes no counter. */
  lemma DroppedReadsSame(b: Book, s: Scope)
    ensures var a := AccountsIn(Dropped(b));
            ActiveIn(a, s) == ActiveIn(b.accounts, s) && SpentIn(a, s) == SpentIn(b.accounts, s)
    ensures AccountsIn(Dropped(b)).Keys <= b.accounts.Keys
  {
  }

  /** An applied settlement moves exactly its hold and its charge, in exactly the captured accounts. */
  lemma SettleMoves(b: Book, captured: set<Scope>, amount: Micros, kind: Kind, actual: Money, s: Scope)
    requires WellFormed(b) && captured <= b.accounts.Keys
    ensures var r := SettleBook(b, captured, amount, kind, actual);
            var a := AccountsIn(r.book);
            var applied := r.applied && s in captured;
            && ActiveIn(a, s) == ActiveIn(b.accounts, s) - (if applied then amount else 0)
            && SpentIn(a, s) == SpentIn(b.accounts, s) + (if applied then r.charged else 0)
  {
    var r := SettleBook(b, captured, amount, kind, actual);
    if r.applied {
      DroppedReadsSame(b.(accounts := Move(b.accounts, captured, amount, r.charged)), s);
    }
  }

  lemma SettleShape(b: Book, captured: set<Scope>, amount: Micros, kind: Kind, actual: Money)
    requires WellFormed(b) && captured <= b.accounts.Keys
    ensures var r := SettleBook(b, captured, amount, kind, actual);
            && AccountsIn(r.book).Keys <= b.accounts.Keys
            && (r.book.Some? ==> WellFormed(r.book.value) && r.book.value.generation == b.generation)
  {
  }

  lemma SettlePreserves(w: World, id: nat, kind: Kind, actual: Money)
    requires Inv(w) && id < |w.history| && w.history[id].status == Live
    ensures Inv(NextSettle(w, id, kind, actual))
  {
    SettleApplies(w, id, kind, actual);
    var e := w.history[id];
    var b := w.ledger.books[e.key];
    var r := SettleBook(b, e.captured, e.amount, kind, actual);
    var e' := NextSettle(w, id, kind, actual).history[id];
    assert e.captured <= b.accounts.Keys by {
      forall s | s in e.captured ensures s in b.accounts { HoldCovered(w, id, s); }
    }
    assert e'.Charge() == if r.applied then r.charged else 0 by {
      assert kind == Deferred && r.applied ==> r.charged == e.amount;
    }
    SettleShape(b, e.captured, e.amount, kind, actual);
    forall s { SettleMoves(b, e.captured, e.amount, kind, actual, s); }
    Rebalance(w, id, e', r.book);
    PutKeepsInv(w, id, e', r.book);
  }

  lemma AdjustMoves(b: Book, captured: set<Scope>, reserved: Micros, actual: Micros, s: Scope)
    requires WellFormed(b) && (actual == reserved ==> captured <= b.accounts.Keys)
    ensures var r := AdjustBook(b, captured, reserved, actual);
            var a := AccountsIn(r.book);
            && ActiveIn(a, s) == ActiveIn(b.accounts, s)
            && SpentIn(a, s) == SpentIn(b.accounts, s) + (if r.applied && s in captured then actual - reserved else 0)
            && a.Keys <= b.accounts.Keys
            && (r.book.Some? ==> WellFormed(r.book.value) && r.book.value.generation == b.generation)
  {
    var r := AdjustBook(b, captured, reserved, actual);
    if r.applied {
      if actual == reserved {
        assert b.accounts + (map s | s in captured && s !in b.accounts :: Account(Unknown, Unknown)) == b.accounts;
        DroppedReadsSame(b, s);
      } else {
        assert forall s :: s in captured ==> Adjustable(b.accounts, s, actual - reserved);
        DroppedReadsSame(b.(accounts := Shift(b.accounts, captured, actual - reserved)), s);
      }
    }
  }

  lemma AdjustPreserves(w: World, id: nat, actual: Money)
    requires Inv(w) && id < |w.history| && w.history[id].status == Ticketed
    requires Harmless(w, Adjust(id, actual))
    ensures Inv(NextAdjust(w, id, actual))
  {
    var e := w.history[id];
    assert ProperEntry(w, e);
    if actual.Unknown? || !Current(w, e) {
      MarkPreserves(w, id, Closed(e.amount));
    } else {
      var b := w.ledger.books[e.key];
      var r := AdjustBook(b, e.captured, e.amount, actual.micros);
      var e' := NextAdjust(w, id, actual).history[id];
      forall s { AdjustMoves(b, e.captured, e.amount, actual.micros, s); }
      Rebalance(w, id, e', r.book);
      PutKeepsInv(w, id, e', r.book);
    }
  }

  /** Consuming a ticket without adjusting keeps the estimate charged. */
  lemma MarkPreserves(w: World, id: nat, status: Status)
    requires Inv(w) && id < |w.history| && w.history[id].status == Ticketed && status == Closed(w.history[id].amount)
    ensures Inv(Mark(w, id, status))
  {
    var w' := Mark(w, id, status);
    forall k, s ensures Balanced(w', k, s) {
      assert Balanced(w, k, s);
      Sums.Update(w.history, id, w'.history[id], HeldIn(k, s));
      Sums.Update(w.history, id, w'.history[id], ChargedIn(k, s));
    }
    forall i | 0 <= i < |w'.history| ensures ProperEntry(w', w'.history[i]) {
      assert ProperEntry(w, w.history[i]);
    }
  }

  lemma PruneReads(a: map<Scope, Account>, now: Moment, s: Scope)
    requires s in a ==> a[s].active.Known?
    ensures ActiveIn(Prune(a, now), s) == ActiveIn(a, s)
    ensures s in Prune(a, now) || !Past(s, now) ==> SpentIn(Prune(a, now), s) == SpentIn(a, s)
  {
  }

  /** Admission at `now` only prunes what has passed and holds the candidate in what it captures. */
  lemma AdmitMoves(book: Option<Book>, p: Policy, candidate: Micros, now: Moment, next: nat, s: Scope)
    requires ValidPolicy(p) && (book.Some? ==> WellFormed(book.value))
    ensures var (after, admission) := AdmitBook(book, p, candidate, now, next);
            var a, a' := AccountsIn(book), AccountsIn(after);
            var captured := admission.Held? && s in admission.captured;
            && ActiveIn(a', s) == ActiveIn(a, s) + (if captured then candidate else 0)
            && (s in a' || !Past(s, now) ==> SpentIn(a', s) == SpentIn(a, s))
            && (captured ==> s in a' && !Past(s, now))
            && (s in a' ==> s in a || s == Total || captured)
  {
    if book.Some? {
      PruneReads(book.value.accounts, now, s);
    }
  }

  lemma AdmitShape(book: Option<Book>, p: Policy, candidate: Micros, now: Moment, next: nat)
    requires ValidPolicy(p) && !Unlimited(p) && (book.Some? ==> WellFormed(book.value)) && 0 < next
    ensures var (after, admission) := AdmitBook(book, p, candidate, now, next);
            && (book.Some? ==> after.Some? && after.value.generation == book.value.generation)
            && (admission.Held? ==> after.Some? && 0 < candidate && admission.captured == Captured(p, now) != {}
                                    && admission.generation == after.value.generation)
            && (book.None? && after.Some? ==> admission.Held? && after.value.generation == next)
            && (after.Some? ==> WellFormed(after.value))
  {
  }

  predicate NotBefore(t: Moment, u: Moment) { t.day <= u.day && t.month <= u.month }

  /** A clamped clock never moves back, and neither does its date. */
  lemma ClockMonotone(l: Ledger, reading: Instant)
    requires l.lastNow.Some? ==> l.lastNow.value == At(l.lastNow.value.at)
    ensures var now := Clock(l, reading); now == At(now.at)
    ensures l.lastNow.Some? ==> NotBefore(l.lastNow.value, Clock(l, reading))
  {
    if l.lastNow.Some? && l.lastNow.value.at <= reading { DatesMonotone(l.lastNow.value.at, reading); }
  }

  /** What an admission does to one key's accounts, seen from one scope. */
  ghost predicate MovedFrom(a: map<Scope, Account>, amount: Micros, now: Option<Moment>,
                            outcome: (Option<Book>, Admission), s: Scope)
  {
    var a' := AccountsIn(outcome.0);
    var captured := outcome.1.Held? && s in outcome.1.captured;
    && ActiveIn(a', s) == ActiveIn(a, s) + (if captured then amount else 0)
    && (s in a' || (now.Some? ==> !Past(s, now.value)) ==> SpentIn(a', s) == SpentIn(a, s))
    && (captured ==> s in a' && now.Some? && !Past(s, now.value))
    && (s in a' ==> s in a || s == Total || captured)
    && (now.None? ==> a' == a)
  }

  ghost predicate Moved(w: World, key: KeyId, amount: Micros, now: Option<Moment>, outcome: (Option<Book>, Admission),
                        s: Scope)
  {
    MovedFrom(AccountsOf(w.ledger, key), amount, now, outcome, s)
  }

  lemma EnterKept(w: World, key: KeyId, amount: Micros, now: Option<Moment>, outcome: (Option<Book>, Admission),
                  k: KeyId, s: Scope)
    requires Moved(w, key, amount, now, outcome, s)
    requires now.Some? && w.ledger.lastNow.Some? ==> NotBefore(w.ledger.lastNow.value, now.value)
    ensures Kept(Enter(w, key, amount, now, outcome), k, s) ==> Kept(w, k, s)
  {
  }

  lemma EnterSums(w: World, key: KeyId, amount: Micros, now: Option<Moment>, outcome: (Option<Book>, Admission),
                  k: KeyId, s: Scope)
    ensures var h := Enter(w, key, amount, now, outcome).history;
            && Sums.Sum(h, ChargedIn(k, s)) == Sums.Sum(w.history, ChargedIn(k, s))
            && Sums.Sum(h, HeldIn(k, s)) == Sums.Sum(w.history, HeldIn(k, s))
                + (if k == key && outcome.1.Held? && s in outcome.1.captured then amount else 0)
  {
    var h := Enter(w, key, amount, now, outcome).history;
    if outcome.1.Held? {
      Sums.Append(w.history, h[|w.history|], HeldIn(k, s));
      Sums.Append(w.history, h[|w.history|], ChargedIn(k, s));
    } else {
      assert h == w.history;
    }
  }

  lemma EnterBalances(w: World, key: KeyId, amount: Micros, now: Option<Moment>, outcome: (Option<Book>, Admission),
                      k: KeyId, s: Scope)
    requires Balanced(w, k, s) && Moved(w, key, amount, now, outcome, s)
    requires now.Some? && w.ledger.lastNow.Some? ==> NotBefore(w.ledger.lastNow.value, now.value)
    ensures Balanced(Enter(w, key, amount, now, outcome), k, s)
  {
    EnterKept(w, key, amount, now, outcome, k, s);
    EnterSums(w, key, amount, now, outcome, k, s);
  }

  lemma ReserveMoves(book: Option<Book>, registered: bool, p: Policy, candidate: Micros, now: Moment, next: nat,
                     s: Scope)
    requires ValidPolicy(p) && (book.Some? ==> WellFormed(book.value))
    ensures MovedFrom(AccountsIn(book), candidate, if Ready(book, registered, p) then Some(now) else None,
                      ReserveBook(book, registered, p, candidate, now, next), s)
  {
    AdmitMoves(book, p, candidate, now, next, s);
  }

  lemma DecideMoves(w: World, key: KeyId, p: Policy, candidate: Money, reading: Instant, s: Scope)
    requires Books(w.ledger) && Considered(w.ledger, key, p, candidate)
    ensures Moved(w, key, candidate.micros, ClockRead(w.ledger, key, p, reading),
                  Decide(w.ledger, key, p, candidate, reading), s)
  {
    var l := w.ledger;
    ReserveMoves(Find(l.books, key), key in l.policies, p, candidate.micros, Clock(l, reading), l.sequence + 1, s);
  }

  lemma EnterKeepsEntries(w: World, key: KeyId, amount: Micros, now: Option<Moment>, outcome: (Option<Book>, Admission))
    requires Inv(w) && key != ""
    requires key in w.ledger.books ==> outcome.0.Some? && outcome.0.value.generation == w.ledger.books[key].generation
    requires key !in w.ledger.books && outcome.0.Some? ==>
               outcome.1.Held? && outcome.0.value.generation == w.ledger.sequence + 1
    requires outcome.0.Some? ==> WellFormed(outcome.0.value)
    requires outcome.1.Held? ==> outcome.0.Some? && 0 < amount && outcome.1.captured != {}
                                 && outcome.1.generation == outcome.0.value.generation
    ensures var w' := Enter(w, key, amount, now, outcome);
            && Books(w'.ledger)
            && forall i :: 0 <= i < |w'.history| ==> ProperEntry(w', w'.history[i])
  {
    var w' := Enter(w, key, amount, now, outcome);
    forall i | 0 <= i < |w'.history| ensures ProperEntry(w', w'.history[i]) {
      if i < |w.history| { assert ProperEntry(w, w.history[i]); }
    }
  }

  lemma ReservePreserves(w: World, key: KeyId, p: Policy, candidate: Money, reading: Instant)
    requires Inv(w)
    ensures Inv(NextReserve(w, key, p, candidate, reading))
  {
    var l := w.ledger;
    if Considered(l, key, p, candidate) {
      var now := ClockRead(l, key, p, reading);
      var outcome := Decide(l, key, p, candidate, reading);
      ClockMonotone(l, reading);
      if Ready(Find(l.books, key), key in l.policies, p) {
        AdmitShape(Find(l.books, key), p, candidate.micros, Clock(l, reading), l.sequence + 1);
      }
      EnterKeepsEntries(w, key, candidate.micros, now, outcome);
      forall k, s ensures Balanced(Enter(w, key, candidate.micros, now, outcome), k, s) {
        assert Balanced(w, k, s);
        DecideMoves(w, key, p, candidate, reading, s);
        EnterBalances(w, key, candidate.micros, now, outcome, k, s);
      }
    }
  }

  lemma PublishPreserves(w: World, key: KeyId, p: Policy)
    requires Inv(w) && ValidPolicy(p)
    ensures Inv(w.(ledger := Publish(w.ledger, key, p)))
  {
    var w' := w.(ledger := Publish(w.ledger, key, p));
    forall k, s ensures Balanced(w', k, s) {
      assert Balanced(w, k, s);
      assert AccountsOf(w'.ledger, k) == AccountsOf(w.ledger, k);
    }
    forall i | 0 <= i < |w'.history| ensures ProperEntry(w', w'.history[i]) {
      assert ProperEntry(w, w.history[i]);
    }
  }

  /** Steps that leave every book, the clock, and each entry's holding and charge alone. */
  lemma SilentPreserves(w: World, w': World)
    requires Inv(w) && w'.loaded == w.loaded && |w'.history| == |w.history|
    requires w'.ledger.books == w.ledger.books && w'.ledger.lastNow == w.ledger.lastNow
    requires w'.ledger.sequence == w.ledger.sequence
    requires forall i :: 0 <= i < |w.history| ==>
               w'.history[i] == w.history[i].(owed := w'.history[i].owed, revised := w'.history[i].revised)
    ensures Inv(w')
  {
    forall k, s ensures Balanced(w', k, s) {
      assert Balanced(w, k, s);
      Sums.Agree(w.history, w'.history, HeldIn(k, s), HeldIn(k, s));
      Sums.Agree(w.history, w'.history, ChargedIn(k, s), ChargedIn(k, s));
    }
    forall i | 0 <= i < |w'.history| ensures ProperEntry(w', w'.history[i]) {
      assert ProperEntry(w, w.history[i]);
    }
  }

  lemma NextPreserves(w: World, step: Step)
    requires Inv(w) && Harmless(w, step)
    ensures Inv(Next(w, step))
  {
    match step
    case Reserve(key, p, candidate, reading) => ReservePreserves(w, key, p, candidate, reading);
    case Settle(id, kind, actual) =>
      if id < |w.history| && w.history[id].status == Live { SettlePreserves(w, id, kind, actual); }
    case Adjust(id, actual) =>
      if id < |w.history| && w.history[id].status == Ticketed { AdjustPreserves(w, id, actual); }
    case Invalidate(id) =>
      if id < |w.history| && w.history[id].status == Ticketed { MarkPreserves(w, id, Closed(w.history[id].amount)); }
    case Replace(key, expected, p, durable) => if ValidPolicy(p) { PublishPreserves(w, key, p); }
    case Register(key, p) => SilentPreserves(w, Next(w, step));
    case Deliver(_, _, _) => SilentPreserves(w, Next(w, step));
  }

  ghost predicate Guarded(w: World, steps: seq<Step>)
    decreases |steps|
  {
    steps == [] || (Harmless(w, steps[0]) && Guarded(Next(w, steps[0]), steps[1..]))
  }

  /** The ledger invariant holds in every state of every run, whatever the clock, the policies
      and the interleaving, as long as no adjustment to exactly the estimate finds a pruned account. */
  lemma {:induction false} LedgerInvariant(w: World, steps: seq<Step>)
    requires Inv(w) && Guarded(w, steps)
    ensures Inv(Run(w, steps))
    decreases |steps|
  {
    if steps != [] {
      NextPreserves(w, steps[0]);
      LedgerInvariant(Next(w, steps[0]), steps[1..]);
    }
  }
}
