/** When the order of the sink calls can make a batch ask for more than its row holds. A refund and the
    charge it gives back are two calls, and the sink adds them in the order they arrive. */
module BudgetDebts {
  import opened Wrappers
  import opened Money
  import opened BudgetBook
  import opened BudgetRuns
  import opened BudgetRows
  import opened BudgetPersistence
  import Sums

  function Below(x: int): int { if x < 0 then x else 0 }

  function Above(x: int): int { if x < 0 then 0 else x }

  /** The undelivered decreases and increases of an account. */
  function RefundIn(k: KeyId, s: Scope): Entry -> int {
    (e: Entry) => if e.key == k then Below(Owed(e.owed, s)) + Below(Owed(e.revised, s)) else 0
  }

  function IncreaseIn(k: KeyId, s: Scope): Entry -> int {
    (e: Entry) => if e.key == k then Above(Owed(e.owed, s)) + Above(Owed(e.revised, s)) else 0
  }

  ghost function Refunds(w: World, k: KeyId, s: Scope): int { Sums.Sum(w.history, RefundIn(k, s)) }

  ghost function Increases(w: World, k: KeyId, s: Scope): int { Sums.Sum(w.history, IncreaseIn(k, s)) }

  /** What row, flight and pending come to if every refund arrives and no increase does. */
  ghost function Least(sys: System, k: KeyId, s: Scope): int { Delivered(sys, Ident(k, s)) + Refunds(sys.world, k, s) }

  lemma RefundsAreNotPositive(w: World, k: KeyId, s: Scope)
    ensures Refunds(w, k, s) <= 0
  {
    Sums.Zero(w.history, (e: Entry) => 0);
    Sums.Below(w.history, RefundIn(k, s), (e: Entry) => 0);
  }

  /** In exact books that is what was loaded and charged less the increases still undelivered. */
  lemma LeastIsUndeliveredIncrease(sys: System, k: KeyId, s: Scope)
    requires Conserved(sys)
    ensures Least(sys, k, s) == Charges(sys.world, k, s) - Increases(sys.world, k, s)
  {
    assert Published(sys, k, s) == Charges(sys.world, k, s);
    Parts(sys.world.history, k, s);
  }

  lemma {:induction false} Parts(h: seq<Entry>, k: KeyId, s: Scope)
    ensures Sums.Sum(h, OwedIn(k, s)) == Sums.Sum(h, RefundIn(k, s)) + Sums.Sum(h, IncreaseIn(k, s))
  {
    if h != [] { Parts(h[..|h| - 1], k, s); }
  }

  // ---- Sink and storage never go below it ----

  lemma SentRefundsLess(e: Entry, notice: Notice, scope: Scope, k: KeyId, s: Scope)
    requires scope in e.Unsent(notice)
    ensures RefundIn(k, s)(e.Sent(notice, scope))
            == RefundIn(k, s)(e) - if k == e.key && s == scope then Below(e.Unsent(notice)[s]) else 0
  {
  }

  lemma NotifyMovesLeast(sys: System, id: nat, notice: Notice, scope: Scope, k: KeyId, s: Scope)
    requires Unsent(sys.world, id, notice, scope) && Fair(sys, Notify(id, notice, scope))
    ensures var sys', e := Act(sys, Notify(id, notice, scope)), sys.world.history[id];
            var delta := if k == e.key && s == scope then e.Unsent(notice)[s] else 0;
            && Delivered(sys', Ident(k, s)) == Delivered(sys, Ident(k, s)) + delta
            && Refunds(sys'.world, k, s) == Refunds(sys.world, k, s) - Below(delta)
            && sys'.rows == sys.rows && sys'.inflight == sys.inflight && sys'.accepting == sys.accepting
  {
    var e := sys.world.history[id];
    SentRefundsLess(e, notice, scope, k, s);
    Sums.Update(sys.world.history, id, e.Sent(notice, scope), RefundIn(k, s));
  }

  /** Nothing more is published: sink calls and storage only. */
  predicate Settling(actions: seq<Action>) { forall i :: 0 <= i < |actions| ==> !actions[i].Limiter? }

  ghost predicate Backed(sys: System, k: KeyId, s: Scope) {
    0 <= Least(sys, k, s) && 0 <= Row(sys.rows, Ident(k, s)) + Amount(sys.inflight, Ident(k, s))
  }

  lemma ActStaysBacked(sys: System, action: Action, k: KeyId, s: Scope)
    requires Backed(sys, k, s) && Fair(sys, action) && !action.Limiter?
    ensures Backed(Act(sys, action), k, s)
  {
    RefundsAreNotPositive(sys.world, k, s);
    if action.Notify? {
      if Unsent(sys.world, action.id, action.notice, action.scope) {
        NotifyMovesLeast(sys, action.id, action.notice, action.scope, k, s);
      }
    } else {
      StorageMoves(sys, action, Ident(k, s));
    }
  }

  lemma {:induction false} StaysBacked(sys: System, actions: seq<Action>, k: KeyId, s: Scope)
    requires Backed(sys, k, s) && AllFair(sys, actions) && Settling(actions)
    ensures Backed(Acts(sys, actions), k, s)
    decreases |actions|
  {
    if actions != [] {
      ActStaysBacked(sys, actions[0], k, s);
      StaysBacked(Act(sys, actions[0]), actions[1..], k, s);
    }
  }

  // ---- And they can reach it ----

  /** The pending sum stays in range when all refunds arrive. */
  ghost predicate Roomy(sys: System, k: KeyId, s: Scope) {
    var p := Amount(sys.pending, Ident(k, s)); InInt64(p) && InInt64(p + Refunds(sys.world, k, s))
  }

  lemma SomeRefund(h: seq<Entry>, k: KeyId, s: Scope) returns (id: nat, notice: Notice)
    requires Sums.Sum(h, RefundIn(k, s)) < 0
    ensures id < |h| && h[id].key == k && s in h[id].Unsent(notice) && h[id].Unsent(notice)[s] < 0
  {
    if forall i :: 0 <= i < |h| ==> RefundIn(k, s)(h[i]) == 0 { Sums.Zero(h, RefundIn(k, s)); }
    id :| 0 <= id < |h| && RefundIn(k, s)(h[id]) != 0;
    notice := if Owed(h[id].owed, s) < 0 then OfCharge else OfRevision;
  }

  /** Every refund of the account is delivered, one after the other, and no increase. */
  lemma {:induction false} RefundsArrive(sys: System, k: KeyId, s: Scope) returns (actions: seq<Action>)
    requires sys.accepting && Roomy(sys, k, s)
    ensures Settling(actions) && AllFair(sys, actions)
    ensures var sys' := Acts(sys, actions);
            Delivered(sys', Ident(k, s)) == Least(sys, k, s) && sys'.rows == sys.rows && sys'.inflight == sys.inflight
    decreases 0 - Refunds(sys.world, k, s)
  {
    RefundsAreNotPositive(sys.world, k, s);
    actions := [];
    if Refunds(sys.world, k, s) < 0 {
      var id, notice := SomeRefund(sys.world.history, k, s);
      var action := Notify(id, notice, s);
      var delta := sys.world.history[id].Unsent(notice)[s];
      assert Refunds(sys.world, k, s) <= delta by { OneOfTheRefunds(sys.world, id, notice, k, s); }
      NotifyMovesLeast(sys, id, notice, s, k, s);
      RefundsAreNotPositive(Act(sys, action).world, k, s);
      var rest := RefundsArrive(Act(sys, action), k, s);
      actions := [action] + rest;
      assert actions[1..] == rest;
    }
  }

  lemma OneOfTheRefunds(w: World, id: nat, notice: Notice, k: KeyId, s: Scope)
    requires Unsent(w, id, notice, s) && w.history[id].key == k
    ensures Refunds(w, k, s) <= w.history[id].Unsent(notice)[s]
  {
    var e := w.history[id];
    SentRefundsLess(e, notice, s, k, s);
    var w' := w.(history := w.history[id := e.Sent(notice, s)]);
    Sums.Update(w.history, id, e.Sent(notice, s), RefundIn(k, s));
    RefundsAreNotPositive(w', k, s);
  }

  /** The row guard refuses the batch in flight because this row would go below zero. */
  predicate Underflows(sys: System, id: Ident) { id in sys.inflight && Row(sys.rows, id) + sys.inflight[id] < 0 }

  ghost predicate LeadsToUnderflow(sys: System, actions: seq<Action>, id: Ident) {
    Settling(actions) && AllFair(sys, actions) && Underflows(Acts(sys, actions), id)
  }

  /** With nothing in flight, some order of the sink calls still to be made ends in a batch refused for
      an underflow of this row if and only if what was loaded and charged is less than the increases
      that are still undelivered: some refund can overtake its own charge. */
  lemma UnderflowIff(sys: System, k: KeyId, s: Scope)
    requires Conserved(sys) && sys.accepting && sys.inflight == map[] && Roomy(sys, k, s)
    ensures (exists actions :: LeadsToUnderflow(sys, actions, Ident(k, s)))
            <==> Charges(sys.world, k, s) < Increases(sys.world, k, s)
  {
    LeastIsUndeliveredIncrease(sys, k, s);
    if Least(sys, k, s) < 0 {
      var actions := RefundsArrive(sys, k, s);
      var sys' := Acts(sys, actions);
      TakeLast(sys, actions);
      assert Underflows(Act(sys', Take), Ident(k, s));
      assert LeadsToUnderflow(sys, actions + [Take], Ident(k, s));
    } else {
      forall actions ensures !LeadsToUnderflow(sys, actions, Ident(k, s)) {
        if Settling(actions) && AllFair(sys, actions) { StaysBacked(sys, actions, k, s); }
      }
    }
  }

  lemma {:induction false} TakeLast(sys: System, actions: seq<Action>)
    requires AllFair(sys, actions)
    ensures AllFair(sys, actions + [Take]) && Acts(sys, actions + [Take]) == Act(Acts(sys, actions), Take)
    decreases |actions|
  {
    if actions == [] {
      assert [Take][1..] == [] && actions + [Take] == [Take];
      assert Acts(Act(sys, Take), []) == Act(sys, Take);
    } else {
      assert (actions + [Take])[1..] == actions[1..] + [Take];
      TakeLast(Act(sys, actions[0]), actions[1..]);
    }
  }
}
