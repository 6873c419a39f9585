/** The one-shot boundary between a request handler and the deferred observation of its response
    (internal/httpserver/completion_ownership.go). The record is emitted after the lock is released,
    so deciding to emit and emitting are two steps. */
module Completion {
  import opened Wrappers

  /** `E` stands for what an observation adds to the record: usage, cost and timing. */
  datatype Ownership<E> = Ownership(completed: bool, transferred: bool, enriched: bool, finalized: bool,
                                    enrichment: Option<E>)

  /** `pending` are decided and not yet delivered emissions, `emitted` the delivered records. */
  datatype World<E> = World(own: Ownership<E>, pending: seq<Option<E>>, emitted: seq<Option<E>>)

  datatype Step<E> = Transfer | Finish(enrichment: E) | Complete | Emit

  function NextTransfer<E>(o: Ownership<E>): Ownership<E> {
    if o.completed || o.finalized then o else o.(transferred := true)
  }

  /** The new state, and the record to emit if this call decides to. */
  function NextFinish<E>(o: Ownership<E>, enrichment: E): (Ownership<E>, Option<Option<E>>) {
    if o.enriched || o.finalized then (o, None)
    else
      var o' := o.(enriched := true, enrichment := Some(enrichment));
      if o.completed then (o'.(finalized := true), Some(Some(enrichment))) else (o', None)
  }

  function NextComplete<E>(o: Ownership<E>): (Ownership<E>, Option<Option<E>>) {
    if o.completed || o.finalized then (o, None)
    else if !o.transferred || o.enriched then (o.(completed := true, finalized := true), Some(o.enrichment))
    else (o.(completed := true), None)
  }

  function Decide<E>(w: World<E>, next: (Ownership<E>, Option<Option<E>>)): World<E> {
    w.(own := next.0, pending := w.pending + if next.1.Some? then [next.1.value] else [])
  }

  function Next<E>(w: World<E>, step: Step<E>): World<E> {
    match step
    case Transfer => w.(own := NextTransfer(w.own))
    case Finish(enrichment) => Decide(w, NextFinish(w.own, enrichment))
    case Complete => Decide(w, NextComplete(w.own))
    case Emit => if w.pending == [] then w else World(w.own, w.pending[1..], w.emitted + [w.pending[0]])
  }

  ghost function Run<E>(w: World<E>, steps: seq<Step<E>>): World<E>
    decreases |steps|
  {
    if steps == [] then w else Run(Next(w, steps[0]), steps[1..])
  }

  function Fresh<E>(): World<E> { World(Ownership(false, false, false, false, None), [], []) }

  /** Decided exactly when the handler completed and, if it handed the record over, the observation
      ended; what was decided carries the one enrichment there is. */
  ghost predicate Inv<E>(w: World<E>) {
    && (w.own.finalized <==> w.own.completed && (!w.own.transferred || w.own.enriched))
    && (w.own.enriched <==> w.own.enrichment.Some?)
    && |w.pending| + |w.emitted| == (if w.own.finalized then 1 else 0)
    && (forall i :: 0 <= i < |w.pending| ==> w.pending[i] == w.own.enrichment)
    && (forall i :: 0 <= i < |w.emitted| ==> w.emitted[i] == w.own.enrichment)
  }

  lemma NextKeepsInv<E>(w: World<E>, step: Step<E>)
    requires Inv(w)
    ensures Inv(Next(w, step))
    ensures w.own.completed ==> Next(w, step).own.completed
    ensures w.own.enriched || w.own.finalized ==> Next(w, step).own.enriched || Next(w, step).own.finalized
    ensures step == Complete ==> Next(w, step).own.completed
    ensures step.Finish? ==> Next(w, step).own.enriched || Next(w, step).own.finalized
  {
  }

  lemma {:induction false} RunKeepsInv<E>(w: World<E>, steps: seq<Step<E>>)
    requires Inv(w)
    ensures Inv(Run(w, steps))
    ensures w.own.completed || Complete in steps ==> Run(w, steps).own.completed
    ensures w.own.enriched || w.own.finalized || (exists i :: 0 <= i < |steps| && steps[i].Finish?) ==>
              Run(w, steps).own.enriched || Run(w, steps).own.finalized
    decreases |steps|
  {
    if steps != [] {
      NextKeepsInv(w, steps[0]);
      RunKeepsInv(Next(w, steps[0]), steps[1..]);
      assert forall i :: 0 < i < |steps| ==> steps[i] == steps[1..][i - 1];
    }
  }

  /** In every interleaving the record is decided and emitted at most once and never before the
      handler completes; once it has completed, and the observation finished if the record was
      handed over, the one emission is decided. */
  lemma ExactlyOnce<E>(steps: seq<Step<E>>)
    ensures var w := Run(Fresh(), steps);
            && |w.pending| + |w.emitted| <= 1
            && (w.pending != [] || w.emitted != [] ==> w.own.completed)
            && (Complete in steps && (w.own.transferred ==> exists i :: 0 <= i < |steps| && steps[i].Finish?) ==>
                  |w.pending| + |w.emitted| == 1)
            && (Complete !in steps ==> w.pending == [] && w.emitted == [])
  {
    RunKeepsInv(Fresh(), steps);
    if Complete !in steps { NotCompleted(Fresh(), steps); }
  }

  lemma {:induction false} NotCompleted<E>(w: World<E>, steps: seq<Step<E>>)
    requires Complete !in steps
    ensures Run(w, steps).own.completed == w.own.completed
    decreases |steps|
  {
    if steps != [] { NotCompleted(Next(w, steps[0]), steps[1..]); }
  }

  // ---- What the record carries ----

  function FirstFinish<E>(steps: seq<Step<E>>): Option<E> {
    if steps == [] then None else if steps[0].Finish? then Some(steps[0].enrichment) else FirstFinish(steps[1..])
  }

  /** The observation ended before the handler completed. */
  predicate FinishedFirst<E>(steps: seq<Step<E>>) {
    steps != [] && (steps[0].Finish? || (!steps[0].Complete? && FinishedFirst(steps[1..])))
  }

  /** The first observation to end is the one that counts, if any does. */
  lemma {:induction false} EnrichedBy<E>(w: World<E>, steps: seq<Step<E>>)
    ensures var own := Run(w, steps).own;
            && (w.own.enriched ==> own.enriched && own.enrichment == w.own.enrichment)
            && (!w.own.enriched ==> own.enrichment == if own.enriched then FirstFinish(steps) else w.own.enrichment)
            && (w.own.finalized ==> own.enriched == w.own.enriched)
            && (w.own.completed ==> own.transferred == w.own.transferred)
    decreases |steps|
  {
    if steps != [] { EnrichedBy(Next(w, steps[0]), steps[1..]); }
  }

  /** A record handed over and completed waits for the observation. */
  lemma {:induction false} WaitsForFinish<E>(w: World<E>, steps: seq<Step<E>>)
    requires w.own.completed && w.own.transferred && !w.own.enriched && !w.own.finalized
    ensures Run(w, steps).own.enriched <==> FirstFinish(steps).Some?
    decreases |steps|
  {
    if steps != [] {
      if steps[0].Finish? {
        EnrichedBy(Next(w, steps[0]), steps[1..]);
      } else {
        WaitsForFinish(Next(w, steps[0]), steps[1..]);
      }
    }
  }

  lemma {:induction false} EnrichedIff<E>(w: World<E>, steps: seq<Step<E>>)
    requires !w.own.completed && !w.own.enriched && !w.own.finalized
    ensures var own := Run(w, steps).own;
            own.enriched <==> FirstFinish(steps).Some? && (own.transferred || FinishedFirst(steps))
    decreases |steps|
  {
    if steps != [] {
      var w' := Next(w, steps[0]);
      match steps[0]
      case Finish(_) => EnrichedBy(w', steps[1..]);
      case Complete =>
        EnrichedBy(w', steps[1..]);
        if w.own.transferred { WaitsForFinish(w', steps[1..]); }
      case _ => EnrichedIff(w', steps[1..]);
    }
  }

  /** The record carries what the first observation to end added, if and only if it was handed over or the
      observation ended before the handler completed; otherwise it carries nothing. */
  lemma RecordCarriesObservation<E>(steps: seq<Step<E>>)
    ensures var w := Run(Fresh(), steps);
            var carried := if w.own.transferred || FinishedFirst(steps) then FirstFinish(steps) else None;
            forall record :: record in w.pending + w.emitted ==> record == carried
  {
    RunKeepsInv(Fresh(), steps);
    EnrichedBy(Fresh(), steps);
    EnrichedIff(Fresh(), steps);
  }

  class CompletionOwnership<E> {
    var completed: bool
    var transferred: bool
    var enriched: bool
    var finalized: bool
    var enrichment: Option<E>

    ghost function State(): Ownership<E>
      reads this
    {
      Ownership(completed, transferred, enriched, finalized, enrichment)
    }

    constructor ()
      ensures State() == Fresh<E>().own
    {
      completed, transferred, enriched, finalized, enrichment := false, false, false, false, None;
    }

    method Transfer() returns (ok: bool)
      modifies this
      ensures State() == NextTransfer(old(State())) && (ok <==> !old(completed) && !old(finalized))
    {
      if completed || finalized { return false; }
      transferred := true;
      return true;
    }

    /** Returns the record this call has to emit, if any. */
    method Finish(value: E) returns (emit: Option<Option<E>>)
      modifies this
      ensures (State(), emit) == NextFinish(old(State()), value)
    {
      if enriched || finalized { return None; }
      enriched, enrichment := true, Some(value);
      if !completed { return None; }
      finalized := true;
      return Some(enrichment);
    }

    method Complete() returns (emit: Option<Option<E>>)
      modifies this
      ensures (State(), emit) == NextComplete(old(State()))
    {
      if completed || finalized { return None; }
      completed := true;
      if !transferred || enriched {
        finalized := true;
        return Some(enrichment);
      }
      return None;
    }
  }
}
