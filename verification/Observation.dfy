/** The observation worker together with the completion records handed over to it: handlers transfer
    a record and offer its job, the worker finishes the record when it is through with the job, and
    the handler completes it (internal/httpserver/usage_observation.go, completion_ownership.go). */
module Observation {
  import opened Wrappers
  import W = UsageWorker
  import C = Completion

  /** Record `i` belongs to job `i`. */
  datatype System<E> = System(worker: W.Worker, records: seq<C.World<E>>)

  datatype Step<E> =
    | Hand(valid: bool, unknown: E)
    | Work(step: W.Step, enrichment: E)
    | Complete(job: nat)
    | Emit(job: nat)

  function Start<E>(capacity: nat): System<E> { System(W.New(capacity), []) }

  /** Every job that this step finishes finishes its record. */
  function Observed<E>(before: seq<W.Job>, after: seq<W.Job>, records: seq<C.World<E>>, enrichment: E)
    : seq<C.World<E>>
  {
    seq(|records|, i requires 0 <= i < |records| =>
          if i < |before| && i < |after| && !before[i].finished && after[i].finished
          then C.Next(records[i], C.Finish(enrichment)) else records[i])
  }

  function Handed<E>(valid: bool, unknown: E): C.World<E> {
    var transferred := C.Next(C.Fresh(), C.Transfer);
    if valid then transferred else C.Next(transferred, C.Finish(unknown))
  }

  function Act<E>(sys: System<E>, job: nat, step: C.Step<E>): System<E> {
    if job < |sys.records| then sys.(records := sys.records[job := C.Next(sys.records[job], step)]) else sys
  }

  function Next<E>(sys: System<E>, step: Step<E>): System<E> {
    match step
    case Hand(valid, unknown) => System(W.Next(sys.worker, W.Offer(valid)), sys.records + [Handed(valid, unknown)])
    case Work(s, enrichment) =>
      if s.Offer? then sys
      else var worker := W.Next(sys.worker, s);
           System(worker, Observed(sys.worker.jobs, worker.jobs, sys.records, enrichment))
    case Complete(job) => Act(sys, job, C.Complete)
    case Emit(job) => Act(sys, job, C.Emit)
  }

  ghost function Run<E>(sys: System<E>, steps: seq<Step<E>>): System<E>
    decreases |steps|
  {
    if steps == [] then sys else Run(Next(sys, steps[0]), steps[1..])
  }

  /** The record was handed over, and once the job is finished it needs nothing but its handler. */
  ghost predicate Told<E>(job: W.Job, r: C.World<E>) {
    C.Inv(r) && r.own.transferred && (job.finished ==> r.own.enriched || r.own.finalized)
  }

  ghost predicate Inv<E>(sys: System<E>) {
    && W.Inv(sys.worker) && |sys.records| == |sys.worker.jobs|
    && forall i :: 0 <= i < |sys.records| ==> Told(sys.worker.jobs[i], sys.records[i])
  }

  lemma StepKeepsRecord<E>(job: W.Job, r: C.World<E>, step: C.Step<E>)
    requires Told(job, r)
    ensures Told(job, C.Next(r, step))
    ensures step.Finish? ==> Told(job.(finished := true), C.Next(r, step))
  {
    C.NextKeepsInv(r, step);
  }

  lemma JobsKept(w: W.Worker, step: W.Step)
    requires W.Inv(w) && !step.Offer?
    ensures |W.Next(w, step).jobs| == |w.jobs|
    ensures forall i :: 0 <= i < |w.jobs| ==> W.Later(w.jobs[i], W.Next(w, step).jobs[i])
  {
    if step.Advance? && step.call < |w.calls| { W.AdvanceDiscards(w, step.call); }
    forall i | 0 <= i < |w.jobs| ensures W.Later(w.jobs[i], W.Next(w, step).jobs[i]) { W.FatesMoveForward(w, step, i); }
  }

  lemma WorkKeepsInv<E>(sys: System<E>, step: W.Step, enrichment: E)
    requires Inv(sys) && !step.Offer?
    ensures Inv(Next(sys, Work(step, enrichment)))
  {
    var w, w' := sys.worker, W.Next(sys.worker, step);
    W.NextKeepsInv(w, step);
    JobsKept(w, step);
    var records := Observed(w.jobs, w'.jobs, sys.records, enrichment);
    forall i | 0 <= i < |records| ensures Told(w'.jobs[i], records[i]) {
      assert Told(w.jobs[i], sys.records[i]) && W.Later(w.jobs[i], w'.jobs[i]);
      StepKeepsRecord(w.jobs[i], sys.records[i], C.Finish(enrichment));
    }
  }

  lemma NextKeepsInv<E>(sys: System<E>, step: Step<E>)
    requires Inv(sys)
    ensures Inv(Next(sys, step))
  {
    match step
    case Hand(valid, _) => W.NextKeepsInv(sys.worker, W.Offer(valid));
    case Work(s, enrichment) => if !s.Offer? { WorkKeepsInv(sys, s, enrichment); }
    case Complete(job) =>
      if job < |sys.records| { StepKeepsRecord(sys.worker.jobs[job], sys.records[job], C.Complete); }
    case Emit(job) => if job < |sys.records| { StepKeepsRecord(sys.worker.jobs[job], sys.records[job], C.Emit); }
  }

  lemma {:induction false} RunKeepsInv<E>(sys: System<E>, steps: seq<Step<E>>)
    requires Inv(sys)
    ensures Inv(Run(sys, steps))
    decreases |steps|
  {
    if steps != [] {
      NextKeepsInv(sys, steps[0]);
      RunKeepsInv(Next(sys, steps[0]), steps[1..]);
    }
  }

  /** The worker has ended and the job's handler is not in the middle of submitting it. */
  predicate Through(w: W.Worker, i: nat) { w.place == W.Done && !W.Has(w, i, W.Offered) && !W.Has(w, i, W.Holding) }

  /** In every interleaving of handlers, worker, Shutdowns and Drains, a record handed over is emitted at
      most once, with an observation, and only after its handler completed; when the worker has ended,
      and the handler is not still submitting, the record of a completed request has been emitted or is
      being emitted: rejected, discarded and failed observations lose no record. */
  lemma HandedRecordsAreEmitted<E>(capacity: nat, steps: seq<Step<E>>, i: nat)
    requires i < |Run(Start(capacity), steps).records|
    ensures var sys := Run(Start(capacity), steps);
            var r := sys.records[i];
            && |r.pending| + |r.emitted| <= 1
            && (|r.pending| + |r.emitted| == 1 ==> r.own.completed)
            && (forall record :: record in r.pending + r.emitted ==> record.Some?)
            && (Through(sys.worker, i) && r.own.completed ==> |r.pending| + |r.emitted| == 1)
  {
    var sys := Run(Start(capacity), steps);
    W.WorkerInvariant(capacity, []);
    RunKeepsInv(Start(capacity), steps);
    assert Told(sys.worker.jobs[i], sys.records[i]);
    if Through(sys.worker, i) { W.NothingLeftBehind(sys.worker, i); }
  }
}
