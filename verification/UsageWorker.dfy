/** The bounded usage-observation worker (internal/httpserver/usage_observation.go) as a machine:
    handlers submit, one worker claims and processes, Shutdown and Drain stop it. Each step is one
    region under the worker's lock, one channel operation or one compare-and-swap. Parsing is a
    choice: it fails or it does not. */
module UsageWorker {
  import opened Wrappers
  import Sums

  datatype Phase = Idle | Adjusting | Terminal

  /** What becomes of a job handed to the worker. */
  datatype Fate = Offered | Holding | Queued | Claimed | Settling | Rejected | Discarded | Processed

  /** `finished`: the worker's side of the job's completion has ended. */
  datatype Job = Job(fate: Fate, finished: bool)

  /** Where the worker is; `drained` is the loop it goes back to. */
  datatype Place =
    | Waiting | Looping | Draining | Done
    | Parsing(job: nat, drained: bool)
    | Adjustment(job: nat, drained: bool)

  /** A Shutdown or Drain call and how far it got: see `NextAdvance`. A Shutdown remembers the job the
      worker had in hand when it took the lock. */
  datatype Call = Shutdown(stage: nat, active: Option<nat>) | Drain(stage: nat)

  /** `owed` are the slots of jobs received from the queue that are not back yet; `started` counts the
      adjustments begun. */
  datatype Worker = Worker(capacity: nat, free: int, owed: nat, queue: seq<nat>,
                           accepting: bool, draining: bool, stopped: bool,
                           phase: Phase, place: Place, jobs: seq<Job>, calls: seq<Call>, started: nat)

  function New(capacity: nat): Worker {
    Worker(capacity, capacity, 0, [], true, false, false, Idle, Waiting, [], [], 0)
  }

  datatype Step =
    | Offer(valid: bool) | TakeSlot(job: nat) | Recheck(job: nat) | Enqueue(job: nat)
    | SlotBack | Wake | Stop | Loop | DrainNext | ParseFails | Begin | Observe | Settle
    | CallShutdown | CallDrain | Advance(call: nat)

  // ---- Submission ----

  function Put(w: Worker, i: nat, fate: Fate): Worker
    requires i < |w.jobs|
  {
    w.(jobs := w.jobs[i := Job(fate, w.jobs[i].finished || fate in {Rejected, Processed})])
  }

  function GiveBack(w: Worker, i: nat): Worker
    requires i < |w.jobs|
  {
    Put(w, i, Rejected).(free := w.free + 1)
  }

  function NextEnqueue(w: Worker, i: nat): Worker
    requires i < |w.jobs|
  {
    if !w.accepting || w.capacity <= |w.queue| then GiveBack(w, i) else Put(w, i, Queued).(queue := w.queue + [i])
  }

  // ---- The worker ----

  function DiscardJobs(jobs: seq<Job>): seq<Job> {
    seq(|jobs|, i requires 0 <= i < |jobs| => if jobs[i].fate == Queued then Job(Discarded, true) else jobs[i])
  }

  /** discardQueuedLocked by the worker itself, which is then the only receiver. */
  function Discard(w: Worker): Worker {
    w.(jobs := DiscardJobs(w.jobs), owed := w.owed + |w.queue|, queue := [])
  }

  /** One turn of discardQueuedLocked in a Shutdown or Drain: a draining worker may receive between two. */
  function DiscardOne(w: Worker): Worker
    requires w.queue != [] && w.queue[0] < |w.jobs|
  {
    w.(jobs := w.jobs[w.queue[0] := Job(Discarded, true)], queue := w.queue[1..], owed := w.owed + 1)
  }

  function Claim(w: Worker, drained: bool): Worker
    requires w.queue != [] && w.queue[0] < |w.jobs|
  {
    Put(w, w.queue[0], Claimed).(queue := w.queue[1..], owed := w.owed + 1, place := Parsing(w.queue[0], drained))
  }

  /** What a worker that is not accepting does: drain what is queued, or discard it and end. */
  function Close(w: Worker): Worker {
    if w.draining then w.(place := Draining) else Discard(w).(place := Done)
  }

  function NextLoop(w: Worker): Worker {
    if !w.accepting then Close(w)
    else if w.queue != [] && w.queue[0] < |w.jobs| then Claim(w, false)
    else w.(place := Waiting)
  }

  function Back(drained: bool): Place { if drained then Draining else Looping }

  /** A job whose ticket cannot be adjusted any more is invalidated, and ends like any other. */
  function NextBegin(w: Worker): Worker
    requires w.place.Parsing? && w.place.job < |w.jobs|
  {
    if w.phase == Idle then
      Put(w, w.place.job, Settling).(phase := Adjusting, place := Adjustment(w.place.job, w.place.drained),
                                     started := w.started + 1)
    else Put(w, w.place.job, Processed).(place := Back(w.place.drained))
  }

  function Swap(w: Worker, from: Phase, to: Phase): Worker { if w.phase == from then w.(phase := to) else w }

  // ---- Shutdown and Drain ----

  function Active(place: Place): Option<nat> {
    if (place.Parsing? || place.Adjustment?) && !place.drained then Some(place.job) else None
  }

  function Finish(w: Worker, job: Option<nat>): Worker {
    if job.Some? && job.value < |w.jobs|
    then w.(jobs := w.jobs[job.value := w.jobs[job.value].(finished := true)]) else w
  }

  /** A Shutdown has stopped admission: it then discards what is queued, finishes the completion that was
      active, closes the stop channel, waits, and when it times out swaps twice. A Drain stops admission,
      closes the channel, waits, and when it times out swaps twice and discards what is still queued. */
  function NextAdvance(w: Worker, c: nat): Worker
    requires c < |w.calls|
  {
    var call := w.calls[c];
    var w' := w.(calls := w.calls[c := call.(stage := call.stage + 1)]);
    match call
    case Shutdown(0, _) => if w.queue != [] && w.queue[0] < |w.jobs| then DiscardOne(w) else w'
    case Shutdown(1, active) => Finish(w', active)
    case Shutdown(2, _) => w'.(stopped := true)
    case Shutdown(3, _) => Swap(w', Idle, Terminal)
    case Shutdown(4, _) => Swap(w', Adjusting, Terminal)
    case Drain(0) => w'.(accepting := false)
    case Drain(1) => w'.(stopped := true)
    case Drain(2) => Swap(w', Idle, Terminal)
    case Drain(3) => Swap(w', Adjusting, Terminal)
    case Drain(4) => if w.queue != [] && w.queue[0] < |w.jobs| then DiscardOne(w) else w'
    case _ => w
  }

  predicate Has(w: Worker, i: nat, fate: Fate) { i < |w.jobs| && w.jobs[i].fate == fate }

  function Next(w: Worker, step: Step): Worker {
    match step
    case Offer(valid) => w.(jobs := w.jobs + [if valid then Job(Offered, false) else Job(Rejected, true)])
    case TakeSlot(i) =>
      if !Has(w, i, Offered) then w
      else if 0 < w.free then Put(w, i, Holding).(free := w.free - 1) else Put(w, i, Rejected)
    case Recheck(i) => if Has(w, i, Holding) && !w.accepting then GiveBack(w, i) else w
    case Enqueue(i) => if Has(w, i, Holding) then NextEnqueue(w, i) else w
    case SlotBack => if 0 < w.owed then w.(owed := w.owed - 1, free := w.free + 1) else w
    case Wake => if w.place == Waiting then w.(place := Looping) else w
    case Stop => if w.place == Waiting && w.stopped then Close(w) else w
    case Loop => if w.place == Looping then NextLoop(w) else w
    case DrainNext =>
      if w.place != Draining then w
      else if w.queue != [] && w.queue[0] < |w.jobs| then Claim(w, true) else w.(place := Done)
    case ParseFails =>
      if w.place.Parsing? && w.place.job < |w.jobs|
      then Put(w, w.place.job, Processed).(place := Back(w.place.drained)) else w
    case Begin => if w.place.Parsing? && w.place.job < |w.jobs| then NextBegin(w) else w
    case Observe => if w.place.Adjustment? then Finish(w, Some(w.place.job)) else w
    case Settle =>
      if w.place.Adjustment? && w.place.job < |w.jobs| && w.jobs[w.place.job].finished
      then Swap(Put(w, w.place.job, Processed).(place := Back(w.place.drained)), Adjusting, Idle) else w
    case CallShutdown => w.(accepting := false, calls := w.calls + [Shutdown(0, Active(w.place))])
    case CallDrain => w.(draining := true, calls := w.calls + [Drain(0)])
    case Advance(c) => if c < |w.calls| then NextAdvance(w, c) else w
  }

  ghost function Run(w: Worker, steps: seq<Step>): Worker
    decreases |steps|
  {
    if steps == [] then w else Run(Next(w, steps[0]), steps[1..])
  }

  // ---- The invariant ----

  function HoldingWeight(): Job -> int { (j: Job) => if j.fate == Holding then 1 else 0 }

  ghost predicate Slots(capacity: nat, free: int, owed: nat, queue: seq<nat>, jobs: seq<Job>) {
    0 <= free && free + owed + |queue| + Sums.Sum(jobs, HoldingWeight()) == capacity
  }

  predicate Is(jobs: seq<Job>, i: nat, fate: Fate) { i < |jobs| && jobs[i].fate == fate }

  ghost predicate QueueLists(queue: seq<nat>, jobs: seq<Job>) {
    && (forall k :: 0 <= k < |queue| ==> Is(jobs, queue[k], Queued))
    && (forall k, l :: 0 <= k < l < |queue| ==> queue[k] != queue[l])
    && (forall i :: 0 <= i < |jobs| && Is(jobs, i, Queued) ==> i in queue)
  }

  function InHand(place: Place, fate: Fate): Option<nat> {
    if (fate == Claimed && place.Parsing?) || (fate == Settling && place.Adjustment?) then Some(place.job) else None
  }

  /** Only the job the worker has in hand is claimed or being settled. */
  ghost predicate OneInHand(place: Place, jobs: seq<Job>) {
    forall fate :: fate in {Claimed, Settling} ==>
      && (InHand(place, fate).Some? ==> Is(jobs, InHand(place, fate).value, fate))
      && (forall i :: 0 <= i < |jobs| && Is(jobs, i, fate) ==> InHand(place, fate) == Some(i))
  }

  predicate Ended(j: Job) { j.fate in {Rejected, Discarded, Processed} }

  ghost predicate AllFinished(jobs: seq<Job>) { forall i :: 0 <= i < |jobs| ==> Ended(jobs[i]) ==> jobs[i].finished }

  predicate Winding(p: Place) { p == Draining || p == Done || ((p.Parsing? || p.Adjustment?) && p.drained) }

  predicate Flags(accepting: bool, stopped: bool, place: Place, queue: seq<nat>, phase: Phase) {
    && (stopped || Winding(place) ==> !accepting) && (place == Done ==> queue == [])
    && (phase == Adjusting ==> place.Adjustment?) && (place.Adjustment? ==> phase != Idle)
  }

  /** Nothing is left to claim, and the job in hand can no longer begin an adjustment. */
  predicate Shut(accepting: bool, queue: seq<nat>, phase: Phase, place: Place) {
    !accepting && queue == [] && (phase == Terminal || !place.Parsing?)
  }

  /** A Shutdown leaves nothing to claim once it has discarded the rest; its first swap shuts the worker.
      A Drain leaves nothing to claim once it has discarded the rest. */
  predicate CallHolds(call: Call, accepting: bool, draining: bool, queue: seq<nat>, phase: Phase, place: Place) {
    match call
    case Drain(stage) => draining && (1 <= stage ==> !accepting) && (5 <= stage ==> queue == [])
    case Shutdown(stage, _) =>
      !accepting && (1 <= stage ==> queue == []) && (4 <= stage ==> Shut(accepting, queue, phase, place))
  }

  ghost predicate CallsHold(calls: seq<Call>, accepting: bool, draining: bool, queue: seq<nat>, phase: Phase,
                            place: Place) {
    forall c :: 0 <= c < |calls| ==> CallHolds(calls[c], accepting, draining, queue, phase, place)
  }

  ghost predicate Inv(w: Worker) {
    && Slots(w.capacity, w.free, w.owed, w.queue, w.jobs) && QueueLists(w.queue, w.jobs) && OneInHand(w.place, w.jobs)
    && AllFinished(w.jobs) && Flags(w.accepting, w.stopped, w.place, w.queue, w.phase)
    && CallsHold(w.calls, w.accepting, w.draining, w.queue, w.phase, w.place)
  }

  // ---- One job changes ----

  lemma QueueKept(queue: seq<nat>, jobs: seq<Job>, i: nat, j: Job)
    requires QueueLists(queue, jobs) && i < |jobs| && jobs[i].fate != Queued && j.fate != Queued
    ensures QueueLists(queue, jobs[i := j])
  {
    forall k | 0 <= k < |queue| ensures Is(jobs[i := j], queue[k], Queued) { assert Is(jobs, queue[k], Queued); }
    forall m | 0 <= m < |jobs| && Is(jobs[i := j], m, Queued) ensures m in queue { assert Is(jobs, m, Queued); }
  }

  lemma Enqueued(queue: seq<nat>, jobs: seq<Job>, i: nat, j: Job)
    requires QueueLists(queue, jobs) && i < |jobs| && jobs[i].fate != Queued && j.fate == Queued
    ensures QueueLists(queue + [i], jobs[i := j])
  {
    var queue', jobs' := queue + [i], jobs[i := j];
    forall k | 0 <= k < |queue|
      ensures Is(jobs', queue[k], Queued) && queue[k] != i
    {
      assert Is(jobs, queue[k], Queued);
    }
    forall m | 0 <= m < |jobs'| && Is(jobs', m, Queued) ensures m in queue' {
      if m == i { assert queue'[|queue|] == i; } else { assert Is(jobs, m, Queued) && m in queue; }
    }
  }

  lemma Dequeued(queue: seq<nat>, jobs: seq<Job>, j: Job)
    requires QueueLists(queue, jobs) && queue != [] && queue[0] < |jobs| && j.fate != Queued
    ensures QueueLists(queue[1..], jobs[queue[0] := j])
  {
    var jobs' := jobs[queue[0] := j];
    forall k | 0 <= k < |queue[1..]| ensures Is(jobs', queue[1..][k], Queued) { assert Is(jobs, queue[k + 1], Queued); }
    forall m | 0 <= m < |jobs'| && Is(jobs', m, Queued) ensures m in queue[1..] {
      assert Is(jobs, m, Queued) && m in queue && queue == [queue[0]] + queue[1..];
    }
  }

  /** The job in hand is `i`, or none is; afterwards it is `i` with fate `j`, or none. */
  lemma HandMoves(place: Place, jobs: seq<Job>, i: nat, j: Job, after: Place)
    requires OneInHand(place, jobs) && i < |jobs|
    requires forall fate :: fate in {Claimed, Settling} ==>
               InHand(place, fate) in {None, Some(i)} && InHand(after, fate) == if j.fate == fate then Some(i) else None
    ensures OneInHand(after, jobs[i := j])
  {
    forall fate, m: nat | fate in {Claimed, Settling} && m < |jobs| && m != i ensures !Is(jobs, m, fate) {
      assert Is(jobs, m, fate) ==> InHand(place, fate) == Some(m);
    }
  }

  lemma HandKept(place: Place, jobs: seq<Job>, i: nat, j: Job)
    requires OneInHand(place, jobs) && i < |jobs| && jobs[i].fate !in {Claimed, Settling}
             && j.fate !in {Claimed, Settling}
    ensures OneInHand(place, jobs[i := j])
  {
    forall fate | fate in {Claimed, Settling} && InHand(place, fate).Some?
      ensures Is(jobs[i := j], InHand(place, fate).value, fate)
    {
      assert Is(jobs, InHand(place, fate).value, fate);
    }
    forall fate, m | fate in {Claimed, Settling} && 0 <= m < |jobs| && Is(jobs[i := j], m, fate)
      ensures InHand(place, fate) == Some(m)
    {
      assert Is(jobs, m, fate);
    }
  }

  // ---- Every step keeps it ----

  lemma OfferKeeps(w: Worker, j: Job)
    requires Inv(w) && j in {Job(Offered, false), Job(Rejected, true)}
    ensures Inv(w.(jobs := w.jobs + [j]))
  {
    var jobs := w.jobs + [j];
    Sums.Append(w.jobs, j, HoldingWeight());
    forall i: nat, fate ensures Is(jobs, i, fate) <==> Is(w.jobs, i, fate) || (i == |w.jobs| && j.fate == fate) {}
  }

  /** A submitter's job moves between being offered, holding a slot and being rejected. */
  lemma SubmitKeeps(w: Worker, i: nat, j: Job, free: int)
    requires Inv(w) && i < |w.jobs| && w.jobs[i].fate in {Offered, Holding} && j.fate in {Holding, Rejected}
    requires (Ended(j) ==> j.finished) && 0 <= free && free - w.free == HoldingWeight()(w.jobs[i]) - HoldingWeight()(j)
    ensures Inv(w.(jobs := w.jobs[i := j], free := free))
  {
    Sums.Update(w.jobs, i, j, HoldingWeight());
    QueueKept(w.queue, w.jobs, i, j);
    HandKept(w.place, w.jobs, i, j);
  }

  lemma EnqueueKeeps(w: Worker, i: nat, j: Job)
    requires Inv(w) && Is(w.jobs, i, Holding) && j.fate == Queued && w.accepting
    ensures Inv(w.(jobs := w.jobs[i := j], queue := w.queue + [i]))
  {
    Sums.Update(w.jobs, i, j, HoldingWeight());
    Enqueued(w.queue, w.jobs, i, j);
    HandKept(w.place, w.jobs, i, j);
    forall c | 0 <= c < |w.calls|
      ensures CallHolds(w.calls[c], w.accepting, w.draining, w.queue + [i], w.phase, w.place)
    {
      assert CallHolds(w.calls[c], w.accepting, w.draining, w.queue, w.phase, w.place);
    }
  }

  lemma DiscardedJobs(queue: seq<nat>, jobs: seq<Job>, place: Place)
    requires QueueLists(queue, jobs) && OneInHand(place, jobs) && AllFinished(jobs)
    ensures QueueLists([], DiscardJobs(jobs)) && OneInHand(place, DiscardJobs(jobs)) && AllFinished(DiscardJobs(jobs))
    ensures Sums.Sum(DiscardJobs(jobs), HoldingWeight()) == Sums.Sum(jobs, HoldingWeight())
  {
    Sums.Agree(jobs, DiscardJobs(jobs), HoldingWeight(), HoldingWeight());
    forall i: nat, fate | fate in {Claimed, Settling} ensures Is(DiscardJobs(jobs), i, fate) <==> Is(jobs, i, fate) {}
  }

  lemma DiscardKeeps(w: Worker)
    requires Inv(w)
    ensures Inv(Discard(w))
  {
    DiscardedJobs(w.queue, w.jobs, w.place);
  }

  lemma DiscardOneKeeps(w: Worker)
    requires Inv(w) && w.queue != []
    ensures w.queue[0] < |w.jobs| && Inv(DiscardOne(w))
  {
    assert Is(w.jobs, w.queue[0], Queued);
    var i, j := w.queue[0], Job(Discarded, true);
    Sums.Update(w.jobs, i, j, HoldingWeight());
    Dequeued(w.queue, w.jobs, j);
    HandKept(w.place, w.jobs, i, j);
    forall c | 0 <= c < |w.calls|
      ensures CallHolds(w.calls[c], w.accepting, w.draining, w.queue[1..], w.phase, w.place)
    {
      assert CallHolds(w.calls[c], w.accepting, w.draining, w.queue, w.phase, w.place);
    }
  }

  lemma ClaimKeeps(w: Worker, drained: bool)
    requires Inv(w) && w.queue != [] && w.place in {Looping, Draining} && (drained ==> !w.accepting)
    ensures w.queue[0] < |w.jobs| && Inv(Claim(w, drained))
  {
    assert Is(w.jobs, w.queue[0], Queued);
    var i, j := w.queue[0], Job(Claimed, w.jobs[w.queue[0]].finished);
    Sums.Update(w.jobs, i, j, HoldingWeight());
    Dequeued(w.queue, w.jobs, j);
    HandMoves(w.place, w.jobs, i, j, Parsing(i, drained));
  }

  lemma PlaceKeeps(w: Worker, after: Place)
    requires Inv(w) && w.place in {Waiting, Looping, Draining} && after in {Waiting, Looping, Draining, Done}
    requires (Winding(after) ==> !w.accepting) && (after == Done ==> w.queue == [])
    ensures Inv(w.(place := after))
  {
    forall fate ensures InHand(after, fate) == InHand(w.place, fate) == None {}
  }

  lemma CloseKeeps(w: Worker)
    requires Inv(w) && !w.accepting && w.place in {Waiting, Looping}
    ensures Inv(Close(w))
  {
    DiscardKeeps(w);
    if w.draining { PlaceKeeps(w, Draining); } else { PlaceKeeps(Discard(w), Done); }
  }

  /** The job in hand goes from one of the worker's places to the next. */
  lemma HandKeeps(w: Worker, j: Job, after: Place, phase: Phase)
    requires Inv(w) && (w.place.Parsing? || w.place.Adjustment?) && !after.Parsing? && after != Done
    requires j.fate == (if after.Adjustment? then Settling else Processed) && (Ended(j) ==> j.finished)
    requires after.Adjustment? ==> after.job == w.place.job && w.place.Parsing?
    requires Winding(after) ==> w.place.drained
    requires phase == Terminal <==> w.phase == Terminal
    requires (phase == Adjusting ==> after.Adjustment?) && (after.Adjustment? ==> phase != Idle)
    ensures w.place.job < |w.jobs| && Inv(w.(jobs := w.jobs[w.place.job := j], place := after, phase := phase))
  {
    var i := w.place.job;
    assert InHand(w.place, if w.place.Parsing? then Claimed else Settling) == Some(i);
    Sums.Update(w.jobs, i, j, HoldingWeight());
    QueueKept(w.queue, w.jobs, i, j);
    HandMoves(w.place, w.jobs, i, j, after);
    forall c | 0 <= c < |w.calls| ensures CallHolds(w.calls[c], w.accepting, w.draining, w.queue, phase, after) {
      assert CallHolds(w.calls[c], w.accepting, w.draining, w.queue, w.phase, w.place);
    }
  }

  lemma FinishKeeps(w: Worker, job: Option<nat>)
    requires Inv(w)
    ensures Inv(Finish(w, job))
  {
    var w' := Finish(w, job);
    if w' != w {
      Sums.Update(w.jobs, job.value, w'.jobs[job.value], HoldingWeight());
      forall i: nat, fate ensures Is(w'.jobs, i, fate) <==> Is(w.jobs, i, fate) {}
    }
  }

  lemma SwapKeeps(w: Worker, from: Phase, c: nat, call: Call)
    requires Inv(w) && from in {Idle, Adjusting} && c < |w.calls| && call.Drain? == w.calls[c].Drain?
    requires call.stage == w.calls[c].stage + 1
    requires call.stage == (if from == Idle then 3 else 4) + if call.Drain? then 0 else 1
    ensures Inv(Swap(w.(calls := w.calls[c := call]), from, Terminal))
  {
  }

  /** Everything a call does once it has begun; a Shutdown's first swap closes the door for good. */
  lemma AdvanceKeeps(w: Worker, c: nat)
    requires Inv(w) && c < |w.calls|
    ensures Inv(NextAdvance(w, c))
  {
    var call := w.calls[c].(stage := w.calls[c].stage + 1);
    var w' := w.(calls := w.calls[c := call]);
    match w.calls[c]
    case Shutdown(0, _) => if w.queue != [] { DiscardOneKeeps(w); }
    case Shutdown(1, active) => FinishKeeps(w', active);
    case Shutdown(3, _) => SwapKeeps(w, Idle, c, call);
    case Shutdown(4, _) => SwapKeeps(w, Adjusting, c, call);
    case Drain(2) => SwapKeeps(w, Idle, c, call);
    case Drain(3) => SwapKeeps(w, Adjusting, c, call);
    case Drain(4) => if w.queue != [] { DiscardOneKeeps(w); }
    case _ =>
  }

  lemma HandStepKeeps(w: Worker, step: Step)
    requires Inv(w) && step in {ParseFails, Begin, Settle}
    ensures Inv(Next(w, step))
  {
    var w' := Next(w, step);
    if w' != w { HandKeeps(w, w'.jobs[w.place.job], w'.place, w'.phase); }
  }

  lemma SubmitStepKeeps(w: Worker, step: Step)
    requires Inv(w) && (step.TakeSlot? || step.Recheck? || step.Enqueue?)
    ensures Inv(Next(w, step))
  {
    var w', i := Next(w, step), step.job;
    if w' != w {
      if w'.jobs[i].fate == Queued { EnqueueKeeps(w, i, w'.jobs[i]); } else { SubmitKeeps(w, i, w'.jobs[i], w'.free); }
    }
  }

  lemma LoopStepKeeps(w: Worker, step: Step)
    requires Inv(w) && step in {Wake, Stop, Loop, DrainNext}
    ensures Inv(Next(w, step))
  {
    if step == Wake && w.place == Waiting {
      PlaceKeeps(w, Looping);
    } else if step == Stop && w.place == Waiting && w.stopped {
      CloseKeeps(w);
    } else if step == Loop && w.place == Looping {
      if !w.accepting {
        CloseKeeps(w);
      } else if w.queue != [] {
        ClaimKeeps(w, false);
      } else {
        PlaceKeeps(w, Waiting);
      }
    } else if step == DrainNext && w.place == Draining {
      if w.queue != [] { ClaimKeeps(w, true); } else { PlaceKeeps(w, Done); }
    }
  }

  lemma CallStepKeeps(w: Worker, step: Step)
    requires Inv(w) && step in {CallShutdown, CallDrain}
    ensures Inv(Next(w, step))
  {
  }

  lemma NextKeepsInv(w: Worker, step: Step)
    requires Inv(w)
    ensures Inv(Next(w, step))
  {
    match step
    case Offer(valid) => OfferKeeps(w, if valid then Job(Offered, false) else Job(Rejected, true));
    case TakeSlot(_) => SubmitStepKeeps(w, step);
    case Recheck(_) => SubmitStepKeeps(w, step);
    case Enqueue(_) => SubmitStepKeeps(w, step);
    case ParseFails => HandStepKeeps(w, step);
    case Begin => HandStepKeeps(w, step);
    case Observe => if w.place.Adjustment? { FinishKeeps(w, Some(w.place.job)); }
    case Settle => HandStepKeeps(w, step);
    case SlotBack =>
    case CallShutdown => CallStepKeeps(w, step);
    case CallDrain => CallStepKeeps(w, step);
    case Advance(c) => if c < |w.calls| { AdvanceKeeps(w, c); }
    case _ => LoopStepKeeps(w, step);
  }

  lemma {:induction false} RunKeepsInv(w: Worker, steps: seq<Step>)
    requires Inv(w)
    ensures Inv(Run(w, steps))
    decreases |steps|
  {
    if steps != [] {
      NextKeepsInv(w, steps[0]);
      RunKeepsInv(Next(w, steps[0]), steps[1..]);
    }
  }

  /** In every interleaving from a new worker: free slots, slots on their way back, queued jobs and
      submitters holding a slot add up to the capacity; the queue lists the queued jobs once each; the
      worker has at most one job in hand; every job that has ended has finished its completion. */
  lemma WorkerInvariant(capacity: nat, steps: seq<Step>)
    ensures var w := Run(New(capacity), steps);
            && Inv(w) && w.capacity == capacity
            && 0 <= w.free && w.free + w.owed + |w.queue| + Sums.Sum(w.jobs, HoldingWeight()) == capacity
            && QueueLists(w.queue, w.jobs) && OneInHand(w.place, w.jobs) && AllFinished(w.jobs)
  {
    RunKeepsInv(New(capacity), steps);
    CapacityFixed(New(capacity), steps);
  }

  lemma {:induction false} CapacityFixed(w: Worker, steps: seq<Step>)
    ensures Run(w, steps).capacity == w.capacity
    decreases |steps|
  {
    if steps != [] {
      if steps[0].Advance? && steps[0].call < |w.calls| { AdvanceDiscards(w, steps[0].call); }
      assert Next(w, steps[0]).capacity == w.capacity;
      CapacityFixed(Next(w, steps[0]), steps[1..]);
    }
  }

  /** A submitter that holds a slot always finds room in the queue. */
  lemma HoldersNeverFindItFull(w: Worker, i: nat)
    requires Inv(w) && Has(w, i, Holding)
    ensures |w.queue| < w.capacity && 0 <= w.free < w.capacity
  {
    Sums.Bounds(w.jobs, HoldingWeight());
    assert HoldingWeight()(w.jobs[i]) == 1;
  }

  /** An offered job gets a slot if and only if queued jobs, slots on their way back and other submitters do not
      take up the capacity; a submitter that holds one puts its job into the queue if and only if the
      worker accepts, and gives the slot back otherwise. Slots on their way back arrive. */
  lemma SubmittedIff(w: Worker, i: nat)
    requires Inv(w) && i < |w.jobs|
    ensures w.jobs[i].fate == Offered ==>
              Next(w, TakeSlot(i)).jobs[i].fate
              == if w.owed + |w.queue| + Sums.Sum(w.jobs, HoldingWeight()) < w.capacity then Holding else Rejected
    ensures w.jobs[i].fate == Holding ==>
              var w' := Next(w, Enqueue(i));
              if w.accepting then w'.jobs[i].fate == Queued && w'.queue == w.queue + [i] && w'.free == w.free
              else w'.jobs[i] == Job(Rejected, true) && w'.queue == w.queue && w'.free == w.free + 1
    ensures w.jobs[i].fate == Holding ==>
              var w' := Next(w, Recheck(i));
              if w.accepting then w' == w else w'.jobs[i] == Job(Rejected, true) && w'.free == w.free + 1
    ensures 0 < w.owed ==> Next(w, SlotBack).owed == w.owed - 1 && Next(w, SlotBack).free == w.free + 1
  {
    if w.jobs[i].fate == Holding { HoldersNeverFindItFull(w, i); }
  }

  // ---- Each job ends once ----

  function Rank(f: Fate): nat {
    match f
    case Offered => 0
    case Holding => 1
    case Queued => 2
    case Claimed => 3
    case Settling => 4
    case _ => 5
  }

  predicate Later(j: Job, j': Job) {
    j' == j || (!Ended(j) && (j.finished ==> j'.finished) && (Rank(j.fate) < Rank(j'.fate) || j'.fate == j.fate))
  }

  lemma FatesMoveForward(w: Worker, step: Step, i: nat)
    requires Inv(w) && i < |w.jobs|
    ensures i < |Next(w, step).jobs| && Later(w.jobs[i], Next(w, step).jobs[i])
  {
    match step
    case TakeSlot(_) =>
    case Recheck(_) =>
    case Enqueue(_) =>
    case Advance(c) =>
      HandFate(w);
      if c < |w.calls| { AdvanceDiscards(w, c); }
    case CallShutdown =>
    case _ => WorkerMovesForward(w, step, i);
  }

  lemma HandFate(w: Worker)
    requires Inv(w)
    ensures w.place.Parsing? ==> Is(w.jobs, w.place.job, Claimed)
    ensures w.place.Adjustment? ==> Is(w.jobs, w.place.job, Settling)
    ensures w.queue != [] ==> Is(w.jobs, w.queue[0], Queued)
  {
    if w.place.Parsing? { assert InHand(w.place, Claimed) == Some(w.place.job); }
    if w.place.Adjustment? { assert InHand(w.place, Settling) == Some(w.place.job); }
  }

  lemma WorkerMovesForward(w: Worker, step: Step, i: nat)
    requires Inv(w) && i < |w.jobs|
             && (step.Offer? || step.SlotBack? || step.CallDrain?
                 || step in {Wake, Stop, Loop, DrainNext, ParseFails, Begin, Observe, Settle})
    ensures i < |Next(w, step).jobs| && Later(w.jobs[i], Next(w, step).jobs[i])
  {
    HandFate(w);
  }

  lemma AdvanceDiscards(w: Worker, c: nat)
    requires c < |w.calls|
    ensures var w' := NextAdvance(w, c);
            && |w'.jobs| == |w.jobs| && w'.started == w.started && w'.capacity == w.capacity
            && (AllFinished(w.jobs) && (w.queue != [] ==> Is(w.jobs, w.queue[0], Queued)) ==>
                  forall i :: 0 <= i < |w.jobs| ==> Later(w.jobs[i], w'.jobs[i]))
  {
  }

  /** A job is rejected, discarded or processed once and for all: what ended it never changes. */
  lemma {:induction false} EndsOnce(w: Worker, steps: seq<Step>, i: nat)
    requires Inv(w) && i < |w.jobs|
    ensures i < |Run(w, steps).jobs| && Later(w.jobs[i], Run(w, steps).jobs[i])
    decreases |steps|
  {
    if steps != [] {
      NextKeepsInv(w, steps[0]);
      FatesMoveForward(w, steps[0], i);
      EndsOnce(Next(w, steps[0]), steps[1..], i);
    }
  }

  /** When the worker has ended and no handler is in the middle of a submission, every job handed to
      it was rejected, discarded or processed, and its completion was finished. */
  lemma NothingLeftBehind(w: Worker, i: nat)
    requires Inv(w) && w.place == Done && i < |w.jobs| && !Has(w, i, Offered) && !Has(w, i, Holding)
    ensures Ended(w.jobs[i]) && w.jobs[i].finished
  {
    assert Is(w.jobs, i, Queued) ==> i in w.queue;
    assert Is(w.jobs, i, Claimed) ==> InHand(w.place, Claimed) == Some(i);
    assert Is(w.jobs, i, Settling) ==> InHand(w.place, Settling) == Some(i);
  }

  // ---- Each job can end ----

  predicate Underway(w: Worker, i: nat) { Has(w, i, Queued) || Has(w, i, Claimed) || Has(w, i, Settling) }

  /** What the worker does next, and how far it is from the end of its queue. */
  function Ahead(w: Worker): (Step, nat) {
    match w.place
    case Waiting => (Wake, 8 * |w.queue| + 4)
    case Looping => (Loop, 8 * |w.queue| + 3)
    case Draining => (DrainNext, 8 * |w.queue| + 2)
    case Done => (Wake, 8 * |w.queue|)
    case Parsing(_, _) => (Begin, 8 * |w.queue| + 7)
    case Adjustment(i, _) =>
      if i < |w.jobs| && w.jobs[i].finished then (Settle, 8 * |w.queue| + 5) else (Observe, 8 * |w.queue| + 6)
  }

  lemma GoesAhead(w: Worker)
    requires w.place.Parsing? || w.place.Adjustment? ==> w.place.job < |w.jobs|
    requires w.place in {Waiting, Looping, Draining} ==> w.queue != [] && w.queue[0] < |w.jobs|
    requires w.place != Done
    ensures Ahead(Next(w, Ahead(w).0)).1 < Ahead(w).1
  {
  }

  lemma HasWork(w: Worker, i: nat)
    requires Inv(w) && Underway(w, i)
    ensures w.place != Done && (w.queue != [] || w.place.Parsing? || w.place.Adjustment?)
  {
    assert Is(w.jobs, i, Queued) ==> i in w.queue;
    assert Is(w.jobs, i, Claimed) ==> InHand(w.place, Claimed) == Some(i);
    assert Is(w.jobs, i, Settling) ==> InHand(w.place, Settling) == Some(i);
  }

  lemma StepAhead(w: Worker, i: nat)
    requires Inv(w) && Underway(w, i)
    ensures var w' := Next(w, Ahead(w).0);
            Inv(w') && i < |w'.jobs| && (Ended(w'.jobs[i]) || (Underway(w', i) && Ahead(w').1 < Ahead(w).1))
  {
    NextKeepsInv(w, Ahead(w).0);
    HandFate(w);
    HasWork(w, i);
    GoesAhead(w);
    WorkerMovesForward(w, Ahead(w).0, i);
  }

  /** Wherever the handlers, Shutdowns and Drains are: the worker on its own brings every job that is queued or
      in hand to its end, with its completion finished. */
  lemma {:induction false} EveryJobCanEnd(w: Worker, i: nat) returns (steps: seq<Step>)
    requires Inv(w) && Underway(w, i)
    ensures forall k :: 0 <= k < |steps| ==> steps[k] in {Wake, Loop, DrainNext, Begin, Observe, Settle}
    ensures var w' := Run(w, steps); i < |w'.jobs| && Ended(w'.jobs[i]) && w'.jobs[i].finished
    decreases Ahead(w).1
  {
    var step, w' := Ahead(w).0, Next(w, Ahead(w).0);
    StepAhead(w, i);
    var rest := [];
    if !Ended(w'.jobs[i]) { rest := EveryJobCanEnd(w', i); }
    steps := [step] + rest;
    assert steps[1..] == rest && Run(w, steps) == Run(w', rest);
  }

  // ---- Timeouts ----

  predicate ShutdownTimedOut(w: Worker, c: nat) { c < |w.calls| && w.calls[c].Shutdown? && 4 <= w.calls[c].stage }

  /** Only Begin starts an adjustment, and only for the job in hand while the phase is idle. */
  lemma StartsByBegin(w: Worker, step: Step)
    ensures Next(w, step).started != w.started ==> step == Begin && w.place.Parsing? && w.phase == Idle
  {
    if step.Advance? && step.call < |w.calls| { AdvanceDiscards(w, step.call); }
  }

  predicate IsShut(w: Worker) { Shut(w.accepting, w.queue, w.phase, w.place) }

  lemma StaysShut(w: Worker, step: Step)
    requires IsShut(w)
    ensures IsShut(Next(w, step)) && Next(w, step).started == w.started
  {
    StartsByBegin(w, step);
    if step.Advance? && step.call < |w.calls| { AdvanceStaysShut(w, step.call); }
  }

  lemma AdvanceStaysShut(w: Worker, c: nat)
    requires IsShut(w) && c < |w.calls|
    ensures IsShut(NextAdvance(w, c))
  {
  }

  lemma {:induction false} NothingStartsWhenShut(w: Worker, steps: seq<Step>)
    requires IsShut(w)
    ensures Run(w, steps).started == w.started
    decreases |steps|
  {
    if steps != [] {
      StaysShut(w, steps[0]);
      NothingStartsWhenShut(Next(w, steps[0]), steps[1..]);
    }
  }

  /** Once a Shutdown has timed out no further adjustment is begun. */
  lemma NoAdjustmentAfterShutdown(w: Worker, steps: seq<Step>, c: nat)
    requires Inv(w) && ShutdownTimedOut(w, c)
    ensures Run(w, steps).started == w.started
  {
    assert IsShut(w);
    NothingStartsWhenShut(w, steps);
  }

  /** A Shutdown that is past finishing the completion it found active has finished it. */
  predicate FinishesActive(w: Worker, c: nat, i: nat) {
    && c < |w.calls| && w.calls[c].Shutdown? && w.calls[c].active == Some(i) && i < |w.jobs|
    && (2 <= w.calls[c].stage ==> w.jobs[i].finished)
  }

  lemma AdvanceFinishes(w: Worker, d: nat, c: nat, i: nat)
    requires FinishesActive(w, c, i) && d < |w.calls| && Later(w.jobs[i], NextAdvance(w, d).jobs[i])
    requires |NextAdvance(w, d).jobs| == |w.jobs|
    ensures FinishesActive(NextAdvance(w, d), c, i)
  {
  }

  lemma StaysFinishing(w: Worker, step: Step, c: nat, i: nat)
    requires Inv(w) && FinishesActive(w, c, i)
    ensures FinishesActive(Next(w, step), c, i)
  {
    FatesMoveForward(w, step, i);
    if step.Advance? && step.call < |w.calls| {
      AdvanceDiscards(w, step.call);
      AdvanceFinishes(w, step.call, c, i);
    }
  }

  lemma {:induction false} RunStaysFinishing(w: Worker, steps: seq<Step>, c: nat, i: nat)
    requires Inv(w) && FinishesActive(w, c, i)
    ensures FinishesActive(Run(w, steps), c, i)
    decreases |steps|
  {
    if steps != [] {
      NextKeepsInv(w, steps[0]);
      StaysFinishing(w, steps[0], c, i);
      RunStaysFinishing(Next(w, steps[0]), steps[1..], c, i);
    }
  }

  /** A Shutdown called while the worker has a job in hand, before it drains, finishes that job's completion
      before it stops the worker and waits, whatever else happens. */
  lemma ShutdownFinishesJobInHand(w: Worker, steps: seq<Step>)
    requires Inv(w) && (w.place.Parsing? || w.place.Adjustment?) && !w.place.drained
    ensures var w', c := Run(Next(w, CallShutdown), steps), |w.calls|;
            && c < |w'.calls| && w'.calls[c].Shutdown? && w.place.job < |w'.jobs|
            && (2 <= w'.calls[c].stage ==> w'.jobs[w.place.job].finished)
  {
    HandFate(w);
    NextKeepsInv(w, CallShutdown);
    RunStaysFinishing(Next(w, CallShutdown), steps, |w.calls|, w.place.job);
  }

  predicate DrainTimedOut(w: Worker, c: nat) { c < |w.calls| && w.calls[c].Drain? && 5 <= w.calls[c].stage }

  /** The jobs still to be done: those queued and the one in hand. */
  function Left(queue: seq<nat>, place: Place): nat { |queue| + if place.Parsing? || place.Adjustment? then 1 else 0 }

  // A Drain that waits with at most one job left

  predicate Exhausted(w: Worker, c: nat) {
    && c < |w.calls| && w.calls[c].Drain? && 2 <= w.calls[c].stage && !w.accepting
    && (w.phase == Terminal
        || if w.calls[c].stage == 2 then Left(w.queue, w.place) <= 1 else w.queue == [] && !w.place.Parsing?)
  }

  lemma AdvanceStaysExhausted(w: Worker, d: nat, c: nat)
    requires Inv(w) && Exhausted(w, c) && d < |w.calls|
    ensures Exhausted(NextAdvance(w, d), c)
  {
  }

  lemma StaysExhausted(w: Worker, step: Step, c: nat)
    requires Inv(w) && Exhausted(w, c)
    ensures Exhausted(Next(w, step), c)
  {
    if step.Advance? && step.call < |w.calls| { AdvanceStaysExhausted(w, step.call, c); }
  }

  lemma {:induction false} RunStaysExhausted(w: Worker, steps: seq<Step>, c: nat)
    requires Inv(w) && Exhausted(w, c)
    ensures Inv(Run(w, steps)) && Exhausted(Run(w, steps), c)
    decreases |steps|
  {
    if steps != [] {
      NextKeepsInv(w, steps[0]);
      StaysExhausted(w, steps[0], c);
      RunStaysExhausted(Next(w, steps[0]), steps[1..], c);
    }
  }

  // A Drain that waits with more than one job left

  predicate Racy(w: Worker, c: nat) {
    c < |w.calls| && w.calls[c] == Drain(2) && w.phase != Terminal && 2 <= Left(w.queue, w.place)
  }

  function Towards(place: Place): (Step, nat) {
    match place
    case Waiting => (Wake, 4)
    case Looping => (Loop, 3)
    case Draining => (DrainNext, 2)
    case _ => (Begin, if place.Parsing? then 1 else 0)
  }

  lemma StepTowards(w: Worker, c: nat)
    requires Inv(w) && Racy(w, c) && !w.place.Adjustment?
    ensures var w' := Next(w, Towards(w.place).0); Inv(w') && Racy(w', c) && Towards(w'.place).1 < Towards(w.place).1
  {
    NextKeepsInv(w, Towards(w.place).0);
    HandFate(w);
    assert !w.accepting && w.draining;
  }

  /** It may still bring a job into adjustment before the timeout. */
  lemma Approach(w: Worker, c: nat) returns (steps: seq<Step>)
    requires Inv(w) && Racy(w, c)
    ensures var w' := Run(w, steps); Inv(w') && Racy(w', c) && w'.place.Adjustment?
    decreases Towards(w.place).1
  {
    if w.place.Adjustment? {
      steps := [];
    } else {
      StepTowards(w, c);
      var rest := Approach(Next(w, Towards(w.place).0), c);
      steps := [Towards(w.place).0] + rest;
      assert steps[1..] == rest;
    }
  }

  /** Drain's first swap misses, the adjustment ends, and the worker goes on draining. */
  lemma SwapMisses(w: Worker, c: nat)
    requires Inv(w) && Racy(w, c) && w.place.Adjustment? && w.place.job < |w.jobs|
    ensures var w' := Next(Next(Next(w, Advance(c)), Observe), Settle);
            (if w.place.drained then w' else Next(w', Loop))
            == w.(calls := w.calls[c := Drain(3)], jobs := w.jobs[w.place.job := Job(Processed, true)],
                  place := Draining, phase := Idle)
  {
    HandFate(w);
    var w1 := Next(w, Advance(c));
    assert w1 == w.(calls := w.calls[c := Drain(3)]) && !w.accepting && w.draining && w.phase == Adjusting;
    var i := w.place.job;
    assert w.jobs[i := w.jobs[i].(finished := true)][i := Job(Processed, true)] == w.jobs[i := Job(Processed, true)];
  }

  /** The worker claims the next job, and the second swap misses too. */
  lemma SwapMissesAgain(w: Worker, c: nat)
    requires w.place == Draining && w.phase == Idle && w.queue != [] && w.queue[0] < |w.jobs|
    requires c < |w.calls| && w.calls[c] == Drain(3)
    ensures var w' := Next(Next(w, DrainNext), Advance(c));
            c < |w'.calls| && w'.calls[c] == Drain(4) && w'.phase == Idle && w'.place == Parsing(w.queue[0], true)
  {
    var w1 := Next(w, DrainNext);
    assert w1 == Claim(w, true);
    var w2 := Next(w1, Advance(c));
    assert w2 == w1.(calls := w.calls[c := Drain(4)]);
  }

  /** Drain discards the rest. */
  lemma {:induction false} DrainGivesUp(w: Worker, c: nat) returns (steps: seq<Step>)
    requires Inv(w) && c < |w.calls| && w.calls[c] == Drain(4)
    ensures var w' := Run(w, steps); Inv(w') && DrainTimedOut(w', c) && w'.phase == w.phase && w'.place == w.place
    decreases |w.queue|
  {
    var w' := Next(w, Advance(c));
    NextKeepsInv(w, Advance(c));
    HandFate(w);
    var rest := [];
    if w.queue != [] {
      assert w' == DiscardOne(w);
      rest := DrainGivesUp(w', c);
    }
    steps := [Advance(c)] + rest;
    assert steps[1..] == rest && Run(w, steps) == Run(w', rest);
  }

  function Racing(drained: bool, c: nat): seq<Step> {
    [Advance(c), Observe, Settle] + (if drained then [] else [Loop]) + [DrainNext, Advance(c)]
  }

  /** The two swaps are two steps. Whenever Drain times out during an adjustment with a job still queued,
      the adjustment may end between them and the worker claims the next job: Drain goes on to give up
      with that job in hand and the phase idle, and it will be adjusted all the same. */
  lemma DrainRace(w: Worker, c: nat)
    requires Inv(w) && Racy(w, c) && w.place.Adjustment?
    ensures var w' := Run(w, Racing(w.place.drained, c));
            && w.queue != [] && Inv(w') && c < |w'.calls| && w'.calls[c] == Drain(4) && w'.phase == Idle
            && w'.place == Parsing(w.queue[0], true)
  {
    HandFate(w);
    SwapMisses(w, c);
    var w1 := Next(w, Advance(c));
    var w2 := Next(w1, Observe);
    var w3 := Next(w2, Settle);
    var w4 := if w.place.drained then w3 else Next(w3, Loop);
    SwapMissesAgain(w4, c);
    var w5 := Next(w4, DrainNext);
    var w6 := Next(w5, Advance(c));
    RunThrough(w, Racing(w.place.drained, c),
               if w.place.drained then [w1, w2, w3, w5, w6] else [w1, w2, w3, w4, w5, w6]);
    RunKeepsInv(w, Racing(w.place.drained, c));
  }

  /** A run goes through the states its steps lead to, one after the other. */
  lemma {:induction false} RunThrough(w: Worker, steps: seq<Step>, states: seq<Worker>)
    requires |steps| == |states| && steps != [] && states[0] == Next(w, steps[0])
    requires forall i :: 0 < i < |steps| ==> states[i] == Next(states[i - 1], steps[i])
    ensures Run(w, steps) == states[|steps| - 1]
    decreases |steps|
  {
    if |steps| == 1 {
      assert steps[1..] == [];
    } else {
      RunThrough(states[0], steps[1..], states[1..]);
    }
  }

  lemma {:induction false} RunOn(w: Worker, first: seq<Step>, rest: seq<Step>)
    ensures Run(w, first + rest) == Run(Run(w, first), rest)
    decreases |first|
  {
    if first == [] {
      assert first + rest == rest;
    } else {
      assert (first + rest)[1..] == first[1..] + rest;
      RunOn(Next(w, first[0]), first[1..], rest);
    }
  }

  /** After `first` the Drain has timed out, and after `rest` one more adjustment has begun. */
  ghost predicate Escapes(w: Worker, c: nat, first: seq<Step>, rest: seq<Step>) {
    DrainTimedOut(Run(w, first), c) && Run(Run(w, first), rest).started != Run(w, first).started
  }

  lemma RacyEscapes(w: Worker, c: nat) returns (first: seq<Step>)
    requires Inv(w) && Racy(w, c)
    ensures Escapes(w, c, first, [Begin])
  {
    var steps := Approach(w, c);
    var v := Run(w, steps);
    var race := Racing(v.place.drained, c);
    DrainRace(v, c);
    RunOn(w, steps, race);
    var rest := DrainGivesUp(Run(v, race), c);
    RunOn(w, steps + race, rest);
    first := steps + race + rest;
    var w' := Run(w, first);
    HandFate(w');
    assert [Begin][1..] == [] && Run(Next(w', Begin), [Begin][1..]) == Next(w', Begin);
    assert Run(w', [Begin]) == Next(w', Begin);
  }

  /** A Drain that waits promises less than a Shutdown: some run times it out and later begins another
      adjustment exactly when the phase is not terminal and at least two jobs are left. */
  lemma AdjustmentAfterDrainIff(w: Worker, c: nat)
    requires Inv(w) && c < |w.calls| && w.calls[c] == Drain(2)
    ensures (exists first, rest :: Escapes(w, c, first, rest)) <==> w.phase != Terminal && 2 <= Left(w.queue, w.place)
  {
    if Racy(w, c) {
      var first := RacyEscapes(w, c);
    } else {
      forall first, rest ensures !Escapes(w, c, first, rest) {
        RunStaysExhausted(w, first, c);
        if DrainTimedOut(Run(w, first), c) { NothingStartsWhenShut(Run(w, first), rest); }
      }
    }
  }

  function TwoQueued(): Worker {
    New(2).(jobs := [Job(Queued, false), Job(Queued, false)], queue := [0, 1], free := 0)
  }

  lemma TwoJobsQueue()
    ensures Run(New(2), [Offer(true), Offer(true), TakeSlot(0), TakeSlot(1), Enqueue(0), Enqueue(1)]) == TwoQueued()
  {
    var o, h, q := Job(Offered, false), Job(Holding, false), Job(Queued, false);
    var w0 := New(2);
    var w1 := w0.(jobs := [o]);
    var w2 := w0.(jobs := [o, o]);
    var w3 := w2.(jobs := [h, o], free := 1);
    var w4 := w2.(jobs := [h, h], free := 0);
    var w5 := w4.(jobs := [q, h], queue := [0]);
    RunThrough(w0, [Offer(true), Offer(true), TakeSlot(0), TakeSlot(1), Enqueue(0), Enqueue(1)],
               [w1, w2, w3, w4, w5, TwoQueued()]);
  }

  lemma DrainWaits()
    ensures Racy(Run(TwoQueued(), [CallDrain, Advance(0), Advance(0)]), 0)
  {
    var w0 := TwoQueued();
    var w1 := w0.(draining := true, calls := [Drain(0)]);
    var w2 := w1.(accepting := false, calls := [Drain(1)]);
    var w3 := w2.(stopped := true, calls := [Drain(2)]);
    RunThrough(w0, [CallDrain, Advance(0), Advance(0)], [w1, w2, w3]);
  }

  /** Such a moment is reached by a worker with two jobs. */
  lemma DrainRaceIsReachable()
    ensures exists steps :: Racy(Run(New(2), steps), 0)
  {
    var first, rest := [Offer(true), Offer(true), TakeSlot(0), TakeSlot(1), Enqueue(0), Enqueue(1)],
        [CallDrain, Advance(0), Advance(0)];
    TwoJobsQueue();
    DrainWaits();
    RunOn(New(2), first, rest);
    assert Racy(Run(New(2), first + rest), 0);
  }
}
