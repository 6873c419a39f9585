/** The durable rows and the write-behind accumulator, updated in place
    (internal/storage/budget_buckets.go, internal/storage/budget_accumulator.go). */
module BudgetStore {
  import opened Wrappers
  import opened Money
  import opened BudgetBook
  import opened BudgetRows
  import Sums

  /** Deltas ApplyDeltas refuses before it opens a transaction. */
  predicate ValidDelta(d: Delta) { d.amount == 0 || (d.ident.key != "" && d.amount != MIN_INT64) }

  /** The key is known, and the row stays in range. */
  predicate Fits(rows: Rows, keys: set<KeyId>, d: Delta) {
    d.ident.key in keys && 0 <= Row(rows, d.ident) + d.amount <= MAX_MICROS
  }

  /** Drops zero deltas and refuses the batch for a malformed one. */
  method Checked(deltas: seq<Delta>) returns (valid: seq<Delta>, error: Option<StoreError>)
    ensures error.None? <==> forall i :: 0 <= i < |deltas| ==> ValidDelta(deltas[i])
    ensures error.None? ==>
              && (forall j :: 0 <= j < |valid| ==> valid[j].amount != 0 && valid[j] in deltas)
              && (forall j :: 0 <= j < |deltas| && deltas[j].amount != 0 ==> deltas[j] in valid)
              && (forall id :: Sums.Sum(valid, AmountFor(id)) == Sums.Sum(deltas, AmountFor(id)))
              && (Distinct(deltas) ==> Distinct(valid))
  {
    valid := [];
    for i := 0 to |deltas|
      invariant forall j :: 0 <= j < i ==> ValidDelta(deltas[j])
      invariant forall j :: 0 <= j < |valid| ==> valid[j].amount != 0 && valid[j] in deltas[..i]
      invariant forall j :: 0 <= j < i && deltas[j].amount != 0 ==> deltas[j] in valid
      invariant forall id :: Sums.Sum(valid, AmountFor(id)) == Sums.Sum(deltas[..i], AmountFor(id))
      invariant Distinct(deltas) ==> Distinct(valid)
    {
      ghost var before := valid;
      assert deltas[..i + 1] == deltas[..i] + [deltas[i]];
      if deltas[i].amount != 0 {
        if deltas[i].ident.key == "" { return [], Some(InvalidBucket); }
        if deltas[i].amount == MIN_INT64 { return [], Some(RowUnderflow); }
        valid := valid + [deltas[i]];
      }
      forall id ensures Sums.Sum(valid, AmountFor(id)) == Sums.Sum(deltas[..i + 1], AmountFor(id)) {
        Sums.Append(deltas[..i], deltas[i], AmountFor(id));
        Sums.Append(before, deltas[i], AmountFor(id));
      }
    }
    assert deltas[..|deltas|] == deltas;
    error := None;
  }

  class BudgetBucketRepository {
    var rows: Rows
    const keys: set<KeyId>

    constructor (keys: set<KeyId>)
      ensures this.keys == keys && rows == map[]
    {
      this.keys := keys;
      rows := map[];
    }

    /** `failing` stands for any error of the database outside the guarded statements: it can happen
        at any point of the transaction and rolls it back. */
    method ApplyDeltas(deltas: seq<Delta>, failing: bool) returns (error: Option<StoreError>)
      modifies this`rows
      ensures error.Some? ==> rows == old(rows)
      ensures error.None? ==> forall id :: Row(rows, id) == Row(old(rows), id) + Sums.Sum(deltas, AmountFor(id))
      ensures !failing && Distinct(deltas) ==>
                (error.None? <==> forall i :: 0 <= i < |deltas| && deltas[i].amount != 0 ==>
                                                ValidDelta(deltas[i]) && Fits(old(rows), keys, deltas[i]))
    {
      var valid;
      valid, error := Checked(deltas);
      if error.Some? { return; }
      if Distinct(deltas) { BatchAcceptedIff(rows, keys, valid); }
      if valid == [] { return None; }
      var working := rows;
      for i := 0 to |valid|
        invariant ApplyAll(rows, keys, valid[..i]) == Ok(working)
      {
        assert valid[..i + 1][..i] == valid[..i];
        var step := ApplyOne(working, keys, valid[i]);
        if step.Err? {
          ApplyAllStops(rows, keys, valid, i + 1);
          return Some(step.error);
        }
        working := step.value;
      }
      assert valid[..|valid|] == valid;
      if failing { return Some(Failed); }
      forall id ensures Row(Cleaned(working), id) == Row(rows, id) + Sums.Sum(deltas, AmountFor(id)) {
        ApplyAllAdds(rows, keys, valid, id);
        CleanedReadsSame(working, id);
      }
      rows := Cleaned(working);
      return None;
    }
  }

  lemma {:induction false} ApplyAllStops(rows: Rows, keys: set<KeyId>, deltas: seq<Delta>, n: nat)
    requires n <= |deltas| && ApplyAll(rows, keys, deltas[..n]).Err?
    ensures ApplyAll(rows, keys, deltas).Err?
    decreases |deltas|
  {
    if n < |deltas| {
      assert deltas[..|deltas| - 1][..n] == deltas[..n];
      ApplyAllStops(rows, keys, deltas[..|deltas| - 1], n);
    } else {
      assert deltas[..n] == deltas;
    }
  }

  datatype AccumulatorError = PendingOverflow | StoreFailed(error: StoreError)

  lemma ListedBatchEmpty(deltas: seq<Delta>, batch: Batch)
    requires Lists(deltas, batch)
    ensures deltas == [] <==> batch == map[]
  {
    if deltas != [] { assert deltas[0].ident in batch; }
  }

  /** Every delta of the batch has a key and is not the smallest int64, and its row takes it. */
  ghost predicate AllAdmissible(rows: Rows, keys: set<KeyId>, batch: Batch) {
    forall id :: id in batch ==>
      && id.key != "" && batch[id] != MIN_INT64
      && id.key in keys && 0 <= Row(rows, id) + batch[id] <= MAX_MICROS
  }

  lemma ListedAdmissible(deltas: seq<Delta>, rows: Rows, keys: set<KeyId>, batch: Batch)
    requires Lists(deltas, batch) && forall id :: id in batch ==> batch[id] != 0
    ensures (forall i :: 0 <= i < |deltas| && deltas[i].amount != 0 ==>
                           ValidDelta(deltas[i]) && Fits(rows, keys, deltas[i]))
            <==> AllAdmissible(rows, keys, batch)
  {
    forall i | 0 <= i < |deltas| ensures deltas[i] == Delta(deltas[i].ident, batch[deltas[i].ident]) { }
  }

  class BudgetAccumulator {
    const repository: BudgetBucketRepository
    var pending: Batch
    var accepting: bool
    var lastErr: Option<AccumulatorError>

    /** No pending delta is zero or outside the int64 range. */
    ghost predicate Valid()
      reads this
    {
      forall id :: id in pending ==> pending[id] != 0 && InInt64(pending[id])
    }

    constructor (repository: BudgetBucketRepository)
      ensures Valid() && pending == map[] && accepting && this.repository == repository && lastErr == None
    {
      this.repository := repository;
      pending, accepting, lastErr := map[], true, None;
    }

    /** Called by the limiter with each published delta. Never waits for the database. */
    method Sink(d: Delta)
      requires Valid() && InInt64(d.amount)
      modifies this`pending, this`lastErr
      ensures Valid()
      ensures pending == if accepting && d.amount != 0 then AddTo(old(pending), d.ident, d.amount) else old(pending)
      ensures lastErr == if accepting && d.amount != 0 && !InInt64(Amount(old(pending), d.ident) + d.amount)
                         then Some(PendingOverflow) else old(lastErr)
    {
      if d.amount == 0 || !accepting { return; }
      var next := Amount(pending, d.ident) + d.amount;
      if !InInt64(next) {
        lastErr := Some(PendingOverflow);
        return;
      }
      pending := if next == 0 then pending - {d.ident} else pending[d.ident := next];
    }

    /** Empties the pending map into a batch, in any order. */
    method TakeAll() returns (batch: seq<Delta>)
      requires Valid()
      modifies this`pending
      ensures Valid() && pending == map[] && Lists(batch, old(pending))
    {
      batch := [];
      while pending != map[]
        invariant Valid() && Distinct(batch)
        invariant forall i :: 0 <= i < |batch| ==>
                                batch[i].ident in old(pending) && batch[i].ident !in pending
                                && old(pending)[batch[i].ident] == batch[i].amount
        invariant forall id :: id in old(pending) ==>
                    id in pending || exists i :: 0 <= i < |batch| && batch[i].ident == id
        invariant forall id :: id in pending ==> id in old(pending) && pending[id] == old(pending)[id]
        decreases |pending|
      {
        var id :| id in pending;
        var before, size := batch, |pending|;
        batch := batch + [Delta(id, pending[id])];
        assert batch[|before|].ident == id && forall i :: 0 <= i < |before| ==> batch[i] == before[i];
        assert pending.Keys == (pending - {id}).Keys + {id};
        pending := pending - {id};
        assert |pending| < size;
      }
    }

    /** Puts a batch that could not be written back under whatever arrived since. */
    method Restore(batch: seq<Delta>, ghost taken: Batch)
      requires Valid() && Lists(batch, taken) && (forall id :: id in taken ==> taken[id] != 0 && InInt64(taken[id]))
      modifies this`pending, this`lastErr
      ensures Valid() && pending == Merged(old(pending), taken)
      ensures lastErr == old(lastErr) || lastErr == Some(PendingOverflow)
    {
      for i := 0 to |batch|
        invariant Valid()
        invariant lastErr == old(lastErr) || lastErr == Some(PendingOverflow)
        invariant forall j :: i <= j < |batch| ==>
                    Amount(pending, batch[j].ident) == Amount(old(pending), batch[j].ident)
        invariant forall j :: 0 <= j < i ==>
                                Amount(pending, batch[j].ident)
                                  == Bounded(Amount(old(pending), batch[j].ident), batch[j].amount)
        invariant forall id :: id !in taken ==> Amount(pending, id) == Amount(old(pending), id)
      {
        var next := Amount(pending, batch[i].ident) + batch[i].amount;
        if !InInt64(next) {
          lastErr := Some(PendingOverflow);
        } else {
          pending := if next == 0 then pending - {batch[i].ident} else pending[batch[i].ident := next];
        }
      }
      forall id ensures Amount(pending, id) == Bounded(Amount(old(pending), id), Amount(taken, id)) {
        if id in taken {
          var i :| 0 <= i < |batch| && batch[i].ident == id;
        }
      }
      assert pending == Merged(old(pending), taken);
    }

    /** Takes what is pending and writes it, or puts it back: either every pending delta reached its row, or
        nothing changed. */
    method WriteAll(failing: bool) returns (error: Option<StoreError>, empty: bool)
      requires Valid()
      modifies this`pending, this`lastErr, repository`rows
      ensures Valid() && (empty <==> old(pending) == map[])
      ensures empty ==> repository.rows == old(repository.rows) && lastErr == old(lastErr) && error.None?
      ensures error.None? ==>
                && pending == map[] && lastErr == old(lastErr)
                && forall id :: Row(repository.rows, id) == Row(old(repository.rows), id) + Amount(old(pending), id)
      ensures error.Some? ==> pending == old(pending) && repository.rows == old(repository.rows)
      ensures !failing ==> (error.None? <==> old(AllAdmissible(repository.rows, repository.keys, pending)))
    {
      var batch := TakeAll();
      ListedBatchEmpty(batch, old(pending));
      if batch == [] { return None, true; }
      empty := false;
      error := repository.ApplyDeltas(batch, failing);
      ListedAdmissible(batch, old(repository.rows), repository.keys, old(pending));
      if error.Some? {
        Restore(batch, old(pending));
        assert pending == old(pending);
        return;
      }
      forall id { ListedSum(batch, old(pending), id); }
    }

    /** One write attempt of the worker. */
    method Flush(failing: bool)
      requires Valid()
      modifies this`pending, this`lastErr, repository`rows
      ensures Valid()
      ensures old(pending) == map[] ==>
                repository.rows == old(repository.rows) && lastErr == old(lastErr) && pending == map[]
      ensures old(pending) != map[] && lastErr == None ==>
                pending == map[]
                && forall id :: Row(repository.rows, id) == Row(old(repository.rows), id) + Amount(old(pending), id)
      ensures old(pending) != map[] && lastErr.Some? ==>
                pending == old(pending) && repository.rows == old(repository.rows)
      ensures old(pending) != map[] && !failing ==>
                (lastErr == None <==> old(AllAdmissible(repository.rows, repository.keys, pending)))
    {
      var error, empty := WriteAll(failing);
      if !empty { lastErr := if error.Some? then Some(StoreFailed(error.value)) else None; }
    }

    /** Closes the sink and writes what is left. A nil error means that nothing is left to write. */
    method Shutdown(failing: bool) returns (error: Option<StoreError>)
      requires Valid()
      modifies this`pending, this`lastErr, this`accepting, repository`rows
      ensures Valid() && !accepting
      ensures error.None? ==>
                pending == map[]
                && forall id :: Row(repository.rows, id) == Row(old(repository.rows), id) + Amount(old(pending), id)
      ensures error.Some? ==> pending == old(pending) && repository.rows == old(repository.rows)
      ensures !failing ==> (error.None? <==> old(AllAdmissible(repository.rows, repository.keys, pending)))
      ensures old(pending) == map[] ==> error.None?
    {
      accepting := false;
      while true
        invariant Valid() && !accepting
        invariant forall id :: Row(repository.rows, id) + Amount(pending, id)
                               == Row(old(repository.rows), id) + Amount(old(pending), id)
        invariant || (pending == old(pending) && repository.rows == old(repository.rows))
                  || (pending == map[]
                      && (!failing ==> old(AllAdmissible(repository.rows, repository.keys, pending))))
        decreases |pending|
      {
        var empty;
        error, empty := WriteAll(failing);
        if empty || error.Some? { return; }
      }
    }
  }
}
