/** Durable budget rows and batches of deltas, over values
    (internal/storage/budget_buckets.go, internal/storage/budget_accumulator.go). */
module BudgetRows {
  import opened Wrappers
  import opened Money
  import opened BudgetBook
  import Sums

  datatype Ident = Ident(key: KeyId, scope: Scope)

  datatype Delta = Delta(ident: Ident, amount: int)

  /** Rows hold positive spend; a row that reaches zero is deleted. */
  type Rows = map<Ident, Micros>

  type Batch = map<Ident, int>

  function Row(rows: Rows, id: Ident): Micros { if id in rows then rows[id] else 0 }

  function Amount(batch: Batch, id: Ident): int { if id in batch then batch[id] else 0 }

  function AmountFor(id: Ident): Delta -> int { (d: Delta) => if d.ident == id then d.amount else 0 }

  // ---- The guarded batch update ----

  datatype StoreError = InvalidBucket | RowUnderflow | RowOverflow | UnknownKey | Failed

  /** One statement of the transaction. A negative delta needs a row with enough spend. */
  function ApplyOne(rows: Rows, keys: set<KeyId>, d: Delta): Result<Rows, StoreError> {
    if d.ident.key !in keys then Err(UnknownKey)
    else if d.amount < 0 then
      if d.ident !in rows then Err(UnknownKey)
      else if rows[d.ident] < -d.amount then Err(RowUnderflow)
      else Ok(rows[d.ident := rows[d.ident] + d.amount])
    else if Row(rows, d.ident) + d.amount > MAX_MICROS then Err(RowOverflow)
    else Ok(rows[d.ident := Row(rows, d.ident) + d.amount])
  }

  function ApplyAll(rows: Rows, keys: set<KeyId>, deltas: seq<Delta>): Result<Rows, StoreError>
  {
    if deltas == [] then Ok(rows)
    else
      var before := ApplyAll(rows, keys, deltas[..|deltas| - 1]);
      if before.Err? then before else ApplyOne(before.value, keys, deltas[|deltas| - 1])
  }

  /** Every row moved by the sum of its deltas. */
  lemma {:induction false} ApplyAllAdds(rows: Rows, keys: set<KeyId>, deltas: seq<Delta>, id: Ident)
    requires ApplyAll(rows, keys, deltas).Ok?
    ensures Row(ApplyAll(rows, keys, deltas).value, id) == Row(rows, id) + Sums.Sum(deltas, AmountFor(id))
  {
    if deltas != [] {
      ApplyAllAdds(rows, keys, deltas[..|deltas| - 1], id);
    }
  }

  predicate Distinct(deltas: seq<Delta>) {
    forall i, j :: 0 <= i < j < |deltas| ==> deltas[i].ident != deltas[j].ident
  }

  predicate Admissible(rows: Rows, keys: set<KeyId>, d: Delta) {
    d.ident.key in keys && d.amount != 0 && 0 <= Row(rows, d.ident) + d.amount <= MAX_MICROS
  }

  lemma {:induction false} OthersUntouched(rows: Rows, keys: set<KeyId>, deltas: seq<Delta>, id: Ident)
    requires ApplyAll(rows, keys, deltas).Ok? && forall i :: 0 <= i < |deltas| ==> deltas[i].ident != id
    ensures var after := ApplyAll(rows, keys, deltas).value;
            (id in after <==> id in rows) && Row(after, id) == Row(rows, id)
  {
    if deltas != [] {
      OthersUntouched(rows, keys, deltas[..|deltas| - 1], id);
    }
  }

  /** A batch with one delta per identity is accepted exactly when each delta alone is: no negative
      delta exceeds its row, no row overflows and every key is known. The order does not matter. */
  lemma {:induction false} BatchAcceptedIff(rows: Rows, keys: set<KeyId>, deltas: seq<Delta>)
    requires Distinct(deltas) && forall i :: 0 <= i < |deltas| ==> deltas[i].amount != 0
    ensures ApplyAll(rows, keys, deltas).Ok? <==>
              forall i :: 0 <= i < |deltas| ==>
                deltas[i].ident.key in keys && 0 <= Row(rows, deltas[i].ident) + deltas[i].amount <= MAX_MICROS
  {
    if deltas != [] {
      var front, last := deltas[..|deltas| - 1], deltas[|deltas| - 1];
      BatchAcceptedIff(rows, keys, front);
      if ApplyAll(rows, keys, front).Ok? {
        OthersUntouched(rows, keys, front, last.ident);
        assert Admissible(rows, keys, last) <==> ApplyOne(ApplyAll(rows, keys, front).value, keys, last).Ok?;
      }
    }
  }

  function Cleaned(rows: Rows): Rows { map id | id in rows && rows[id] != 0 :: rows[id] }

  lemma CleanedReadsSame(rows: Rows, id: Ident)
    ensures Row(Cleaned(rows), id) == Row(rows, id)
  {
  }

  // ---- Coalesced batches ----

  /** Sink and restore keep the pending amount when the sum leaves the int64 range: the delta is lost. */
  function Bounded(current: int, amount: int): int { if InInt64(current + amount) then current + amount else current }

  /** A pending entry that reaches zero is deleted. */
  function AddTo(batch: Batch, id: Ident, amount: int): Batch {
    var next := Bounded(Amount(batch, id), amount);
    if next == 0 then batch - {id} else batch[id := next]
  }

  function Merged(a: Batch, b: Batch): Batch {
    map id | id in a.Keys + b.Keys && Bounded(Amount(a, id), Amount(b, id)) != 0 ::
      Bounded(Amount(a, id), Amount(b, id))
  }

  ghost predicate Accepted(rows: Rows, keys: set<KeyId>, batch: Batch) {
    forall id :: id in batch ==> Admissible(rows, keys, Delta(id, batch[id]))
  }

  function Updated(rows: Rows, keys: set<KeyId>, batch: Batch): Rows
    requires forall id :: id in batch ==> Admissible(rows, keys, Delta(id, batch[id]))
  {
    map id | id in rows.Keys + batch.Keys && Row(rows, id) + Amount(batch, id) != 0 ::
      assert id in batch ==> Admissible(rows, keys, Delta(id, batch[id]));
      var spent: Micros := Row(rows, id) + Amount(batch, id);
      spent
  }

  /** A batch in some order, one delta per identity. */
  ghost predicate Lists(deltas: seq<Delta>, batch: Batch) {
    && Distinct(deltas)
    && (forall i :: 0 <= i < |deltas| ==> deltas[i].ident in batch && batch[deltas[i].ident] == deltas[i].amount)
    && (forall id :: id in batch ==> exists i :: 0 <= i < |deltas| && deltas[i].ident == id)
  }

  lemma {:induction false} ListedSum(deltas: seq<Delta>, batch: Batch, id: Ident)
    requires Lists(deltas, batch)
    ensures Sums.Sum(deltas, AmountFor(id)) == Amount(batch, id)
  {
    if deltas == [] {
    } else {
      var front, last := deltas[..|deltas| - 1], deltas[|deltas| - 1];
      forall other | other in batch - {last.ident} ensures exists i :: 0 <= i < |front| && front[i].ident == other {
        var i :| 0 <= i < |deltas| && deltas[i].ident == other;
        assert front[i].ident == other;
      }
      ListedSum(front, batch - {last.ident}, id);
    }
  }
}
