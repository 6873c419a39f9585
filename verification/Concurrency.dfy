/** Concurrency slots (internal/limiter/concurrency.go). Returning a slot takes two atomic steps:
    the lease's own flag is set under its lock, the count is lowered later under the limiter's. */
module Concurrency {
  import opened Wrappers
  import Sums

  type KeyId = string

  /** `identity` stands for the address of the state object: a new one for every state created. */
  datatype SlotState = SlotState(identity: nat, active: int)

  type Slots = map<KeyId, SlotState>

  /** An unlimited lease is not counted. `returned`: the count was lowered for it. */
  datatype LeaseRecord = LeaseRecord(key: KeyId, counted: bool, identity: nat, released: bool, claimed: bool,
                                     returned: bool)

  datatype World = World(slots: Slots, made: nat, leases: seq<LeaseRecord>)

  function ActiveIn(m: Slots, key: KeyId): int { if key in m then m[key].active else 0 }

  // ---- Steps ----

  datatype Step =
    | Acquire(key: KeyId, max: int)
    | Release(id: nat)
    | Adopt(id: nat, key: KeyId, requireSlot: bool)
    | ReleaseOwned(id: nat)
    | ReturnSlot(id: nat)

  function Grown(m: Slots, made: nat, key: KeyId): Slots {
    m[key := if key in m then m[key].(active := m[key].active + 1) else SlotState(made, 1)]
  }

  function NextAcquire(w: World, key: KeyId, max: int): World {
    if max < 0 then w
    else if max == 0 then w.(leases := w.leases + [LeaseRecord(key, false, 0, false, false, false)])
    else if max <= ActiveIn(w.slots, key) then
      w.(slots := if ActiveIn(w.slots, key) == 0 then w.slots - {key} else w.slots)
    else
      var slots := Grown(w.slots, w.made, key);
      World(slots, if key in w.slots then w.made else w.made + 1,
            w.leases + [LeaseRecord(key, true, slots[key].identity, false, false, false)])
  }

  /** adoptFor: only the limiter's own live slot of that key can be promoted into a configured limit. */
  predicate Adoptable(m: Slots, l: LeaseRecord, key: KeyId, requireSlot: bool) {
    && !l.released && !l.claimed
    && if l.counted then l.key == key && key in m && m[key].identity == l.identity && 0 < m[key].active
       else !requireSlot && (l.key == "" || l.key == key)
  }

  /** releaseSlot: a stale lease never touches a newer state of its key. */
  function Lowered(m: Slots, l: LeaseRecord): Slots {
    if !l.counted || l.key !in m || m[l.key].identity != l.identity then m
    else
      var active := if 0 < m[l.key].active then m[l.key].active - 1 else m[l.key].active;
      if active == 0 then m - {l.key} else m[l.key := m[l.key].(active := active)]
  }

  function Next(w: World, step: Step): World {
    match step
    case Acquire(key, max) => NextAcquire(w, key, max)
    case Release(id) =>
      if id < |w.leases| && !w.leases[id].released && !w.leases[id].claimed
      then w.(leases := w.leases[id := w.leases[id].(released := true)]) else w
    case Adopt(id, key, requireSlot) =>
      if id < |w.leases| && Adoptable(w.slots, w.leases[id], key, requireSlot)
      then w.(leases := w.leases[id := w.leases[id].(claimed := true)]) else w
    case ReleaseOwned(id) =>
      if id < |w.leases| && !w.leases[id].released
      then w.(leases := w.leases[id := w.leases[id].(released := true)]) else w
    case ReturnSlot(id) =>
      if id < |w.leases| && w.leases[id].released && !w.leases[id].returned
      then w.(slots := Lowered(w.slots, w.leases[id]), leases := w.leases[id := w.leases[id].(returned := true)]) else w
  }

  ghost function Run(w: World, steps: seq<Step>): World
    decreases |steps|
  {
    if steps == [] then w else Run(Next(w, steps[0]), steps[1..])
  }

  // ---- The counts ----

  predicate Holds(l: LeaseRecord) { l.counted && !l.returned }

  function HoldingOf(key: KeyId): LeaseRecord -> int { (l: LeaseRecord) => if Holds(l) && l.key == key then 1 else 0 }

  /** How many counted leases of a key still have their slot. */
  ghost function Holders(w: World, key: KeyId): int { Sums.Sum(w.leases, HoldingOf(key)) }

  ghost predicate Inv(w: World) {
    && (forall key :: ActiveIn(w.slots, key) == Holders(w, key))
    && (forall key :: key in w.slots ==> 0 < w.slots[key].active && w.slots[key].identity < w.made)
    && (forall i :: 0 <= i < |w.leases| && Holds(w.leases[i]) ==>
                      w.leases[i].key in w.slots && w.slots[w.leases[i].key].identity == w.leases[i].identity)
    && (forall i :: 0 <= i < |w.leases| && w.leases[i].returned ==> w.leases[i].released)
  }

  lemma AcquireKeepsInv(w: World, key: KeyId, max: int)
    requires Inv(w)
    ensures Inv(NextAcquire(w, key, max))
  {
    var w' := NextAcquire(w, key, max);
    if |w'.leases| == |w.leases| + 1 {
      forall k ensures ActiveIn(w'.slots, k) == Holders(w', k) {
        assert ActiveIn(w.slots, k) == Holders(w, k);
        Sums.Append(w.leases, w'.leases[|w.leases|], HoldingOf(k));
      }
      assert forall i :: 0 <= i < |w.leases| ==> w'.leases[i] == w.leases[i];
    } else {
      assert w' == w;
    }
  }

  lemma FlagKeepsInv(w: World, id: nat, l: LeaseRecord)
    requires Inv(w) && id < |w.leases| && l == w.leases[id].(released := l.released, claimed := l.claimed)
    requires w.leases[id].released ==> l.released
    ensures Inv(w.(leases := w.leases[id := l]))
  {
    forall k ensures Holders(w.(leases := w.leases[id := l]), k) == Holders(w, k) {
      Sums.Update(w.leases, id, l, HoldingOf(k));
    }
  }

  lemma LastHolder(w: World, id: nat, j: nat)
    requires Inv(w) && id < |w.leases| && j < |w.leases| && id != j && Holds(w.leases[id]) && Holds(w.leases[j])
    requires w.leases[id].key == w.leases[j].key
    ensures 2 <= w.slots[w.leases[id].key].active
  {
    var key := w.leases[id].key;
    var without := w.leases[id := w.leases[id].(returned := true)];
    Sums.Update(w.leases, id, without[id], HoldingOf(key));
    Sums.Bounds(without, HoldingOf(key));
    assert HoldingOf(key)(without[j]) == 1;
    assert ActiveIn(w.slots, key) == Holders(w, key);
  }

  lemma ReturnKeepsInv(w: World, id: nat)
    requires Inv(w) && id < |w.leases| && w.leases[id].released && !w.leases[id].returned
    ensures Inv(Next(w, ReturnSlot(id)))
  {
    var l, w' := w.leases[id], Next(w, ReturnSlot(id));
    forall k ensures ActiveIn(w'.slots, k) == Holders(w', k) {
      Sums.Update(w.leases, id, w'.leases[id], HoldingOf(k));
      assert ActiveIn(w.slots, k) == Holders(w, k);
    }
    forall j | 0 <= j < |w'.leases| && Holds(w'.leases[j])
      ensures w'.leases[j].key in w'.slots && w'.slots[w'.leases[j].key].identity == w'.leases[j].identity
    {
      if l.counted && w.leases[j].key == l.key { LastHolder(w, id, j); }
    }
  }

  lemma NextKeepsInv(w: World, step: Step)
    requires Inv(w)
    ensures Inv(Next(w, step))
  {
    match step
    case Acquire(key, max) => AcquireKeepsInv(w, key, max);
    case Release(id) => if id < |w.leases| { FlagKeepsInv(w, id, w.leases[id].(released := true)); }
    case Adopt(id, _, _) => if id < |w.leases| { FlagKeepsInv(w, id, w.leases[id].(claimed := true)); }
    case ReleaseOwned(id) => if id < |w.leases| { FlagKeepsInv(w, id, w.leases[id].(released := true)); }
    case ReturnSlot(id) =>
      if id < |w.leases| && w.leases[id].released && !w.leases[id].returned { ReturnKeepsInv(w, id); }
  }

  /** In every interleaving, from an empty limiter on, the count of a key is the number of its counted
      leases whose slot was not returned yet, and every such lease still owns the current state. */
  lemma CountsMatchLeases(steps: seq<Step>)
    ensures Inv(Run(World(map[], 0, []), steps))
  {
    RunKeepsInv(World(map[], 0, []), steps);
  }

  lemma {:induction false} RunKeepsInv(w: World, steps: seq<Step>)
    requires Inv(w)
    ensures Inv(Run(w, steps))
    decreases |steps|
  {
    if steps != [] {
      NextKeepsInv(w, steps[0]);
      RunKeepsInv(Next(w, steps[0]), steps[1..]);
    }
  }

  /** While every acquisition of a key names the same maximum, the key never has more slots out. */
  lemma {:induction false} NeverAboveMaximum(w: World, steps: seq<Step>, key: KeyId, max: int)
    requires Inv(w) && 0 < max && Holders(w, key) <= max
    requires forall i :: 0 <= i < |steps| && steps[i].Acquire? && steps[i].key == key ==> steps[i].max in {0, max}
    ensures Holders(Run(w, steps), key) <= max
    decreases |steps|
  {
    if steps != [] {
      var w' := Next(w, steps[0]);
      NextKeepsInv(w, steps[0]);
      assert ActiveIn(w.slots, key) == Holders(w, key) && ActiveIn(w'.slots, key) == Holders(w', key);
      assert ActiveIn(w'.slots, key) <= max;
      NeverAboveMaximum(w', steps[1..], key, max);
    }
  }

  /** A lease is given if and only if no maximum is set, or fewer leases of the key than the maximum still have
      their slot; it raises the count of its key, and of no other, by one when it is counted. */
  lemma AcquiredIff(w: World, key: KeyId, max: int, k: KeyId)
    requires Inv(w)
    ensures var w' := Next(w, Acquire(key, max));
            var given := max == 0 || (0 < max && Holders(w, key) < max);
            && |w'.leases| == |w.leases| + (if given then 1 else 0) && w'.leases[..|w.leases|] == w.leases
            && (given ==> var l := w'.leases[|w.leases|];
                          l.key == key && (l.counted <==> max != 0) && !l.released && !l.claimed && !l.returned)
            && Holders(w', k) == Holders(w, k) + if given && max != 0 && k == key then 1 else 0
  {
    var w' := NextAcquire(w, key, max);
    assert ActiveIn(w.slots, key) == Holders(w, key);
    if |w'.leases| == |w.leases| + 1 { Sums.Append(w.leases, w'.leases[|w.leases|], HoldingOf(k)); }
  }

  /** A slot that is held and was not given to a request before can be promoted for its own key; without a
      maximum, one that is not counted, for its own key or for any if it has none. */
  lemma PromotedIff(w: World, id: nat, key: KeyId, requireSlot: bool)
    requires Inv(w) && id < |w.leases|
    ensures var l, l' := w.leases[id], Next(w, Adopt(id, key, requireSlot)).leases[id];
            var promoted := && !l.released && !l.claimed
                            && if l.counted then l.key == key else !requireSlot && l.key in {"", key};
            l' == if promoted then l.(claimed := true) else l
  {
    var l := w.leases[id];
    if l.counted && !l.released { assert Holds(l) && 0 < w.slots[l.key].active; }
  }

  /** A slot that was released is counted down once: the count of its key, and of no other, falls by one. */
  lemma ReturnedOnce(w: World, id: nat, k: KeyId)
    requires Inv(w) && id < |w.leases|
    ensures var l, w' := w.leases[id], Next(w, ReturnSlot(id));
            && (w'.leases[id].returned <==> l.released)
            && Holders(w', k) == Holders(w, k) - if l.counted && l.released && !l.returned && l.key == k then 1 else 0
  {
    Sums.Update(w.leases, id, Next(w, ReturnSlot(id)).leases[id], HoldingOf(k));
  }

  /** A slot comes back at most once: a returned lease never changes again, and neither does a lowered count. */
  lemma ReturnedIsFinal(w: World, step: Step, id: nat)
    requires id < |w.leases| && w.leases[id].returned && w.leases[id].released
    ensures id < |Next(w, step).leases| && Next(w, step).leases[id].returned
    ensures step in {Release(id), ReleaseOwned(id), ReturnSlot(id)} ==> Next(w, step) == w
    ensures step.Adopt? && step.id == id ==> Next(w, step) == w
  {
  }

  // ---- The limiter and its leases as objects ----

  /** Giving a slot back right after taking it restores the counts. */
  lemma ReturnUndoesAcquire(m: Slots, made: nat, key: KeyId, l: LeaseRecord)
    requires key in m ==> 0 < m[key].active
    requires l.counted && l.key == key && l.identity == Grown(m, made, key)[key].identity
    ensures Lowered(Grown(m, made, key), l) == m
  {
  }

  class ConcurrencyLimiter {
    var states: Slots
    var made: nat

    ghost predicate Valid()
      reads this
    {
      forall key :: key in states ==> 0 < states[key].active && states[key].identity < made
    }

    constructor ()
      ensures Valid() && states == map[]
    {
      states, made := map[], 0;
    }

    method Acquire(key: KeyId, max: int) returns (lease: Lease?)
      requires Valid()
      modifies this
      ensures Valid() && (lease == null <==> max < 0 || (0 < max && max <= ActiveIn(old(states), key)))
      ensures lease == null || max == 0 ==> states == old(states) && made == old(made)
      ensures lease != null ==> fresh(lease) && lease.key == key && !lease.released && !lease.claimed
      ensures lease != null && max == 0 ==> lease.limiter == null
      ensures lease != null && max != 0 ==>
                && lease.limiter == this && states == Grown(old(states), old(made), key)
                && lease.identity == states[key].identity
    {
      if max < 0 { return null; }
      if max == 0 {
        lease := new Lease(null, key, 0);
        return;
      }
      if max <= ActiveIn(states, key) { return null; }
      if key in states {
        states := states[key := states[key].(active := states[key].active + 1)];
      } else {
        states, made := states[key := SlotState(made, 1)], made + 1;
      }
      lease := new Lease(this, key, states[key].identity);
    }
  }

  class Lease {
    const limiter: ConcurrencyLimiter?
    const key: KeyId
    const identity: nat
    var released: bool
    var claimed: bool

    constructor (limiter: ConcurrencyLimiter?, key: KeyId, identity: nat)
      ensures this.limiter == limiter && this.key == key && this.identity == identity && !released && !claimed
    {
      this.limiter, this.key, this.identity, released, claimed := limiter, key, identity, false, false;
    }

    /** The lease in the vocabulary of the runs; its slot comes back with the release flag. */
    ghost function Record(): LeaseRecord
      reads this
    {
      LeaseRecord(key, limiter != null, identity, released, claimed, released)
    }

    method Release()
      requires limiter != null ==> limiter.Valid()
      modifies this`released, limiter
      ensures limiter != null ==> limiter.Valid() && limiter.made == old(limiter.made)
      ensures released == (old(released) || !claimed)
      ensures limiter != null ==>
                limiter.states == if old(released) || claimed then old(limiter.states)
                  else Lowered(old(limiter.states), old(Record()))
    {
      if released || claimed { return; }
      released := true;
      ReleaseSlot();
    }

    /** Transfers the slot to a composite lease; from then on Release is a no-op. */
    method AdoptFor(expected: ConcurrencyLimiter?, key: KeyId, requireSlot: bool) returns (adopted: bool)
      modifies this`claimed
      ensures adopted ==> claimed && !old(claimed) && !released
      ensures !adopted ==> claimed == old(claimed)
      ensures limiter != null && expected == limiter ==>
                adopted == Adoptable(limiter.states, old(Record()), key, requireSlot)
      ensures limiter != null && expected != limiter ==> !adopted
      ensures limiter == null ==> adopted == Adoptable(map[], old(Record()), key, requireSlot)
    {
      if released || claimed { return false; }
      if limiter == null {
        if requireSlot || (this.key != "" && this.key != key) { return false; }
      } else {
        if expected != limiter || this.key != key { return false; }
        if key !in limiter.states || limiter.states[key].identity != identity || limiter.states[key].active <= 0 {
          return false;
        }
      }
      claimed := true;
      return true;
    }

    method ReleaseOwned()
      requires limiter != null ==> limiter.Valid()
      modifies this`released, limiter
      ensures limiter != null ==> limiter.Valid() && limiter.made == old(limiter.made)
      ensures released
      ensures limiter != null ==>
                limiter.states == if old(released) then old(limiter.states)
                  else Lowered(old(limiter.states), old(Record()))
    {
      if released { return; }
      released := true;
      ReleaseSlot();
    }

    method ReleaseSlot()
      requires limiter != null ==> limiter.Valid()
      modifies limiter
      ensures limiter != null ==> limiter.Valid() && limiter.made == old(limiter.made)
      ensures limiter != null ==> limiter.states == Lowered(old(limiter.states), Record())
    {
      if limiter == null || key !in limiter.states || limiter.states[key].identity != identity { return; }
      var active := limiter.states[key].active - 1;
      if active == 0 {
        limiter.states := limiter.states - {key};
      } else {
        limiter.states := limiter.states[key := limiter.states[key].(active := active)];
      }
    }
  }
}
