/** Analytics coordinators that share one concurrency gate (internal/analytics/coordinator.go): a
    bounded cache in order of last use, and one flight per key. */
module Coordinator {
  import opened Wrappers
  import Sums

  // ---- The cache of one coordinator ----

  datatype Entry<T> = Entry(value: T, createdAt: int)

  /** `order` lists the cached keys, least recently used first. `uses` and `lastUse` record when each
      key was last used; the source does not keep them. */
  datatype Cache<T> = Cache(bound: nat, ttl: int, entries: map<string, Entry<T>>, order: seq<string>,
                            lastUse: map<string, nat>, uses: nat)

  function Without(order: seq<string>, key: string): seq<string> {
    if order == [] then [] else if order[0] == key then order[1..] else [order[0]] + Without(order[1..], key)
  }

  function Used<T>(c: Cache<T>, key: string): Cache<T> {
    c.(order := Without(c.order, key) + [key], lastUse := c.lastUse[key := c.uses], uses := c.uses + 1)
  }

  function Dropped<T>(c: Cache<T>, key: string): Cache<T> {
    c.(entries := c.entries - {key}, order := Without(c.order, key))
  }

  function Evicted<T>(c: Cache<T>): Cache<T>
    requires 0 < c.bound
    decreases |c.order|
  {
    if |c.order| < c.bound then c else Evicted(c.(entries := c.entries - {c.order[0]}, order := c.order[1..]))
  }

  /** setCache. */
  function Stored<T>(c: Cache<T>, key: string, value: T, now: int): Cache<T>
    requires 0 < c.bound
  {
    var room := Evicted(Dropped(c, key));
    Used(room.(entries := room.entries[key := Entry(value, now)]), key)
  }

  /** Strictly by last use; in particular no key is listed twice. */
  ghost predicate ByUse(order: seq<string>, lastUse: map<string, nat>, uses: nat) {
    && (forall i :: 0 <= i < |order| ==> order[i] in lastUse && lastUse[order[i]] < uses)
    && (forall i, j :: 0 <= i < j < |order| ==> lastUse[order[i]] < lastUse[order[j]])
  }

  ghost predicate Lists<T>(order: seq<string>, entries: map<string, Entry<T>>) {
    forall k :: k in order <==> k in entries
  }

  /** The order lists exactly the cached keys, once each, within the bound, oldest use first. */
  ghost predicate ValidCache<T>(c: Cache<T>) {
    0 < c.bound && |c.order| <= c.bound && Lists(c.order, c.entries) && ByUse(c.order, c.lastUse, c.uses)
  }

  lemma NoKeyTwice<T>(c: Cache<T>, i: nat, j: nat)
    requires ValidCache(c) && i < j < |c.order|
    ensures c.order[i] != c.order[j]
  {
  }

  lemma TailParts(order: seq<string>, r: nat)
    requires r < |order|
    ensures order[..r + 1] == [order[0]] + order[1..][..r]
    ensures r + 1 < |order| ==> [order[0]] + (order[1..][..r] + order[1..][r + 1..]) == order[..r + 1] + order[r + 2..]
  {
  }

  lemma {:induction false} WithoutIs(order: seq<string>, key: string) returns (i: nat)
    ensures i <= |order| && (i == |order| <==> key !in order) && key !in order[..i] && (i < |order| ==> order[i] == key)
    ensures Without(order, key) == if i == |order| then order else order[..i] + order[i + 1..]
    decreases |order|
  {
    if order == [] {
      i := 0;
    } else if order[0] == key {
      i := 0;
      assert order[..0] + order[1..] == order[1..];
    } else {
      var rest := WithoutIs(order[1..], key);
      i := rest + 1;
      TailParts(order, rest);
      assert order == [order[0]] + order[1..];
    }
  }

  lemma CutKeeps(order: seq<string>, i: nat, lastUse: map<string, nat>, uses: nat)
    requires ByUse(order, lastUse, uses) && i < |order|
    ensures ByUse(order[..i] + order[i + 1..], lastUse, uses)
    ensures order[i] !in order[..i] + order[i + 1..]
  {
    var r := order[..i] + order[i + 1..];
    forall m | 0 <= m < |r| ensures r[m] == order[if m < i then m else m + 1] {}
  }

  lemma CutMembers(order: seq<string>, i: nat, k: string)
    requires i < |order| && order[i] !in order[..i] + order[i + 1..]
    ensures k in order[..i] + order[i + 1..] <==> k in order && k != order[i]
  {
    assert order == order[..i] + [order[i]] + order[i + 1..];
  }

  lemma WithoutKeeps(order: seq<string>, key: string, lastUse: map<string, nat>, uses: nat)
    requires ByUse(order, lastUse, uses)
    ensures var r := Without(order, key);
            && ByUse(r, lastUse, uses) && |r| == |order| - (if key in order then 1 else 0)
            && forall k :: k in r <==> k in order && k != key
  {
    var i := WithoutIs(order, key);
    if i < |order| {
      CutKeeps(order, i, lastUse, uses);
      forall k ensures k in Without(order, key) <==> k in order && k != key { CutMembers(order, i, k); }
    }
  }

  lemma UsedKeeps<T>(c: Cache<T>, key: string)
    requires ByUse(c.order, c.lastUse, c.uses) && key in c.entries && 0 < c.bound
    requires (forall k :: k in c.entries <==> k in c.order || k == key) && |Without(c.order, key)| < c.bound
    ensures ValidCache(Used(c, key))
  {
    WithoutKeeps(c.order, key, c.lastUse, c.uses);
    var r := Without(c.order, key);
    assert forall i :: 0 <= i < |r| ==> r[i] in r;
  }

  lemma DroppedKeeps<T>(c: Cache<T>, key: string)
    requires ValidCache(c)
    ensures ValidCache(Dropped(c, key))
  {
    WithoutKeeps(c.order, key, c.lastUse, c.uses);
  }

  /** Room is made by forgetting the least recently used key, and only when the cache is full. */
  lemma EvictsLeastRecentlyUsed<T>(c: Cache<T>, kept: string)
    requires 0 < c.bound && |c.order| <= c.bound && ByUse(c.order, c.lastUse, c.uses)
    ensures Evicted(c) == if |c.order| < c.bound then c
            else c.(entries := c.entries - {c.order[0]}, order := c.order[1..])
    ensures |c.order| == c.bound && kept in Evicted(c).order ==>
              kept in c.lastUse && c.lastUse[c.order[0]] < c.lastUse[kept]
  {
    if |c.order| == c.bound && kept in c.order[1..] {
      var i :| 0 <= i < |c.order[1..]| && c.order[1..][i] == kept;
      assert c.order[i + 1] == kept;
    }
  }

  lemma RoomKeeps<T>(c: Cache<T>, key: string)
    requires ValidCache(c) && key !in c.order
    ensures var room := Evicted(c);
            |room.order| < c.bound && ValidCache(room) && key !in room.entries && room.bound == c.bound
    ensures forall k :: k in Evicted(c).entries ==> k in c.entries && Evicted(c).entries[k] == c.entries[k]
  {
    EvictsLeastRecentlyUsed(c, key);
    if |c.order| == c.bound {
      var oldest, rest := c.order[0], c.order[1..];
      assert c.order == [oldest] + rest && oldest !in rest;
    }
  }

  /** `k` was used less recently than every other cached key. */
  ghost predicate Oldest<T>(c: Cache<T>, k: string) {
    k in c.lastUse && forall j :: j in c.entries && j != k ==> j in c.lastUse && c.lastUse[k] < c.lastUse[j]
  }

  /** `k` was used more recently than every other cached key, whose uses are as before. */
  ghost predicate Newest<T>(c: Cache<T>, c': Cache<T>, k: string) {
    k in c'.lastUse && forall j :: j in c'.entries && j != k ==>
      j in c.lastUse && j in c'.lastUse && c'.lastUse[j] == c.lastUse[j] < c'.lastUse[k]
  }

  /** Storing `key` forgets `k`: there is no room, and `k` is the least recently used. */
  ghost predicate Evicts<T>(c: Cache<T>, key: string, k: string) {
    key !in c.entries && |c.order| == c.bound && k in c.entries && Oldest(c, k)
  }

  lemma FrontIsOldest<T>(c: Cache<T>, k: string)
    requires ValidCache(c) && c.order != [] && k in c.entries
    ensures Oldest(c, k) <==> k == c.order[0]
  {
    assert c.order[0] in c.entries;
    forall j | j in c.entries && j != c.order[0] ensures j in c.lastUse && c.lastUse[c.order[0]] < c.lastUse[j] {
      var i :| 0 <= i < |c.order| && c.order[i] == j;
    }
  }

  lemma UsedIsNewest<T>(c: Cache<T>, key: string)
    requires ByUse(c.order, c.lastUse, c.uses) && forall k :: k in c.entries ==> k in c.order || k == key
    ensures Newest(c, Used(c, key), key)
  {
    forall j | j in c.entries && j != key ensures j in c.lastUse && c.lastUse[j] < c.uses {
      var i :| 0 <= i < |c.order| && c.order[i] == j;
    }
  }

  /** After storing, the key is cached with the new value and is the most recently used. Every other key stays
      cached as it was, except, when a new key finds the cache full, the least recently used one. */
  lemma StoredKeeps<T>(c: Cache<T>, key: string, value: T, now: int)
    requires ValidCache(c)
    ensures ValidCache(Stored(c, key, value, now)) && Newest(c, Stored(c, key, value, now), key)
    ensures var entries := Stored(c, key, value, now).entries;
            && key in entries && entries[key] == Entry(value, now)
            && (forall k :: k in entries && k != key ==> k in c.entries && entries[k] == c.entries[k])
            && (forall k :: k in c.entries && k != key ==> (k !in entries <==> Evicts(c, key, k)))
  {
    var front := Dropped(c, key);
    WithoutKeeps(c.order, key, c.lastUse, c.uses);
    DroppedKeeps(c, key);
    RoomKeeps(front, key);
    var room := Evicted(front);
    var full := room.(entries := room.entries[key := Entry(value, now)]);
    WithoutKeeps(full.order, key, full.lastUse, full.uses);
    UsedKeeps(full, key);
    UsedIsNewest(full, key);
    forall k | k in c.entries && k != key ensures k !in room.entries <==> Evicts(c, key, k) { RoomKept(c, key, k); }
  }

  lemma RoomKept<T>(c: Cache<T>, key: string, k: string)
    requires ValidCache(c) && k in c.entries && k != key
    ensures k !in Evicted(Dropped(c, key)).entries <==> Evicts(c, key, k)
  {
    var front := Dropped(c, key);
    WithoutKeeps(c.order, key, c.lastUse, c.uses);
    DroppedKeeps(c, key);
    EvictsLeastRecentlyUsed(front, k);
    var i := WithoutIs(c.order, key);
    if |front.order| == c.bound { FrontIsOldest(c, k); }
  }

  // ---- Flights of several coordinators behind one gate ----

  /** A landing flight has given its slot back and its leader still holds the coordinator's lock. */
  datatype Flight<T> =
    | Running(part: nat, key: string)
    | Landing(part: nat, key: string)
    | Ended(part: nat, key: string, value: T, failed: bool, canceled: bool, at: int)

  /** `landing` is the flight whose leader holds the lock between two operations, if any. */
  datatype Part<T> = Part(cache: Cache<T>, inFlight: map<string, nat>, landing: Option<nat>)

  datatype World<T> = World(capacity: nat, active: int, parts: seq<Part<T>>, flights: seq<Flight<T>>)

  datatype Outcome<T> = Hit(value: T) | Join(flight: nat) | Refused | Lead(flight: nat)

  predicate Live<T>(c: Cache<T>, key: string, now: int) { key in c.entries && now - c.entries[key].createdAt <= c.ttl }

  function SetPart<T>(w: World<T>, i: nat, p: Part<T>): World<T>
    requires i < |w.parts|
  {
    w.(parts := w.parts[i := p])
  }

  /** Do's first region: a live entry, else the flight of the key, else a new flight if the gate has room. */
  function Enter<T>(w: World<T>, i: nat, key: string, now: int): (World<T>, Outcome<T>)
    requires i < |w.parts|
  {
    var p := w.parts[i];
    if Live(p.cache, key, now) then (SetPart(w, i, p.(cache := Used(p.cache, key))), Hit(p.cache.entries[key].value))
    else
      var p' := if key in p.cache.entries then p.(cache := Dropped(p.cache, key)) else p;
      if key in p.inFlight then (SetPart(w, i, p'), Join(p.inFlight[key]))
      else if w.capacity <= w.active then (SetPart(w, i, p'), Refused)
      else (Leading(SetPart(w, i, p'), i, key), Lead(|w.flights|))
  }

  function Leading<T>(w: World<T>, i: nat, key: string): World<T>
    requires i < |w.parts|
  {
    SetPart(w, i, w.parts[i].(inFlight := w.parts[i].inFlight[key := |w.flights|]))
    .(active := w.active + 1, flights := w.flights + [Running(i, key)])
  }

  predicate Open<T>(w: World<T>, i: nat) { i < |w.parts| && w.parts[i].landing == None }

  predicate Flying<T>(w: World<T>, f: nat) { f < |w.flights| && w.flights[f].Running? && Open(w, w.flights[f].part) }

  /** The leader's second region begins: the lock is taken and the slot goes back to the gate, which other
      coordinators may use before the region ends. */
  function Land<T>(w: World<T>, f: nat): World<T>
    requires Flying(w, f)
  {
    var i, key := w.flights[f].part, w.flights[f].key;
    SetPart(w, i, w.parts[i].(landing := Some(f)))
    .(active := if 0 < w.active then w.active - 1 else w.active, flights := w.flights[f := Landing(i, key)])
  }

  predicate Landed<T>(w: World<T>, f: nat) {
    && f < |w.flights| && w.flights[f].Landing? && w.flights[f].part < |w.parts|
    && w.parts[w.flights[f].part].landing == Some(f) && 0 < w.parts[w.flights[f].part].cache.bound
  }

  /** And ends: the key is free again whatever the query did; only a value obtained with the context
      still alive is cached. */
  function Leave<T>(w: World<T>, f: nat, value: T, failed: bool, alive: bool, canceled: bool, now: int): World<T>
    requires Landed(w, f)
  {
    var i, key := w.flights[f].part, w.flights[f].key;
    var p := w.parts[i];
    var cache := if !failed && alive then Stored(p.cache, key, value, now) else p.cache;
    SetPart(w, i, Part(cache, p.inFlight - {key}, None))
    .(flights := w.flights[f := Ended(i, key, value, failed, canceled, now)])
  }

  function RunningWeight<T>(): Flight<T> -> int { (f: Flight<T>) => if f.Running? then 1 else 0 }

  ghost predicate FlightKnown<T>(w: World<T>, f: nat) {
    f < |w.flights| && !w.flights[f].Ended? ==>
      && w.flights[f].part < |w.parts| && w.flights[f].key in w.parts[w.flights[f].part].inFlight
      && w.parts[w.flights[f].part].inFlight[w.flights[f].key] == f
      && (w.flights[f].Landing? <==> w.parts[w.flights[f].part].landing == Some(f))
  }

  ghost predicate KeyFlown<T>(w: World<T>, i: nat, key: string) {
    i < |w.parts| && key in w.parts[i].inFlight ==>
      var f := w.parts[i].inFlight[key]; f < |w.flights| && w.flights[f] in {Running(i, key), Landing(i, key)}
  }

  /** A leader obtained `value` for this key, without an error, at `at`. */
  ghost predicate Led<T>(flights: seq<Flight<T>>, i: nat, key: string, value: T, at: int) {
    exists f :: 0 <= f < |flights| && flights[f].Ended? && flights[f].part == i && flights[f].key == key
                && flights[f].value == value && !flights[f].failed && flights[f].at == at
  }

  ghost predicate Sourced<T>(w: World<T>, i: nat, key: string) {
    i < |w.parts| && key in w.parts[i].cache.entries ==>
      Led(w.flights, i, key, w.parts[i].cache.entries[key].value, w.parts[i].cache.entries[key].createdAt)
  }

  ghost predicate Inv<T>(w: World<T>) {
    && w.active == Sums.Sum(w.flights, RunningWeight()) <= w.capacity
    && (forall i :: 0 <= i < |w.parts| ==> ValidCache(w.parts[i].cache))
    && (forall f :: FlightKnown(w, f))
    && (forall i, key :: KeyFlown(w, i, key)) && (forall i, key :: Sourced(w, i, key))
  }

  lemma CacheChange<T>(w: World<T>, i: nat, cache: Cache<T>)
    requires Inv(w) && i < |w.parts| && ValidCache(cache)
    requires forall k :: k in cache.entries ==>
               k in w.parts[i].cache.entries && cache.entries[k] == w.parts[i].cache.entries[k]
    ensures Inv(SetPart(w, i, w.parts[i].(cache := cache)))
  {
    var w' := SetPart(w, i, w.parts[i].(cache := cache));
    forall f: nat ensures FlightKnown(w', f) { assert FlightKnown(w, f); }
    forall j: nat, key
      ensures KeyFlown(w', j, key) && Sourced(w', j, key)
    {
      assert KeyFlown(w, j, key) && Sourced(w, j, key);
    }
  }

  lemma LeadKeepsInv<T>(w: World<T>, i: nat, key: string)
    requires Inv(w) && Open(w, i) && key !in w.parts[i].inFlight && w.active < w.capacity
    ensures Inv(Leading(w, i, key))
  {
    var w' := Leading(w, i, key);
    Sums.Append(w.flights, Running(i, key), RunningWeight());
    forall f: nat ensures FlightKnown(w', f) { assert FlightKnown(w, f); }
    forall j: nat, k ensures KeyFlown(w', j, k) && Sourced(w', j, k) {
      assert KeyFlown(w, j, k) && Sourced(w, j, k);
      if j < |w.parts| && k in w.parts[j].cache.entries { LedStays(w, w', j, k, w.parts[j].cache.entries[k]); }
    }
  }

  /** What a leader obtained stays on record. */
  lemma LedStays<T>(w: World<T>, w': World<T>, i: nat, key: string, e: Entry<T>)
    requires Led(w.flights, i, key, e.value, e.createdAt) && |w.flights| <= |w'.flights|
    requires forall f :: 0 <= f < |w.flights| && w.flights[f].Ended? ==> w'.flights[f] == w.flights[f]
    ensures Led(w'.flights, i, key, e.value, e.createdAt)
  {
    var f :| 0 <= f < |w.flights| && w.flights[f].Ended? && w.flights[f].part == i && w.flights[f].key == key
             && w.flights[f].value == e.value && !w.flights[f].failed && w.flights[f].at == e.createdAt;
    assert w'.flights[f] == w.flights[f];
  }

  lemma EnterKeepsInv<T>(w: World<T>, i: nat, key: string, now: int)
    requires Inv(w) && Open(w, i)
    ensures Inv(Enter(w, i, key, now).0)
  {
    var p := w.parts[i];
    if Live(p.cache, key, now) {
      WithoutKeeps(p.cache.order, key, p.cache.lastUse, p.cache.uses);
      UsedKeeps(p.cache, key);
      CacheChange(w, i, Used(p.cache, key));
    } else {
      var cache := if key in p.cache.entries then Dropped(p.cache, key) else p.cache;
      DroppedKeeps(p.cache, key);
      CacheChange(w, i, cache);
      var w' := SetPart(w, i, p.(cache := cache));
      if key !in p.inFlight && w.active < w.capacity { LeadKeepsInv(w', i, key); }
    }
  }

  lemma LandKeepsInv<T>(w: World<T>, f: nat)
    requires Inv(w) && Flying(w, f)
    ensures Inv(Land(w, f))
  {
    assert FlightKnown(w, f);
    var i, key, w' := w.flights[f].part, w.flights[f].key, Land(w, f);
    Sums.Update(w.flights, f, w'.flights[f], RunningWeight());
    Sums.Bounds(w.flights, RunningWeight());
    assert RunningWeight()(w.flights[f]) == 1;
    forall g: nat ensures FlightKnown(w', g) { assert FlightKnown(w, g); }
    forall j: nat, k ensures KeyFlown(w', j, k) { assert KeyFlown(w, j, k); }
    forall j: nat, k ensures Sourced(w', j, k) {
      assert Sourced(w, j, k);
      if j < |w.parts| && k in w.parts[j].cache.entries { LedStays(w, w', j, k, w.parts[j].cache.entries[k]); }
    }
  }

  lemma LeaveKeepsInv<T>(w: World<T>, f: nat, value: T, failed: bool, alive: bool, canceled: bool, now: int)
    requires Inv(w) && Landed(w, f)
    ensures Inv(Leave(w, f, value, failed, alive, canceled, now))
  {
    assert FlightKnown(w, f);
    var i, key := w.flights[f].part, w.flights[f].key;
    var w' := Leave(w, f, value, failed, alive, canceled, now);
    Sums.Update(w.flights, f, w'.flights[f], RunningWeight());
    StoredKeeps(w.parts[i].cache, key, value, now);
    forall g: nat ensures FlightKnown(w', g) { assert FlightKnown(w, g); }
    forall j: nat, k ensures KeyFlown(w', j, k) { assert KeyFlown(w, j, k); }
    forall j: nat, k ensures Sourced(w', j, k) { LeaveSourced(w, f, value, failed, alive, canceled, now, j, k); }
  }

  lemma LeaveSourced<T>(w: World<T>, f: nat, value: T, failed: bool, alive: bool, canceled: bool, now: int, j: nat,
                        k: string)
    requires Inv(w) && Landed(w, f)
    ensures Sourced(Leave(w, f, value, failed, alive, canceled, now), j, k)
  {
    var i, key := w.flights[f].part, w.flights[f].key;
    var w' := Leave(w, f, value, failed, alive, canceled, now);
    StoredKeeps(w.parts[i].cache, key, value, now);
    assert Sourced(w, j, k);
    if j < |w.parts| && k in w'.parts[j].cache.entries {
      if j == i && k == key && !failed && alive {
        assert w'.flights[f].at == now;
      } else {
        LedStays(w, w', j, k, w.parts[j].cache.entries[k]);
      }
    }
  }

  datatype Step<T> =
    | Ask(part: nat, key: string, now: int)
    | Free(flight: nat)
    | Answer(flight: nat, value: T, failed: bool, alive: bool, canceled: bool, now: int)

  ghost function Next<T>(w: World<T>, step: Step<T>): World<T> {
    match step
    case Ask(i, key, now) => if Open(w, i) then Enter(w, i, key, now).0 else w
    case Free(f) => if Flying(w, f) then Land(w, f) else w
    case Answer(f, value, failed, alive, canceled, now) =>
      if Landed(w, f) then Leave(w, f, value, failed, alive, canceled, now) else w
  }

  ghost function Run<T>(w: World<T>, steps: seq<Step<T>>): World<T>
    decreases |steps|
  {
    if steps == [] then w else Run(Next(w, steps[0]), steps[1..])
  }

  function NewPart<T>(bound: int, ttl: int): Part<T> {
    Part(Cache(if bound <= 0 then 32 else bound, if ttl <= 0 then 15_000_000_000 else ttl, map[], [], map[], 0),
         map[], None)
  }

  function Start<T>(capacity: int, options: seq<(int, int)>): World<T> {
    World(if capacity <= 0 then 2 else capacity, 0,
          seq(|options|, i requires 0 <= i < |options| => NewPart(options[i].0, options[i].1)), [])
  }

  /** In every interleaving of callers and leaders of all coordinators, from their construction on: the
      caches list their keys in order of use and within the bound, each key has at most one running
      flight, and the gate counts the running flights within its capacity. */
  lemma CoordinatorInvariant<T>(capacity: int, options: seq<(int, int)>, steps: seq<Step<T>>)
    ensures Inv(Run(Start(capacity, options), steps))
  {
    var w := Start<T>(capacity, options);
    assert forall i :: 0 <= i < |w.parts| ==> ValidCache(w.parts[i].cache);
    assert Inv(w);
    RunKeepsInv(w, steps);
  }

  lemma NextKeepsInv<T>(w: World<T>, step: Step<T>)
    requires Inv(w)
    ensures Inv(Next(w, step))
  {
    match step
    case Ask(i, key, now) => if Open(w, i) { EnterKeepsInv(w, i, key, now); }
    case Free(f) => if Flying(w, f) { LandKeepsInv(w, f); }
    case Answer(f, value, failed, alive, canceled, now) =>
      if Landed(w, f) { LeaveKeepsInv(w, f, value, failed, alive, canceled, now); }
  }

  lemma {:induction false} RunKeepsInv<T>(w: World<T>, steps: seq<Step<T>>)
    requires Inv(w)
    ensures Inv(Run(w, steps))
    decreases |steps|
  {
    if steps != [] {
      NextKeepsInv(w, steps[0]);
      RunKeepsInv(Next(w, steps[0]), steps[1..]);
    }
  }

  /** One leader per key. */
  lemma OneLeaderPerKey<T>(w: World<T>, f: nat, g: nat)
    requires Inv(w) && f < |w.flights| && g < |w.flights| && !w.flights[f].Ended? && !w.flights[g].Ended?
    requires w.flights[f].part == w.flights[g].part && w.flights[f].key == w.flights[g].key
    ensures f == g
  {
    assert FlightKnown(w, f) && FlightKnown(w, g);
  }

  /** A caller gets the cached value if and only if one is cached that is no older than the time to live;
      otherwise it joins the key's flight if there is one; otherwise it is refused if and only if all the
      slots are taken, and leads a new flight if not. The cached value is one that a leader obtained for
      the key, and the flight is running, for the key. */
  lemma EnterAnswers<T>(w: World<T>, i: nat, key: string, now: int)
    requires Inv(w) && Open(w, i)
    ensures var p, answer := w.parts[i], Enter(w, i, key, now).1;
            var cached := key in p.cache.entries && now - p.cache.entries[key].createdAt <= p.cache.ttl;
            && (answer.Hit? <==> cached) && (cached ==> answer.value == p.cache.entries[key].value)
            && (answer.Join? <==> !cached && key in p.inFlight) && (answer.Join? ==> answer.flight == p.inFlight[key])
            && (answer.Refused? <==> !cached && key !in p.inFlight && w.active == w.capacity)
            && (answer.Lead? <==> !cached && key !in p.inFlight && w.active < w.capacity)
            && (answer.Lead? ==> answer.flight == |w.flights|)
    ensures match Enter(w, i, key, now).1
            case Hit(value) => exists at :: now - w.parts[i].cache.ttl <= at && Led(w.flights, i, key, value, at)
            case Join(f) => f < |w.flights| && w.flights[f] == Running(i, key)
            case _ => true
  {
    assert Sourced(w, i, key) && KeyFlown(w, i, key);
    if key in w.parts[i].inFlight { assert FlightKnown(w, w.parts[i].inFlight[key]); }
    if Live(w.parts[i].cache, key, now) {
      var e := w.parts[i].cache.entries[key];
      assert now - w.parts[i].cache.ttl <= e.createdAt && Led(w.flights, i, key, e.value, e.createdAt);
    }
  }

  /** A leader that ends leaves its answer to those that joined and frees its key, and no other; its value is
      cached if and only if the query succeeded and the leader was not canceled meanwhile. */
  lemma AnswerStoresIff<T>(w: World<T>, f: nat, value: T, failed: bool, alive: bool, canceled: bool, now: int)
    requires Inv(w) && Landed(w, f)
    ensures var i, key, w' := w.flights[f].part, w.flights[f].key, Leave(w, f, value, failed, alive, canceled, now);
            && w'.active == w.active && w'.flights == w.flights[f := Ended(i, key, value, failed, canceled, now)]
            && (forall k :: k in w'.parts[i].inFlight <==> k in w.parts[i].inFlight && k != key)
            && (if failed || !alive then w'.parts[i].cache == w.parts[i].cache
                else key in w'.parts[i].cache.entries && w'.parts[i].cache.entries[key] == Entry(value, now))
  {
    StoredKeeps(w.parts[w.flights[f].part].cache, w.flights[f].key, value, now);
  }

  /** Asking drops the key's entry if it is too old and changes no other; a hit makes it the most recently used. */
  lemma EnterCaches<T>(w: World<T>, i: nat, key: string, now: int)
    requires Inv(w) && Open(w, i)
    ensures var c, c' := w.parts[i].cache, Enter(w, i, key, now).0.parts[i].cache;
            var expired := key in c.entries && c.ttl < now - c.entries[key].createdAt;
            && c'.entries == (if expired then c.entries - {key} else c.entries)
            && (key in c'.entries ==> Newest(c, c', key))
            && (key !in c'.entries ==> c'.lastUse == c.lastUse)
  {
    if Live(w.parts[i].cache, key, now) { UsedIsNewest(w.parts[i].cache, key); }
  }

  // ---- A stored value answers until it is stored anew, evicted or too old ----

  ghost predicate Cached<T>(w: World<T>, i: nat, key: string, e: Entry<T>) {
    i < |w.parts| && key in w.parts[i].cache.entries && w.parts[i].cache.entries[key] == e
  }

  /** The step asks for the key when its entry is too old, stores the key anew, or evicts it. */
  ghost predicate Disturbs<T>(w: World<T>, step: Step<T>, i: nat, key: string)
    requires i < |w.parts| && key in w.parts[i].cache.entries
  {
    var c := w.parts[i].cache;
    match step
    case Ask(j, k, now) => j == i && k == key && c.ttl < now - c.entries[key].createdAt
    case Free(_) => false
    case Answer(f, _, failed, alive, _, _) =>
      && f < |w.flights| && w.flights[f].part == i && !failed && alive
      && (w.flights[f].key == key || Evicts(c, w.flights[f].key, key))
  }

  ghost predicate Undisturbed<T>(w: World<T>, steps: seq<Step<T>>, i: nat, key: string)
    decreases |steps|
  {
    steps == []
    || (i < |w.parts| && key in w.parts[i].cache.entries && !Disturbs(w, steps[0], i, key)
        && Undisturbed(Next(w, steps[0]), steps[1..], i, key))
  }

  lemma StaysCached<T>(w: World<T>, step: Step<T>, i: nat, key: string, e: Entry<T>)
    requires Inv(w) && Cached(w, i, key, e) && !Disturbs(w, step, i, key)
    ensures Cached(Next(w, step), i, key, e) && Next(w, step).parts[i].cache.ttl == w.parts[i].cache.ttl
  {
    match step
    case Ask(j, k, now) => if Open(w, j) { EnterCaches(w, j, k, now); }
    case Free(_) =>
    case Answer(f, value, failed, alive, _, now) =>
      if Landed(w, f) {
        var j, k := w.flights[f].part, w.flights[f].key;
        StoredKeeps(w.parts[j].cache, k, value, now);
        StoredTtl(w.parts[j].cache, k, value, now);
      }
  }

  lemma {:induction false} EvictedTtl<T>(c: Cache<T>)
    requires 0 < c.bound
    ensures Evicted(c).ttl == c.ttl
    decreases |c.order|
  {
    if c.bound <= |c.order| { EvictedTtl(c.(entries := c.entries - {c.order[0]}, order := c.order[1..])); }
  }

  lemma StoredTtl<T>(c: Cache<T>, key: string, value: T, now: int)
    requires 0 < c.bound
    ensures Stored(c, key, value, now).ttl == c.ttl
  {
    EvictedTtl(Dropped(c, key));
  }

  lemma {:induction false} RunStaysCached<T>(w: World<T>, steps: seq<Step<T>>, i: nat, key: string, e: Entry<T>)
    requires Inv(w) && Cached(w, i, key, e) && Undisturbed(w, steps, i, key)
    ensures Cached(Run(w, steps), i, key, e) && Run(w, steps).parts[i].cache.ttl == w.parts[i].cache.ttl
    decreases |steps|
  {
    if steps != [] {
      StaysCached(w, steps[0], i, key, e);
      NextKeepsInv(w, steps[0]);
      RunStaysCached(Next(w, steps[0]), steps[1..], i, key, e);
    }
  }

  /** What a leader stored is what every later caller of the key gets within the time to live, whatever all
      callers and leaders do meanwhile, until the key is stored anew, evicted, or asked for too late. */
  lemma StoredIsAHit<T>(w: World<T>, f: nat, value: T, canceled: bool, at: int, steps: seq<Step<T>>, now: int)
    requires Inv(w) && Landed(w, f)
    requires var stored := Next(w, Answer(f, value, false, true, canceled, at));
             && Undisturbed(stored, steps, w.flights[f].part, w.flights[f].key)
             && Open(Run(stored, steps), w.flights[f].part)
    requires now - at <= w.parts[w.flights[f].part].cache.ttl
    ensures var stored := Next(w, Answer(f, value, false, true, canceled, at));
            Enter(Run(stored, steps), w.flights[f].part, w.flights[f].key, now).1 == Hit(value)
  {
    var i, key, stored := w.flights[f].part, w.flights[f].key, Next(w, Answer(f, value, false, true, canceled, at));
    StoredKeeps(w.parts[i].cache, key, value, at);
    StoredTtl(w.parts[i].cache, key, value, at);
    NextKeepsInv(w, Answer(f, value, false, true, canceled, at));
    RunStaysCached(stored, steps, i, key, Entry(value, at));
    RunKeepsInv(stored, steps);
    EnterAnswers(Run(stored, steps), i, key, now);
  }

  // ---- The helpers as loops ----

  /** removeKeyFromOrder. */
  method RemoveKey(order: seq<string>, key: string) returns (r: seq<string>)
    ensures r == Without(order, key)
  {
    ghost var at := WithoutIs(order, key);
    for i := 0 to |order|
      invariant i <= at
    {
      assert i < at ==> order[..at][i] == order[i];
      if order[i] == key { return order[..i] + order[i + 1..]; }
    }
    return order;
  }

  class Gate {
    const capacity: nat
    var active: int

    constructor (capacity: int)
      ensures this.capacity == (if capacity <= 0 then 2 else capacity) && active == 0
    {
      this.capacity, active := if capacity <= 0 then 2 else capacity, 0;
    }

    method TryAcquire() returns (acquired: bool)
      modifies this
      ensures acquired <==> old(active) < capacity
      ensures active == if acquired then old(active) + 1 else old(active)
    {
      if capacity <= active { return false; }
      active := active + 1;
      return true;
    }

    method Release()
      modifies this
      ensures active == if 0 < old(active) then old(active) - 1 else old(active)
    {
      if 0 < active { active := active - 1; }
    }
  }

  class Coordinator<T> {
    const gate: Gate
    const bound: nat
    const ttl: int
    var entries: map<string, Entry<T>>
    var order: seq<string>
    var inFlight: map<string, nat>
    ghost var lastUse: map<string, nat>
    ghost var uses: nat
    ghost var landing: Option<nat>

    ghost function State(): Cache<T>
      reads this
    {
      Cache(bound, ttl, entries, order, lastUse, uses)
    }

    constructor (gate: Gate, bound: int, ttl: int)
      ensures ValidCache(State()) && Part(State(), inFlight, landing) == NewPart(bound, ttl) && this.gate == gate
    {
      this.bound := if bound <= 0 then 32 else bound;
      this.ttl := if ttl <= 0 then 15_000_000_000 else ttl;
      this.gate := gate;
      entries, order, inFlight, lastUse, uses, landing := map[], [], map[], map[], 0, None;
    }

    /** The coordinator is part `i` of a world whose gate is its own. */
    ghost predicate Stands(w: World<T>, i: nat)
      reads this, gate
    {
      && i < |w.parts| && w.parts[i] == Part(State(), inFlight, landing)
      && gate.capacity == w.capacity && gate.active == w.active
    }

    method Touch(key: string)
      modifies this`order, this`lastUse, this`uses
      ensures State() == Used(old(State()), key)
    {
      order := RemoveKey(order, key);
      order := order + [key];
      lastUse, uses := lastUse[key := uses], uses + 1;
    }

    method SetCache(key: string, value: T, now: int)
      requires ValidCache(State())
      modifies this`entries, this`order, this`lastUse, this`uses
      ensures State() == Stored(old(State()), key, value, now)
    {
      ghost var dropped := Dropped(State(), key);
      order := RemoveKey(order, key);
      while bound <= |order|
        invariant 0 < bound
        invariant Evicted(dropped) == Evicted(State().(entries := entries - {key}))
        invariant lastUse == old(lastUse) && uses == old(uses)
        decreases |order|
      {
        var oldest := order[0];
        assert (entries - {key}) - {oldest} == (entries - {oldest}) - {key};
        order := order[1..];
        entries := entries - {oldest};
      }
      assert (entries - {key})[key := Entry(value, now)] == entries[key := Entry(value, now)];
      entries := entries[key := Entry(value, now)];
      Touch(key);
    }

    /** The first region of Do. `id` names the flight it may start. */
    method Begin(key: string, now: int, id: nat, ghost w: World<T>, ghost i: nat) returns (outcome: Outcome<T>)
      requires Stands(w, i) && id == |w.flights|
      modifies this, gate
      ensures Enter(w, i, key, now).1 == outcome && Stands(Enter(w, i, key, now).0, i)
    {
      if key in entries {
        if now - entries[key].createdAt <= ttl {
          Touch(key);
          return Hit(entries[key].value);
        }
        entries := entries - {key};
        order := RemoveKey(order, key);
      }
      if key in inFlight { return Join(inFlight[key]); }
      var acquired := gate.TryAcquire();
      if !acquired { return Refused; }
      inFlight := inFlight[key := id];
      return Lead(id);
    }

    /** The leader's second region of Do: first the slot goes back to the gate. */
    method FreeSlot(ghost w: World<T>, ghost f: nat)
      requires Flying(w, f) && Stands(w, w.flights[f].part)
      modifies this`landing, gate
      ensures Stands(Land(w, f), w.flights[f].part)
    {
      gate.Release();
      landing := Some(f);
    }

    /** Then, with the lock still held, the key is freed and the value cached. */
    method End(key: string, value: T, failed: bool, alive: bool, ghost canceled: bool, now: int, ghost w: World<T>,
               ghost f: nat)
      requires Landed(w, f) && w.flights[f].key == key && Stands(w, w.flights[f].part) && ValidCache(State())
      modifies this
      ensures Stands(Leave(w, f, value, failed, alive, canceled, now), w.flights[f].part)
    {
      inFlight, landing := inFlight - {key}, None;
      if !failed && alive { SetCache(key, value, now); }
    }
  }
}
