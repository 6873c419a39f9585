/** The request limiter: counts per key and window, in epoch-aligned slots
    (internal/limiter/request.go). */
module RequestLimiter {
  import opened Wrappers
  import opened WindowClock
  import opened Windows
  import Sums

  type KeyId = string

  datatype CounterKey = CounterKey(key: KeyId, window: Window)

  datatype Counter = Counter(start: int, count: int)

  type Counts = map<CounterKey, Counter>

  datatype Requests = Requests(counts: Counts, lastNow: Option<Int64>)

  /** FixedWindowStart, with the 64-bit wrap of the nanoseconds it subtracts from. */
  function SlotStart(now: Int64, duration: Int64): Int64
    requires 0 < duration
  {
    Wrap64(now - now % duration)
  }

  function Clock(r: Requests, reading: Int64): Int64 {
    if r.lastNow.Some? && reading < r.lastNow.value then r.lastNow.value else reading
  }

  function Discard(m: Counts, now: int): Counts { map k | k in m && now < m[k].start + k.window.duration :: m[k] }

  function CountAt(m: Counts, k: CounterKey, start: int): int {
    if k in m && m[k].start == start then m[k].count else 0
  }

  predicate Full(m: Counts, key: KeyId, w: Window, now: Int64)
    requires 0 < w.duration
  {
    w.amount <= CountAt(m, CounterKey(key, w), SlotStart(now, w.duration))
  }

  predicate Positive(windows: set<Window>) { forall w :: w in windows ==> 0 < w.amount && 0 < w.duration }

  function FullResets(m: Counts, key: KeyId, windows: set<Window>, now: Int64): set<int>
    requires Positive(windows)
  {
    set w | w in windows && Full(m, key, w, now) :: SlotStart(now, w.duration) + w.duration
  }

  function Counted(m: Counts, k: CounterKey, now: Int64): Counter
    requires 0 < k.window.duration
  {
    var start := SlotStart(now, k.window.duration);
    Counter(start, CountAt(m, k, start) + 1)
  }

  function KeysOf(key: KeyId, windows: set<Window>): set<CounterKey> { set w | w in windows :: CounterKey(key, w) }

  function Take(m: Counts, key: KeyId, windows: set<Window>, now: Int64): Counts
    requires Positive(windows)
  {
    map k | k in m.Keys + KeysOf(key, windows) :: if k in KeysOf(key, windows) then Counted(m, k, now) else m[k]
  }

  datatype Outcome = Allowed | Denied(resetAt: Option<int>)

  function Tick(r: Requests, reading: Int64): Requests {
    Requests(Discard(r.counts, Clock(r, reading)), Some(Clock(r, reading)))
  }

  /** One request is taken from every window, or from none. */
  ghost function Decide(r: Requests, key: KeyId, windows: seq<Window>, reading: Int64): (Requests, Outcome) {
    var now, ticked := Clock(r, reading), Tick(r, reading);
    if !ValidWindows(windows) then (ticked, Denied(None))
    else if windows == [] then (ticked, Allowed)
    else
      var resets := FullResets(ticked.counts, key, SetOf(windows), now);
      if resets != {} then (ticked, Denied(Latest(resets)))
      else (ticked.(counts := Take(ticked.counts, key, SetOf(windows), now)), Allowed)
  }

  lemma PositiveWindows(windows: seq<Window>)
    requires ValidWindows(windows)
    ensures Positive(SetOf(windows))
  {
  }

  lemma NoneFullIff(m: Counts, key: KeyId, windows: set<Window>, now: Int64)
    requires Positive(windows)
    ensures FullResets(m, key, windows, now) == {} <==> forall w :: w in windows ==> !Full(m, key, w, now)
  {
    forall w | w in windows
      ensures Full(m, key, w, now) ==> SlotStart(now, w.duration) + w.duration in FullResets(m, key, windows, now)
    {}
  }

  /** Admitted exactly when no window is full; otherwise the answer is the latest reset of the full ones. */
  lemma DecideIff(r: Requests, key: KeyId, windows: seq<Window>, reading: Int64)
    requires ValidWindows(windows) && windows != []
    ensures Positive(SetOf(windows))
    ensures var now, m, outcome := Clock(r, reading), Tick(r, reading).counts, Decide(r, key, windows, reading).1;
            && (outcome.Allowed? <==> forall w :: w in SetOf(windows) ==> !Full(m, key, w, now))
            && (outcome.Denied? && outcome.resetAt.Some? ==>
                IsLatest(FullResets(m, key, SetOf(windows), now), outcome.resetAt))
  {
    PositiveWindows(windows);
    NoneFullIff(Tick(r, reading).counts, key, SetOf(windows), Clock(r, reading));
  }

  // ---- Runs ----

  /** An admitted request, at its clamped time. */
  datatype Event = Event(key: KeyId, windows: set<Window>, at: int)

  datatype World = World(requests: Requests, history: seq<Event>)

  datatype Call = Call(key: KeyId, windows: seq<Window>, reading: Int64)

  ghost function Next(w: World, c: Call): World {
    var (requests, outcome) := Decide(w.requests, c.key, c.windows, c.reading);
    World(requests,
          if outcome.Allowed? then w.history + [Event(c.key, SetOf(c.windows), Clock(w.requests, c.reading))]
          else w.history)
  }

  ghost function Run(w: World, calls: seq<Call>): World
    decreases |calls|
  {
    if calls == [] then w else Run(Next(w, calls[0]), calls[1..])
  }

  function InSlot(key: KeyId, win: Window, slot: int): Event -> int {
    (e: Event) => if e.key == key && win in e.windows && slot <= e.at < slot + win.duration then 1 else 0
  }

  ghost function Admitted(w: World, key: KeyId, win: Window, slot: int): int {
    Sums.Sum(w.history, InSlot(key, win, slot))
  }

  /** Slots are the aligned intervals of a window that start within the 64-bit range. */
  predicate Slot(win: Window, slot: int) { 0 < win.duration && slot % win.duration == 0 && InInt64(slot) }

  /** Nothing was admitted yet in a slot to come; in the current one the counter counts it all. */
  ghost predicate Bounded(w: World, key: KeyId, win: Window, slot: int) {
    var now, admitted := w.requests.lastNow, Admitted(w, key, win, slot);
    && (admitted == 0 || admitted <= win.amount)
    && (now.None? || now.value < slot ==> admitted == 0)
    && (now.Some? && slot <= now.value < slot + win.duration ==>
        admitted <= CountAt(w.requests.counts, CounterKey(key, win), slot))
  }

  ghost predicate Inv(w: World) {
    && (w.requests.lastNow.None? ==> w.requests.counts == map[])
    && (forall k :: k in w.requests.counts ==> 0 <= w.requests.counts[k].count)
    && forall key, win, slot :: Slot(win, slot) ==> Bounded(w, key, win, slot)
  }

  /** The time `now` lies in the slot `slot` exactly when `slot` is its representable slot start. */
  lemma SlotOf(now: Int64, win: Window, slot: int)
    requires Slot(win, slot)
    ensures slot <= now < slot + win.duration ==> SlotStart(now, win.duration) == slot
  {
    SlotIsUnique(now, win.duration);
  }

  lemma CountAfter(m: Counts, key: KeyId, windows: set<Window>, now: Int64, k: CounterKey, slot: int)
    requires Positive(windows) && 0 < k.window.duration
    ensures var taken := k.key == key && k.window in windows;
            CountAt(Take(m, key, windows, now), k, slot)
            == if !taken then CountAt(m, k, slot)
               else if SlotStart(now, k.window.duration) == slot then CountAt(m, k, slot) + 1 else 0
  {
    assert k in KeysOf(key, windows) <==> k.key == key && k.window in windows;
  }

  lemma NextBounded(w: World, c: Call, key: KeyId, win: Window, slot: int)
    requires Inv(w) && Slot(win, slot)
    ensures Bounded(Next(w, c), key, win, slot)
  {
    var now, k := Clock(w.requests, c.reading), CounterKey(key, win);
    assert Bounded(w, key, win, slot);
    SlotOf(now, win, slot);
    var kept := Tick(w.requests, c.reading).counts;
    assert slot <= now < slot + win.duration ==> CountAt(kept, k, slot) == CountAt(w.requests.counts, k, slot);
    if Decide(w.requests, c.key, c.windows, c.reading).1.Allowed? {
      Sums.Append(w.history, Event(c.key, SetOf(c.windows), now), InSlot(key, win, slot));
      if c.windows != [] {
        DecideIff(w.requests, c.key, c.windows, c.reading);
        CountAfter(kept, c.key, SetOf(c.windows), now, k, slot);
      }
    }
  }

  lemma {:induction false} RunKeepsInv(w: World, calls: seq<Call>)
    requires Inv(w)
    ensures Inv(Run(w, calls))
    decreases |calls|
  {
    if calls != [] {
      forall key, win, slot | Slot(win, slot) ensures Bounded(Next(w, calls[0]), key, win, slot) {
        NextBounded(w, calls[0], key, win, slot);
      }
      RunKeepsInv(Next(w, calls[0]), calls[1..]);
    }
  }

  /** Whatever the clock reads, and whatever keys and window lists are mixed, the requests of a key
      admitted under a window in one epoch-aligned slot never exceed the window's amount. */
  lemma NeverMoreThanAmount(calls: seq<Call>, key: KeyId, win: Window, slot: int)
    requires Slot(win, slot) && 0 < win.amount
    ensures Admitted(Run(World(Requests(map[], None), []), calls), key, win, slot) <= win.amount
  {
    var w := World(Requests(map[], None), []);
    forall k, v, s ensures Admitted(w, k, v, s) == 0 {}
    RunKeepsInv(w, calls);
    assert Bounded(Run(w, calls), key, win, slot);
  }

  /** A rejected request consumes nothing: it leaves what looking at the clock leaves. */
  lemma RejectionConsumesNothing(r: Requests, key: KeyId, windows: seq<Window>, reading: Int64, k: CounterKey)
    requires Decide(r, key, windows, reading).1.Denied? && 0 < k.window.duration
    ensures var now, after := Clock(r, reading), Decide(r, key, windows, reading).0;
            MIN_INT64 <= now - now % k.window.duration ==>
              CountAt(after.counts, k, SlotStart(now, k.window.duration))
                == CountAt(r.counts, k, SlotStart(now, k.window.duration))
  {
    SlotIsUnique(Clock(r, reading), k.window.duration);
  }

  // ---- Reset times ----

  /** No window of the list is so early that its slot starts before the 64-bit range. */
  predicate Representable(windows: seq<Window>, now: int) {
    forall w :: w in windows ==> 0 < w.duration ==> MIN_INT64 <= now - now % w.duration
  }

  lemma SlotMoves(w: Window, now: Int64, later: Int64)
    requires 0 < w.duration && now <= later && MIN_INT64 <= now - now % w.duration
    ensures SlotStart(now, w.duration) <= now < SlotStart(now, w.duration) + w.duration
    ensures later < SlotStart(now, w.duration) + w.duration ==>
              SlotStart(later, w.duration) == SlotStart(now, w.duration)
    ensures SlotStart(now, w.duration) + w.duration <= later ==> now < SlotStart(later, w.duration)
  {
    SlotIsUnique(now, w.duration);
    SlotIsUnique(later, w.duration);
    var s, s' := now - now % w.duration, later - later % w.duration;
    if s + w.duration <= later {
      assert s' + w.duration > s + w.duration;
      assert !(s' % w.duration == 0 && s' <= now < s' + w.duration);
    } else {
      assert s % w.duration == 0 && s <= later < s + w.duration;
    }
  }

  lemma StaysFull(m: Counts, key: KeyId, w: Window, now: Int64, later: Int64)
    requires 0 < w.amount && 0 < w.duration && now <= later < SlotStart(now, w.duration) + w.duration
    requires MIN_INT64 <= now - now % w.duration && Full(m, key, w, now)
    ensures Full(Discard(m, later), key, w, later)
  {
    SlotMoves(w, now, later);
  }

  lemma FreeAtReset(m: Counts, key: KeyId, windows: set<Window>, now: Int64, w: Window, resetAt: Int64)
    requires Positive(windows) && w in windows && MIN_INT64 <= now - now % w.duration && now <= resetAt
    requires IsLatest(FullResets(m, key, windows, now), Some(resetAt)) && forall k :: k in m ==> m[k].start <= now
    ensures !Full(Discard(m, resetAt), key, w, resetAt)
  {
    SlotMoves(w, now, resetAt);
    if Full(m, key, w, now) { assert SlotStart(now, w.duration) + w.duration in FullResets(m, key, windows, now); }
  }

  /** A request rejected with a reset time is rejected at every time before it, and admitted at it. */
  lemma ResetIsTight(r: Requests, key: KeyId, windows: seq<Window>, reading: Int64, later: Int64)
    requires var outcome := Decide(r, key, windows, reading).1; outcome.Denied? && outcome.resetAt.Some?
    requires Representable(windows, Clock(r, reading))
    requires forall k :: k in r.counts ==> r.counts[k].start <= Clock(r, reading)
    ensures var (r', outcome) := Decide(r, key, windows, reading);
            && (later < outcome.resetAt.value ==> Decide(r', key, windows, later).1.Denied?)
            && (later == outcome.resetAt.value ==> Decide(r', key, windows, later).1.Allowed?)
  {
    var (r', outcome) := Decide(r, key, windows, reading);
    var now, later', resetAt := Clock(r, reading), Clock(r', later), outcome.resetAt.value;
    DecideIff(r, key, windows, reading);
    DecideIff(r', key, windows, later);
    var top :| top in SetOf(windows) && Full(r'.counts, key, top, now)
      && SlotStart(now, top.duration) + top.duration == resetAt;
    SlotMoves(top, now, later');
    if later < resetAt {
      StaysFull(r'.counts, key, top, now, later');
    } else if later == resetAt {
      forall w | w in SetOf(windows) ensures !Full(Tick(r', later).counts, key, w, later') {
        FreeAtReset(r'.counts, key, SetOf(windows), now, w, later);
      }
    }
  }

  ghost predicate Behind(r: Requests) {
    if r.lastNow.None? then r.counts == map[]
    else 0 <= r.lastNow.value && forall k :: k in r.counts ==> r.counts[k].start <= r.lastNow.value
  }

  lemma NextBehind(w: World, c: Call)
    requires Behind(w.requests) && 0 <= c.reading
    ensures Behind(Next(w, c).requests)
  {
  }

  /** With a clock that reads no time before 1970, ResetIsTight applies in every reachable state. */
  lemma {:induction false} CountersNeverAhead(w: World, calls: seq<Call>)
    requires Behind(w.requests) && forall i :: 0 <= i < |calls| ==> 0 <= calls[i].reading
    ensures Behind(Run(w, calls).requests)
    decreases |calls|
  {
    if calls != [] {
      NextBehind(w, calls[0]);
      CountersNeverAhead(Next(w, calls[0]), calls[1..]);
    }
  }

  // ---- Exactly when a request is admitted ----

  /** The current counters are the numbers of requests admitted in the current slots. */
  ghost predicate Exact(w: World, key: KeyId, win: Window, slot: int) {
    var now := w.requests.lastNow;
    Slot(win, slot) && now.Some? && slot <= now.value < slot + win.duration ==>
      CountAt(w.requests.counts, CounterKey(key, win), slot) == Admitted(w, key, win, slot)
  }

  ghost predicate AllExact(w: World) {
    Inv(w) && Behind(w.requests) && forall key, win, slot :: Exact(w, key, win, slot)
  }

  /** Looking at the clock leaves the counter of the slot it reads, which is zero if the slot is new. */
  lemma TickExact(w: World, reading: Int64, key: KeyId, win: Window, slot: int)
    requires AllExact(w) && Slot(win, slot) && slot <= Clock(w.requests, reading) < slot + win.duration
    ensures CountAt(Tick(w.requests, reading).counts, CounterKey(key, win), slot) == Admitted(w, key, win, slot)
  {
    assert Exact(w, key, win, slot) && Bounded(w, key, win, slot);
  }

  lemma NextExact(w: World, c: Call, key: KeyId, win: Window, slot: int)
    requires AllExact(w)
    ensures Exact(Next(w, c), key, win, slot)
  {
    var now := Clock(w.requests, c.reading);
    if Slot(win, slot) && slot <= now < slot + win.duration {
      SlotOf(now, win, slot);
      TickExact(w, c.reading, key, win, slot);
      if Decide(w.requests, c.key, c.windows, c.reading).1.Allowed? {
        Sums.Append(w.history, Event(c.key, SetOf(c.windows), now), InSlot(key, win, slot));
        if c.windows != [] {
          PositiveWindows(c.windows);
          CountAfter(Tick(w.requests, c.reading).counts, c.key, SetOf(c.windows), now, CounterKey(key, win), slot);
        }
      }
    }
  }

  lemma {:induction false} RunStaysExact(w: World, calls: seq<Call>)
    requires AllExact(w) && forall i :: 0 <= i < |calls| ==> 0 <= calls[i].reading
    ensures AllExact(Run(w, calls))
    decreases |calls|
  {
    if calls != [] {
      var w' := Next(w, calls[0]);
      NextBehind(w, calls[0]);
      forall key, win, slot ensures Exact(w', key, win, slot) { NextExact(w, calls[0], key, win, slot); }
      RunKeepsInv(w, [calls[0]]);
      assert Run(w, [calls[0]]) == w' by { assert [calls[0]][1..] == []; }
      RunStaysExact(w', calls[1..]);
    }
  }

  /** The slot of the window that the time lies in has no more room for the key. */
  ghost predicate UsedUp(w: World, key: KeyId, win: Window, now: int)
    requires 0 < win.duration
  {
    win.amount <= Admitted(w, key, win, now - now % win.duration)
  }

  lemma FullIff(w: World, c: Call, win: Window)
    requires AllExact(w) && 0 <= c.reading && 0 < win.duration
    ensures var now := Clock(w.requests, c.reading);
            && 0 <= now && SlotStart(now, win.duration) == now - now % win.duration
            && (Full(Tick(w.requests, c.reading).counts, c.key, win, now) <==> UsedUp(w, c.key, win, now))
  {
    var now := Clock(w.requests, c.reading);
    var slot := now - now % win.duration;
    SlotIsUnique(now, win.duration);
    assert Slot(win, slot) && slot <= now < slot + win.duration;
    TickExact(w, c.reading, c.key, win, slot);
  }

  /** When the slot that the time lies in ends. */
  function SlotEnd(now: int, win: Window): int
    requires 0 < win.duration
  {
    now - now % win.duration + win.duration
  }

  /** What a request is answered: the windows decide by what was admitted in their current slots. */
  ghost predicate Answers(w: World, c: Call, now: int, outcome: Outcome)
    requires ValidWindows(c.windows)
  {
    if forall win :: win in c.windows ==> !UsedUp(w, c.key, win, now) then outcome == Allowed
    else && outcome.Denied? && outcome.resetAt.Some?
         && (exists win :: win in c.windows && UsedUp(w, c.key, win, now)
                           && outcome.resetAt.value == SlotEnd(now, win))
         && (forall win :: win in c.windows && UsedUp(w, c.key, win, now) ==>
                           SlotEnd(now, win) <= outcome.resetAt.value)
  }

  lemma ResetsOf(w: World, c: Call)
    requires AllExact(w) && 0 <= c.reading && Positive(SetOf(c.windows))
    ensures var now := Clock(w.requests, c.reading);
            var resets := FullResets(Tick(w.requests, c.reading).counts, c.key, SetOf(c.windows), now);
            && IsLatest(resets, Latest(resets))
            && (forall win :: win in c.windows && UsedUp(w, c.key, win, now) ==>
                                SlotEnd(now, win) in resets)
            && (forall r :: r in resets ==>
                  exists win :: win in c.windows && UsedUp(w, c.key, win, now) && r == SlotEnd(now, win))
  {
    var now, m := Clock(w.requests, c.reading), Tick(w.requests, c.reading).counts;
    HasLatest(FullResets(m, c.key, SetOf(c.windows), now));
    forall win | win in SetOf(c.windows)
      ensures SlotStart(now, win.duration) == now - now % win.duration
      ensures Full(m, c.key, win, now) <==> UsedUp(w, c.key, win, now)
    {
      FullIff(w, c, win);
    }
  }

  lemma AnsweredBy(w: World, c: Call)
    requires AllExact(w) && 0 <= c.reading && ValidWindows(c.windows)
    ensures Answers(w, c, Clock(w.requests, c.reading), Decide(w.requests, c.key, c.windows, c.reading).1)
  {
    PositiveWindows(c.windows);
    ResetsOf(w, c);
    var now := Clock(w.requests, c.reading);
    var resets := FullResets(Tick(w.requests, c.reading).counts, c.key, SetOf(c.windows), now);
    DecidedByResets(w.requests, c.key, c.windows, c.reading);
    ByLatest(w, c, now, resets, Latest(resets));
  }

  lemma ByLatest(w: World, c: Call, now: int, resets: set<int>, latest: Option<int>)
    requires ValidWindows(c.windows) && IsLatest(resets, latest)
    requires forall win :: win in c.windows && UsedUp(w, c.key, win, now) ==> SlotEnd(now, win) in resets
    requires forall r :: r in resets ==>
               exists win :: win in c.windows && UsedUp(w, c.key, win, now) && r == SlotEnd(now, win)
    ensures Answers(w, c, now, if latest.None? then Allowed else Denied(latest))
  {
    if latest.Some? { assert latest.value in resets; }
  }

  /** No reset to wait for, and only then, is an admission. */
  lemma DecidedByResets(r: Requests, key: KeyId, windows: seq<Window>, reading: Int64)
    requires ValidWindows(windows) && Positive(SetOf(windows))
    ensures var resets := FullResets(Tick(r, reading).counts, key, SetOf(windows), Clock(r, reading));
            Decide(r, key, windows, reading).1 == if Latest(resets).None? then Allowed else Denied(Latest(resets))
  {
    HasLatest(FullResets(Tick(r, reading).counts, key, SetOf(windows), Clock(r, reading)));
  }

  /** With a clock that reads no time before 1970, and after any calls: a request is admitted if and only if its
      windows are well formed and, in the current slot of each, fewer requests of its key were admitted
      than the window allows. Otherwise it is told the latest end of the slots that are used up. */
  lemma AdmittedIff(calls: seq<Call>, c: Call)
    requires 0 <= c.reading && forall i :: 0 <= i < |calls| ==> 0 <= calls[i].reading
    ensures var w := Run(World(Requests(map[], None), []), calls);
            var last, outcome := w.requests.lastNow, Decide(w.requests, c.key, c.windows, c.reading).1;
            var now := if last.Some? && c.reading < last.value then last.value else c.reading;
            if ValidWindows(c.windows) then Answers(w, c, now, outcome) else outcome == Denied(None)
  {
    var w := World(Requests(map[], None), []);
    forall k, v, s ensures Admitted(w, k, v, s) == 0 {}
    RunStaysExact(w, calls);
    if ValidWindows(c.windows) { AnsweredBy(Run(w, calls), c); }
  }

  /** RetryAfterSecondsAt; the difference of two times saturates at the largest duration. */
  function RetryAfterSeconds(now: int, resetAt: int): int {
    var delta := if resetAt - now > MAX_INT64 then MAX_INT64 else resetAt - now;
    if delta <= 0 then 1 else delta / SECOND + if delta % SECOND != 0 then 1 else 0
  }

  /** Waiting the reported delay is never early, as long as the difference is a duration, and a
      second less would be. */
  lemma RetryAfterIsTight(now: int, resetAt: int)
    ensures resetAt <= now + RetryAfterSeconds(now, resetAt) * SECOND <==> resetAt - now <= 9_223_372_037 * SECOND
    ensures 0 < resetAt - now <= MAX_INT64 ==> now + (RetryAfterSeconds(now, resetAt) - 1) * SECOND < resetAt
    ensures 1 <= RetryAfterSeconds(now, resetAt)
  {
  }

  // ---- The limiter object ----

  /** What Allow works out for one window before it decides. */
  datatype CurrentWindow = CurrentWindow(key: CounterKey, start: int, reset: int, count: int)

  function WindowAt(m: Counts, key: KeyId, w: Window, now: Int64): CurrentWindow
    requires 0 < w.duration
  {
    var start := SlotStart(now, w.duration);
    CurrentWindow(CounterKey(key, w), start, start + w.duration, CountAt(m, CounterKey(key, w), start))
  }

  ghost predicate Describes(current: seq<CurrentWindow>, m: Counts, key: KeyId, ws: seq<Window>, now: Int64) {
    |current| == |ws| && forall i :: 0 <= i < |ws| ==> 0 < ws[i].duration && current[i] == WindowAt(m, key, ws[i], now)
  }

  method DiscardExpired(m: Counts, now: int) returns (kept: Counts)
    ensures kept == Discard(m, now)
  {
    kept := m;
    var left := m.Keys;
    while left != {}
      invariant left <= m.Keys && kept.Keys <= m.Keys
      invariant forall k :: k in kept ==> kept[k] == m[k]
      invariant forall k :: k in left ==> k in kept
      invariant forall k :: k in m && k !in left ==> (k in kept <==> now < m[k].start + k.window.duration)
      decreases left
    {
      var k :| k in left;
      left := left - {k};
      if m[k].start + k.window.duration <= now { kept := kept - {k}; }
    }
  }

  method Describe(m: Counts, key: KeyId, ws: seq<Window>, now: Int64) returns (current: seq<CurrentWindow>)
    requires ValidWindows(ws)
    ensures Describes(current, m, key, ws, now)
  {
    current := [];
    for i := 0 to |ws|
      invariant |current| == i && forall j :: 0 <= j < i ==> current[j] == WindowAt(m, key, ws[j], now)
    {
      current := current + [WindowAt(m, key, ws[i], now)];
    }
  }

  predicate Exhausted(c: CurrentWindow) { c.key.window.amount <= c.count }

  method LatestReset(current: seq<CurrentWindow>) returns (resetAt: Option<int>)
    ensures resetAt.Some? ==>
              exists j :: 0 <= j < |current| && Exhausted(current[j]) && current[j].reset == resetAt.value
    ensures forall j :: 0 <= j < |current| && Exhausted(current[j]) ==>
              resetAt.Some? && current[j].reset <= resetAt.value
  {
    resetAt := None;
    for i := 0 to |current|
      invariant resetAt.Some? ==> exists j :: 0 <= j < i && Exhausted(current[j]) && current[j].reset == resetAt.value
      invariant forall j :: 0 <= j < i && Exhausted(current[j]) ==> resetAt.Some? && current[j].reset <= resetAt.value
    {
      if Exhausted(current[i]) && (resetAt.None? || resetAt.value < current[i].reset) {
        resetAt := Some(current[i].reset);
      }
    }
  }

  lemma LatestOf(current: seq<CurrentWindow>, m: Counts, key: KeyId, ws: seq<Window>, now: Int64, resetAt: Option<int>)
    requires ValidWindows(ws) && Describes(current, m, key, ws, now)
    requires resetAt.Some? ==>
               exists j :: 0 <= j < |current| && Exhausted(current[j]) && current[j].reset == resetAt.value
    requires forall j :: 0 <= j < |current| && Exhausted(current[j]) ==>
               resetAt.Some? && current[j].reset <= resetAt.value
    ensures Positive(SetOf(ws)) && IsLatest(FullResets(m, key, SetOf(ws), now), resetAt)
  {
    PositiveWindows(ws);
    var resets := FullResets(m, key, SetOf(ws), now);
    forall r ensures r in resets <==> exists j :: 0 <= j < |current| && Exhausted(current[j]) && current[j].reset == r {
      ResetListed(current, m, key, ws, now, r);
    }
    if resetAt.None? { assert forall r :: r !in resets; }
  }

  lemma ResetListed(current: seq<CurrentWindow>, m: Counts, key: KeyId, ws: seq<Window>, now: Int64, r: int)
    requires ValidWindows(ws) && Describes(current, m, key, ws, now) && Positive(SetOf(ws))
    ensures r in FullResets(m, key, SetOf(ws), now)
            <==> exists j :: 0 <= j < |current| && Exhausted(current[j]) && current[j].reset == r
  {
    if r in FullResets(m, key, SetOf(ws), now) {
      var w :| w in SetOf(ws) && Full(m, key, w, now) && r == SlotStart(now, w.duration) + w.duration;
      var j :| 0 <= j < |ws| && ws[j] == w;
      assert Exhausted(current[j]);
    }
    if j :| 0 <= j < |current| && Exhausted(current[j]) && current[j].reset == r {
      assert Full(m, key, ws[j], now) && ws[j] in SetOf(ws);
    }
  }

  lemma TakeStep(m: Counts, key: KeyId, ws: seq<Window>, i: nat, now: Int64)
    requires i < |ws| && ValidWindows(ws)
    ensures Positive(SetOf(ws[..i])) && Positive(SetOf(ws[..i + 1]))
    ensures Take(m, key, SetOf(ws[..i + 1]), now)
            == Take(m, key, SetOf(ws[..i]), now)[CounterKey(key, ws[i]) := Counted(m, CounterKey(key, ws[i]), now)]
  {
    assert SetOf(ws[..i + 1]) == SetOf(ws[..i]) + {ws[i]};
    assert KeysOf(key, SetOf(ws[..i + 1])) == KeysOf(key, SetOf(ws[..i])) + {CounterKey(key, ws[i])};
  }

  method TakeAll(m: Counts, current: seq<CurrentWindow>, ghost key: KeyId, ghost ws: seq<Window>, ghost now: Int64)
    returns (after: Counts)
    requires ValidWindows(ws) && Describes(current, m, key, ws, now)
    ensures Positive(SetOf(ws)) && after == Take(m, key, SetOf(ws), now)
  {
    after := m;
    assert Take(m, key, SetOf(ws[..0]), now) == m;
    for i := 0 to |current|
      invariant Positive(SetOf(ws[..i])) && after == Take(m, key, SetOf(ws[..i]), now)
    {
      TakeStep(m, key, ws, i, now);
      after := after[current[i].key := Counter(current[i].start, current[i].count + 1)];
    }
    assert ws[..|ws|] == ws;
  }

  class RequestLimiter {
    var counts: Counts
    var lastNow: Option<Int64>

    function State(): Requests
      reads this
    {
      Requests(counts, lastNow)
    }

    constructor ()
      ensures State() == Requests(map[], None)
    {
      counts, lastNow := map[], None;
    }

    method Allow(key: KeyId, windows: seq<Window>, reading: Int64) returns (allowed: bool, resetAt: Option<int>)
      modifies this
      ensures (State(), if allowed then Allowed else Denied(resetAt)) == Decide(old(State()), key, windows, reading)
      ensures allowed ==> resetAt == None
    {
      var now := if lastNow.Some? && reading < lastNow.value then lastNow.value else reading;
      lastNow := Some(now);
      counts := DiscardExpired(counts, now);
      var ws, valid := Normalize(windows);
      if !valid { return false, None; }
      if |ws| == 0 { return true, None; }
      var current := Describe(counts, key, ws, now);
      resetAt := LatestReset(current);
      LatestOf(current, counts, key, ws, now, resetAt);
      LatestIs(FullResets(counts, key, SetOf(ws), now), resetAt);
      if resetAt.Some? { return false, resetAt; }
      counts := TakeAll(counts, current, key, ws, now);
      return true, None;
    }
  }
}
