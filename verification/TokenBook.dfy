/** What the token limiter promises, over values (internal/limiter/token.go): estimates held in
    every configured fixed window at once, charged or released in the buckets that admitted them. */
module TokenBook {
  import opened Wrappers
  import opened WindowClock
  import opened Windows

  type KeyId = string

  datatype BucketKey = BucketKey(key: KeyId, window: Window, start: Int64)

  datatype Bucket = Bucket(committed: int, active: int)

  const EMPTY := Bucket(0, 0)

  type Buckets = map<BucketKey, Bucket>

  datatype Tokens = Tokens(buckets: Buckets, policies: map<KeyId, set<Window>>, lastNow: Time)

  function At(m: Buckets, b: BucketKey): Bucket { if b in m then m[b] else EMPTY }

  // ---- Time ----

  /** Readings that move back are clamped to the last one. */
  function Clock(t: Tokens, reading: Time): Time { if reading < t.lastNow then t.lastNow else reading }

  predicate Expired(b: BucketKey, now: int) {
    var reset := WindowReset(b.start, b.window.duration);
    reset.Some? && reset.value <= now
  }

  function Discard(m: Buckets, now: int): Buckets {
    map b | b in m && !(Expired(b, now) && m[b].active == 0) :: m[b]
  }

  /** Reads the clock and forgets the expired buckets in which nothing is active. */
  function Tick(t: Tokens, reading: Time): Tokens {
    var now := Clock(t, reading);
    t.(buckets := Discard(t.buckets, now), lastNow := now)
  }

  // ---- Admission ----

  datatype Admission = Rejected(resetAt: Option<int>) | Unmetered | Admitted(captured: set<BucketKey>)

  predicate Locatable(w: Window, now: int) {
    var start := WindowStart(now, w.duration);
    start.Some? && WindowReset(start.value, w.duration).Some?
  }

  function BucketAt(key: KeyId, w: Window, now: int): BucketKey
    requires Locatable(w, now)
  {
    BucketKey(key, w, WindowStart(now, w.duration).value)
  }

  function ResetOf(w: Window, now: int): int
    requires Locatable(w, now)
  {
    WindowStart(now, w.duration).value + w.duration
  }

  predicate Counted(b: Bucket) { 0 <= b.committed && 0 <= b.active && b.committed + b.active <= MAX_INT64 }

  predicate Fits(b: Bucket, w: Window, amount: int) { Counted(b) && b.committed + b.active + amount <= w.amount }

  /** Waiting for the window's reset can help: the amount fits an empty window. */
  predicate Waits(b: Bucket, w: Window, amount: int) { Counted(b) && amount <= w.amount && !Fits(b, w, amount) }

  predicate AllLocatable(windows: set<Window>, now: int) { forall w :: w in windows ==> Locatable(w, now) }

  function Captured(key: KeyId, windows: set<Window>, now: int): set<BucketKey>
    requires AllLocatable(windows, now)
  {
    set w | w in windows :: BucketAt(key, w, now)
  }

  ghost predicate AllFit(m: Buckets, key: KeyId, windows: set<Window>, amount: int, now: int)
    requires AllLocatable(windows, now)
  {
    forall w :: w in windows ==> Fits(At(m, BucketAt(key, w, now)), w, amount)
  }

  /** The resets of the windows that refuse for now. */
  function Resets(m: Buckets, key: KeyId, windows: set<Window>, amount: int, now: int): set<int>
    requires AllLocatable(windows, now)
  {
    set w | w in windows && Waits(At(m, BucketAt(key, w, now)), w, amount) :: ResetOf(w, now)
  }

  function Hold(m: Buckets, captured: set<BucketKey>, amount: int): Buckets {
    m + map b | b in captured :: At(m, b).(active := At(m, b).active + amount)
  }

  /** All windows take the amount, or none does. */
  ghost function Admit(t: Tokens, key: KeyId, windows: set<Window>, amount: int): (Tokens, Admission) {
    if !AllLocatable(windows, t.lastNow) then (t, Rejected(None))
    else if !AllFit(t.buckets, key, windows, amount, t.lastNow) then
      (t, Rejected(Latest(Resets(t.buckets, key, windows, amount, t.lastNow))))
    else
      var captured := Captured(key, windows, t.lastNow);
      (t.(buckets := Hold(t.buckets, captured, amount)), Admitted(captured))
  }

  /** Reserve. Empty windows are unlimited, and return before the published policy is looked at. */
  ghost function Reserve(t: Tokens, key: KeyId, windows: seq<Window>, amount: Int64, reading: Time)
    : (Tokens, Admission)
  {
    if amount <= 0 || !ValidWindows(windows) then (t, Rejected(None))
    else if windows == [] then (t, Unmetered)
    else if key in t.policies && t.policies[key] != SetOf(windows) then (t, Rejected(None))
    else Admit(Tick(t, reading), key, SetOf(windows), amount)
  }

  // ---- Settlement ----

  datatype TokenError = InvalidUsage | AccountingOverflow | ReservationState

  ghost predicate Broken(m: Buckets, captured: set<BucketKey>, amount: int) {
    exists b :: b in captured && (b !in m || m[b].active < amount)
  }

  predicate Addable(b: Bucket, charge: int) { 0 <= b.committed && 0 <= charge && b.committed + charge <= MAX_INT64 }

  ghost predicate Overflows(m: Buckets, captured: set<BucketKey>, charge: int) {
    exists b :: b in captured && b in m && !Addable(m[b], charge)
  }

  /** Commit, AbortConservative, ReleaseBeforeUpstream and CommitDeferred. */
  datatype Kind = Known(usage: Int64) | Conservative | Release | Deferred

  /** What the settlement charges: the usage, or the estimate when the usage cannot be recorded. */
  ghost function ChargeFor(m: Buckets, captured: set<BucketKey>, amount: int, kind: Kind): int {
    match kind
    case Release => 0
    case Known(usage) =>
      if usage < 0 || Broken(m, captured, amount) || Overflows(m, captured, usage) then amount else usage
    case _ => amount
  }

  function Released(b: Bucket, amount: int, charge: int): Bucket {
    Bucket(if Addable(b, charge) then b.committed + charge else b.committed,
           if b.active < amount then 0 else b.active - amount)
  }

  /** Rewrites the captured buckets that exist; a bucket left with nothing is deleted. */
  function Rewrite(m: Buckets, captured: set<BucketKey>, change: Bucket -> Bucket): Buckets {
    map b | b in m && (b in captured ==> change(m[b]) != EMPTY) :: if b in captured then change(m[b]) else m[b]
  }

  function Releasing(amount: int, charge: int): Bucket -> Bucket { (b: Bucket) => Released(b, amount, charge) }

  ghost function Settle(t: Tokens, captured: set<BucketKey>, amount: int, kind: Kind, reading: Time): Tokens {
    var charge := ChargeFor(t.buckets, captured, amount, kind);
    Tick(t.(buckets := Rewrite(t.buckets, captured, Releasing(amount, charge))), reading)
  }

  // ---- Adjustment of a deferred charge ----

  ghost predicate Refused(m: Buckets, captured: set<BucketKey>, delta: int) {
    exists b :: b in captured && b in m && !(if 0 <= delta then Addable(m[b], delta) else -delta <= m[b].committed)
  }

  function Shifting(delta: int): Bucket -> Bucket { (b: Bucket) => Bucket(b.committed + delta, b.active) }

  ghost function Adjust(t: Tokens, captured: set<BucketKey>, reserved: int, actual: int, reading: Time)
    : (Tokens, Option<TokenError>)
  {
    var delta := actual - reserved;
    if actual < 0 then (t, Some(InvalidUsage))
    else if delta != 0 && Refused(t.buckets, captured, delta) then
      (t, Some(if 0 < delta then AccountingOverflow else ReservationState))
    else (Tick(t.(buckets := Rewrite(t.buckets, captured, Shifting(delta))), reading), None)
  }

  // ---- Policies ----

  /** No bucket of a dropped window still carries committed or active tokens. */
  ghost predicate Droppable(m: Buckets, key: KeyId, before: set<Window>, after: set<Window>) {
    forall b :: b in m && b.key == key && b.window in before && b.window !in after ==>
        m[b].committed <= 0 && m[b].active <= 0
  }

  datatype Commit = Absent | Succeeds | Fails

  /** The caller's word is taken for the windows in force; without a commit nothing is published. */
  ghost function Replace(t: Tokens, key: KeyId, before: set<Window>, after: set<Window>, commit: Commit, reading: Time)
    : Tokens
  {
    var ticked := Tick(t, reading);
    if Droppable(ticked.buckets, key, before, after) && commit == Succeeds
    then ticked.(policies := ticked.policies[key := after]) else ticked
  }

  function Register(t: Tokens, key: KeyId, windows: set<Window>): Tokens {
    t.(policies := t.policies[key := windows])
  }

  // ---- Loading ----

  datatype Row = Row(key: KeyId, start: Time, window: Window, committed: Int64)

  predicate ValidRow(r: Row) {
    && r.key != "" && r.start % SECOND == 0 && 0 <= r.start && 0 <= r.committed
    && 0 < r.window.amount && 0 < r.window.duration && WindowStart(r.start, r.window.duration) == Some(r.start)
  }

  function KeyOf(r: Row): BucketKey
    requires ValidRow(r)
  {
    BucketKey(r.key, r.window, WindowStart(r.start, r.window.duration).value)
  }

  /** Rows whose window is over, or has no representable reset, are skipped. */
  predicate Current(r: Row, now: int)
    requires ValidRow(r)
  {
    var reset := WindowReset(KeyOf(r).start, r.window.duration);
    reset.Some? && now < reset.value
  }

  predicate Loadable(m: Buckets, r: Row, now: int) { ValidRow(r) && (Current(r, now) ==> KeyOf(r) !in m) }

  function LoadRow(m: Buckets, r: Row, now: int): Buckets
    requires ValidRow(r)
  {
    if Current(r, now) then m[KeyOf(r) := Bucket(r.committed, 0)] else m
  }

  /** Not atomic: the rows before the first bad one stay loaded. */
  function Load(m: Buckets, rows: seq<Row>, now: int): (Buckets, bool) {
    if rows == [] then (m, true)
    else
      var (before, ok) := Load(m, rows[..|rows| - 1], now);
      var last := rows[|rows| - 1];
      if ok && Loadable(before, last, now) then (LoadRow(before, last, now), true) else (before, false)
  }
}
