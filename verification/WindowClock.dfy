/** Epoch-aligned fixed windows over 64-bit nanoseconds (internal/limiter/token.go).
    A time is the number of nanoseconds since the Unix epoch. */
module WindowClock {
  import opened Wrappers

  const SECOND := 1_000_000_000

  /** The zero time of the source, in nanoseconds since the Unix epoch: "not read yet". */
  const ZERO_TIME := -62_135_596_800 * SECOND

  type Time = t: int | ZERO_TIME <= t witness 0

  type Int64 = x: int | MIN_INT64 <= x <= MAX_INT64

  /** Go's integer division rounds toward zero. */
  function Quotient(x: int, y: int): int
    requires 0 < y
  {
    if 0 <= x then x / y else -(-x / y)
  }

  function CheckedAdd(x: Int64, y: Int64): Option<Int64> {
    if InInt64(x + y) then Some(x + y) else None
  }

  /** fixedWindowStartChecked. `MIN_INT64 - fraction` is computed in 64 bits, where it wraps. */
  function WindowStart(t: int, duration: Int64): Option<Int64> {
    var seconds, fraction := t / SECOND, t % SECOND;
    if duration <= 0 then None
    else if || seconds > Quotient(MAX_INT64 - fraction, SECOND)
            || seconds < Quotient(Wrap64(MIN_INT64 - fraction), SECOND) then None
    else
      var nanos := Wrap64(Wrap64(seconds * SECOND) + fraction);
      if nanos == MIN_INT64 then None else CheckedAdd(nanos, -(nanos % duration))
  }

  function WindowReset(start: Int64, duration: Int64): Option<Int64> { CheckedAdd(start, duration) }

  /** The times for which a window start is found: whole seconds in range, and the last second of the range. */
  predicate Readable(t: int) {
    || (t % SECOND == 0 && -9_223_372_036 * SECOND <= t <= MAX_INT64)
    || MAX_INT64 - SECOND + 1 < t <= MAX_INT64
  }

  /** The wrap makes the lower range check reject every fractional second but those of the last one. */
  lemma WindowStartIff(t: int, duration: Int64)
    ensures WindowStart(t, duration).Some? <==> 0 < duration && Readable(t) && MIN_INT64 <= t - t % duration
    ensures WindowStart(t, duration).Some? ==> WindowStart(t, duration).value == t - t % duration
  {
    var seconds, fraction := t / SECOND, t % SECOND;
    assert t == seconds * SECOND + fraction;
    if 0 < fraction {
      assert Wrap64(MIN_INT64 - fraction) == MAX_INT64 + 1 - fraction;
    }
  }

  /** In particular a clock that reads a fractional second is never given a window before the year 2262. */
  lemma FractionalSecondsHaveNoWindow(t: int, duration: Int64)
    requires t % SECOND != 0 && t <= MAX_INT64 - SECOND
    ensures WindowStart(t, duration) == None
  {
    WindowStartIff(t, duration);
  }

  /** A window found for `t` holds `t`, and it is the only aligned window that does. */
  lemma WindowHolds(t: int, duration: Int64)
    requires WindowStart(t, duration).Some?
    ensures var start := WindowStart(t, duration).value;
            start % duration == 0 && start <= t < start + duration
    ensures forall u: int :: u % duration == 0 && u <= t < u + duration ==> u == WindowStart(t, duration).value
  {
    WindowStartIff(t, duration);
    SlotIsUnique(t, duration);
  }

  lemma SlotIsUnique(t: int, duration: int)
    requires 0 < duration
    ensures (t - t % duration) % duration == 0
    ensures forall u: int :: u % duration == 0 && u <= t < u + duration ==> u == t - t % duration
  {
    var q := t / duration;
    assert t - t % duration == q * duration;
    MultipleMod(q, duration);
    forall u: int | u % duration == 0 && u <= t < u + duration ensures u == t - t % duration {
      var p := u / duration;
      assert u == p * duration;
      Apart(p, q, duration);
      Apart(q, p, duration);
    }
  }

  lemma Apart(p: int, q: int, d: int)
    requires 0 < d
    ensures p < q ==> (p + 1) * d <= q * d
  {
  }

  lemma MultipleMod(q: int, d: int)
    requires 0 < d
    ensures (q * d) % d == 0
  {
    var r := (q * d) % d;
    var p := (q * d) / d;
    assert q * d == p * d + r;
    Apart(p, q, d);
    Apart(q, p, d);
  }
}
