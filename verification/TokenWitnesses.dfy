/** Runs of an empty token limiter that end in the states the exact conditions single out. */
module TokenWitnesses {
  import opened Wrappers
  import opened WindowClock
  import opened Windows
  import opened TokenBook
  import opened TokenRuns
  import opened TokenTheorems

  /** The window is valid and its current bucket can be located. */
  predicate Usable(win: Window, now: Time) { 0 < win.amount && 0 < win.duration && Locatable(win, now) }

  function Start(key: KeyId, win: Window, now: Time): World { World(Tokens(map[], map[key := {win}], now), [], map[]) }

  function One(key: KeyId, win: Window, now: Time, bucket: Bucket, h: seq<Entry>): World
    requires Usable(win, now)
  {
    World(Tokens(map[BucketAt(key, win, now) := bucket], map[key := {win}], now), h, map[])
  }

  function Request(key: KeyId, win: Window, now: Time, amount: int, status: Status): Entry
    requires Usable(win, now)
  {
    Entry({BucketAt(key, win, now)}, amount, status)
  }

  lemma StartIsLoaded(key: KeyId, win: Window, now: Time)
    ensures Inv(Start(key, win, now))
            && Start(key, win, now) == Served(Tokens(Load(map[], [], now).0, map[key := {win}], now))
  {
    LoadEstablishesInv([], now, map[key := {win}]);
  }

  lemma Ticks(key: KeyId, win: Window, now: Time, bucket: Bucket)
    requires Usable(win, now)
    ensures Discard(map[BucketAt(key, win, now) := bucket], now) == map[BucketAt(key, win, now) := bucket]
  {
    BucketIsCurrent(key, win, now);
  }

  lemma FirstHold(key: KeyId, win: Window, now: Time, amount: Int64)
    requires Usable(win, now) && 0 < amount <= win.amount
    ensures Next(Start(key, win, now), Reserve(key, [win], amount, now))
            == One(key, win, now, Bucket(0, amount), [Request(key, win, now, amount, Live)])
  {
    var t := Start(key, win, now).tokens;
    assert SetOf([win]) == {win} && Tick(t, now) == t;
    assert Captured(key, {win}, now) == {BucketAt(key, win, now)};
    assert Hold(map[], {BucketAt(key, win, now)}, amount) == map[BucketAt(key, win, now) := Bucket(0, amount)];
  }

  lemma SecondHold(key: KeyId, win: Window, now: Time, amount: Int64, other: Int64)
    requires Usable(win, now) && 0 < amount && 0 < other && amount + other <= win.amount
    ensures Next(One(key, win, now, Bucket(0, amount), [Request(key, win, now, amount, Live)]),
                 Reserve(key, [win], other, now))
            == One(key, win, now, Bucket(0, amount + other),
                   [Request(key, win, now, amount, Live), Request(key, win, now, other, Live)])
  {
    var b := BucketAt(key, win, now);
    var a, c := Request(key, win, now, amount, Live), Request(key, win, now, other, Live);
    var t := One(key, win, now, Bucket(0, amount), [a]).tokens;
    Ticks(key, win, now, Bucket(0, amount));
    assert SetOf([win]) == {win} && Tick(t, now) == t;
    assert Captured(key, {win}, now) == {b};
    assert Hold(t.buckets, {b}, other) == map[b := Bucket(0, amount + other)];
    assert [a] + [c] == [a, c];
  }

  /** The usage of the first request takes all that the range has left. */
  lemma UsageCharged(key: KeyId, win: Window, now: Time, amount: Int64, other: Int64, usage: Int64)
    requires Usable(win, now) && 0 < amount && 0 < other && amount + other <= win.amount && 0 < usage
    ensures Next(One(key, win, now, Bucket(0, amount + other),
                     [Request(key, win, now, amount, Live), Request(key, win, now, other, Live)]),
                 Settle(0, Known(usage), now))
            == One(key, win, now, Bucket(usage, other),
                   [Request(key, win, now, amount, Closed(usage)), Request(key, win, now, other, Live)])
  {
    var b, before := BucketAt(key, win, now), Bucket(0, amount + other);
    var a, c := Request(key, win, now, amount, Live), Request(key, win, now, other, Live);
    assert ChargeFor(map[b := before], {b}, amount, Known(usage)) == usage;
    assert Rewrite(map[b := before], {b}, Releasing(amount, usage)) == map[b := Bucket(usage, other)];
    Ticks(key, win, now, Bucket(usage, other));
    assert [a, c][0 := a.(status := Closed(usage))] == [a.(status := Closed(usage)), c];
  }

  function Filling(key: KeyId, win: Window, now: Time, amount: Int64, other: Int64, usage: Int64): seq<Step> {
    [Reserve(key, [win], amount, now), Reserve(key, [win], other, now), Settle(0, Known(usage), now)]
  }

  lemma ThreeSteps(w: World, a: Step, b: Step, c: Step, w1: World, w2: World, w3: World)
    requires w1 == Next(w, a) && w2 == Next(w1, b) && w3 == Next(w2, c)
    ensures Run(w, [a, b, c]) == w3
  {
    assert [a, b, c][1..] == [b, c] && [b, c][1..] == [c] && [c][1..] == [];
    assert Run(w3, []) == w3 && Run(w2, [c]) == w3 && Run(w1, [b, c]) == w3;
  }

  lemma FillingRuns(key: KeyId, win: Window, now: Time, amount: Int64, other: Int64, usage: Int64)
    requires Usable(win, now) && 0 < amount && 0 < other && amount + other <= win.amount && 0 < usage
    ensures Run(Start(key, win, now), Filling(key, win, now, amount, other, usage))
            == One(key, win, now, Bucket(usage, other),
                   [Request(key, win, now, amount, Closed(usage)), Request(key, win, now, other, Live)])
  {
    FirstHold(key, win, now, amount);
    SecondHold(key, win, now, amount, other);
    UsageCharged(key, win, now, amount, other, usage);
    ThreeSteps(Start(key, win, now), Reserve(key, [win], amount, now), Reserve(key, [win], other, now),
               Settle(0, Known(usage), now),
               One(key, win, now, Bucket(0, amount), [Request(key, win, now, amount, Live)]),
               One(key, win, now, Bucket(0, amount + other),
                   [Request(key, win, now, amount, Live), Request(key, win, now, other, Live)]),
               One(key, win, now, Bucket(usage, other),
                   [Request(key, win, now, amount, Closed(usage)), Request(key, win, now, other, Live)]));
  }

  /** A request whose usage fills the int64 range leaves no room for the estimate of another: settled
      conservatively, that one is charged and published but its bucket does not move. */
  lemma UnrecordedChargeIsReachable(key: KeyId, win: Window, now: Time, amount: Int64, other: Int64, usage: Int64)
    requires Usable(win, now) && 0 < amount && 0 < other && amount + other <= win.amount && MAX_INT64 < usage + other
    ensures var w := Run(Start(key, win, now), Filling(key, win, now, amount, other, usage));
            var w' := Next(w, Settle(1, Conservative, now));
            && |w.history| == |w'.history| == 2 && w.history[1].status == Live && w'.history[1].status == Closed(other)
            && !Harmless(w, Settle(1, Conservative, now))
            && Committed(w', BucketAt(key, win, now)) == Committed(w, BucketAt(key, win, now)) == usage
  {
    FillingRuns(key, win, now, amount, other, usage);
    var b := BucketAt(key, win, now);
    var w := One(key, win, now, Bucket(usage, other),
                 [Request(key, win, now, amount, Closed(usage)), Request(key, win, now, other, Live)]);
    assert b in w.history[1].captured && !Addable(w.tokens.buckets[b], other);
    assert Rewrite(w.tokens.buckets, {b}, Releasing(other, other)) == map[b := Bucket(usage, 0)];
    Ticks(key, win, now, Bucket(usage, 0));
  }

  /** A caller that does not name the published window among the old ones gets it dropped while a
      request still holds tokens in it. */
  lemma UnnamedWindowIsDropped(key: KeyId, win: Window, now: Time, amount: Int64)
    requires Usable(win, now) && 0 < amount <= win.amount
    ensures var w := Next(Start(key, win, now), Reserve(key, [win], amount, now));
            var w' := Next(w, Replace(key, {}, {}, Succeeds, now));
            && Inv(w) && w.tokens.policies == map[key := {win}]
            && key in w'.tokens.policies && w'.tokens.policies[key] == {} && !Clear(w', key, win)
            && Active(w', BucketAt(key, win, now)) == amount
  {
    StartIsLoaded(key, win, now);
    NextPreserves(Start(key, win, now), Reserve(key, [win], amount, now));
    FirstHold(key, win, now, amount);
    var w := One(key, win, now, Bucket(0, amount), [Request(key, win, now, amount, Live)]);
    Ticks(key, win, now, Bucket(0, amount));
    assert !Nothing(w.tokens, BucketAt(key, win, now));
    ReplacementClearsIff(w, key, {}, {}, now, win);
  }
}
