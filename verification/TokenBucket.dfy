/** The per-tenant token bucket and the bound it puts on admissions over a whole run, whatever the
    clock does. */
module TokenBucket {

  /** Construction rejects a capacity or rate that is not positive. */
  type PositiveReal = x: real | x > 0.0 witness 1.0

  datatype Config = Config(capacity: PositiveReal, refillPerSecond: PositiveReal)
  datatype Bucket = Bucket(tokens: real, lastRefilledAt: real)

  function NewFullBucket(config: Config, now: real): Bucket {
    Bucket(config.capacity, now)
  }

  function Elapsed(from: real, to: real): real {
    if to > from then to - from else 0.0
  }

  function Refilled(b: Bucket, config: Config, now: real): real {
    var topped := b.tokens + Elapsed(b.lastRefilledAt, now) * config.refillPerSecond;
    if topped < config.capacity then topped else config.capacity
  }

  /** Refill up to `now`, then spend one token if there is one. */
  function TryConsume(b: Bucket, config: Config, now: real): (r: (Bucket, bool)) {
    var tokens := Refilled(b, config, now);
    if tokens >= 1.0 then (Bucket(tokens - 1.0, now), true) else (Bucket(tokens, now), false)
  }

  ghost predicate InRange(b: Bucket, config: Config) {
    0.0 <= b.tokens <= config.capacity
  }

  /** What `forward` seconds of forward clock movement can have added. */
  ghost function Allowance(config: Config, forward: real): real {
    config.capacity + forward * config.refillPerSecond
  }

  /** Conservation: what was spent and what is left never exceed what was ever put in. */
  ghost predicate Accounted(b: Bucket, config: Config, spent: nat, forward: real) {
    InRange(b, config) && forward >= 0.0 && spent as real + b.tokens <= Allowance(config, forward)
  }

  lemma AllowanceGrows(config: Config, forward: real, more: real)
    ensures Allowance(config, forward + more) == Allowance(config, forward) + more * config.refillPerSecond
  {
    assert (forward + more) * config.refillPerSecond
        == forward * config.refillPerSecond + more * config.refillPerSecond;
  }

  lemma RefillSpan(b: Bucket, config: Config, now: real)
    requires InRange(b, config)
    ensures b.tokens <= Refilled(b, config, now) <= config.capacity
    ensures Refilled(b, config, now) <= b.tokens + Elapsed(b.lastRefilledAt, now) * config.refillPerSecond
  {
    assert Elapsed(b.lastRefilledAt, now) * config.refillPerSecond >= 0.0;
  }

  /** One attempt spends a token of the bucket's own or of what came in since, or none. */
  lemma ConsumeSpends(b: Bucket, config: Config, now: real)
    requires InRange(b, config)
    ensures var (b', allowed) := TryConsume(b, config, now);
            && InRange(b', config)
            && b'.tokens + (if allowed then 1.0 else 0.0)
               <= b.tokens + Elapsed(b.lastRefilledAt, now) * config.refillPerSecond
  {
    RefillSpan(b, config, now);
  }

  /** One attempt keeps the account balanced, forwards or backwards in time. */
  lemma ConsumeKeepsAccount(b: Bucket, config: Config, now: real, spent: nat, forward: real)
    requires Accounted(b, config, spent, forward)
    ensures var (b', allowed) := TryConsume(b, config, now);
            Accounted(b', config, if allowed then spent + 1 else spent, forward + Elapsed(b.lastRefilledAt, now))
  {
    ConsumeSpends(b, config, now);
    AllowanceGrows(config, forward, Elapsed(b.lastRefilledAt, now));
  }

  lemma NewBucketAccounted(config: Config, now: real)
    ensures Accounted(NewFullBucket(config, now), config, 0, 0.0)
  {
  }

  // ---------------------------------------------------------------- runs of one bucket

  /** The bucket and the number of admissions after one attempt per clock reading. */
  ghost function After(config: Config, readings: seq<real>): (Bucket, nat)
    requires readings != []
  {
    var last := readings[|readings| - 1];
    var (b, admitted) :=
      if |readings| == 1 then (NewFullBucket(config, last), 0) else After(config, readings[..|readings| - 1]);
    var (b', allowed) := TryConsume(b, config, last);
    (b', if allowed then admitted + 1 else admitted)
  }

  ghost function Forward(readings: seq<real>): real {
    if |readings| < 2 then 0.0
    else Forward(readings[..|readings| - 1]) + Elapsed(readings[|readings| - 2], readings[|readings| - 1])
  }

  /** Over any run and any clock readings, admissions are bounded by the capacity plus the rate
      times the total forward movement of the clock. */
  lemma {:induction false} AdmissionsAreBounded(config: Config, readings: seq<real>)
    requires readings != []
    ensures var (b, admitted) := After(config, readings);
            && Accounted(b, config, admitted, Forward(readings))
            && b.lastRefilledAt == readings[|readings| - 1]
            && admitted as real <= Allowance(config, Forward(readings))
  {
    var last := readings[|readings| - 1];
    if |readings| == 1 {
      NewBucketAccounted(config, last);
      ConsumeKeepsAccount(NewFullBucket(config, last), config, last, 0, 0.0);
    } else {
      var init := readings[..|readings| - 1];
      AdmissionsAreBounded(config, init);
      var (b, admitted) := After(config, init);
      ConsumeKeepsAccount(b, config, last, admitted, Forward(init));
    }
  }

  // ---------------------------------------------------------------- what it does let through

  ghost function Instants(t: real, n: nat): (readings: seq<real>)
    ensures |readings| == n && forall k :: 0 <= k < n ==> readings[k] == t
  {
    seq(n, (k: int) requires 0 <= k < n => t)
  }

  /** A burst at one instant is admitted up to the whole tokens of the capacity, and not one more. */
  lemma {:induction false} BurstIsAdmitted(config: Config, t: real, n: nat)
    requires n > 0
    ensures var (b, admitted) := After(config, Instants(t, n));
            && b == Bucket(config.capacity - admitted as real, t)
            && admitted <= n && (admitted < n ==> config.capacity - admitted as real < 1.0)
            && admitted as real <= config.capacity
  {
    assert Elapsed(t, t) == 0.0;
    NoTimeRefillsNothing(config);
    if n > 1 {
      BurstIsAdmitted(config, t, n - 1);
      assert Instants(t, n)[..n - 1] == Instants(t, n - 1);
    }
  }

  lemma EnoughTime(config: Config, d: real, elapsed: real)
    requires d * config.refillPerSecond == 1.0 && elapsed >= d
    ensures elapsed * config.refillPerSecond >= 1.0
  {
    assert (elapsed - d) * config.refillPerSecond >= 0.0;
  }

  lemma RefillsAToken(b: Bucket, config: Config, d: real, now: real)
    requires InRange(b, config) && config.capacity >= 1.0 && d > 0.0 && d * config.refillPerSecond == 1.0
    requires now >= b.lastRefilledAt + d
    ensures TryConsume(b, config, now).1
  {
    EnoughTime(config, d, Elapsed(b.lastRefilledAt, now));
  }

  /** Whatever happened before, who waits until a token has come in is let through. */
  lemma WaitingIsAdmitted(config: Config, readings: seq<real>, d: real, now: real)
    requires readings != [] && config.capacity >= 1.0 && d > 0.0 && d * config.refillPerSecond == 1.0
    requires now >= readings[|readings| - 1] + d
    ensures After(config, readings + [now]).1 == After(config, readings).1 + 1
  {
    AdmissionsAreBounded(config, readings);
    AfterAppend(config, readings, now);
    RefillsAToken(After(config, readings).0, config, d, now);
  }

  // ---------------------------------------------------------------- the end-to-end bound

  predicate NeverStepsBack(readings: seq<real>) {
    forall i :: 0 <= i < |readings| - 1 ==> readings[i] <= readings[i + 1]
  }

  function EndToEnd(readings: seq<real>): real
    requires readings != []
  {
    readings[|readings| - 1] - readings[0]
  }

  /** The forward movement is the end-to-end time exactly when the clock never steps back; a clock that
      does has moved further forward than its end points show. */
  lemma {:induction false} ForwardIsEndToEndIff(readings: seq<real>)
    requires readings != []
    ensures Forward(readings) >= EndToEnd(readings)
    ensures Forward(readings) == EndToEnd(readings) <==> NeverStepsBack(readings)
  {
    var n := |readings|;
    if n > 1 {
      var init := readings[..n - 1];
      ForwardIsEndToEndIff(init);
      assert NeverStepsBack(readings) <==> NeverStepsBack(init) && readings[n - 2] <= readings[n - 1];
    }
  }

  /** The bound on end-to-end time holds for every clock that never steps back. */
  lemma SteadyClockMeetsEndToEndBound(config: Config, readings: seq<real>)
    requires readings != [] && NeverStepsBack(readings)
    ensures After(config, readings).1 as real <= Allowance(config, EndToEnd(readings))
  {
    AdmissionsAreBounded(config, readings);
    ForwardIsEndToEndIff(readings);
  }

  // A run that shows the other half: with one token of capacity and a rate that refills one token over the
  // whole forward movement, the second admission comes by the last forward step.

  ghost predicate OneTokenAdmits(config: Config, readings: seq<real>)
    requires readings != []
  {
    var (b, admitted) := After(config, readings);
    && b.lastRefilledAt == readings[|readings| - 1]
    && (admitted >= 2
        || (admitted == 1 && b.tokens == Forward(readings) * config.refillPerSecond && b.tokens < 1.0))
  }

  /** Until its second admission the bucket holds what the forward movement refilled. */
  lemma {:induction false} TokensFollowForward(config: Config, readings: seq<real>)
    requires readings != [] && config.capacity == 1.0
    ensures OneTokenAdmits(config, readings)
  {
    var n := |readings|;
    NoTimeRefillsNothing(config);
    if n == 1 {
      FirstIsAdmitted(config, readings[0]);
      assert readings == [readings[0]];
    } else {
      var init := readings[..n - 1];
      TokensFollowForward(config, init);
      var more := Elapsed(readings[n - 2], readings[n - 1]);
      assert (Forward(init) + more) * config.refillPerSecond
          == Forward(init) * config.refillPerSecond + more * config.refillPerSecond;
    }
  }

  /** One token at most, and `d` seconds to refill it. */
  ghost predicate OneTokenEvery(config: Config, d: real) {
    config.capacity == 1.0 && d > 0.0 && d * config.refillPerSecond == 1.0
  }

  function OneTokenIn(d: real): (config: Config)
    requires d > 0.0
    ensures OneTokenEvery(config, d)
  {
    Config(1.0, 1.0 / d)
  }

  /** The time in which the bucket that shows a step back refills: the whole forward movement or, if there is
      none, what the clock lost. */
  ghost function Span(readings: seq<real>): (d: real)
    requires readings != [] && !NeverStepsBack(readings)
    ensures d > 0.0
  {
    ForwardIsEndToEndIff(readings);
    if Forward(readings) > 0.0 then Forward(readings) else -EndToEnd(readings)
  }

  /** In less time than `d` less than one token comes in. */
  lemma ShortOfOneToken(config: Config, d: real, time: real)
    requires OneTokenEvery(config, d)
    ensures time < d ==> Allowance(config, time) < 2.0
    ensures time == -d ==> Allowance(config, time) == 0.0
  {
    if time < d {
      assert (d - time) * config.refillPerSecond > 0.0;
    }
  }

  lemma StepBackAdmitsMore(config: Config, readings: seq<real>)
    requires readings != [] && !NeverStepsBack(readings) && OneTokenEvery(config, Span(readings))
    ensures After(config, readings).1 as real > Allowance(config, EndToEnd(readings))
  {
    TokensFollowForward(config, readings);
    ForwardIsEndToEndIff(readings);
    ShortOfOneToken(config, Span(readings), EndToEnd(readings));
  }

  /** Over a run of clock readings, the end-to-end bound holds for every bucket if and only if the clock
      never steps back. */
  lemma EndToEndBoundHoldsIff(readings: seq<real>)
    requires readings != []
    ensures (forall config: Config :: After(config, readings).1 as real <= Allowance(config, EndToEnd(readings)))
       <==> NeverStepsBack(readings)
  {
    if NeverStepsBack(readings) {
      forall config: Config ensures After(config, readings).1 as real <= Allowance(config, EndToEnd(readings)) {
        SteadyClockMeetsEndToEndBound(config, readings);
      }
    } else {
      StepBackAdmitsMore(OneTokenIn(Span(readings)), readings);
    }
  }

  /** A clock that advances `d`, steps back `d` and advances again, `rounds` times. */
  ghost function Swinging(t: real, d: real, rounds: nat): (readings: seq<real>)
    ensures readings != [] && readings[0] == t
    ensures readings[|readings| - 1] == if rounds == 0 then t else t + d
  {
    if rounds == 0 then [t]
    else if rounds == 1 then [t, t + d]
    else Swinging(t, d, rounds - 1) + [t, t + d]
  }

  /** Every swing refills the same `d` seconds again and admits once more. */
  lemma {:induction false} SwingingAdmits(config: Config, t: real, d: real, rounds: nat)
    requires OneTokenEvery(config, d)
    ensures EmptyAfter(config, Swinging(t, d, rounds), rounds + 1)
  {
    if rounds == 0 {
      FirstIsAdmitted(config, t);
    } else if rounds == 1 {
      FirstIsAdmitted(config, t);
      OneTokenRefills(config, [t], 1, d, t + d);
      assert [t] + [t + d] == Swinging(t, d, rounds);
    } else {
      var before := Swinging(t, d, rounds - 1);
      SwingingAdmits(config, t, d, rounds - 1);
      EmptyBucketWaits(config, before, rounds, t);
      OneTokenRefills(config, before + [t], rounds, d, t + d);
      assert before + [t] + [t + d] == Swinging(t, d, rounds);
    }
  }

  /** Nor is what a step back adds bounded: with the bucket that refills one token in the time of the step,
      admissions grow without limit while the end-to-end allowance stays at two. */
  lemma ClockStepBackAdmitsMore(config: Config, t: real, d: real, rounds: nat)
    requires OneTokenEvery(config, d)
    ensures var readings := Swinging(t, d, rounds);
            && After(config, readings).1 == rounds + 1
            && (After(config, readings).1 as real <= Allowance(config, EndToEnd(readings)) <==> rounds <= 1)
  {
    SwingingAdmits(config, t, d, rounds);
    SwingAllowance(config, t, d, rounds);
  }

  lemma SwingAllowance(config: Config, t: real, d: real, rounds: nat)
    requires OneTokenEvery(config, d)
    ensures Allowance(config, EndToEnd(Swinging(t, d, rounds))) == if rounds == 0 then 1.0 else 2.0
  {
    var time := EndToEnd(Swinging(t, d, rounds));
    assert time == if rounds == 0 then 0.0 else d;
    NoTimeRefillsNothing(config);
  }

  lemma NoTimeRefillsNothing(config: Config)
    ensures 0.0 * config.refillPerSecond == 0.0
  {
  }

  lemma FirstIsAdmitted(config: Config, t: real)
    requires config.capacity == 1.0
    ensures After(config, [t]) == (Bucket(0.0, t), 1)
  {
    NoTimeRefillsNothing(config);
    assert Elapsed(t, t) == 0.0;
  }

  ghost predicate EmptyAfter(config: Config, readings: seq<real>, admitted: nat) {
    readings != [] && After(config, readings) == (Bucket(0.0, readings[|readings| - 1]), admitted)
  }

  lemma EmptyBucketWaits(config: Config, readings: seq<real>, admitted: nat, now: real)
    requires config.capacity == 1.0 && EmptyAfter(config, readings, admitted) && now <= readings[|readings| - 1]
    ensures EmptyAfter(config, readings + [now], admitted)
  {
    AfterAppend(config, readings, now);
    NoTimeRefillsNothing(config);
    assert Elapsed(readings[|readings| - 1], now) == 0.0;
  }

  lemma OneTokenRefills(config: Config, readings: seq<real>, admitted: nat, d: real, now: real)
    requires OneTokenEvery(config, d) && EmptyAfter(config, readings, admitted) && now == readings[|readings| - 1] + d
    ensures EmptyAfter(config, readings + [now], admitted + 1)
  {
    AfterAppend(config, readings, now);
    assert Elapsed(readings[|readings| - 1], now) == d;
  }

  lemma AfterAppend(config: Config, readings: seq<real>, now: real)
    requires readings != []
    ensures var (b, admitted) := After(config, readings);
            var (b', allowed) := TryConsume(b, config, now);
            After(config, readings + [now]) == (b', if allowed then admitted + 1 else admitted)
  {
    assert (readings + [now])[..|readings|] == readings;
  }
}
