/** The memory score, its decay, and the closed-form instant at which it crosses a threshold. The
    exponential and the logarithm are parameters known only through their laws. */
module RotationDeadline {

  const SCORE_GUARD_EPSILON := 0.000000001
  /** Ten times six machine epsilons of a 64-bit float. */
  const U_EPS_GUARD := 60.0 / 4503599627370496.0

  // ---------------------------------------------------------------- exponential and logarithm

  datatype Exponential = Exponential(exp: real -> real, ln: real -> real) {
    ghost predicate Lawful() {
      && (forall x, y :: x < y ==> exp(x) < exp(y))
      && (forall x :: exp(x) > 0.0)
      && (forall u :: u > 0.0 ==> exp(ln(u)) == u)
      && exp(0.0) == 1.0
    }
  }

  function RationalExp(x: real): real {
    if x >= 0.0 then 1.0 + x else 1.0 / (1.0 - x)
  }

  function RationalLn(u: real): real {
    if u >= 1.0 then u - 1.0 else if u > 0.0 then 1.0 - 1.0 / u else 0.0
  }

  lemma RationalExpGrows(x: real, y: real)
    requires x < y
    ensures 0.0 < RationalExp(x) < RationalExp(y)
  {
    if y < 0.0 {
      ReciprocalOrder(1.0 - y, 1.0 - x);
    } else if x < 0.0 {
      ReciprocalBelowOne(1.0 - x);
    }
  }

  lemma RationalInverse(u: real)
    requires u > 0.0
    ensures RationalExp(RationalLn(u)) == u
  {
    if u < 1.0 {
      ReciprocalAboveOne(u);
    }
  }

  /** The laws are consistent: even a pair of rational functions obeys them. */
  lemma SomePairIsLawful()
    ensures Exponential(RationalExp, RationalLn).Lawful()
  {
    forall x, y | x < y ensures RationalExp(x) < RationalExp(y) {
      RationalExpGrows(x, y);
    }
    forall x ensures RationalExp(x) > 0.0 {
      RationalExpGrows(x, x + 1.0);
    }
    forall u | u > 0.0 ensures RationalExp(RationalLn(u)) == u {
      RationalInverse(u);
    }
  }

  lemma ReciprocalAboveOne(u: real)
    requires 0.0 < u < 1.0
    ensures 1.0 / u > 1.0 && 1.0 / (1.0 / u) == u
  {
    var r := 1.0 / u;
    assert r * u == 1.0;
    assert r <= 1.0 ==> r * u <= u;
  }

  lemma ReciprocalOrder(a: real, b: real)
    requires 0.0 < a < b
    ensures 1.0 / b < 1.0 / a
  {
    assert a / b < 1.0;
    assert 1.0 / b == (a / b) * (1.0 / a);
  }

  lemma ReciprocalBelowOne(a: real)
    requires a > 1.0
    ensures 0.0 < 1.0 / a < 1.0
  {
  }

  // ---------------------------------------------------------------- the score

  datatype Terms = Terms(recency: real, frequency: real, importance: real, userAffinity: real,
                         taskRelevance: real, provenanceConfidence: real)

  datatype Weights = Weights(recency: real, frequency: real, importance: real, userAffinity: real,
                             taskRelevance: real, provenanceConfidence: real)

  /** `MemoryScore.compute`'s value. */
  function Score(t: Terms, w: Weights): real {
    w.recency * t.recency + w.frequency * t.frequency + w.importance * t.importance
    + w.userAffinity * t.userAffinity + w.taskRelevance * t.taskRelevance
    + w.provenanceConfidence * t.provenanceConfidence
  }

  function WeightedNonRecencySum(t: Terms, w: Weights): real {
    w.frequency * t.frequency + w.importance * t.importance + w.userAffinity * t.userAffinity
    + w.taskRelevance * t.taskRelevance + w.provenanceConfidence * t.provenanceConfidence
  }

  function Recency(e: Exponential, decayRate: real, dt: real): real {
    e.exp(-(decayRate * Max(0.0, dt)))
  }

  /** The item's score once `dt` seconds have passed with every other term frozen. */
  function ScoreAt(e: Exponential, decayRate: real, t: Terms, w: Weights, dt: real): real {
    Score(t.(recency := Recency(e, decayRate, dt)), w)
  }

  // ---------------------------------------------------------------- the deadline

  datatype Deadline = Scheduled(afterSeconds: real) | Pinned | InvalidArguments

  function Max(a: real, b: real): real {
    if a >= b then a else b
  }

  function Min(a: real, b: real): real {
    if a <= b then a else b
  }

  /** The recency at which the threshold is crossed. */
  function CrossingRecency(theta: real, w: real, c: real): real
    requires w > 0.0
  {
    (theta - c) / w
  }

  function RecencyFloor(e: Exponential, decayRate: real, maxAge: real): real {
    Max(U_EPS_GUARD, e.exp(-(decayRate * maxAge)))
  }

  function CrossingTime(e: Exponential, decayRate: real, u: real): real
    requires decayRate > 0.0
  {
    -e.ln(u) / decayRate
  }

  function ComputeRotationDeadline(e: Exponential, decayRate: real, theta: real, w: real, c: real,
                                   maxAge: real, cooldown: real): Deadline
  {
    if decayRate <= 0.0 || w <= 0.0 then InvalidArguments
    else
      var u := CrossingRecency(theta, w, c);
      if u <= RecencyFloor(e, decayRate, maxAge) then Pinned
      else
        var dt := if u >= 1.0 then 0.0 else CrossingTime(e, decayRate, u);
        if u < 1.0 && dt > maxAge then Pinned
        else Scheduled(Min(Max(dt, cooldown), maxAge))
  }

  // ---------------------------------------------------------------- small arithmetic

  lemma ProductOrder(k: real, a: real, b: real)
    requires k > 0.0
    ensures a < b <==> k * a < k * b
  {
    if a < b {
      assert k * (b - a) > 0.0;
      assert k * (b - a) == k * b - k * a;
    } else {
      assert k * (a - b) >= 0.0;
      assert k * (a - b) == k * a - k * b;
    }
  }

  lemma Quotient(x: real, k: real)
    requires k > 0.0
    ensures k * (x / k) == x
  {
  }

  /** Score against threshold is recency against the crossing recency. */
  lemma ThresholdIsRecency(theta: real, w: real, c: real, r: real)
    requires w > 0.0
    ensures w * r + c <= theta <==> r <= CrossingRecency(theta, w, c)
  {
    var u := CrossingRecency(theta, w, c);
    Quotient(theta - c, w);
    ProductOrder(w, u, r);
    ProductOrder(w, r, u);
  }

  lemma ReachesIsRecency(theta: real, w: real, c: real, r: real)
    requires w > 0.0
    ensures w * r + c >= theta <==> r >= CrossingRecency(theta, w, c)
  {
    var u := CrossingRecency(theta, w, c);
    Quotient(theta - c, w);
    ProductOrder(w, u, r);
    ProductOrder(w, r, u);
  }

  lemma ExpReflects(e: Exponential, x: real, y: real)
    requires e.Lawful()
    ensures x <= y <==> e.exp(x) <= e.exp(y)
  {
    if y < x {
      assert e.exp(y) < e.exp(x);
    } else if x < y {
      assert e.exp(x) < e.exp(y);
    }
  }

  /** Recency reaches `u` exactly from the crossing time on. */
  lemma RecencyCrosses(e: Exponential, decayRate: real, u: real, t: real)
    requires e.Lawful() && decayRate > 0.0 && u > 0.0
    ensures e.exp(-(decayRate * t)) <= u <==> t >= CrossingTime(e, decayRate, u)
  {
    CrossingTimeSolves(e, decayRate, u);
    CrossesAt(e, decayRate, u, t, CrossingTime(e, decayRate, u));
  }

  lemma CrossingTimeSolves(e: Exponential, decayRate: real, u: real)
    requires decayRate > 0.0
    ensures decayRate * CrossingTime(e, decayRate, u) == -e.ln(u)
  {
    Quotient(-e.ln(u), decayRate);
  }

  lemma CrossesAt(e: Exponential, decayRate: real, u: real, t: real, d: real)
    requires e.Lawful() && decayRate > 0.0 && u > 0.0 && decayRate * d == -e.ln(u)
    ensures e.exp(-(decayRate * t)) <= u <==> t >= d
  {
    ExpCrosses(e, u, decayRate * t);
    NamedProductOrder(decayRate, t, d, decayRate * t, -e.ln(u));
  }

  lemma NamedProductOrder(k: real, a: real, b: real, ka: real, kb: real)
    requires k > 0.0 && ka == k * a && kb == k * b
    ensures a < b <==> ka < kb
  {
    ProductOrder(k, a, b);
  }

  lemma ExpCrosses(e: Exponential, u: real, p: real)
    requires e.Lawful() && u > 0.0
    ensures e.exp(-p) <= u <==> p >= -e.ln(u)
  {
    ExpReflects(e, -p, e.ln(u));
  }

  lemma CrossingTimeSign(e: Exponential, decayRate: real, u: real)
    requires e.Lawful() && decayRate > 0.0 && u > 0.0
    ensures u < 1.0 <==> CrossingTime(e, decayRate, u) > 0.0
  {
    RecencyCrosses(e, decayRate, u, 0.0);
    assert decayRate * 0.0 == 0.0;
    assert -(decayRate * 0.0) == 0.0;
    assert e.exp(0.0) == 1.0;
  }

  // ---------------------------------------------------------------- what the deadline promises

  /** The inputs the engine calls it with: ages and cooldowns are never negative. */
  ghost predicate Sensible(e: Exponential, decayRate: real, w: real, maxAge: real, cooldown: real) {
    e.Lawful() && decayRate > 0.0 && w > 0.0 && maxAge >= 0.0 && cooldown >= 0.0
  }

  /** The decaying part of the score at `t >= 0`, with everything else in `c`. */
  function Decayed(e: Exponential, decayRate: real, w: real, c: real, t: real): real {
    w * Recency(e, decayRate, t) + c
  }

  /** The branch that pins a computed crossing beyond the maximum age is never taken. */
  lemma SecondPinIsUnreachable(e: Exponential, decayRate: real, theta: real, w: real, c: real, maxAge: real)
    requires e.Lawful() && decayRate > 0.0 && w > 0.0
    requires CrossingRecency(theta, w, c) > RecencyFloor(e, decayRate, maxAge)
    ensures CrossingTime(e, decayRate, CrossingRecency(theta, w, c)) <= maxAge
  {
    RecencyCrosses(e, decayRate, CrossingRecency(theta, w, c), maxAge);
  }

  /** An item is scheduled exactly when its crossing recency is above the floor. */
  lemma ScheduledIffAboveFloor(e: Exponential, decayRate: real, theta: real, w: real, c: real,
                               maxAge: real, cooldown: real)
    requires e.Lawful() && decayRate > 0.0 && w > 0.0
    ensures ComputeRotationDeadline(e, decayRate, theta, w, c, maxAge, cooldown).Scheduled?
       <==> CrossingRecency(theta, w, c) > RecencyFloor(e, decayRate, maxAge)
  {
    if CrossingRecency(theta, w, c) > RecencyFloor(e, decayRate, maxAge) {
      SecondPinIsUnreachable(e, decayRate, theta, w, c, maxAge);
    }
  }

  /** The scheduled deadline is the crossing time, pushed past the cooldown and cut at the maximum age. */
  lemma DeadlineIsClampedCrossing(e: Exponential, decayRate: real, theta: real, w: real, c: real,
                                  maxAge: real, cooldown: real)
    requires Sensible(e, decayRate, w, maxAge, cooldown)
    requires ComputeRotationDeadline(e, decayRate, theta, w, c, maxAge, cooldown).Scheduled?
    ensures var d := ComputeRotationDeadline(e, decayRate, theta, w, c, maxAge, cooldown).afterSeconds;
            var dt := Max(0.0, CrossingTime(e, decayRate, CrossingRecency(theta, w, c)));
            && CrossingRecency(theta, w, c) > 0.0
            && dt <= d <= maxAge
            && (cooldown <= maxAge ==> d == Max(dt, cooldown)) && (cooldown > maxAge ==> d == maxAge)
  {
    ScheduledIffAboveFloor(e, decayRate, theta, w, c, maxAge, cooldown);
    SecondPinIsUnreachable(e, decayRate, theta, w, c, maxAge);
    CrossingTimeSign(e, decayRate, CrossingRecency(theta, w, c));
  }

  /** The decayed score is at or below the threshold exactly from the crossing time on. */
  lemma ScoreCrosses(e: Exponential, decayRate: real, theta: real, w: real, c: real, t: real)
    requires e.Lawful() && decayRate > 0.0 && w > 0.0 && CrossingRecency(theta, w, c) > 0.0
    ensures Decayed(e, decayRate, w, c, t) <= theta
       <==> Max(0.0, t) >= CrossingTime(e, decayRate, CrossingRecency(theta, w, c))
  {
    ThresholdIsRecency(theta, w, c, Recency(e, decayRate, t));
    RecencyCrosses(e, decayRate, CrossingRecency(theta, w, c), Max(0.0, t));
  }

  /** From the scheduled deadline on the score is at or below the threshold, and at no earlier
      instant after the cooldown; the deadline lies within the remaining age. */
  lemma DeadlineIsFirstCrossing(e: Exponential, decayRate: real, theta: real, w: real, c: real,
                                maxAge: real, cooldown: real, t: real)
    requires Sensible(e, decayRate, w, maxAge, cooldown)
    requires ComputeRotationDeadline(e, decayRate, theta, w, c, maxAge, cooldown).Scheduled?
    ensures var d := ComputeRotationDeadline(e, decayRate, theta, w, c, maxAge, cooldown).afterSeconds;
            && 0.0 <= d <= maxAge
            && (cooldown <= maxAge ==> cooldown <= d) && (cooldown > maxAge ==> d == maxAge)
            && (t >= d ==> Decayed(e, decayRate, w, c, t) <= theta)
            && (cooldown <= t < d ==> Decayed(e, decayRate, w, c, t) > theta)
  {
    DeadlineIsClampedCrossing(e, decayRate, theta, w, c, maxAge, cooldown);
    ScoreCrosses(e, decayRate, theta, w, c, t);
  }

  /** An item is pinned exactly if its score is still at the threshold or above when its maximum age comes, or
      would be with no more recency than the float guard. */
  lemma PinnedIffReachesMaxAge(e: Exponential, decayRate: real, theta: real, w: real, c: real,
                               maxAge: real, cooldown: real)
    requires e.Lawful() && decayRate > 0.0 && w > 0.0 && maxAge >= 0.0
    ensures ComputeRotationDeadline(e, decayRate, theta, w, c, maxAge, cooldown).Pinned? <==>
      || Decayed(e, decayRate, w, c, maxAge) >= theta
      || w * (60.0 / 4503599627370496.0) + c >= theta
  {
    ScheduledIffAboveFloor(e, decayRate, theta, w, c, maxAge, cooldown);
    FloorIs(e, decayRate, maxAge);
    ReachesIsRecency(theta, w, c, Recency(e, decayRate, maxAge));
    ReachesIsRecency(theta, w, c, U_EPS_GUARD);
  }

  lemma SameExp(e: Exponential, x: real, y: real)
    requires x == y
    ensures e.exp(x) == e.exp(y)
  {
  }

  lemma FloorIs(e: Exponential, decayRate: real, maxAge: real)
    requires maxAge >= 0.0
    ensures RecencyFloor(e, decayRate, maxAge) == Max(U_EPS_GUARD, Recency(e, decayRate, maxAge))
  {
    SameExp(e, -(decayRate * Max(0.0, maxAge)), -(decayRate * maxAge));
    assert Recency(e, decayRate, maxAge) == e.exp(-(decayRate * Max(0.0, maxAge)));
  }

  /** A pinned item stays above the threshold for as long as its recency is above the floor. */
  lemma PinnedStaysAbove(e: Exponential, decayRate: real, theta: real, w: real, c: real,
                         maxAge: real, cooldown: real, t: real)
    requires e.Lawful() && decayRate > 0.0 && w > 0.0
    requires ComputeRotationDeadline(e, decayRate, theta, w, c, maxAge, cooldown).Pinned?
    requires Recency(e, decayRate, t) > RecencyFloor(e, decayRate, maxAge)
    ensures Decayed(e, decayRate, w, c, t) > theta
  {
    ScheduledIffAboveFloor(e, decayRate, theta, w, c, maxAge, cooldown);
    ThresholdIsRecency(theta, w, c, Recency(e, decayRate, t));
  }

  /** Without the float guard in the way, that is every instant before the maximum age. */
  lemma RecencyAboveFloorBeforeMaxAge(e: Exponential, decayRate: real, maxAge: real, t: real)
    requires e.Lawful() && decayRate > 0.0 && 0.0 <= t < maxAge && e.exp(-(decayRate * maxAge)) >= U_EPS_GUARD
    ensures Recency(e, decayRate, t) > RecencyFloor(e, decayRate, maxAge)
  {
    ProductOrder(decayRate, t, maxAge);
  }

  /** So a pinned item stays above the threshold until its maximum age, unless the float guard is higher than
      the recency it has by then. */
  lemma PinnedUntilMaxAge(e: Exponential, decayRate: real, theta: real, w: real, c: real,
                          maxAge: real, cooldown: real, t: real)
    requires e.Lawful() && decayRate > 0.0 && w > 0.0
    requires ComputeRotationDeadline(e, decayRate, theta, w, c, maxAge, cooldown).Pinned?
    requires 0.0 <= t < maxAge && e.exp(-(decayRate * maxAge)) >= U_EPS_GUARD
    ensures Decayed(e, decayRate, w, c, t) > theta
  {
    RecencyAboveFloorBeforeMaxAge(e, decayRate, maxAge, t);
    PinnedStaysAbove(e, decayRate, theta, w, c, maxAge, cooldown, t);
  }

  /** The re-score guard of the sweep. */
  predicate PassesSweepGuard(score: real, threshold: real) {
    !(score > threshold + SCORE_GUARD_EPSILON)
  }

  lemma ScoreAtIsDecayed(e: Exponential, decayRate: real, t: Terms, w: Weights, dt: real)
    ensures ScoreAt(e, decayRate, t, w, dt)
         == Decayed(e, decayRate, w.recency, WeightedNonRecencySum(t, w), dt)
  {
  }

  /** An item swept at or after its deadline, its other terms unchanged, passes the re-score guard; between
      its cooldown and its deadline its score is above the threshold, so only the guard's tolerance could let
      it pass. */
  lemma DeadlineMeetsSweep(e: Exponential, decayRate: real, theta: real, t: Terms, w: Weights,
                           maxAge: real, cooldown: real, dt: real)
    requires Sensible(e, decayRate, w.recency, maxAge, cooldown)
    requires ComputeRotationDeadline(e, decayRate, theta, w.recency, WeightedNonRecencySum(t, w), maxAge, cooldown).Scheduled?
    ensures var d := ComputeRotationDeadline(e, decayRate, theta, w.recency, WeightedNonRecencySum(t, w), maxAge, cooldown).afterSeconds;
            && (dt >= d ==> PassesSweepGuard(ScoreAt(e, decayRate, t, w, dt), theta))
            && (cooldown <= dt < d ==> ScoreAt(e, decayRate, t, w, dt) > theta)
  {
    DeadlineIsFirstCrossing(e, decayRate, theta, w.recency, WeightedNonRecencySum(t, w), maxAge, cooldown, dt);
    ScoreAtIsDecayed(e, decayRate, t, w, dt);
  }
}
