/** The count-based circuit breaker: a bounded ring of recent outcomes, a baseline of latencies
    that have aged out of it, exponential backoff and a bounded number of probes. */
module CircuitBreaker {
  import opened Options
  import opened Sequences
  import opened Sorting

  const MIN_BASELINE_SAMPLES := 5

  datatype State = Closed | Open | HalfOpen
  datatype Outcome = Outcome(success: bool, latency: real)

  type Positive = n: int | n > 0 witness 1

  datatype Config = Config(
    windowSize: Positive, failureRateThreshold: real, slowCallRateThreshold: real, slowCallMultiplier: real,
    baseBackoff: real, maxBackoff: real, halfOpenProbeCount: int, latencyBaselineSize: nat)

  datatype Breaker = Breaker(
    ring: seq<Outcome>, baseline: seq<real>, state: State, tripCount: nat, openedAt: Option<real>,
    attempts: int, successes: int)

  const INITIAL := Breaker([], [], Closed, 0, None, 0, 0)

  // ---------------------------------------------------------------- the rules

  /** What a deque of maximal length `n` keeps of `s`. */
  function LastN<T>(s: seq<T>, n: nat): seq<T> {
    if |s| <= n then s else s[|s| - n..]
  }

  function Pushed(c: Config, b: Breaker, o: Outcome): Breaker {
    b.(baseline := if |b.ring| == c.windowSize && b.ring[0].success
                   then LastN(b.baseline + [b.ring[0].latency], c.latencyBaselineSize) else b.baseline,
       ring := LastN(b.ring + [o], c.windowSize))
  }

  function Ceil(x: real): int {
    -((-x).Floor)
  }

  function Count(s: seq<Outcome>, counts: Outcome -> bool): nat {
    if s == [] then 0
    else Count(s[..|s| - 1], counts) + (if counts(s[|s| - 1]) then 1 else 0)
  }

  predicate Smaller(a: real, b: real) {
    a < b
  }

  function P99(baseline: seq<real>): Option<real> {
    if |baseline| < MIN_BASELINE_SAMPLES then None
    else
      var sorted := Sorted(baseline, Smaller);
      var rank := Ceil(0.99 * (|baseline| as real)) - 1;
      var index := if rank < |baseline| - 1 then rank else |baseline| - 1;
      SortedIsOrdered(baseline, Smaller);
      Some(sorted[if index > 0 then index else 0])
  }

  function FailureRate(ring: seq<Outcome>): real
    requires ring != []
  {
    (Count(ring, (o: Outcome) => !o.success) as real) / (|ring| as real)
  }

  function SlowerThan(limit: real): Outcome -> bool {
    (o: Outcome) => o.success && o.latency > limit
  }

  function SlowLimit(c: Config, p99: real): real {
    p99 * c.slowCallMultiplier
  }

  function SlowRate(c: Config, ring: seq<Outcome>, baseline: seq<real>): real
    requires ring != []
  {
    match P99(baseline)
    case None => 0.0
    case Some(p99) =>
      (Count(ring, SlowerThan(SlowLimit(c, p99))) as real) / (|ring| as real)
  }

  /** A full ring whose failure rate or slow rate is at its threshold. */
  predicate MustTrip(c: Config, ring: seq<Outcome>, baseline: seq<real>) {
    |ring| >= c.windowSize
    && (FailureRate(ring) >= c.failureRateThreshold || SlowRate(c, ring, baseline) >= c.slowCallRateThreshold)
  }

  function Tripped(b: Breaker, now: real): Breaker {
    b.(tripCount := b.tripCount + 1, state := Open, openedAt := Some(now), ring := [])
  }

  function Reclosed(b: Breaker): Breaker {
    b.(state := Closed, tripCount := 0, openedAt := None, ring := [])
  }

  function Evaluated(c: Config, b: Breaker, now: real): Breaker {
    if MustTrip(c, b.ring, b.baseline) then Tripped(b, now) else b
  }

  function Power2(n: nat): real {
    if n == 0 then 1.0 else 2.0 * Power2(n - 1)
  }

  function Backoff(c: Config, tripCount: nat): real {
    var backoff := c.baseBackoff * Power2(if tripCount > 0 then tripCount - 1 else 0);
    if backoff <= c.maxBackoff then backoff else c.maxBackoff
  }

  predicate Elapsed(c: Config, b: Breaker, now: real) {
    b.openedAt.Some? ==> now >= b.openedAt.value + Backoff(c, b.tripCount)
  }

  function Admit(c: Config, b: Breaker, now: real): (Breaker, bool) {
    match b.state
    case Closed => (b, true)
    case Open =>
      if Elapsed(c, b, now) then (b.(state := HalfOpen, attempts := 1, successes := 0), true) else (b, false)
    case HalfOpen =>
      if b.attempts < c.halfOpenProbeCount then (b.(attempts := b.attempts + 1), true) else (b, false)
  }

  function Record(c: Config, b: Breaker, o: Outcome, now: real): Breaker {
    var pushed := Pushed(c, b, o);
    if !b.state.HalfOpen? then Evaluated(c, pushed, now)
    else if !o.success then Tripped(pushed, now)
    else
      var counted := pushed.(successes := b.successes + 1);
      if counted.successes >= c.halfOpenProbeCount then Reclosed(counted) else counted
  }

  function RetryAfter(c: Config, b: Breaker, now: real): int {
    if !b.state.Open? || b.openedAt.None? then 1
    else
      var remaining := Ceil(b.openedAt.value + Backoff(c, b.tripCount) - now);
      if remaining > 1 then remaining else 1
  }

  // ---------------------------------------------------------------- runs

  /** One call of the breaker: a request to proceed, or a report of how a call went. */
  datatype Event = Ask(now: real) | Report(outcome: Outcome, now: real)

  function Step(c: Config, b: Breaker, e: Event): Breaker {
    match e
    case Ask(now) => Admit(c, b, now).0
    case Report(outcome, now) => Record(c, b, outcome, now)
  }

  function After(c: Config, es: seq<Event>): Breaker {
    if es == [] then INITIAL else Step(c, After(c, es[..|es| - 1]), es[|es| - 1])
  }

  /** The breaker between events: `At(c, es, k)` is its state after the first `k`. */
  function At(c: Config, es: seq<Event>, k: nat): Breaker
    requires k <= |es|
  {
    After(c, es[..k])
  }

  lemma AtStep(c: Config, es: seq<Event>, k: nat)
    requires k < |es|
    ensures At(c, es, k + 1) == Step(c, At(c, es, k), es[k])
  {
    assert es[..k + 1][..k] == es[..k];
  }

  /** A step that opened or reopened the breaker, or closed it again. */
  predicate Resets(before: Breaker, after: Breaker) {
    after.tripCount == before.tripCount + 1 || (before.state.HalfOpen? && after.state.Closed?)
  }

  /** The outcomes reported, split after each report that tripped or closed the breaker. */
  ghost function Epochs(c: Config, es: seq<Event>): (epochs: seq<seq<Outcome>>)
    ensures epochs != []
  {
    if es == [] then [[]]
    else
      var init, last := es[..|es| - 1], es[|es| - 1];
      var sofar := Epochs(c, init);
      if last.Ask? then sofar
      else
        var grown := sofar[..|sofar| - 1] + [sofar[|sofar| - 1] + [last.outcome]];
        if Resets(After(c, init), After(c, es)) then grown + [[]] else grown
  }

  /** The latencies of the successes in `s`, in order. */
  ghost function SuccessLatencies(s: seq<Outcome>): seq<real> {
    if s == [] then []
    else SuccessLatencies(s[..|s| - 1]) + (if s[|s| - 1].success then [s[|s| - 1].latency] else [])
  }

  /** The successes that a full ring pushed out during one epoch. */
  ghost function Aged(epoch: seq<Outcome>, window: nat): seq<real> {
    if |epoch| > window then SuccessLatencies(epoch[..|epoch| - window]) else []
  }

  ghost function AgedOut(epochs: seq<seq<Outcome>>, window: nat): seq<real> {
    if epochs == [] then []
    else AgedOut(epochs[..|epochs| - 1], window) + Aged(epochs[|epochs| - 1], window)
  }

  lemma LastNExtends<T>(s: seq<T>, x: T, n: nat)
    ensures LastN(LastN(s, n) + [x], n) == LastN(s + [x], n)
  {
  }

  lemma AgedOutSplits(done: seq<seq<Outcome>>, epoch: seq<Outcome>, window: nat)
    ensures AgedOut(done + [epoch], window) == AgedOut(done, window) + Aged(epoch, window)
  {
    assert (done + [epoch])[..|done|] == done;
  }

  /** The latency that the next report pushes out of the ring, if a success is at its head. */
  ghost function Leaving(epoch: seq<Outcome>, window: Positive): seq<real> {
    if |epoch| >= window && epoch[|epoch| - window].success then [epoch[|epoch| - window].latency] else []
  }

  lemma RecordAges(epoch: seq<Outcome>, o: Outcome, window: Positive)
    ensures Aged(epoch + [o], window) == Aged(epoch, window) + Leaving(epoch, window)
  {
    var longer := epoch + [o];
    if |epoch| >= window {
      var k := |epoch| - window;
      var out := longer[..k + 1];
      assert out[..|out| - 1] == epoch[..k] && out[|out| - 1] == epoch[k];
      assert SuccessLatencies(epoch[..k]) == Aged(epoch, window) by {
        assert k == 0 ==> epoch[..k] == [];
      }
    }
  }

  lemma PushAges(c: Config, b: Breaker, o: Outcome, epoch: seq<Outcome>, aged: seq<real>)
    requires b.ring == LastN(epoch, c.windowSize) && b.baseline == LastN(aged, c.latencyBaselineSize)
    ensures Pushed(c, b, o).baseline == LastN(aged + Leaving(epoch, c.windowSize), c.latencyBaselineSize)
  {
    if |epoch| >= c.windowSize {
      var head := epoch[|epoch| - c.windowSize];
      assert |b.ring| == c.windowSize && b.ring[0] == head;
      LastNExtends(aged, head.latency, c.latencyBaselineSize);
    }
    assert aged + [] == aged;
  }

  /** The ring and the baseline of `b` are what the history says. */
  ghost predicate Remembers(c: Config, b: Breaker, epochs: seq<seq<Outcome>>)
    requires epochs != []
  {
    && b.ring == LastN(epochs[|epochs| - 1], c.windowSize)
    && b.baseline == LastN(AgedOut(epochs, c.windowSize), c.latencyBaselineSize)
  }

  lemma GrownAges(done: seq<seq<Outcome>>, epoch: seq<Outcome>, o: Outcome, window: Positive)
    ensures AgedOut(done + [epoch + [o]], window) == AgedOut(done + [epoch], window) + Leaving(epoch, window)
  {
    AgedOutSplits(done, epoch, window);
    AgedOutSplits(done, epoch + [o], window);
    RecordAges(epoch, o, window);
    assert AgedOut(done, window) + (Aged(epoch, window) + Leaving(epoch, window))
        == (AgedOut(done, window) + Aged(epoch, window)) + Leaving(epoch, window);
  }

  lemma PushRemembers(c: Config, b: Breaker, o: Outcome, done: seq<seq<Outcome>>, epoch: seq<Outcome>)
    requires Remembers(c, b, done + [epoch])
    ensures Remembers(c, Pushed(c, b, o), done + [epoch + [o]])
  {
    GrownAges(done, epoch, o, c.windowSize);
    LastNExtends(epoch, o, c.windowSize);
    PushAges(c, b, o, epoch, AgedOut(done + [epoch], c.windowSize));
  }

  /** What a report does to the memory: it is pushed, then forgotten with the ring if it trips or closes. */
  lemma RecordEffect(c: Config, b: Breaker, o: Outcome, now: real)
    ensures var after := Record(c, b, o, now);
            && after.baseline == Pushed(c, b, o).baseline
            && after.ring == if Resets(b, after) then [] else Pushed(c, b, o).ring
  {
  }

  lemma ReportRemembers(c: Config, b: Breaker, o: Outcome, now: real, done: seq<seq<Outcome>>, epoch: seq<Outcome>)
    requires Remembers(c, b, done + [epoch])
    ensures var grown := done + [epoch + [o]];
            Remembers(c, Record(c, b, o, now), if Resets(b, Record(c, b, o, now)) then grown + [[]] else grown)
  {
    PushRemembers(c, b, o, done, epoch);
    RecordEffect(c, b, o, now);
    ClearedRemembers(c, Pushed(c, b, o), Record(c, b, o, now), done + [epoch + [o]]);
  }

  lemma EmptyEpochAges(epochs: seq<seq<Outcome>>, window: Positive)
    ensures AgedOut(epochs + [[]], window) == AgedOut(epochs, window)
  {
    AgedOutSplits(epochs, [], window);
    assert Aged([], window) == [];
  }

  lemma ClearedRemembers(c: Config, pushed: Breaker, after: Breaker, epochs: seq<seq<Outcome>>)
    requires epochs != [] && Remembers(c, pushed, epochs) && after.baseline == pushed.baseline
    ensures after.ring == [] ==> Remembers(c, after, epochs + [[]])
    ensures after.ring == pushed.ring ==> Remembers(c, after, epochs)
  {
    if after.ring == [] {
      EmptyEpochAges(epochs, c.windowSize);
      assert (epochs + [[]])[|epochs + [[]]| - 1] == [];
      assert Remembers(c, after, epochs + [[]]);
    }
  }

  lemma AskForgetsNothing(c: Config, b: Breaker, now: real)
    ensures Admit(c, b, now).0.ring == b.ring && Admit(c, b, now).0.baseline == b.baseline
  {
  }

  /** In every reachable state the ring holds the last outcomes since the last trip or close, and
      the baseline the last successes that a full ring pushed out. */
  lemma {:induction false} RingIsRecentWindow(c: Config, es: seq<Event>)
    ensures var epochs := Epochs(c, es);
            && After(c, es).ring == LastN(epochs[|epochs| - 1], c.windowSize)
            && After(c, es).baseline == LastN(AgedOut(epochs, c.windowSize), c.latencyBaselineSize)
  {
    if es == [] {
      assert Epochs(c, es)[..0] == [];
    } else {
      var init, last := es[..|es| - 1], es[|es| - 1];
      RingIsRecentWindow(c, init);
      var sofar := Epochs(c, init);
      match last
      case Ask(now) => AskForgetsNothing(c, After(c, init), now);
      case Report(o, now) =>
        assert sofar == sofar[..|sofar| - 1] + [sofar[|sofar| - 1]];
        ReportRemembers(c, After(c, init), o, now, sofar[..|sofar| - 1], sofar[|sofar| - 1]);
    }
  }

  /** What every reachable breaker satisfies. */
  ghost predicate Inv(c: Config, b: Breaker) {
    && |b.ring| <= c.windowSize
    && (!b.state.HalfOpen? ==> !MustTrip(c, b.ring, b.baseline))
    && (b.state.Closed? ==> b.tripCount == 0 && b.openedAt.None?)
    && (!b.state.Closed? ==> b.tripCount > 0 && b.openedAt.Some?)
  }

  lemma StepKeeps(c: Config, b: Breaker, e: Event)
    requires Inv(c, b)
    ensures Inv(c, Step(c, b, e))
  {
  }

  lemma {:induction false} RunKeeps(c: Config, es: seq<Event>)
    ensures Inv(c, After(c, es))
  {
    if es != [] {
      RunKeeps(c, es[..|es| - 1]);
      StepKeeps(c, After(c, es[..|es| - 1]), es[|es| - 1]);
    }
  }

  /** Whenever the breaker is closed and its ring is full, both rates are below their thresholds. */
  lemma ClosedMeansHealthy(c: Config, es: seq<Event>)
    ensures var b := After(c, es);
            b.state.Closed? && |b.ring| == c.windowSize ==>
              FailureRate(b.ring) < c.failureRateThreshold && SlowRate(c, b.ring, b.baseline) < c.slowCallRateThreshold
  {
    RunKeeps(c, es);
  }

  // ---------------------------------------------------------------- probing

  /** Between events `i` and `j` the breaker opened for probes and has been probing since: event `i`
      is the call that moved it to half-open, and no event before `j` has moved it on. */
  ghost predicate Episode(c: Config, es: seq<Event>, i: nat, j: nat)
    requires i < j <= |es|
  {
    At(c, es, i).state.Open? && forall k :: i < k <= j ==> At(c, es, k).state.HalfOpen?
  }

  /** Event `k` is a call that was let through. */
  ghost predicate LetThrough(c: Config, es: seq<Event>, k: nat)
    requires k < |es|
  {
    es[k].Ask? && Admit(c, At(c, es, k), es[k].now).1
  }

  ghost function CallsLetThrough(c: Config, es: seq<Event>, i: nat, j: nat): nat
    requires i <= j <= |es|
    decreases j
  {
    if i == j then 0 else CallsLetThrough(c, es, i, j - 1) + (if LetThrough(c, es, j - 1) then 1 else 0)
  }

  ghost function Reports(es: seq<Event>, success: bool, i: nat, j: nat): nat
    requires i <= j <= |es|
    decreases j
  {
    if i == j then 0
    else Reports(es, success, i, j - 1) + (if es[j - 1].Report? && es[j - 1].outcome.success == success then 1 else 0)
  }

  function ProbesNeeded(c: Config): nat {
    if c.halfOpenProbeCount > 1 then c.halfOpenProbeCount else 1
  }

  lemma {:induction false} EpisodeCounts(c: Config, es: seq<Event>, i: nat, j: nat)
    requires i < j <= |es| && Episode(c, es, i, j)
    ensures At(c, es, j).attempts == CallsLetThrough(c, es, i, j) <= ProbesNeeded(c)
    ensures At(c, es, j).successes == Reports(es, true, i, j) < ProbesNeeded(c)
    ensures Reports(es, false, i, j) == 0
    decreases j
  {
    AtStep(c, es, j - 1);
    assert CallsLetThrough(c, es, i, i) == 0;
    if i < j - 1 {
      EpisodeCounts(c, es, i, j - 1);
    }
  }

  /** A half-open episode lets at most the configured number of calls through (at least one). */
  lemma ProbesAreBounded(c: Config, es: seq<Event>, i: nat, j: nat)
    requires i < j <= |es| && Episode(c, es, i, j)
    ensures CallsLetThrough(c, es, i, j) <= ProbesNeeded(c)
  {
    EpisodeCounts(c, es, i, j);
  }

  /** And it lets a further call through exactly while fewer have been than the configured number. */
  lemma ProbeIsLetThroughIff(c: Config, es: seq<Event>, i: nat, j: nat)
    requires i < j < |es| && Episode(c, es, i, j) && es[j].Ask?
    ensures LetThrough(c, es, j) <==> CallsLetThrough(c, es, i, j) < c.halfOpenProbeCount
    ensures At(c, es, j + 1).state == HalfOpen
  {
    EpisodeCounts(c, es, i, j);
    AtStep(c, es, j);
  }

  /** A closed breaker lets every call through and is not changed by it. */
  lemma ClosedLetsThrough(c: Config, b: Breaker, now: real)
    requires b.state.Closed?
    ensures Admit(c, b, now) == (b, true)
  {
  }

  lemma ProbingFollowsOpen(c: Config, b: Breaker, e: Event)
    requires Step(c, b, e).state.HalfOpen?
    ensures b.state.HalfOpen? || b.state.Open?
  {
  }

  lemma HalfOpenBefore(c: Config, es: seq<Event>, j: nat)
    requires 0 < j <= |es| && At(c, es, j).state.HalfOpen?
    ensures At(c, es, j - 1).state.HalfOpen? || At(c, es, j - 1).state.Open?
  {
    AtStep(c, es, j - 1);
    ProbingFollowsOpen(c, At(c, es, j - 1), es[j - 1]);
  }

  lemma {:induction false} EpisodeStart(c: Config, es: seq<Event>, j: nat) returns (i: nat)
    requires j <= |es| && At(c, es, j).state.HalfOpen?
    ensures i < j && Episode(c, es, i, j)
  {
    assert es[..0] == [] && j > 0;
    HalfOpenBefore(c, es, j);
    if At(c, es, j - 1).state.HalfOpen? {
      i := EpisodeStart(c, es, j - 1);
    } else {
      i := j - 1;
    }
  }

  /** The breaker closes only at the end of an episode that saw exactly as many successes as it needs
      and not one failure; and a failure reported in an episode always reopens it. */
  lemma ClosingNeedsEveryProbe(c: Config, es: seq<Event>, j: nat) returns (i: nat)
    requires j < |es| && !At(c, es, j).state.Closed? && At(c, es, j + 1).state.Closed?
    ensures i < j && Episode(c, es, i, j)
    ensures Reports(es, true, i, j + 1) == ProbesNeeded(c) && Reports(es, false, i, j + 1) == 0
    ensures CallsLetThrough(c, es, i, j + 1) <= ProbesNeeded(c)
  {
    AtStep(c, es, j);
    i := EpisodeStart(c, es, j);
    EpisodeCounts(c, es, i, j);
  }

  /** Once an episode has used up its probes, calls that merely ask are all refused and change nothing:
      only reports move the breaker on. */
  lemma {:induction false} AskingAloneIsStuck(c: Config, es: seq<Event>, asks: seq<Event>)
    requires After(c, es).state.HalfOpen? && After(c, es).attempts >= c.halfOpenProbeCount
    requires forall k :: 0 <= k < |asks| ==> asks[k].Ask?
    ensures After(c, es + asks) == After(c, es)
    ensures forall k :: 0 <= k < |asks| ==> !Admit(c, After(c, es), asks[k].now).1
  {
    if asks == [] {
      assert es + asks == es;
    } else {
      AskingAloneIsStuck(c, es, asks[..|asks| - 1]);
      assert (es + asks)[..|es + asks| - 1] == es + asks[..|asks| - 1];
    }
  }

  /** Between `i` and `j` neither enough successes nor any failure has been reported. */
  ghost predicate Undecided(c: Config, es: seq<Event>, i: nat, j: nat)
    requires i <= j <= |es|
  {
    Reports(es, true, i, j) < ProbesNeeded(c) && Reports(es, false, i, j) == 0
  }

  /** What the reports since the opening call decide. */
  ghost function Decision(c: Config, es: seq<Event>, i: nat, j: nat): State
    requires i <= j <= |es|
  {
    if Reports(es, false, i, j) > 0 then Open
    else if Reports(es, true, i, j) >= ProbesNeeded(c) then Closed else HalfOpen
  }

  lemma HalfOpenStep(c: Config, b: Breaker, e: Event)
    requires b.state.HalfOpen? && b.successes >= 0
    ensures Step(c, b, e).state
         == if e.Ask? then HalfOpen
            else if !e.outcome.success then Open
            else if b.successes + 1 >= ProbesNeeded(c) then Closed else HalfOpen
  {
  }

  lemma OpeningStep(c: Config, b: Breaker, e: Event)
    requires b.state.Open? && e.Ask? && Elapsed(c, b, e.now)
    ensures Step(c, b, e).state.HalfOpen?
  {
  }

  lemma ReportsStep(es: seq<Event>, success: bool, i: nat, j: nat)
    requires i < j <= |es|
    ensures Reports(es, success, i, j)
         == Reports(es, success, i, j - 1) + (if es[j - 1].Report? && es[j - 1].outcome.success == success then 1 else 0)
  {
  }

  lemma EpisodeDecides(c: Config, es: seq<Event>, i: nat, j: nat)
    requires i < j < |es| && Episode(c, es, i, j)
    ensures At(c, es, j + 1).state == Decision(c, es, i, j + 1)
  {
    EpisodeCounts(c, es, i, j);
    AtStep(c, es, j);
    HalfOpenStep(c, At(c, es, j), es[j]);
    ReportsStep(es, true, i, j + 1);
    ReportsStep(es, false, i, j + 1);
  }

  ghost predicate Reopens(c: Config, es: seq<Event>, i: nat)
    requires i < |es|
  {
    At(c, es, i).state.Open? && es[i].Ask? && Elapsed(c, At(c, es, i), es[i].now)
  }

  lemma ReopeningCall(c: Config, es: seq<Event>, i: nat)
    requires i < |es| && Reopens(c, es, i)
    ensures Episode(c, es, i, i + 1) && Undecided(c, es, i, i + 1)
  {
    AtStep(c, es, i);
    OpeningStep(c, At(c, es, i), es[i]);
    ReportsStep(es, true, i, i + 1);
    ReportsStep(es, false, i, i + 1);
  }

  lemma {:induction false} UndecidedIsEpisode(c: Config, es: seq<Event>, i: nat, j: nat)
    requires i < j <= |es| && Reopens(c, es, i)
    requires forall k :: i < k <= j ==> Undecided(c, es, i, k)
    ensures Episode(c, es, i, j)
    decreases j
  {
    if j == i + 1 {
      ReopeningCall(c, es, i);
    } else {
      UndecidedIsEpisode(c, es, i, j - 1);
      EpisodeDecides(c, es, i, j - 1);
      assert Undecided(c, es, i, j);
    }
  }

  /** From the call that reopens an open breaker whose backoff has passed, whatever is asked and reported in
      between: the breaker stays half-open until the required successes or a failure have been reported, and
      then closes exactly when no failure was. */
  lemma ReportsDecideEpisode(c: Config, es: seq<Event>, i: nat, j: nat)
    requires i < j <= |es| && Reopens(c, es, i)
    requires forall k :: i < k < j ==> Undecided(c, es, i, k)
    ensures At(c, es, j).state == Decision(c, es, i, j)
  {
    if j == i + 1 {
      ReopeningCall(c, es, i);
    } else {
      UndecidedIsEpisode(c, es, i, j - 1);
      EpisodeDecides(c, es, i, j - 1);
    }
  }

  // ---------------------------------------------------------------- late reports

  /** `of` names the call that each report is about: one that was let through before, and no other report is
      about it. The breaker itself keeps no such record. */
  ghost predicate Answers(c: Config, es: seq<Event>, of: nat -> nat) {
    && (forall k: nat {:trigger of(k)} :: k < |es| && es[k].Report? ==> of(k) < k && LetThrough(c, es, of(k)))
    && (forall j: nat, k: nat {:trigger of(j), of(k)} :: j < k < |es| && es[j].Report? && es[k].Report? ==> of(j) != of(k))
  }

  /** Reports from `i` on about calls let through before `i`. */
  ghost function Late(es: seq<Event>, of: nat -> nat, i: nat, j: nat): nat
    requires i <= j <= |es|
    decreases j
  {
    if i == j then 0 else Late(es, of, i, j - 1) + (if es[j - 1].Report? && of(j - 1) < i then 1 else 0)
  }

  ghost function Probes(c: Config, es: seq<Event>, i: nat, j: nat): set<nat>
    requires i <= j <= |es|
  {
    set k: nat | i <= k < j && LetThrough(c, es, k)
  }

  ghost function Reported(es: seq<Event>, of: nat -> nat, i: nat, j: nat): set<nat>
    requires i <= j <= |es|
  {
    set k: nat | i <= k < j && es[k].Report? && of(k) >= i :: of(k)
  }

  lemma ProbesStep(c: Config, es: seq<Event>, i: nat, j: nat)
    requires i < j <= |es|
    ensures Probes(c, es, i, j) == Probes(c, es, i, j - 1) + (if LetThrough(c, es, j - 1) then {j - 1} else {})
    ensures j - 1 !in Probes(c, es, i, j - 1)
  {
  }

  lemma {:induction false} ProbesCounted(c: Config, es: seq<Event>, i: nat, j: nat)
    requires i <= j <= |es|
    ensures |Probes(c, es, i, j)| == CallsLetThrough(c, es, i, j)
    decreases j
  {
    if i < j {
      ProbesCounted(c, es, i, j - 1);
      ProbesStep(c, es, i, j);
    } else {
      assert Probes(c, es, i, j) == {};
    }
  }

  lemma ReportedStep(c: Config, es: seq<Event>, of: nat -> nat, i: nat, j: nat)
    requires i < j <= |es| && Answers(c, es, of)
    ensures var own := es[j - 1].Report? && of(j - 1) >= i;
            && Reported(es, of, i, j) == Reported(es, of, i, j - 1) + (if own then {of(j - 1)} else {})
            && (own ==> of(j - 1) !in Reported(es, of, i, j - 1))
  {
  }

  lemma OneMore(a: set<nat>, x: nat)
    requires x !in a
    ensures |a + {x}| == |a| + 1
  {
  }

  lemma ReportedGrows(c: Config, es: seq<Event>, of: nat -> nat, i: nat, j: nat)
    requires i < j <= |es| && Answers(c, es, of)
    ensures |Reported(es, of, i, j)| + Late(es, of, i, j)
         == |Reported(es, of, i, j - 1)| + Late(es, of, i, j - 1) + (if es[j - 1].Report? then 1 else 0)
  {
    ReportedStep(c, es, of, i, j);
    if es[j - 1].Report? && of(j - 1) >= i {
      OneMore(Reported(es, of, i, j - 1), of(j - 1));
    } else {
      assert Reported(es, of, i, j - 1) + {} == Reported(es, of, i, j - 1);
    }
  }

  lemma {:induction false} ReportedCounted(c: Config, es: seq<Event>, of: nat -> nat, i: nat, j: nat)
    requires i <= j <= |es| && Answers(c, es, of)
    ensures |Reported(es, of, i, j)| + Late(es, of, i, j) == Reports(es, true, i, j) + Reports(es, false, i, j)
    decreases j
  {
    if i < j {
      ReportedCounted(c, es, of, i, j - 1);
      ReportedGrows(c, es, of, i, j);
      ReportsStep(es, true, i, j);
      ReportsStep(es, false, i, j);
    } else {
      assert Reported(es, of, i, j) == {};
    }
  }

  lemma ReportedAreProbes(c: Config, es: seq<Event>, of: nat -> nat, i: nat, j: nat)
    requires i <= j <= |es| && Answers(c, es, of)
    ensures Reported(es, of, i, j) <= Probes(c, es, i, j)
  {
  }

  lemma FullSubset(a: set<nat>, b: set<nat>)
    requires a <= b && |a| >= |b|
    ensures a == b
  {
    if x :| x in b && x !in a {
      SubsetSize(a + {x}, b);
    }
  }

  lemma EpisodeOwnsIff(c: Config, es: seq<Event>, i: nat, j: nat, of: nat -> nat)
    requires i <= j <= |es| && Answers(c, es, of) && Reports(es, false, i, j) == 0
    requires CallsLetThrough(c, es, i, j) <= Reports(es, true, i, j)
    ensures CallsLetThrough(c, es, i, j) + Late(es, of, i, j) >= Reports(es, true, i, j)
    ensures Late(es, of, i, j) == 0
       <==> CallsLetThrough(c, es, i, j) == Reports(es, true, i, j) && Reported(es, of, i, j) == Probes(c, es, i, j)
  {
    ProbesCounted(c, es, i, j);
    ReportedCounted(c, es, of, i, j);
    ReportedAreProbes(c, es, of, i, j);
    SubsetSize(Reported(es, of, i, j), Probes(c, es, i, j));
    if Late(es, of, i, j) == 0 {
      FullSubset(Reported(es, of, i, j), Probes(c, es, i, j));
    }
  }

  /** The breaker counts reports, not probes. It closes on its own probes alone - as many as it needs, each let
      through in the episode and each reported - exactly if no report in the episode was about an earlier
      call; and every late report can stand in for a probe. */
  lemma ClosesOnItsProbesIff(c: Config, es: seq<Event>, j: nat, of: nat -> nat) returns (i: nat)
    requires j < |es| && !At(c, es, j).state.Closed? && At(c, es, j + 1).state.Closed? && Answers(c, es, of)
    ensures i < j && Episode(c, es, i, j)
    ensures CallsLetThrough(c, es, i, j + 1) + Late(es, of, i, j + 1) >= ProbesNeeded(c)
    ensures Late(es, of, i, j + 1) == 0
       <==> CallsLetThrough(c, es, i, j + 1) == ProbesNeeded(c) && Reported(es, of, i, j + 1) == Probes(c, es, i, j + 1)
  {
    i := ClosingNeedsEveryProbe(c, es, j);
    EpisodeOwnsIff(c, es, i, j + 1, of);
  }

  /** Three calls are let through; one fails and trips the breaker; the next call probes; then the two late
      successes close it, although its one probe has not come back. */
  function LateRun(latency: real, t: real): seq<Event> {
    [Ask(0.0), Ask(0.0), Ask(0.0), Report(Outcome(false, latency), 0.0), Ask(t),
     Report(Outcome(true, latency), t), Report(Outcome(true, latency), t)]
  }

  function LateReportsOf(k: nat): nat {
    if k == 3 then 0 else if k == 5 then 1 else 2
  }

  lemma CountOne(o: Outcome, counts: Outcome -> bool)
    requires counts(o)
    ensures Count([o], counts) == 1
  {
    assert [o][..0] == [];
  }

  lemma OneFailure(o: Outcome)
    requires !o.success
    ensures FailureRate([o]) == 1.0
  {
    CountOne(o, (x: Outcome) => !x.success);
  }

  lemma LateRunStates(c: Config, latency: real, t: real)
    requires c.windowSize == 1 && c.failureRateThreshold <= 1.0 && c.halfOpenProbeCount == 2 && t >= Backoff(c, 1)
    ensures var es, failed, late := LateRun(latency, t), Outcome(false, latency), Outcome(true, latency);
            && At(c, es, 0) == At(c, es, 1) == At(c, es, 2) == At(c, es, 3) == INITIAL
            && At(c, es, 4) == Breaker([], [], Open, 1, Some(0.0), 0, 0)
            && At(c, es, 5) == Breaker([], [], HalfOpen, 1, Some(0.0), 1, 0)
            && At(c, es, 6) == Breaker([late], [], HalfOpen, 1, Some(0.0), 1, 1)
  {
    var es, ring := LateRun(latency, t), [Outcome(false, latency)];
    assert At(c, es, 0) == INITIAL;
    AtStep(c, es, 0);
    AtStep(c, es, 1);
    AtStep(c, es, 2);
    AtStep(c, es, 3);
    OneFailure(ring[0]);
    assert Pushed(c, INITIAL, ring[0]).ring == ring;
    AtStep(c, es, 4);
    AtStep(c, es, 5);
  }

  lemma LateRunAnswers(c: Config, latency: real, t: real)
    requires var es := LateRun(latency, t);
             At(c, es, 0) == At(c, es, 1) == At(c, es, 2) == INITIAL
    ensures Answers(c, LateRun(latency, t), LateReportsOf)
  {
    var es := LateRun(latency, t);
    assert LetThrough(c, es, 0) && LetThrough(c, es, 1) && LetThrough(c, es, 2);
    assert forall k: nat :: k < |es| && es[k].Report? ==> k == 3 || k == 5 || k == 6;
  }

  lemma LateReportsClose(c: Config, latency: real, t: real)
    requires c.windowSize == 1 && c.failureRateThreshold <= 1.0 && c.halfOpenProbeCount == 2 && t >= Backoff(c, 1)
    ensures var es := LateRun(latency, t);
            && Answers(c, es, LateReportsOf)
            && At(c, es, 6).state.HalfOpen? && At(c, es, 7).state.Closed?
            && CallsLetThrough(c, es, 4, 7) == 1 && Late(es, LateReportsOf, 4, 7) == 2
  {
    var es := LateRun(latency, t);
    LateRunStates(c, latency, t);
    LateRunAnswers(c, latency, t);
    AtStep(c, es, 6);
    assert CallsLetThrough(c, es, 4, 5) == 1 && CallsLetThrough(c, es, 4, 6) == 1;
    assert Late(es, LateReportsOf, 4, 5) == 0 && Late(es, LateReportsOf, 4, 6) == 1;
  }

  // ---------------------------------------------------------------- waiting

  lemma CeilIsLeast(x: real, k: int)
    ensures k as real >= x <==> k >= Ceil(x)
  {
    var least := Ceil(x);
    assert least as real >= x > least as real - 1.0;
    assert k >= least ==> k as real >= least as real;
    assert k < least ==> k as real <= least as real - 1.0;
  }

  /** The number of trips since the breaker last closed. */
  ghost function TripsSinceClose(c: Config, es: seq<Event>): nat {
    if es == [] then 0
    else
      var before, after := After(c, es[..|es| - 1]), After(c, es);
      if after.state.Closed? then 0
      else TripsSinceClose(c, es[..|es| - 1]) + (if Resets(before, after) then 1 else 0)
  }

  /** A step closes the breaker, trips it once more, or leaves its count of trips alone. */
  lemma StepCountsTrips(c: Config, b: Breaker, e: Event)
    requires Inv(c, b)
    ensures var after := Step(c, b, e);
            after.tripCount == if after.state.Closed? then 0 else b.tripCount + (if Resets(b, after) then 1 else 0)
  {
  }

  lemma {:induction false} BackoffDoublesWithTrips(c: Config, es: seq<Event>)
    ensures After(c, es).tripCount == TripsSinceClose(c, es)
  {
    if es != [] {
      var init := es[..|es| - 1];
      BackoffDoublesWithTrips(c, init);
      RunKeeps(c, init);
      StepCountsTrips(c, After(c, init), es[|es| - 1]);
    }
  }

  /** From any reachable open state, the whole seconds to wait that `RetryAfter` names are the fewest
      that make the next call go through, if no outcome is reported meanwhile. */
  lemma RetryAfterIsTheLeastWait(c: Config, es: seq<Event>, now: real, seconds: int)
    requires After(c, es).state.Open? && seconds >= 1
    ensures Admit(c, After(c, es), now + seconds as real).1 <==> seconds >= RetryAfter(c, After(c, es), now)
  {
    RunKeeps(c, es);
    var b := After(c, es);
    CeilIsLeast(b.openedAt.value + Backoff(c, b.tripCount) - now, seconds);
  }

  /** In any other state it names one second. */
  lemma RetryAfterIsOneUnlessOpen(c: Config, b: Breaker, now: real)
    ensures !b.state.Open? ==> RetryAfter(c, b, now) == 1
    ensures RetryAfter(c, b, now) >= 1
  {
  }

  // ---------------------------------------------------------------- the 99th percentile

  ghost function AtMost(s: seq<real>, v: real): nat {
    if s == [] then 0 else AtMost(s[..|s| - 1], v) + (if s[|s| - 1] <= v then 1 else 0)
  }

  lemma {:induction false} InsertCounts(s: seq<real>, x: real, v: real)
    ensures AtMost(Insert(s, x, Smaller), v) == AtMost(s, v) + (if x <= v then 1 else 0)
  {
    if s == [] {
      assert [x][..0] == [];
    } else {
      var init, last := s[..|s| - 1], s[|s| - 1];
      if x < last {
        InsertCounts(init, x, v);
        assert (Insert(init, x, Smaller) + [last])[..|Insert(init, x, Smaller)|] == Insert(init, x, Smaller);
      } else {
        assert (s + [x])[..|s|] == s;
      }
    }
  }

  lemma {:induction false} SortingCounts(s: seq<real>, v: real)
    ensures AtMost(Sorted(s, Smaller), v) == AtMost(s, v)
  {
    if s != [] {
      SortingCounts(s[..|s| - 1], v);
      InsertCounts(Sorted(s[..|s| - 1], Smaller), s[|s| - 1], v);
    }
  }

  lemma {:induction false} CountUpTo(s: seq<real>, k: nat, v: real)
    requires k <= |s|
    ensures (forall i :: 0 <= i < k ==> s[i] <= v) ==> AtMost(s, v) >= k
    ensures (forall i :: k <= i < |s| ==> s[i] > v) ==> AtMost(s, v) <= k
  {
    if s != [] {
      var init := s[..|s| - 1];
      if k == |s| {
        CountUpTo(init, k - 1, v);
        CountAtMostLength(s, v);
      } else {
        CountUpTo(init, k, v);
      }
    }
  }

  lemma {:induction false} CountAtMostLength(s: seq<real>, v: real)
    ensures AtMost(s, v) <= |s|
  {
    if s != [] {
      CountAtMostLength(s[..|s| - 1], v);
    }
  }

  lemma SortedRank(sorted: seq<real>, k: nat, v: real)
    requires k < |sorted| && Ordered(sorted, Smaller)
    ensures AtMost(sorted, v) > k <==> sorted[k] <= v
  {
    if sorted[k] <= v {
      forall i | 0 <= i < k + 1 ensures sorted[i] <= v {
        assert i < k ==> !Smaller(sorted[k], sorted[i]);
      }
      CountUpTo(sorted, k + 1, v);
    } else {
      forall i | k <= i < |sorted| ensures sorted[i] > v {
        assert i > k ==> !Smaller(sorted[i], sorted[k]);
      }
      CountUpTo(sorted, k, v);
    }
  }

  /** The slow-call threshold is judged against the nearest-rank 99th percentile: it is a sample, and
      at least 99% of the samples are at or below `v` exactly when `v` reaches it. */
  lemma P99IsNearestRank(baseline: seq<real>, v: real)
    requires |baseline| >= MIN_BASELINE_SAMPLES
    ensures P99(baseline).Some? && P99(baseline).value in baseline
    ensures AtMost(baseline, v) as real >= 0.99 * (|baseline| as real) <==> P99(baseline).value <= v
  {
    var n := |baseline|;
    var share := 0.99 * (n as real);
    CeilIsLeast(share, n);
    CeilIsLeast(share, 0);
    var k := Ceil(share) - 1;
    var sorted := Sorted(baseline, Smaller);
    SortedIsOrdered(baseline, Smaller);
    assert P99(baseline).value == sorted[k];
    assert sorted[k] in multiset(sorted);
    SortedRank(sorted, k, v);
    SortingCounts(baseline, v);
    CeilIsLeast(share, AtMost(baseline, v));
  }

  // ---------------------------------------------------------------- exactly when it trips

  ghost function FailuresAt(ring: seq<Outcome>): set<nat> {
    set i: nat | i < |ring| && !ring[i].success
  }

  ghost function SlowAt(ring: seq<Outcome>, limit: real): set<nat> {
    set i: nat | i < |ring| && ring[i].success && ring[i].latency > limit
  }

  /** `p` is the sample that at least 99% of the samples do not exceed, and no lesser one does. */
  ghost predicate NearestRank(baseline: seq<real>, p: real) {
    p in baseline && forall v :: AtMost(baseline, v) as real >= 0.99 * (|baseline| as real) <==> p <= v
  }

  ghost function Share(threshold: real, size: nat): real {
    threshold * (size as real)
  }

  ghost function Multiple(p: real, c: Config): real {
    p * c.slowCallMultiplier
  }

  lemma {:induction false} CountIsWhere(ring: seq<Outcome>, counts: Outcome -> bool)
    ensures Count(ring, counts) == |Where(ring, counts)|
  {
    if ring != [] {
      CountIsWhere(ring[..|ring| - 1], counts);
      WhereAppend(ring, counts);
    } else {
      assert Where(ring, counts) == {};
    }
  }

  lemma RateReaches(n: nat, size: Positive, threshold: real)
    ensures (n as real) / (size as real) >= threshold <==> n as real >= Share(threshold, size)
  {
    var rate, whole := (n as real) / (size as real), size as real;
    assert rate * whole == n as real;
    if rate >= threshold {
      assert (rate - threshold) * whole >= 0.0;
    } else {
      assert (threshold - rate) * whole > 0.0;
    }
  }

  lemma FailureRateReaches(ring: seq<Outcome>, threshold: real)
    requires ring != []
    ensures FailureRate(ring) >= threshold <==> |FailuresAt(ring)| as real >= Share(threshold, |ring|)
  {
    var failed := (o: Outcome) => !o.success;
    CountIsWhere(ring, failed);
    assert Where(ring, failed) == FailuresAt(ring);
    RateReaches(|FailuresAt(ring)|, |ring|, threshold);
  }

  lemma NearestRankIsP99(baseline: seq<real>, p: real)
    requires |baseline| >= 5
    ensures NearestRank(baseline, p) <==> P99(baseline) == Some(p)
  {
    forall v ensures AtMost(baseline, v) as real >= 0.99 * (|baseline| as real) <==> P99(baseline).value <= v {
      P99IsNearestRank(baseline, v);
    }
    P99IsNearestRank(baseline, 0.0);
    if NearestRank(baseline, p) {
      var q := P99(baseline).value;
      assert AtMost(baseline, p) as real >= 0.99 * (|baseline| as real) <==> q <= p;
      assert AtMost(baseline, q) as real >= 0.99 * (|baseline| as real) <==> q <= q;
    }
  }

  lemma SlowRateReaches(c: Config, ring: seq<Outcome>, baseline: seq<real>, p: real, threshold: real)
    requires ring != [] && P99(baseline) == Some(p)
    ensures SlowRate(c, ring, baseline) >= threshold
       <==> |SlowAt(ring, Multiple(p, c))| as real >= Share(threshold, |ring|)
  {
    assert SlowLimit(c, p) == Multiple(p, c);
    SlowRateIs(c, ring, baseline, p, Multiple(p, c));
    CountIsWhere(ring, SlowerThan(Multiple(p, c)));
    SlowerThanIs(ring, Multiple(p, c));
    RateReaches(|SlowAt(ring, Multiple(p, c))|, |ring|, threshold);
  }

  lemma SlowRateIs(c: Config, ring: seq<Outcome>, baseline: seq<real>, p: real, limit: real)
    requires ring != [] && P99(baseline) == Some(p) && limit == SlowLimit(c, p)
    ensures SlowRate(c, ring, baseline) == (Count(ring, SlowerThan(limit)) as real) / (|ring| as real)
  {
  }

  lemma SlowerThanIs(ring: seq<Outcome>, limit: real)
    ensures Where(ring, SlowerThan(limit)) == SlowAt(ring, limit)
  {
  }

  /** At least the threshold's share of the window is slower than the multiple of `p`. */
  ghost predicate ManySlow(c: Config, ring: seq<Outcome>, p: real) {
    |SlowAt(ring, Multiple(p, c))| as real >= Share(c.slowCallRateThreshold, |ring|)
  }

  /** Too many slow calls, judged only with five samples or more; with fewer no call is slow. */
  ghost predicate TooSlow(c: Config, ring: seq<Outcome>, baseline: seq<real>) {
    if |baseline| < 5 then c.slowCallRateThreshold <= 0.0
    else exists p :: NearestRank(baseline, p) && ManySlow(c, ring, p)
  }

  lemma TooSlowIff(c: Config, ring: seq<Outcome>, baseline: seq<real>)
    requires |ring| == c.windowSize
    ensures TooSlow(c, ring, baseline) <==> SlowRate(c, ring, baseline) >= c.slowCallRateThreshold
  {
    if |baseline| < 5 {
      NoSampleNoneSlow(c, ring, baseline);
    } else {
      P99IsNearestRank(baseline, 0.0);
      var p := P99(baseline).value;
      NearestRankIsP99(baseline, p);
      SlowRateReaches(c, ring, baseline, p, c.slowCallRateThreshold);
      assert ManySlow(c, ring, p) <==> SlowRate(c, ring, baseline) >= c.slowCallRateThreshold;
      forall q | NearestRank(baseline, q) ensures q == p {
        NearestRankIsP99(baseline, q);
      }
    }
  }

  lemma NoSampleNoneSlow(c: Config, ring: seq<Outcome>, baseline: seq<real>)
    requires ring != [] && |baseline| < 5
    ensures SlowRate(c, ring, baseline) == 0.0
  {
  }

  ghost predicate ShouldTrip(c: Config, ring: seq<Outcome>, baseline: seq<real>) {
    && |ring| == c.windowSize
    && (|FailuresAt(ring)| as real >= Share(c.failureRateThreshold, |ring|) || TooSlow(c, ring, baseline))
  }

  lemma MustTripIff(c: Config, ring: seq<Outcome>, baseline: seq<real>)
    requires |ring| <= c.windowSize
    ensures MustTrip(c, ring, baseline) <==> ShouldTrip(c, ring, baseline)
  {
    if |ring| == c.windowSize {
      FailureRateReaches(ring, c.failureRateThreshold);
      TooSlowIff(c, ring, baseline);
    }
  }

  /** The ring and the baseline with one more outcome: a full ring drops its oldest, whose latency joins the
      baseline if it was a success; a full baseline drops its oldest too. */
  ghost function RingWith(c: Config, b: Breaker, o: Outcome): seq<Outcome>
    requires |b.ring| <= c.windowSize
  {
    if |b.ring| < c.windowSize then b.ring + [o] else b.ring[1..] + [o]
  }

  ghost function BaselineWith(c: Config, b: Breaker): seq<real> {
    if |b.ring| < c.windowSize || !b.ring[0].success then b.baseline
    else
      var longer := b.baseline + [b.ring[0].latency];
      if |longer| <= c.latencyBaselineSize then longer else longer[|longer| - c.latencyBaselineSize..]
  }

  lemma PushedIs(c: Config, b: Breaker, o: Outcome)
    requires |b.ring| <= c.windowSize
    ensures Pushed(c, b, o) == b.(ring := RingWith(c, b, o), baseline := BaselineWith(c, b))
  {
    if |b.ring| == c.windowSize {
      assert (b.ring + [o])[1..] == b.ring[1..] + [o];
    }
  }

  /** In every reachable state that is not half-open, a report trips the breaker if and only if the ring is
      full with it and holds enough failures or enough slow calls; otherwise it is remembered and nothing
      else changes. */
  lemma TripsIff(c: Config, es: seq<Event>, o: Outcome, now: real)
    requires !After(c, es).state.HalfOpen?
    ensures var b := After(c, es);
            && |b.ring| <= c.windowSize
            && var ring, baseline := RingWith(c, b, o), BaselineWith(c, b);
               Step(c, b, Report(o, now))
               == if ShouldTrip(c, ring, baseline)
                  then b.(ring := [], baseline := baseline, state := Open, tripCount := b.tripCount + 1, openedAt := Some(now))
                  else b.(ring := ring, baseline := baseline)
  {
    var b := After(c, es);
    RunKeeps(c, es);
    PushedIs(c, b, o);
    MustTripIff(c, RingWith(c, b, o), BaselineWith(c, b));
  }

  // ---------------------------------------------------------------- how long it stays open

  /** The wait doubles with every trip, up to the longest. */
  ghost function Wait(c: Config, trips: nat): real {
    var uncapped := if trips <= 1 then c.baseBackoff else 2.0 * Wait(c, trips - 1);
    if uncapped <= c.maxBackoff then uncapped else c.maxBackoff
  }

  lemma PowerDoubles(base: real, n: nat)
    ensures base * Power2(n + 1) == 2.0 * (base * Power2(n))
  {
    var p := Power2(n);
    assert Power2(n + 1) == 2.0 * p;
    assert base * (2.0 * p) == 2.0 * (base * p);
  }

  lemma {:induction false} BackoffIsWait(c: Config, trips: nat)
    requires c.maxBackoff >= 0.0
    ensures Backoff(c, trips) == Wait(c, trips)
  {
    if trips <= 1 {
      assert c.baseBackoff * 1.0 == c.baseBackoff;
    } else {
      BackoffIsWait(c, trips - 1);
      PowerDoubles(c.baseBackoff, trips - 2);
    }
  }

  /** From any reachable open state the next call goes through, as the first probe, exactly once the wait for
      as many trips as there were since the breaker last closed has passed. */
  lemma ReopensAfterWait(c: Config, es: seq<Event>, now: real)
    requires After(c, es).state.Open? && c.maxBackoff >= 0.0
    ensures var b := After(c, es);
            var (b', through) := Admit(c, b, now);
            && b.openedAt.Some?
            && (through <==> now >= b.openedAt.value + Wait(c, TripsSinceClose(c, es)))
            && b' == if through then b.(state := HalfOpen, attempts := 1, successes := 0) else b
  {
    RunKeeps(c, es);
    BackoffDoublesWithTrips(c, es);
    BackoffIsWait(c, TripsSinceClose(c, es));
  }

  // ---------------------------------------------------------------- the breaker, in place

  class CircuitBreaker {
    const config: Config
    var ring: seq<Outcome>
    var latencyBaseline: seq<real>
    var state: State
    var tripCount: nat
    var openedAt: Option<real>
    var halfOpenAttempts: int
    var halfOpenSuccesses: int

    function Now(): Breaker
      reads this
    {
      Breaker(ring, latencyBaseline, state, tripCount, openedAt, halfOpenAttempts, halfOpenSuccesses)
    }

    constructor (config: Config)
      ensures this.config == config && Now() == INITIAL
    {
      this.config := config;
      ring, latencyBaseline, state, tripCount, openedAt := [], [], Closed, 0, None;
      halfOpenAttempts, halfOpenSuccesses := 0, 0;
    }

    method Allow(now: real) returns (allowed: bool)
      modifies this
      ensures (Now(), allowed) == Admit(config, old(Now()), now)
    {
      if state.Closed? {
        return true;
      }
      if state.Open? {
        if Elapsed(config, Now(), now) {
          state := HalfOpen;
          halfOpenAttempts := 1;
          halfOpenSuccesses := 0;
          return true;
        }
        return false;
      }
      if halfOpenAttempts < config.halfOpenProbeCount {
        halfOpenAttempts := halfOpenAttempts + 1;
        return true;
      }
      allowed := false;
    }

    method RecordSuccess(latency: real, now: real)
      modifies this
      ensures Now() == Record(config, old(Now()), Outcome(true, latency), now)
    {
      PushToRing(Outcome(true, latency));
      if state.HalfOpen? {
        halfOpenSuccesses := halfOpenSuccesses + 1;
        if halfOpenSuccesses >= config.halfOpenProbeCount {
          Close();
        }
        return;
      }
      Evaluate(now);
    }

    method RecordFailure(latency: real, now: real)
      modifies this
      ensures Now() == Record(config, old(Now()), Outcome(false, latency), now)
    {
      PushToRing(Outcome(false, latency));
      if state.HalfOpen? {
        Trip(now);
        return;
      }
      Evaluate(now);
    }

    method PushToRing(outcome: Outcome)
      modifies this
      ensures Now() == Pushed(config, old(Now()), outcome)
    {
      if |ring| == config.windowSize {
        var evicted := ring[0];
        if evicted.success {
          latencyBaseline := LastN(latencyBaseline + [evicted.latency], config.latencyBaselineSize);
        }
      }
      ring := LastN(ring + [outcome], config.windowSize);
    }

    method Evaluate(now: real)
      modifies this
      ensures Now() == Evaluated(config, old(Now()), now)
    {
      if |ring| < config.windowSize {
        return;
      }
      if FailureRate(ring) >= config.failureRateThreshold
         || SlowRate(config, ring, latencyBaseline) >= config.slowCallRateThreshold {
        Trip(now);
      }
    }

    method Trip(now: real)
      modifies this
      ensures Now() == Tripped(old(Now()), now)
    {
      tripCount := tripCount + 1;
      state := Open;
      openedAt := Some(now);
      ring := [];
    }

    method Close()
      modifies this
      ensures Now() == Reclosed(old(Now()))
    {
      state := Closed;
      tripCount := 0;
      openedAt := None;
      ring := [];
    }

    method RetryAfterSeconds(now: real) returns (seconds: int)
      ensures seconds == RetryAfter(config, Now(), now)
    {
      if !state.Open? || openedAt.None? {
        return 1;
      }
      var remaining := openedAt.value + Backoff(config, tripCount) - now;
      seconds := if Ceil(remaining) > 1 then Ceil(remaining) else 1;
    }
  }
}
