/** The rotation engine: one timer wheel per zone, deadlines computed from the score, and the sweep that
    pops what is due and compresses what still qualifies. */
module RotationEngine {
  import opened Lifecycle
  import opened Sequences
  import opened Text
  import opened Zones
  import D = RotationDeadline
  import T = TimerWheel

  /** A zone's decay rate and threshold. */
  datatype Policy = Policy(decayRate: real, compressThreshold: real)

  datatype ScheduleOutcome = ScheduledAt(dueAt: real) | PinnedItem | Refused

  datatype SweepResult =
    | BlankTenant
    | Swept(transitioned: seq<Key>, skipped: seq<Key>, failed: seq<Key>)

  /** The item's new deadline, and what that does to its zone's wheel. */
  function Rescheduled(e: D.Exponential, wheel: T.Wheel, itemId: string, policy: Policy, w: real, c: real,
                       maxAge: real, cooldown: real, now: real): (T.Wheel, ScheduleOutcome)
  {
    match D.ComputeRotationDeadline(e, policy.decayRate, policy.compressThreshold, w, c, maxAge, cooldown)
    case InvalidArguments => (wheel, Refused)
    case Pinned => (T.Invalidated(wheel, itemId), PinnedItem)
    case Scheduled(delta) =>
      if Blank(itemId) then (wheel, Refused) else (T.Scheduled(wheel, itemId, now + delta), ScheduledAt(now + delta))
  }

  function DueIds(due: seq<T.ScheduledRotation>): (ids: seq<string>)
    ensures |ids| == |due| && forall k :: 0 <= k < |due| ==> ids[k] == due[k].itemId
  {
    Mapped(due, (d: T.ScheduledRotation) => d.itemId)
  }

  /** What one sweep of a zone leaves behind: its wheel, the items, and the report. */
  function SweptZone(wheel: T.Wheel, items: Items, tenantId: string, zone: Zone, policy: Policy, asOf: real,
                     ports: nat -> Port): (T.Wheel, Items, SweepResult)
  {
    if Blank(tenantId) then (wheel, items, BlankTenant)
    else
      var (wheel', due) := T.Popped(wheel, asOf);
      var keys := Keys(tenantId, zone, DueIds(due));
      var engine := Rotation(policy.compressThreshold);
      var (items', verdicts) := ProcessAll(items, keys, engine, ports);
      VerdictCount(items, keys, engine, ports);
      (wheel', items', Swept(WithVerdict(keys, verdicts, Moved), WithVerdict(keys, verdicts, Skipped),
                             WithVerdict(keys, verdicts, Failed)))
  }

  // ---------------------------------------------------------------- what a sweep promises

  /** A sweep reports every item it popped exactly once, and leaves none of them in the wheel, whatever
      became of it: a skipped or failed item is not tried again until it is scheduled again. */
  lemma SweepAccountsForEveryPop(wheel: T.Wheel, items: Items, tenantId: string, zone: Zone, policy: Policy,
                                 asOf: real, ports: nat -> Port)
    requires T.Inv(wheel) && !Blank(tenantId)
    ensures var (wheel', items', result) := SweptZone(wheel, items, tenantId, zone, policy, asOf, ports);
            var keys := Keys(tenantId, zone, DueIds(T.Popped(wheel, asOf).1));
            && result.Swept?
            && multiset(keys) == multiset(result.transitioned) + multiset(result.skipped) + multiset(result.failed)
            && NoDuplicates(keys)
            && forall k :: 0 <= k < |keys| ==> keys[k].itemId !in wheel'.dueAt
  {
    var (wheel', due) := T.Popped(wheel, asOf);
    var keys := Keys(tenantId, zone, DueIds(due));
    var engine := Rotation(policy.compressThreshold);
    VerdictCount(items, keys, engine, ports);
    VerdictsPartition(keys, ProcessAll(items, keys, engine, ports).1);
    T.PopKeepsContract(wheel, asOf);
    forall k | 0 <= k < |keys| ensures keys[k].itemId !in wheel'.dueAt {
      assert T.Listed(due, due[k].itemId);
    }
  }

  /** Only active items move, only to compressed, and only those that were popped. */
  lemma SweepOnlyCompresses(wheel: T.Wheel, items: Items, tenantId: string, zone: Zone, policy: Policy,
                            asOf: real, ports: nat -> Port, key: Key)
    requires !Blank(tenantId) && key in items
    ensures var (wheel', items', result) := SweptZone(wheel, items, tenantId, zone, policy, asOf, ports);
            && items'.Keys == items.Keys
            && (items'[key] != items[key] ==>
                 && items[key].Active? && items'[key].Compressed?
                 && key.tenantId == tenantId && key.zone == zone && T.Listed(T.Popped(wheel, asOf).1, key.itemId))
  {
    var due := T.Popped(wheel, asOf).1;
    var keys := Keys(tenantId, zone, DueIds(due));
    SweepMoves(items, keys, Rotation(policy.compressThreshold), ports, key);
    if k :| 0 <= k < |keys| && keys[k] == key {
      assert due[k].itemId == key.itemId;
    }
  }

  // ---------------------------------------------------------------- the life of a wheel entry

  /** What can happen to a zone between scheduling an item and sweeping it: another score is computed,
      some tenant is swept, or another component changes an item's state. */
  datatype Event =
    | Reschedule(itemId: string, policy: Policy, w: real, c: real, maxAge: real, cooldown: real, now: real)
    | Sweep(tenantId: string, policy: Policy, asOf: real, ports: nat -> Port)
    | Elsewhere(key: Key, state: RotationState)

  datatype ZoneState = ZoneState(wheel: T.Wheel, items: Items)

  function Next(e: D.Exponential, zone: Zone, s: ZoneState, event: Event): ZoneState {
    match event
    case Reschedule(itemId, policy, w, c, maxAge, cooldown, now) =>
      s.(wheel := Rescheduled(e, s.wheel, itemId, policy, w, c, maxAge, cooldown, now).0)
    case Sweep(tenantId, policy, asOf, ports) =>
      var (wheel, items, _) := SweptZone(s.wheel, s.items, tenantId, zone, policy, asOf, ports);
      ZoneState(wheel, items)
    case Elsewhere(key, state) => s.(items := s.items[key := state])
  }

  function After(e: D.Exponential, zone: Zone, s: ZoneState, events: seq<Event>): ZoneState {
    if events == [] then s else Next(e, zone, After(e, zone, s, events[..|events| - 1]), events[|events| - 1])
  }

  /** Nobody computes the item a new deadline, and no other component changes its state. */
  ghost predicate LeavesAlone(event: Event, key: Key) {
    match event
    case Reschedule(itemId, _, _, _, _, _, _) => itemId != key.itemId
    case Sweep(_, _, _, _) => true
    case Elsewhere(other, _) => other != key
  }

  /** A sweep, of whatever tenant, that finds in `wheel` an entry it takes for the item's. */
  ghost predicate Takes(wheel: T.Wheel, event: Event, itemId: string) {
    event.Sweep? && !Blank(event.tenantId) && T.Poppable(wheel, event.asOf, itemId)
  }

  ghost predicate NoneTakes(wheel: T.Wheel, events: seq<Event>, itemId: string) {
    forall k :: 0 <= k < |events| ==> !Takes(wheel, events[k], itemId)
  }

  /** As scheduled and as it was, or out of the wheel. */
  ghost predicate Waiting(s0: ZoneState, s: ZoneState, key: Key) {
    && T.StillScheduled(s0.wheel, s.wheel, key.itemId)
    && key in s0.items && key in s.items && s.items[key] == s0.items[key]
  }

  ghost predicate OutOfWheel(s: ZoneState, key: Key) {
    key.itemId !in s.wheel.dueAt
  }

  /** What computing a deadline can do to the wheel. */
  ghost predicate FollowsOutcome(wheel: T.Wheel, wheel': T.Wheel, itemId: string, outcome: ScheduleOutcome) {
    match outcome
    case Refused => wheel' == wheel
    case PinnedItem => wheel' == T.Invalidated(wheel, itemId)
    case ScheduledAt(dueAt) => wheel' == T.Scheduled(wheel, itemId, dueAt)
  }

  lemma RescheduledFollows(e: D.Exponential, wheel: T.Wheel, itemId: string, policy: Policy, w: real, c: real,
                           maxAge: real, cooldown: real, now: real)
    ensures var (wheel', outcome) := Rescheduled(e, wheel, itemId, policy, w, c, maxAge, cooldown, now);
            FollowsOutcome(wheel, wheel', itemId, outcome)
  {
  }

  lemma OutcomeOfOtherKeeps(was: T.Wheel, wheel: T.Wheel, wheel': T.Wheel, itemId: string, other: string,
                            outcome: ScheduleOutcome)
    requires T.Inv(wheel) && other != itemId && FollowsOutcome(wheel, wheel', other, outcome)
    ensures T.Inv(wheel')
    ensures T.StillScheduled(was, wheel, itemId) ==> T.StillScheduled(was, wheel', itemId)
    ensures itemId !in wheel.dueAt ==> itemId !in wheel'.dueAt
  {
    match outcome
    case Refused =>
    case PinnedItem => T.InvalidateOtherKeeps(was, wheel, itemId, other);
    case ScheduledAt(dueAt) => T.ScheduleOtherKeeps(was, wheel, itemId, other, dueAt);
  }

  lemma RescheduleKeeps(e: D.Exponential, zone: Zone, s0: ZoneState, s: ZoneState, event: Event, key: Key)
    requires T.Inv(s.wheel) && event.Reschedule? && LeavesAlone(event, key)
    ensures var s' := Next(e, zone, s, event);
            && T.Inv(s'.wheel)
            && (Waiting(s0, s, key) ==> Waiting(s0, s', key))
            && (OutOfWheel(s, key) ==> OutOfWheel(s', key))
  {
    RescheduledFollows(e, s.wheel, event.itemId, event.policy, event.w, event.c, event.maxAge, event.cooldown, event.now);
    var (wheel', outcome) := Rescheduled(e, s.wheel, event.itemId, event.policy, event.w, event.c, event.maxAge,
                                         event.cooldown, event.now);
    OutcomeOfOtherKeeps(s0.wheel, s.wheel, wheel', key.itemId, event.itemId, outcome);
  }

  lemma SweepKeepsOrTakes(e: D.Exponential, zone: Zone, s0: ZoneState, s: ZoneState, event: Event, key: Key)
    requires T.Inv(s.wheel) && event.Sweep? && Waiting(s0, s, key)
    ensures var s' := Next(e, zone, s, event);
            && T.Inv(s'.wheel)
            && (if Takes(s0.wheel, event, key.itemId) then OutOfWheel(s', key) else Waiting(s0, s', key))
  {
    if !Blank(event.tenantId) {
      T.PopKeepsOrDrops(s0.wheel, s.wheel, key.itemId, event.asOf);
      SweepOnlyCompresses(s.wheel, s.items, event.tenantId, zone, event.policy, event.asOf, event.ports, key);
    }
  }

  lemma SweepKeepsOut(e: D.Exponential, zone: Zone, s: ZoneState, event: Event, key: Key)
    requires T.Inv(s.wheel) && event.Sweep? && OutOfWheel(s, key)
    ensures T.Inv(Next(e, zone, s, event).wheel) && OutOfWheel(Next(e, zone, s, event), key)
  {
    T.PopOfAbsent(s.wheel, event.asOf, key.itemId);
  }

  /** Left alone, an item waits in the wheel until the first sweep that takes one of the entries it was
      scheduled with, and is never seen again after that. */
  lemma {:induction false} WaitsUntilTaken(e: D.Exponential, zone: Zone, s0: ZoneState, events: seq<Event>, key: Key)
    requires T.Inv(s0.wheel) && key.itemId in s0.wheel.dueAt && key in s0.items
    requires forall k :: 0 <= k < |events| ==> LeavesAlone(events[k], key)
    ensures var s := After(e, zone, s0, events);
            && T.Inv(s.wheel)
            && (if NoneTakes(s0.wheel, events, key.itemId) then Waiting(s0, s, key) else OutOfWheel(s, key))
  {
    if events != [] {
      var init, last := events[..|events| - 1], events[|events| - 1];
      WaitsUntilTaken(e, zone, s0, init, key);
      var s := After(e, zone, s0, init);
      assert NoneTakes(s0.wheel, events, key.itemId)
        <==> NoneTakes(s0.wheel, init, key.itemId) && !Takes(s0.wheel, last, key.itemId);
      match last
      case Reschedule(_, _, _, _, _, _, _) => RescheduleKeeps(e, zone, s0, s, last, key);
      case Sweep(_, _, _, _) =>
        if NoneTakes(s0.wheel, init, key.itemId) {
          SweepKeepsOrTakes(e, zone, s0, s, last, key);
        } else {
          SweepKeepsOut(e, zone, s, last, key);
        }
      case Elsewhere(_, _) =>
    }
  }

  /** The zone right after the item's deadline was computed from its score. */
  function ScheduledFor(e: D.Exponential, s: ZoneState, key: Key, policy: Policy, t: D.Terms, w: D.Weights,
                        maxAge: real, cooldown: real, now: real): (ZoneState, ScheduleOutcome)
  {
    var (wheel, outcome) :=
      Rescheduled(e, s.wheel, key.itemId, policy, w.recency, D.WeightedNonRecencySum(t, w), maxAge, cooldown, now);
    (s.(wheel := wheel), outcome)
  }

  /** How the ports answer a sweep of `wheel` when it comes to the item; what they say about the other items
      it pops is open. */
  ghost predicate AnswersFor(wheel: T.Wheel, asOf: real, itemId: string, ports: nat -> Port, port: Port) {
    var due := T.Popped(wheel, asOf).1;
    forall k :: 0 <= k < |due| && due[k].itemId == itemId ==> ports(k) == port
  }

  /** Whenever the engine schedules an item, the wheel holds exactly the instant it reports, which lies between
      now and the maximum age, and is the first after the cooldown at which the item's score, its other terms
      unchanged, is at or below its zone's threshold. */
  lemma ScheduledAtFirstCrossing(e: D.Exponential, s: ZoneState, key: Key, policy: Policy, t: D.Terms, w: D.Weights,
                                 maxAge: real, cooldown: real, now: real, dt: real)
    requires D.Sensible(e, policy.decayRate, w.recency, maxAge, cooldown)
    requires ScheduledFor(e, s, key, policy, t, w, maxAge, cooldown, now).1.ScheduledAt?
    ensures var (s', outcome) := ScheduledFor(e, s, key, policy, t, w, maxAge, cooldown, now);
            && s'.items == s.items && s'.wheel.dueAt == s.wheel.dueAt[key.itemId := outcome.dueAt]
            && now <= outcome.dueAt <= now + maxAge
            && (if cooldown <= maxAge then outcome.dueAt >= now + cooldown else outcome.dueAt == now + maxAge)
            && (dt >= outcome.dueAt - now ==> D.ScoreAt(e, policy.decayRate, t, w, dt) <= policy.compressThreshold)
            && (cooldown <= dt < outcome.dueAt - now ==>
                  D.ScoreAt(e, policy.decayRate, t, w, dt) > policy.compressThreshold)
  {
    D.DeadlineIsFirstCrossing(e, policy.decayRate, policy.compressThreshold, w.recency, D.WeightedNonRecencySum(t, w),
                              maxAge, cooldown, dt);
    D.ScoreAtIsDecayed(e, policy.decayRate, t, w, dt);
  }

  /** Whenever it pins one, the item is out of the wheel, and its score stays above the threshold until its
      maximum age, unless the float guard is higher than the recency it has by then. */
  lemma PinnedIsOutOfWheel(e: D.Exponential, s: ZoneState, key: Key, policy: Policy, t: D.Terms, w: D.Weights,
                           maxAge: real, cooldown: real, now: real, dt: real)
    requires e.Lawful() && policy.decayRate > 0.0 && w.recency > 0.0
    requires ScheduledFor(e, s, key, policy, t, w, maxAge, cooldown, now).1.PinnedItem?
    ensures var s' := ScheduledFor(e, s, key, policy, t, w, maxAge, cooldown, now).0;
            && s'.items == s.items && s'.wheel.dueAt == s.wheel.dueAt - {key.itemId}
            && (0.0 <= dt < maxAge && e.exp(-(policy.decayRate * maxAge)) >= 60.0 / 4503599627370496.0 ==>
                  D.ScoreAt(e, policy.decayRate, t, w, dt) > policy.compressThreshold)
  {
    if 0.0 <= dt < maxAge && e.exp(-(policy.decayRate * maxAge)) >= D.U_EPS_GUARD {
      PinnedScoresAbove(e, policy, t, w, maxAge, cooldown, dt);
    }
  }

  lemma PinnedScoresAbove(e: D.Exponential, policy: Policy, t: D.Terms, w: D.Weights, maxAge: real, cooldown: real, dt: real)
    requires e.Lawful() && policy.decayRate > 0.0 && w.recency > 0.0
    requires D.ComputeRotationDeadline(e, policy.decayRate, policy.compressThreshold, w.recency,
                                       D.WeightedNonRecencySum(t, w), maxAge, cooldown).Pinned?
    requires 0.0 <= dt < maxAge && e.exp(-(policy.decayRate * maxAge)) >= D.U_EPS_GUARD
    ensures D.ScoreAt(e, policy.decayRate, t, w, dt) > policy.compressThreshold
  {
    D.PinnedUntilMaxAge(e, policy.decayRate, policy.compressThreshold, w.recency, D.WeightedNonRecencySum(t, w),
                        maxAge, cooldown, dt);
    D.ScoreAtIsDecayed(e, policy.decayRate, t, w, dt);
  }

  /** It pins an item exactly if the item still scores its zone's threshold at its maximum age, or would with no
      more recency than the float guard. */
  lemma PinnedIff(e: D.Exponential, s: ZoneState, key: Key, policy: Policy, t: D.Terms, w: D.Weights,
                  maxAge: real, cooldown: real, now: real)
    requires e.Lawful() && policy.decayRate > 0.0 && w.recency > 0.0 && maxAge >= 0.0
    ensures ScheduledFor(e, s, key, policy, t, w, maxAge, cooldown, now).1.PinnedItem? <==>
      || D.ScoreAt(e, policy.decayRate, t, w, maxAge) >= policy.compressThreshold
      || D.Score(t.(recency := 60.0 / 4503599627370496.0), w) >= policy.compressThreshold
  {
    D.PinnedIffReachesMaxAge(e, policy.decayRate, policy.compressThreshold, w.recency, D.WeightedNonRecencySum(t, w),
                             maxAge, cooldown);
    D.ScoreAtIsDecayed(e, policy.decayRate, t, w, maxAge);
  }

  /** It refuses exactly a decay rate or a recency weight that is not positive and, unless it pins, a blank id;
      and then changes nothing. */
  lemma RefusedIff(e: D.Exponential, s: ZoneState, key: Key, policy: Policy, t: D.Terms, w: D.Weights,
                   maxAge: real, cooldown: real, now: real)
    ensures var (s', outcome) := ScheduledFor(e, s, key, policy, t, w, maxAge, cooldown, now);
            && (policy.decayRate <= 0.0 || w.recency <= 0.0 ==> outcome.Refused?)
            && (policy.decayRate > 0.0 && w.recency > 0.0 && outcome.Refused? ==> Blank(key.itemId))
            && (outcome.Refused? ==> s' == s)
            && (Blank(key.itemId) ==> !outcome.ScheduledAt?)
  {
  }

  /** The key's tenant is swept: the item is compressed and reported so if `moves`, and otherwise not
      reported as moved and left in the state it had. */
  ghost predicate SweptIff(s: ZoneState, key: Key, policy: Policy, asOf: real, ports: nat -> Port, moves: bool) {
    var (_, items', result) := SweptZone(s.wheel, s.items, key.tenantId, key.zone, policy, asOf, ports);
    && result.Swept?
    && (key in result.transitioned <==> moves)
    && (if moves then key in items' && items'[key] == Compressed
        else key in s.items ==> key in items' && items'[key] == s.items[key])
  }

  /** An active item scheduled by its score, whatever else then happens in its zone: its own tenant's sweep
      from the deadline on, with the other score terms unchanged, compresses it if and only if no sweep in
      between took one of the entries it was scheduled with, and the item can be read and persisted. */
  lemma ScheduledItemIsCompressedIff(
    e: D.Exponential, s: ZoneState, key: Key, policy: Policy, t: D.Terms, w: D.Weights, maxAge: real, cooldown: real,
    now: real, events: seq<Event>, asOf: real, ports: nat -> Port, port: Port)
    requires T.Inv(s.wheel) && D.Sensible(e, policy.decayRate, w.recency, maxAge, cooldown)
    requires !Blank(key.tenantId) && !Blank(key.itemId) && key in s.items && s.items[key].Active?
    requires var outcome := ScheduledFor(e, s, key, policy, t, w, maxAge, cooldown, now).1;
             outcome.ScheduledAt? && asOf >= outcome.dueAt
    requires forall k :: 0 <= k < |events| ==> LeavesAlone(events[k], key)
    requires var s0 := ScheduledFor(e, s, key, policy, t, w, maxAge, cooldown, now).0;
             AnswersFor(After(e, key.zone, s0, events).wheel, asOf, key.itemId, ports, port)
    requires port.score == D.ScoreAt(e, policy.decayRate, t, w, asOf - now)
    ensures var s0 := ScheduledFor(e, s, key, policy, t, w, maxAge, cooldown, now).0;
            var s1 := After(e, key.zone, s0, events);
            SweptIff(s1, key, policy, asOf, ports,
                     NoneTakes(s0.wheel, events, key.itemId) && port.readable && port.persists)
  {
    var (s0, outcome) := ScheduledFor(e, s, key, policy, t, w, maxAge, cooldown, now);
    assert T.Inv(s0.wheel) && key.itemId in s0.wheel.dueAt && s0.wheel.dueAt[key.itemId] == outcome.dueAt by {
      RescheduledFollows(e, s.wheel, key.itemId, policy, w.recency, D.WeightedNonRecencySum(t, w), maxAge, cooldown, now);
      T.ScheduleKeeps(s.wheel, key.itemId, outcome.dueAt);
    }
    D.DeadlineMeetsSweep(e, policy.decayRate, policy.compressThreshold, t, w, maxAge, cooldown, asOf - now);
    WaitingItemIsSweptIff(e, s0, key, policy, events, asOf, ports, port);
  }

  /** The same from the wheel alone, for whatever the ports answer about the item. */
  lemma WaitingItemIsSweptIff(e: D.Exponential, s0: ZoneState, key: Key, policy: Policy, events: seq<Event>,
                              asOf: real, ports: nat -> Port, port: Port)
    requires T.Inv(s0.wheel) && key.itemId in s0.wheel.dueAt && asOf >= s0.wheel.dueAt[key.itemId]
    requires !Blank(key.tenantId) && key in s0.items && s0.items[key].Active?
    requires forall k :: 0 <= k < |events| ==> LeavesAlone(events[k], key)
    requires AnswersFor(After(e, key.zone, s0, events).wheel, asOf, key.itemId, ports, port)
    ensures SweptIff(After(e, key.zone, s0, events), key, policy, asOf, ports,
                     NoneTakes(s0.wheel, events, key.itemId)
                     && port.readable && port.persists && port.score <= policy.compressThreshold + 0.000000001)
  {
    var s1 := After(e, key.zone, s0, events);
    WaitsUntilTaken(e, key.zone, s0, events, key);
    if NoneTakes(s0.wheel, events, key.itemId) {
      DueIsPoppable(s0.wheel, s1.wheel, key.itemId, asOf);
      PoppedIsCompressedIff(s1, key, policy, asOf, ports, port);
    } else {
      AbsentIsNotSwept(s1, key, policy, asOf, ports);
    }
  }

  lemma DueIsPoppable(was: T.Wheel, w: T.Wheel, itemId: string, asOf: real)
    requires T.Inv(w) && T.StillScheduled(was, w, itemId) && asOf >= was.dueAt[itemId]
    ensures T.Listed(T.Popped(w, asOf).1, itemId)
  {
    T.PopIsComplete(w, asOf);
  }

  /** Sweeps before the deadline take the item exactly because of an orphan that poses as it. */
  lemma EarlySweepTakesIffImpostor(wheel: T.Wheel, event: Event, itemId: string)
    requires T.Inv(wheel) && itemId in wheel.dueAt && event.Sweep? && event.asOf < wheel.dueAt[itemId]
    ensures Takes(wheel, event, itemId)
       <==> !Blank(event.tenantId)
            && exists orphan: T.HeapEntry :: orphan.itemId == itemId && T.EarlyImpostor(wheel, event.asOf, orphan)
  {
    T.PoppableEarlyIff(wheel, event.asOf, itemId);
  }

  lemma AbsentIsNotSwept(s: ZoneState, key: Key, policy: Policy, asOf: real, ports: nat -> Port)
    requires T.Inv(s.wheel) && !Blank(key.tenantId) && key.itemId !in s.wheel.dueAt
    ensures SweptIff(s, key, policy, asOf, ports, false)
  {
    T.PopOfAbsent(s.wheel, asOf, key.itemId);
    var due := T.Popped(s.wheel, asOf).1;
    var keys := Keys(key.tenantId, key.zone, DueIds(due));
    forall k | 0 <= k < |keys| ensures keys[k] != key {
      assert T.Listed(due, due[k].itemId);
    }
    var engine := Rotation(policy.compressThreshold);
    SweepMoves(s.items, keys, engine, ports, key);
    HasVerdictIff(keys, ProcessAll(s.items, keys, engine, ports).1, Moved, key);
  }

  lemma PoppedIsCompressedIff(s: ZoneState, key: Key, policy: Policy, asOf: real, ports: nat -> Port, port: Port)
    requires T.Inv(s.wheel) && !Blank(key.tenantId) && key in s.items && s.items[key].Active?
    requires T.Listed(T.Popped(s.wheel, asOf).1, key.itemId) && AnswersFor(s.wheel, asOf, key.itemId, ports, port)
    ensures SweptIff(s, key, policy, asOf, ports,
                     port.readable && port.persists && port.score <= policy.compressThreshold + 0.000000001)
  {
    T.PopIsComplete(s.wheel, asOf);
    var due := T.Popped(s.wheel, asOf).1;
    var k :| 0 <= k < |due| && due[k].itemId == key.itemId;
    CompressesAtIff(s.items, Keys(key.tenantId, key.zone, DueIds(due)), policy.compressThreshold, ports, k);
  }

  lemma CompressesAtIff(items: Items, keys: seq<Key>, threshold: real, ports: nat -> Port, k: nat)
    requires k < |keys| && forall j :: 0 <= j < |keys| && j != k ==> keys[j] != keys[k]
    requires keys[k] in items && items[keys[k]].Active?
    ensures var (items', verdicts) := ProcessAll(items, keys, Rotation(threshold), ports);
            var moves := ports(k).readable && ports(k).persists && D.PassesSweepGuard(ports(k).score, threshold);
            && |verdicts| == |keys|
            && keys[k] in items' && items'[keys[k]] == (if moves then Compressed else Active)
            && (keys[k] in WithVerdict(keys, verdicts, Moved) <==> moves)
  {
    MovedIff(items, keys, Rotation(threshold), ports, k);
    SweepMoves(items, keys, Rotation(threshold), ports, keys[k]);
    HasVerdictIff(keys, ProcessAll(items, keys, Rotation(threshold), ports).1, Moved, keys[k]);
  }

  /** Every item a sweep pops is reported where it belongs: failed if it cannot be read, is gone, or could not be
      persisted; skipped if it scores above the threshold or is not active; otherwise moved. */
  lemma PoppedItemIsReported(s: ZoneState, tenantId: string, zone: Zone, policy: Policy, asOf: real, ports: nat -> Port, k: nat)
    requires T.Inv(s.wheel) && !Blank(tenantId) && k < |T.Popped(s.wheel, asOf).1|
    ensures var key, port := Key(tenantId, zone, T.Popped(s.wheel, asOf).1[k].itemId), ports(k);
            var (_, _, result) := SweptZone(s.wheel, s.items, tenantId, zone, policy, asOf, ports);
            var fits := port.score <= policy.compressThreshold + 0.000000001;
            && result.Swept?
            && (key in result.failed <==>
                  || !port.readable || key !in s.items || (fits && s.items[key] == Active && !port.persists))
            && (key in result.skipped <==> port.readable && key in s.items && (!fits || s.items[key] != Active))
            && (key in result.transitioned <==>
                  port.readable && key in s.items && fits && s.items[key] == Active && port.persists)
  {
    T.PopIsComplete(s.wheel, asOf);
    var due := T.Popped(s.wheel, asOf).1;
    var keys, engine := Keys(tenantId, zone, DueIds(due)), Rotation(policy.compressThreshold);
    var verdicts := ProcessAll(s.items, keys, engine, ports).1;
    VerdictIs(s.items, keys, engine, ports, k);
    OnlyVerdict(keys, verdicts, k, Moved);
    OnlyVerdict(keys, verdicts, k, Skipped);
    OnlyVerdict(keys, verdicts, k, Failed);
  }

  /** An item invalidated and then scheduled again is taken early through its orphan, found to score above
      the threshold, and dropped: when its deadline comes nothing is due, and it stays active. */
  lemma RescheduledItemIsForgotten(e: D.Exponential, tenantId: string, zone: Zone, late: nat -> Port)
    requires !Blank(tenantId)
    ensures var wheel := T.Run(T.RESTARTED);
            var key, policy := Key(tenantId, zone, "a"), Policy(1.0, 0.5);
            var early := Sweep(tenantId, policy, 10.0, k => Port(true, 0.9, true));
            var s := Next(e, zone, ZoneState(wheel, map[key := Active]), early);
            && wheel.dueAt == map["a" := 100.0]
            && s.items == map[key := Active]
            && SweptZone(s.wheel, s.items, tenantId, zone, policy, 200.0, late) == (T.EMPTY, s.items, Swept([], [], []))
  {
    var key, policy := Key(tenantId, zone, "a"), Policy(1.0, 0.5);
    T.RestartedCounterPopsEarly();
    var due := [T.ScheduledRotation("a", 5.0)];
    assert Keys(tenantId, zone, DueIds(due)) == [key];
    HighScoreStays(map[key := Active], key, 0.5, k => Port(true, 0.9, true));
    assert Keys(tenantId, zone, DueIds([])) == [];
  }

  lemma HighScoreStays(items: Items, key: Key, threshold: real, ports: nat -> Port)
    requires !D.PassesSweepGuard(ports(0).score, threshold)
    ensures ProcessAll(items, [key], Rotation(threshold), ports).0 == items
  {
    assert [key][..0] == [];
  }

  /** The three lists of a sweep's report so far. */
  ghost predicate Reported(keys: seq<Key>, verdicts: seq<Verdict>, transitioned: seq<Key>, skipped: seq<Key>, failed: seq<Key>) {
    && |keys| == |verdicts|
    && transitioned == WithVerdict(keys, verdicts, Moved)
    && skipped == WithVerdict(keys, verdicts, Skipped)
    && failed == WithVerdict(keys, verdicts, Failed)
  }

  lemma ReportStep(keys: seq<Key>, verdicts: seq<Verdict>, i: nat, next: Verdict, transitioned: seq<Key>,
                   skipped: seq<Key>, failed: seq<Key>)
    requires i < |keys| && Reported(keys[..i], verdicts, transitioned, skipped, failed)
    ensures Reported(keys[..i + 1], verdicts + [next],
                     if next.Moved? then transitioned + [keys[i]] else transitioned,
                     if next.Skipped? then skipped + [keys[i]] else skipped,
                     if next.Failed? then failed + [keys[i]] else failed)
  {
    VerdictStep(keys, verdicts, i, next, Moved);
    VerdictStep(keys, verdicts, i, next, Skipped);
    VerdictStep(keys, verdicts, i, next, Failed);
  }

  // ---------------------------------------------------------------- the engine, in place

  class RotationEngine {
    const exponential: D.Exponential
    const zones: ItemStates
    var wheels: map<Zone, T.RotationTimerWheel>
    var published: seq<Key>

    ghost predicate Valid()
      reads this
    {
      forall y, z :: y in wheels && z in wheels && y != z ==> wheels[y] != wheels[z]
    }

    ghost function Wheels(): set<object>
      reads this
    {
      set z | z in wheels :: wheels[z]
    }

    function WheelAt(zone: Zone): T.Wheel
      reads this, Wheels()
    {
      if zone in wheels then wheels[zone].Now() else T.EMPTY
    }

    constructor (exponential: D.Exponential, zones: ItemStates)
      ensures Valid() && this.exponential == exponential && this.zones == zones && wheels == map[] && published == []
    {
      this.exponential, this.zones, wheels, published := exponential, zones, map[], [];
    }

    method WheelFor(zone: Zone) returns (wheel: T.RotationTimerWheel)
      requires Valid()
      modifies this
      ensures Valid() && zone in wheels && wheels[zone] == wheel && published == old(published)
      ensures wheel.Now() == old(WheelAt(zone))
      ensures forall z :: z != zone ==> (z in wheels <==> z in old(wheels))
      ensures forall z :: z in old(wheels) ==> z in wheels && wheels[z] == old(wheels[z])
      ensures zone !in old(wheels) ==> fresh(wheel)
    {
      if zone !in wheels {
        wheel := new T.RotationTimerWheel();
        wheels := wheels[zone := wheel];
      }
      wheel := wheels[zone];
    }

    method ScheduleOrPin(zone: Zone, itemId: string, policy: Policy, w: real, c: real, maxAge: real, cooldown: real,
                         now: real) returns (outcome: ScheduleOutcome)
      requires Valid()
      modifies this, Wheels()
      ensures Valid() && fresh(Wheels() - old(Wheels())) && published == old(published)
      ensures (WheelAt(zone), outcome)
           == Rescheduled(exponential, old(WheelAt(zone)), itemId, policy, w, c, maxAge, cooldown, now)
      ensures forall z :: z != zone ==> WheelAt(z) == old(WheelAt(z))
    {
      var deadline := D.ComputeRotationDeadline(exponential, policy.decayRate, policy.compressThreshold, w, c, maxAge, cooldown);
      if deadline.InvalidArguments? {
        return Refused;
      }
      var wheel := WheelFor(zone);
      if deadline.Pinned? {
        wheel.Invalidate(itemId);
        return PinnedItem;
      }
      var accepted := wheel.Schedule(itemId, now + deadline.afterSeconds);
      outcome := if accepted then ScheduledAt(now + deadline.afterSeconds) else Refused;
    }

    method RunSweep(tenantId: string, zone: Zone, policy: Policy, asOf: real, ports: nat -> Port)
      returns (result: SweepResult)
      requires Valid()
      modifies this, Wheels(), zones
      ensures Valid() && fresh(Wheels() - old(Wheels()))
      ensures (WheelAt(zone), zones.items, result)
           == SweptZone(old(WheelAt(zone)), old(zones.items), tenantId, zone, policy, asOf, ports)
      ensures forall z :: z != zone ==> WheelAt(z) == old(WheelAt(z))
      ensures published == old(published) + (if result.Swept? then result.transitioned else [])
    {
      if Blank(tenantId) {
        return BlankTenant;
      }
      var wheel := WheelFor(zone);
      var due := wheel.PopDue(asOf);
      result := CompressDue(tenantId, zone, policy, due, ports);
    }

    /** The loop over what was due; every item that moved is announced, in order. */
    method CompressDue(tenantId: string, zone: Zone, policy: Policy, due: seq<T.ScheduledRotation>, ports: nat -> Port)
      returns (result: SweepResult)
      modifies this`published, zones
      ensures var keys := Keys(tenantId, zone, DueIds(due));
              var (items', verdicts) := ProcessAll(old(zones.items), keys, Rotation(policy.compressThreshold), ports);
              && |verdicts| == |keys| && zones.items == items'
              && result == Swept(WithVerdict(keys, verdicts, Moved), WithVerdict(keys, verdicts, Skipped),
                                 WithVerdict(keys, verdicts, Failed))
      ensures result.Swept? && published == old(published) + result.transitioned
    {
      ghost var keys := Keys(tenantId, zone, DueIds(due));
      ghost var engine := Rotation(policy.compressThreshold);
      ghost var verdicts: seq<Verdict> := [];
      var transitioned: seq<Key>, skipped: seq<Key>, failed: seq<Key> := [], [], [];
      assert keys[..0] == [];
      for i := 0 to |due|
        invariant |verdicts| == i && ProcessAll(old(zones.items), keys[..i], engine, ports) == (zones.items, verdicts)
        invariant Reported(keys[..i], verdicts, transitioned, skipped, failed)
        invariant published == old(published) + transitioned
      {
        var key := Key(tenantId, zone, due[i].itemId);
        SweepStep(old(zones.items), keys, engine, ports, i, zones.items, verdicts);
        ReportStep(keys, verdicts, i, Process(zones.items, key, engine, ports(i)).1, transitioned, skipped, failed);
        var verdict := CompressOne(key, policy, ports(i));
        verdicts := verdicts + [verdict];
        AppendLast(old(published), transitioned, key);
        match verdict
        case Moved => transitioned := transitioned + [key];
        case Skipped => skipped := skipped + [key];
        case Failed => failed := failed + [key];
      }
      assert keys[..|due|] == keys;
      result := Swept(transitioned, skipped, failed);
    }

    method CompressOne(key: Key, policy: Policy, port: Port) returns (verdict: Verdict)
      modifies this`published, zones
      ensures (zones.items, verdict) == Process(old(zones.items), key, Rotation(policy.compressThreshold), port)
      ensures published == old(published) + (if verdict.Moved? then [key] else [])
    {
      if !port.readable || key !in zones.items {
        return Failed;
      }
      if port.score > policy.compressThreshold + D.SCORE_GUARD_EPSILON {
        return Skipped;
      }
      if !zones.items[key].Active? {
        return Skipped;
      }
      if !port.persists {
        return Failed;
      }
      zones.items := zones.items[key := Compressed];
      published := published + [key];
      verdict := Moved;
    }
  }
}
