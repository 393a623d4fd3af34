/** Whether submitted writes ever return. The gate holds a key's lock while the caller's callback runs, and a
    callback may submit under another key, so threads can wait on one another. */
module WriteGateProgress {
  import opened SourceTypes
  import opened TokenBucket
  import opened WriteGate

  /** The innermost call of `t` waits for a lock that another thread holds. */
  ghost predicate Blocked(g: Gate, t: ThreadId) {
    Active(g, t) && Top(g, t).pc.Waiting? && !CanAcquire(g, t)
  }

  ghost function Holder(g: Gate, t: ThreadId): ThreadId
    requires Blocked(g, t)
  {
    g.locks[TopKey(g, t)].owner
  }

  /** Threads that wait only on one another. */
  ghost predicate Knot(g: Gate, c: set<ThreadId>) {
    forall t: ThreadId :: t in c ==> Blocked(g, t) && Holder(g, t) in c
  }

  ghost predicate Deadlocked(g: Gate, t: ThreadId) {
    exists c :: t in c && Knot(g, c)
  }

  function Continued(p: Policy, g: Gate, more: seq<Step>): Gate {
    if more == [] then g else Next(p, Continued(p, g, more[..|more| - 1]), more[|more| - 1])
  }

  // ---------------------------------------------------------------- a knot holds

  /** What a step may do to the threads that do not take it, and to the locks they wait for. */
  ghost predicate OthersKeep(g: Gate, g': Gate, v: ThreadId) {
    && (forall u :: u != v ==> Stack(g', u) == Stack(g, u))
    && (forall key :: key in g.locks && g.locks[key].owner != v ==> key in g'.locks && g'.locks[key] == g.locks[key])
    && (forall key :: key in g'.locks && g'.locks[key].owner != v ==> key in g.locks && g.locks[key] == g'.locks[key])
  }

  lemma HeldByOwner(g: Gate, t: ThreadId)
    requires Exclusive(g) && Active(g, t) && Top(g, t).pc.Leaving?
    ensures TopKey(g, t) in g.locks && g.locks[TopKey(g, t)].owner == t
  {
    HeldPositive(Stack(g, t), |Stack(g, t)| - 1);
  }

  lemma MoveKeepsOthers(g: Gate, g': Gate, t: ThreadId, pc: Pc)
    requires Moved(g, g', t, pc) && g'.locks == g.locks
    ensures OthersKeep(g, g', t)
  {
    MovedFacts(g, g', t, pc);
  }

  lemma AcquireKeepsOthers(g: Gate, t: ThreadId)
    requires Active(g, t) && CanAcquire(g, t)
    ensures OthersKeep(g, DoAcquire(g, t), t)
  {
    MovedFacts(g, DoAcquire(g, t), t, Checking);
  }

  lemma ReleaseKeepsOthers(g: Gate, t: ThreadId)
    requires Exclusive(g) && Active(g, t) && Top(g, t).pc.Leaving?
    ensures OthersKeep(g, DoRelease(g, t), t)
  {
    HeldByOwner(g, t);
  }

  lemma StepKeepsOthers(p: Policy, g: Gate, step: Step)
    requires Exclusive(g) && !step.Restart?
    ensures OthersKeep(g, Next(p, g, step), step.t)
  {
    var g' := Next(p, g, step);
    if g' != g {
      match step
      case Submit(t, q) =>
      case Acquire(t) => AcquireKeepsOthers(g, t);
      case Release(t) => ReleaseKeepsOthers(g, t);
      case Check(t) => MoveKeepsOthers(g, g', t, CheckPc(g, t));
      case Limit(t, now) => MoveKeepsOthers(g, g', t, LimitPc(p, g, t, now));
      case Vet(t, now) => MoveKeepsOthers(g, g', t, VetPc(p, g, t, now));
      case Append(t, writeId, now, outcome) => MoveKeepsOthers(g, g', t, AppendPc(writeId, now, outcome));
      case StartPersist(t) => MoveKeepsOthers(g, g', t, PersistPc(g, t));
      case EndPersist(t, raises) => MoveKeepsOthers(g, g', t, EndPc(g, t, raises));
    }
  }

  lemma BlockedCannotStep(p: Policy, g: Gate, step: Step)
    requires !step.Restart? && Blocked(g, step.t)
    ensures Next(p, g, step) == g
  {
  }

  lemma KnotStays(p: Policy, g: Gate, step: Step, c: set<ThreadId>)
    requires Exclusive(g) && Knot(g, c) && !step.Restart?
    ensures Knot(Next(p, g, step), c)
  {
    if step.t in c {
      BlockedCannotStep(p, g, step);
    } else {
      StepKeepsOthers(p, g, step);
      forall t: ThreadId | t in c ensures Blocked(Next(p, g, step), t) && Holder(Next(p, g, step), t) in c {
        assert Blocked(g, t) && Holder(g, t) in c;
        assert Stack(Next(p, g, step), t) == Stack(g, t);
      }
    }
  }

  /** A deadlocked call never returns, whatever the other threads do: its thread stays deadlocked until the
      process restarts. */
  lemma {:induction false} DeadlockStays(p: Policy, g: Gate, more: seq<Step>, t: ThreadId)
    requires Exclusive(g) && Deadlocked(g, t) && forall k :: 0 <= k < |more| ==> !more[k].Restart?
    ensures Exclusive(Continued(p, g, more)) && Deadlocked(Continued(p, g, more), t)
  {
    if more != [] {
      var init, last := more[..|more| - 1], more[|more| - 1];
      DeadlockStays(p, g, init, t);
      var c :| t in c && Knot(Continued(p, g, init), c);
      KnotStays(p, Continued(p, g, init), last, c);
      ExclusiveStep(p, Continued(p, g, init), last);
    }
  }

  // ---------------------------------------------------------------- nothing else holds

  /** The calls under way go on: nobody submits another, and the process lives. */
  predicate GoesOn(step: Step) {
    !step.Submit? && !step.Restart?
  }

  lemma LeavesWaiting(p: Policy, g: Gate, step: Step)
    requires Exclusive(g) && GoesOn(step) && Next(p, g, step) != g
    ensures Active(g, step.t)
    ensures Active(Next(p, g, step), step.t) ==> !Top(Next(p, g, step), step.t).pc.Waiting?
  {
    var t := step.t;
    if step.Release? {
      var s := Stack(g, t);
      assert Stack(Next(p, g, step), t) == s[..|s| - 1];
      if |s| > 1 {
        assert Stack(g, t)[|s| - 2].pc.Persisting?;
      }
    }
  }

  /** Finishing calls ties no new knots. */
  lemma KnotWasThere(p: Policy, g: Gate, step: Step, c: set<ThreadId>)
    requires Exclusive(g) && GoesOn(step) && Knot(Next(p, g, step), c)
    ensures Knot(g, c)
  {
    var g' := Next(p, g, step);
    if g' != g {
      LeavesWaiting(p, g, step);
      StepKeepsOthers(p, g, step);
      forall t: ThreadId | t in c ensures Blocked(g, t) && Holder(g, t) in c {
        assert Blocked(g', t) && Holder(g', t) in c && Blocked(g', Holder(g', t));
        assert t != step.t && Holder(g', t) != step.t;
      }
    }
  }

  lemma {:induction false} GoingOnKeepsDeadlocks(p: Policy, g: Gate, more: seq<Step>, t: ThreadId)
    requires Exclusive(g) && forall k :: 0 <= k < |more| ==> GoesOn(more[k])
    ensures Exclusive(Continued(p, g, more))
    ensures Deadlocked(Continued(p, g, more), t) <==> Deadlocked(g, t)
  {
    if more != [] {
      var init, last := more[..|more| - 1], more[|more| - 1];
      var g1 := Continued(p, g, init);
      GoingOnKeepsDeadlocks(p, g, init, t);
      ExclusiveStep(p, g1, last);
      if c :| t in c && Knot(g1, c) {
        KnotStays(p, g1, last, c);
      }
      if c :| t in c && Knot(Next(p, g1, last), c) {
        KnotWasThere(p, g1, last, c);
      }
    }
  }

  /** Every call still under way waits for a lock. */
  ghost predicate Settled(g: Gate) {
    forall t: ThreadId :: Active(g, t) ==> Blocked(g, t)
  }

  lemma {:induction false} HeldIsActive(s: seq<Frame>, key: Key)
    requires Held(s, key) > 0
    ensures s != []
  {
  }

  lemma SettledIsKnot(g: Gate, t: ThreadId)
    requires Exclusive(g) && Settled(g)
    ensures Active(g, t) <==> Deadlocked(g, t)
  {
    var c := set u | u in g.stacks && Active(g, u);
    forall u: ThreadId | u in c ensures Blocked(g, u) && Holder(g, u) in c {
      var owner, key := Holder(g, u), TopKey(g, u);
      assert Held(Stack(g, owner), key) == g.locks[key].depth;
      HeldIsActive(Stack(g, owner), key);
    }
    assert Knot(g, c);
  }

  // ---------------------------------------------------------------- going on comes to an end

  /** More than the steps left to a call. */
  function Weight(pc: Pc): nat {
    match pc
    case Waiting => 8
    case Checking => 7
    case Limiting => 6
    case Validating => 5
    case Journaling => 4
    case Ready(_, _) => 3
    case Persisting(_, _) => 2
    case Leaving(_) => 1
  }

  function StackWeight(s: seq<Frame>): nat {
    if s == [] then 0 else StackWeight(s[..|s| - 1]) + Weight(s[|s| - 1].pc)
  }

  /** Of the threads below `n`. */
  function TotalWeight(g: Gate, n: nat): nat {
    if n == 0 then 0 else TotalWeight(g, n - 1) + StackWeight(Stack(g, n - 1))
  }

  ghost predicate AllBelow(g: Gate, n: nat) {
    forall t: ThreadId :: Active(g, t) ==> t < n
  }

  lemma {:induction false} SomeBound(threads: set<ThreadId>) returns (n: nat)
    ensures forall t: ThreadId :: t in threads ==> t < n
  {
    n := 0;
    if threads != {} {
      var t: ThreadId :| t in threads;
      var rest := SomeBound(threads - {t});
      n := if t < rest then rest else t + 1;
      assert threads == (threads - {t}) + {t};
    }
  }

  lemma {:induction false} OneStackLighter(g: Gate, g': Gate, v: ThreadId, n: nat)
    requires forall u :: u != v ==> Stack(g', u) == Stack(g, u)
    requires StackWeight(Stack(g', v)) < StackWeight(Stack(g, v))
    ensures TotalWeight(g', n) <= TotalWeight(g, n) && (v < n ==> TotalWeight(g', n) < TotalWeight(g, n))
  {
    if n > 0 {
      OneStackLighter(g, g', v, n - 1);
    }
  }

  lemma MovedStack(g: Gate, g': Gate, t: ThreadId, pc: Pc)
    requires Moved(g, g', t, pc) && Weight(pc) < Weight(Top(g, t).pc)
    ensures StackWeight(Stack(g', t)) < StackWeight(Stack(g, t))
  {
    MovedFacts(g, g', t, pc);
    var s, s' := Stack(g, t), Stack(g', t);
    assert s'[..|s'| - 1] == s[..|s| - 1];
  }

  /** Every step of a call under way brings it nearer to its end. */
  lemma GoingOnIsLighter(p: Policy, g: Gate, step: Step)
    requires GoesOn(step) && Next(p, g, step) != g
    ensures StackWeight(Stack(Next(p, g, step), step.t)) < StackWeight(Stack(g, step.t))
  {
    var g' := Next(p, g, step);
    match step
    case Acquire(t) => MovedStack(g, g', t, Checking);
    case Check(t) => MovedStack(g, g', t, CheckPc(g, t));
    case Limit(t, now) => MovedStack(g, g', t, LimitPc(p, g, t, now));
    case Vet(t, now) => MovedStack(g, g', t, VetPc(p, g, t, now));
    case Append(t, writeId, now, outcome) => MovedStack(g, g', t, AppendPc(writeId, now, outcome));
    case StartPersist(t) => MovedStack(g, g', t, PersistPc(g, t));
    case EndPersist(t, raises) => MovedStack(g, g', t, EndPc(g, t, raises));
    case Release(t) => assert Stack(g', t) == Stack(g, t)[..|Stack(g, t)| - 1];
  }

  /** A step that takes the innermost call of `t` on. */
  function OwnStep(g: Gate, t: ThreadId): Step
    requires Active(g, t)
  {
    match Top(g, t).pc
    case Waiting => Acquire(t)
    case Checking => Check(t)
    case Limiting => Limit(t, 0.0)
    case Validating => Vet(t, 0.0)
    case Journaling => Append(t, "", 0.0, Durable)
    case Ready(_, _) => StartPersist(t)
    case Persisting(_, _) => EndPersist(t, false)
    case Leaving(_) => Release(t)
  }

  lemma MovedDiffers(g: Gate, g': Gate, t: ThreadId, pc: Pc)
    requires Moved(g, g', t, pc) && pc != Top(g, t).pc
    ensures g' != g
  {
    MovedFacts(g, g', t, pc);
  }

  /** A call can always be taken on unless it is blocked. */
  lemma UnblockedCanStep(p: Policy, g: Gate, t: ThreadId)
    requires AllVetted(p, g) && Active(g, t) && !Blocked(g, t)
    ensures GoesOn(OwnStep(g, t)) && OwnStep(g, t).t == t && Next(p, g, OwnStep(g, t)) != g
  {
    var g' := Next(p, g, OwnStep(g, t));
    match Top(g, t).pc
    case Waiting => MovedDiffers(g, g', t, Checking);
    case Checking => MovedDiffers(g, g', t, CheckPc(g, t));
    case Limiting => MovedDiffers(g, g', t, LimitPc(p, g, t, 0.0));
    case Validating => MovedDiffers(g, g', t, VetPc(p, g, t, 0.0));
    case Journaling =>
      assert Passed(p, Top(g, t).request);
      MovedDiffers(g, g', t, AppendPc("", 0.0, Durable));
    case Ready(_, _) => MovedDiffers(g, g', t, PersistPc(g, t));
    case Persisting(_, _) => MovedDiffers(g, g', t, EndPc(g, t, false));
    case Leaving(_) => assert |Stack(g', t)| < |Stack(g, t)|;
  }

  lemma StillBelow(g: Gate, g': Gate, t: ThreadId, n: nat)
    requires AllBelow(g, n) && t < n && forall u :: u != t ==> Stack(g', u) == Stack(g, u)
    ensures AllBelow(g', n)
  {
    forall u: ThreadId | Active(g', u) ensures u < n {
      if u != t {
        assert Active(g, u);
      }
    }
  }

  lemma OneStepOn(p: Policy, g: Gate, t: ThreadId, n: nat)
    requires Exclusive(g) && AllVetted(p, g) && AllBelow(g, n) && Active(g, t) && !Blocked(g, t)
    ensures var g' := Next(p, g, OwnStep(g, t));
            && GoesOn(OwnStep(g, t)) && Exclusive(g') && AllVetted(p, g') && AllBelow(g', n)
            && TotalWeight(g', n) < TotalWeight(g, n)
  {
    var step := OwnStep(g, t);
    UnblockedCanStep(p, g, t);
    GoingOnIsLighter(p, g, step);
    StepKeepsOthers(p, g, step);
    OneStackLighter(g, Next(p, g, step), t, n);
    StillBelow(g, Next(p, g, step), t, n);
    ExclusiveStep(p, g, step);
    StepKeepsVetted(p, g, step);
  }

  lemma {:induction false} ContinuedFrom(p: Policy, g: Gate, step: Step, rest: seq<Step>)
    ensures Continued(p, g, [step] + rest) == Continued(p, Next(p, g, step), rest)
  {
    var all := [step] + rest;
    if rest == [] {
      assert all[..0] == [];
    } else {
      assert all[..|all| - 1] == [step] + rest[..|rest| - 1];
      ContinuedFrom(p, g, step, rest[..|rest| - 1]);
    }
  }

  /** The calls under way can be taken on, in at most their weight of steps, until each has returned or is
      blocked. */
  lemma {:induction false} Settles(p: Policy, g: Gate, n: nat) returns (more: seq<Step>)
    requires Exclusive(g) && AllVetted(p, g) && AllBelow(g, n)
    ensures |more| <= TotalWeight(g, n) && (forall k :: 0 <= k < |more| ==> GoesOn(more[k]))
    ensures Settled(Continued(p, g, more))
    decreases TotalWeight(g, n)
  {
    if Settled(g) {
      more := [];
    } else {
      var t: ThreadId :| Active(g, t) && !Blocked(g, t);
      var step := OwnStep(g, t);
      OneStepOn(p, g, t, n);
      var rest := Settles(p, Next(p, g, step), n);
      more := [step] + rest;
      ContinuedFrom(p, g, step, rest);
    }
  }

  /** In every reachable state: however the calls under way are taken on, once none can be taken on further a
      thread's calls have all returned if and only if it was not deadlocked; and in boundedly many steps that
      point is reached. */
  lemma CallsReturnIffNotDeadlocked(p: Policy, steps: seq<Step>) returns (finish: seq<Step>)
    ensures var g := Run(p, steps);
            && (forall k :: 0 <= k < |finish| ==> GoesOn(finish[k]))
            && Settled(Continued(p, g, finish))
            && forall more: seq<Step>, t: ThreadId ::
                 (forall k :: 0 <= k < |more| ==> GoesOn(more[k])) && Settled(Continued(p, g, more)) ==>
                   (!Active(Continued(p, g, more), t) <==> !Deadlocked(g, t))
  {
    var g := Run(p, steps);
    RunIsSound(p, steps);
    RunIsVetted(p, steps);
    var n := SomeBound(g.stacks.Keys);
    finish := Settles(p, g, n);
    forall more: seq<Step>, t: ThreadId
      | (forall k :: 0 <= k < |more| ==> GoesOn(more[k])) && Settled(Continued(p, g, more))
      ensures !Active(Continued(p, g, more), t) <==> !Deadlocked(g, t)
    {
      GoingOnKeepsDeadlocks(p, g, more, t);
      SettledIsKnot(Continued(p, g, more), t);
    }
  }

  // ---------------------------------------------------------------- when there is a deadlock

  lemma {:induction false} HoldsBelow(s: seq<Frame>, key: Key)
    requires Held(s, key) > 0 && s != [] && s[|s| - 1].pc.Waiting?
    ensures |s| > 1
  {
    assert Held(s[..|s| - 1], key) > 0;
  }

  /** Every thread that a deadlocked one waits for waits inside a callback. */
  lemma DeadlockIsNested(g: Gate, t: ThreadId)
    requires Exclusive(g) && Deadlocked(g, t)
    ensures Blocked(g, t) && |Stack(g, Holder(g, t))| > 1
  {
    var c :| t in c && Knot(g, c);
    var u := Holder(g, t);
    assert Blocked(g, u) && Held(Stack(g, u), TopKey(g, t)) == g.locks[TopKey(g, t)].depth;
    HoldsBelow(Stack(g, u), TopKey(g, t));
  }

  /** So as long as no callback submits a write, there is none. */
  lemma FlatCallsNeverDeadlock(p: Policy, steps: seq<Step>, t: ThreadId)
    requires forall u :: |Stack(Run(p, steps), u)| <= 1
    ensures !Deadlocked(Run(p, steps), t)
  {
    RunIsSound(p, steps);
    if Deadlocked(Run(p, steps), t) {
      DeadlockIsNested(Run(p, steps), t);
    }
  }

  lemma PersistingHolds(g: Gate, t: ThreadId)
    requires Exclusive(g) && Active(g, t) && !Top(g, t).pc.Waiting?
    ensures TopKey(g, t) in g.locks && g.locks[TopKey(g, t)].owner == t
  {
    HeldPositive(Stack(g, t), |Stack(g, t)| - 1);
  }

  /** Two threads inside their callbacks, each of which then submits under the other's key: neither call ever
      returns. */
  lemma CrossedCallbacksDeadlock(p: Policy, g: Gate, t: ThreadId, u: ThreadId, q: Request, r: Request)
    requires Exclusive(g) && Active(g, t) && Active(g, u) && t != u
    requires Top(g, t).pc.Persisting? && Top(g, u).pc.Persisting?
    requires KeyOf(q) == TopKey(g, u) && KeyOf(r) == TopKey(g, t)
    ensures var g' := Next(p, Next(p, g, Submit(t, q)), Submit(u, r));
            Deadlocked(g', t) && Deadlocked(g', u)
  {
    PersistingHolds(g, t);
    PersistingHolds(g, u);
    var g1 := Next(p, g, Submit(t, q));
    assert Stack(g1, u) == Stack(g, u);
    var g' := Next(p, g1, Submit(u, r));
    assert Top(g', t) == Frame(q, Waiting) && Top(g', u) == Frame(r, Waiting);
    assert Knot(g', {t, u});
  }

  // ---------------------------------------------------------------- a deadlock is reachable

  /** The steps that take a new call of `t` into its callback. */
  function IntoCallback(t: ThreadId, q: Request, now: real): seq<Step> {
    [Submit(t, q), Acquire(t), Check(t), Limit(t, now), Vet(t, now), Append(t, "", now, Durable), StartPersist(t)]
  }

  lemma OneMoreStep(p: Policy, g: Gate, steps: seq<Step>, last: Step)
    ensures Continued(p, g, steps + [last]) == Next(p, Continued(p, g, steps), last)
  {
    assert (steps + [last])[..|steps|] == steps;
  }

  /** Running one list of steps and then another is running both. */
  lemma {:induction false} FoldsAlong<S(!new), E(!new)>(next: (S, E) -> S, fold: (S, seq<E>) -> S, s: S, a: seq<E>, b: seq<E>)
    requires forall s :: fold(s, []) == s
    requires forall s, es, e :: fold(s, es + [e]) == next(fold(s, es), e)
    ensures fold(s, a + b) == fold(fold(s, a), b)
  {
    if b == [] {
      assert a + b == a;
    } else {
      var init, last := b[..|b| - 1], b[|b| - 1];
      FoldsAlong(next, fold, s, a, init);
      assert a + b == (a + init) + [last] && b == init + [last];
    }
  }

  lemma ContinuedAlong(p: Policy, g: Gate, steps: seq<Step>, more: seq<Step>)
    ensures Continued(p, g, steps + more) == Continued(p, Continued(p, g, steps), more)
  {
    var next, fold := (g: Gate, e: Step) => Next(p, g, e), (g: Gate, es: seq<Step>) => Continued(p, g, es);
    forall g, es, e ensures fold(g, es + [e]) == next(fold(g, es), e) {
      OneMoreStep(p, g, es, e);
    }
    FoldsAlong(next, fold, g, steps, more);
  }

  lemma {:induction false} RunIsContinued(p: Policy, steps: seq<Step>)
    ensures Run(p, steps) == Continued(p, INITIAL, steps)
  {
    if steps != [] {
      RunIsContinued(p, steps[..|steps| - 1]);
    }
  }

  lemma OtherStays(p: Policy, g: Gate, step: Step, u: ThreadId)
    requires !step.Restart? && step.t != u
    ensures Stack(Next(p, g, step), u) == Stack(g, u)
  {
  }

  lemma {:induction false} OthersStay(p: Policy, g: Gate, more: seq<Step>, t: ThreadId, u: ThreadId)
    requires u != t && forall k :: 0 <= k < |more| ==> !more[k].Restart? && more[k].t == t
    ensures Stack(Continued(p, g, more), u) == Stack(g, u)
  {
    if more != [] {
      var init, last := more[..|more| - 1], more[|more| - 1];
      OthersStay(p, g, init, t, u);
      OtherStays(p, Continued(p, g, init), last, u);
    }
  }

  /** What the journal, the buckets and the locks must allow for a call to get that far. */
  ghost predicate Admissible(p: Policy, g: Gate, t: ThreadId, q: Request, now: real) {
    && !Active(g, t) && KeyOf(q) !in g.locks && Find(g.journal, KeyOf(q)).None? && q.tenantId !in g.buckets
    && p.bucket.capacity >= 1.0 && Validate(p, q, now).None?
  }

  lemma FirstTokenIsThere(p: Policy, g: Gate, q: Request, now: real)
    requires q.tenantId !in g.buckets && p.bucket.capacity >= 1.0
    ensures TryConsume(BucketOf(g.buckets, q.tenantId, p.bucket, now), p.bucket, now).1
  {
    assert Elapsed(now, now) == 0.0;
    NoTimeRefillsNothing(p.bucket);
  }

  lemma TwoSteps(p: Policy, g: Gate, a: Step, b: Step)
    ensures Continued(p, g, [a, b]) == Next(p, Next(p, g, a), b)
  {
    OneMoreStep(p, g, [], a);
    OneMoreStep(p, g, [a], b);
    assert [] + [a] == [a] && [a] + [b] == [a, b];
  }

  lemma FiveSteps(p: Policy, g: Gate, a: Step, b: Step, c: Step, d: Step, e: Step)
    ensures Continued(p, g, [a, b, c, d, e]) == Next(p, Next(p, Next(p, Next(p, Next(p, g, a), b), c), d), e)
  {
    TwoSteps(p, g, a, b);
    OneMoreStep(p, g, [a, b], c);
    OneMoreStep(p, g, [a, b, c], d);
    OneMoreStep(p, g, [a, b, c, d], e);
    assert [a, b] + [c] == [a, b, c] && [a, b, c] + [d] == [a, b, c, d] && [a, b, c, d] + [e] == [a, b, c, d, e];
  }

  lemma IsVetted(p: Policy, g: Gate, t: ThreadId, q: Request, now: real)
    requires Admissible(p, g, t, q, now)
    ensures var g' := Continued(p, g, [Submit(t, q), Acquire(t), Check(t), Limit(t, now), Vet(t, now)]);
            && Inside(g.locks, g', t, q, Journaling) && g'.journal == g.journal
            && g'.buckets.Keys == g.buckets.Keys + {q.tenantId}
  {
    var g2 := Next(p, Next(p, g, Submit(t, q)), Acquire(t));
    SoloEnters(p, g, t, q);
    var g3 := Next(p, g2, Check(t));
    SoloChecks(p, g.locks, g2, t, q);
    FirstTokenIsThere(p, g3, q, now);
    var g4 := Next(p, g3, Limit(t, now));
    SoloIsLimited(p, g.locks, g3, t, q, now);
    SoloIsVetted(p, g.locks, g4, t, q, now);
    FiveSteps(p, g, Submit(t, q), Acquire(t), Check(t), Limit(t, now), Vet(t, now));
  }

  lemma SoloAppends(p: Policy, locks: map<Key, Lock>, g: Gate, t: ThreadId, q: Request, now: real)
    requires Inside(locks, g, t, q, Journaling) && ResolveSourceType(q.sourceTypeRaw).Some?
    ensures var g' := Next(p, g, Append(t, "", now, Durable));
            && Inside(locks, g', t, q, Ready("", now)) && g'.journal == g.journal + [NewEntry(q, "", now)]
            && g'.buckets == g.buckets
  {
    InsideMove(locks, g, Next(p, g, Append(t, "", now, Durable)), t, q, Journaling, Ready("", now));
  }

  lemma SoloStarts(p: Policy, locks: map<Key, Lock>, g: Gate, t: ThreadId, q: Request, now: real)
    requires Inside(locks, g, t, q, Ready("", now))
    ensures var g' := Next(p, g, StartPersist(t));
            && Inside(locks, g', t, q, Persisting("", now)) && g'.journal == g.journal && g'.buckets == g.buckets
  {
    InsideMove(locks, g, Next(p, g, StartPersist(t)), t, q, Ready("", now), Persisting("", now));
  }

  lemma EndsInCallback(p: Policy, locks: map<Key, Lock>, g: Gate, t: ThreadId, q: Request, now: real)
    requires Inside(locks, g, t, q, Journaling) && ResolveSourceType(q.sourceTypeRaw).Some?
    ensures var g' := Next(p, Next(p, g, Append(t, "", now, Durable)), StartPersist(t));
            && Inside(locks, g', t, q, Persisting("", now)) && g'.journal == g.journal + [NewEntry(q, "", now)]
            && g'.buckets == g.buckets
  {
    SoloAppends(p, locks, g, t, q, now);
    SoloStarts(p, locks, Next(p, g, Append(t, "", now, Durable)), t, q, now);
  }

  lemma EntersCallback(p: Policy, g: Gate, t: ThreadId, q: Request, now: real)
    requires Admissible(p, g, t, q, now) && ResolveSourceType(q.sourceTypeRaw).Some?
    ensures var g' := Continued(p, g, IntoCallback(t, q, now));
            && Inside(g.locks, g', t, q, Persisting("", now)) && g'.journal == g.journal + [NewEntry(q, "", now)]
            && g'.buckets.Keys == g.buckets.Keys + {q.tenantId}
  {
    var decide := [Submit(t, q), Acquire(t), Check(t), Limit(t, now), Vet(t, now)];
    var g5 := Continued(p, g, decide);
    IsVetted(p, g, t, q, now);
    EndsInCallback(p, g.locks, g5, t, q, now);
    SevenSteps(p, g, t, q, now);
  }

  lemma SevenSteps(p: Policy, g: Gate, t: ThreadId, q: Request, now: real)
    ensures var g5 := Continued(p, g, [Submit(t, q), Acquire(t), Check(t), Limit(t, now), Vet(t, now)]);
            Continued(p, g, IntoCallback(t, q, now)) == Next(p, Next(p, g5, Append(t, "", now, Durable)), StartPersist(t))
  {
    var decide := [Submit(t, q), Acquire(t), Check(t), Limit(t, now), Vet(t, now)];
    var act := [Append(t, "", now, Durable), StartPersist(t)];
    assert IntoCallback(t, q, now) == decide + act;
    ContinuedAlong(p, g, decide, act);
    TwoSteps(p, Continued(p, g, decide), act[0], act[1]);
  }

  /** Any two valid requests of two tenants reach one: each call's callback submits the other's request. */
  function CrossedRun(q: Request, r: Request, now: real): seq<Step> {
    IntoCallback(0, q, now) + IntoCallback(1, r, now) + [Submit(0, r), Submit(1, q)]
  }

  lemma SecondIsAdmissible(p: Policy, g: Gate, q: Request, r: Request, now: real)
    requires q.tenantId != r.tenantId && p.bucket.capacity >= 1.0
    requires Validate(p, q, now).None? && Validate(p, r, now).None?
    requires Inside(map[], g, 0, q, Persisting("", now)) && g.journal == [NewEntry(q, "", now)]
    requires g.buckets.Keys == {q.tenantId} && !Active(g, 1)
    ensures Admissible(p, g, 1, r, now)
  {
    FindAppend([], NewEntry(q, "", now), KeyOf(r));
    assert [] + [NewEntry(q, "", now)] == [NewEntry(q, "", now)];
  }

  lemma FirstInCallback(p: Policy, q: Request, r: Request, now: real)
    requires q.tenantId != r.tenantId && p.bucket.capacity >= 1.0
    requires Validate(p, q, now).None? && Validate(p, r, now).None?
    ensures var g1 := Continued(p, INITIAL, IntoCallback(0, q, now));
            Stack(g1, 0) == [Frame(q, Persisting("", now))] && Admissible(p, g1, 1, r, now)
  {
    var g1 := Continued(p, INITIAL, IntoCallback(0, q, now));
    EntersCallback(p, INITIAL, 0, q, now);
    OthersStay(p, INITIAL, IntoCallback(0, q, now), 0, 1);
    assert INITIAL.journal + [NewEntry(q, "", now)] == [NewEntry(q, "", now)];
    SecondIsAdmissible(p, g1, q, r, now);
  }

  lemma BothInCallbacks(p: Policy, q: Request, r: Request, now: real)
    requires q.tenantId != r.tenantId && p.bucket.capacity >= 1.0
    requires Validate(p, q, now).None? && Validate(p, r, now).None?
    ensures var g2 := Run(p, IntoCallback(0, q, now) + IntoCallback(1, r, now));
            && Stack(g2, 0) == [Frame(q, Persisting("", now))] && Stack(g2, 1) == [Frame(r, Persisting("", now))]
  {
    var first, second := IntoCallback(0, q, now), IntoCallback(1, r, now);
    FirstInCallback(p, q, r, now);
    EntersCallback(p, Continued(p, INITIAL, first), 1, r, now);
    OthersStay(p, Continued(p, INITIAL, first), second, 1, 0);
    RunIsContinued(p, first + second);
    ContinuedAlong(p, INITIAL, first, second);
  }

  lemma DeadlockIsReachable(p: Policy, q: Request, r: Request, now: real)
    requires q.tenantId != r.tenantId && p.bucket.capacity >= 1.0
    requires Validate(p, q, now).None? && Validate(p, r, now).None?
    ensures Deadlocked(Run(p, CrossedRun(q, r, now)), 0) && Deadlocked(Run(p, CrossedRun(q, r, now)), 1)
  {
    var both := IntoCallback(0, q, now) + IntoCallback(1, r, now);
    BothInCallbacks(p, q, r, now);
    RunIsSound(p, both);
    CrossedCallbacksDeadlock(p, Run(p, both), 0, 1, r, q);
    TwoMore(p, both, Submit(0, r), Submit(1, q));
  }

  lemma TwoMore(p: Policy, steps: seq<Step>, a: Step, b: Step)
    ensures Run(p, steps + [a, b]) == Next(p, Next(p, Run(p, steps), a), b)
  {
    assert (steps + [a, b])[..|steps| + 1] == steps + [a] && (steps + [a])[..|steps|] == steps;
  }
}
