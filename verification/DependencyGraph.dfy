/** Kahn's algorithm as the backlog validator runs it: a dependency graph passes exactly when
    every named dependency is a story and no story depends on itself through others, and a
    failing graph is reported by the exact list of stories that can never be unblocked. */
module DependencyGraph {
  import opened Sequences

  type Story = string

  /** A dictionary from story to its `depends_on` list; `order` is its iteration order. */
  datatype Graph = Graph(order: seq<Story>, dependsOn: map<Story, seq<Story>>) {
    ghost predicate Valid() {
      && NoDuplicates(order)
      && (forall s :: s in order <==> s in dependsOn)
    }
  }

  datatype CheckResult = NoCycles | CircularDependency(remaining: seq<Story>)

  // ---------------------------------------------------------------- what the check promises

  /** `p` follows depends_on edges; every node but the last is a known story. */
  ghost predicate IsPath(g: Graph, p: seq<Story>) {
    && |p| > 0
    && forall i :: 0 <= i < |p| - 1 ==> p[i] in g.dependsOn && p[i + 1] in g.dependsOn[p[i]]
  }

  ghost predicate PathFrom(g: Graph, s: Story, p: seq<Story>) {
    IsPath(g, p) && p[0] == s
  }

  ghost predicate EndsUnknown(g: Graph, p: seq<Story>) {
    |p| > 0 && p[|p| - 1] !in g.dependsOn
  }

  ghost predicate EndsRepeated(p: seq<Story>) {
    exists i :: 0 <= i < |p| - 1 && p[i] == p[|p| - 1]
  }

  /** From `s` one can walk to a story that is not in the graph. */
  ghost predicate ReachesUnknown(g: Graph, s: Story) {
    exists p :: PathFrom(g, s, p) && EndsUnknown(g, p)
  }

  /** From `s` one can walk onto a cycle. */
  ghost predicate ReachesCycle(g: Graph, s: Story) {
    exists p :: PathFrom(g, s, p) && EndsRepeated(p)
  }

  ghost predicate Blocked(g: Graph, s: Story) {
    ReachesUnknown(g, s) || ReachesCycle(g, s)
  }

  ghost predicate Acyclic(g: Graph) {
    forall p :: IsPath(g, p) && |p| >= 2 ==> p[0] != p[|p| - 1]
  }

  ghost predicate AllDependenciesKnown(g: Graph) {
    forall s, d :: s in g.dependsOn && d in g.dependsOn[s] ==> d in g.dependsOn
  }

  /** The blocked stories among `order`, in that order. */
  ghost function BlockedAmong(g: Graph, order: seq<Story>): seq<Story> {
    if order == [] then []
    else BlockedAmong(g, order[..|order| - 1])
         + (if Blocked(g, order[|order| - 1]) then [order[|order| - 1]] else [])
  }

  /** Each story comes after everything it depends on. */
  ghost predicate TopologicallyOrdered(g: Graph, v: seq<Story>) {
    && NoDuplicates(v)
    && (forall i :: 0 <= i < |v| ==> v[i] in g.dependsOn)
    && (forall i, d :: 0 <= i < |v| && d in g.dependsOn[v[i]] ==> d in v[..i])
  }

  // ---------------------------------------------------------------- graph theorems

  /** Along any path the position in a topological order strictly drops. */
  lemma {:induction false} PathDescends(g: Graph, v: seq<Story>, p: seq<Story>, i: nat)
    requires TopologicallyOrdered(g, v) && i < |v|
    requires PathFrom(g, v[i], p)
    ensures exists j :: 0 <= j <= i && v[j] == p[|p| - 1] && (|p| > 1 ==> j < i)
    decreases |p|
  {
    if |p| > 1 {
      assert p[1] in v[..i];
      var k :| 0 <= k < i && v[k] == p[1];
      PathDescends(g, v, p[1..], k);
    }
  }

  lemma OrderedIsUnblocked(g: Graph, v: seq<Story>, i: nat)
    requires TopologicallyOrdered(g, v) && i < |v|
    ensures !Blocked(g, v[i])
  {
    forall p | PathFrom(g, v[i], p) ensures !EndsUnknown(g, p) && !EndsRepeated(p) {
      PathDescends(g, v, p, i);
      if EndsRepeated(p) {
        var k :| 0 <= k < |p| - 1 && p[k] == p[|p| - 1];
        PathDescends(g, v, p[..k + 1], i);
        var a :| 0 <= a <= i && v[a] == p[k];
        PathDescends(g, v, p[k..], a);
      }
    }
  }

  /** `s` waits for something that is itself stuck or unknown. */
  ghost predicate Waits(g: Graph, stuck: set<Story>, s: Story) {
    s in g.dependsOn && exists d :: d in g.dependsOn[s] && (d in stuck || d !in g.dependsOn)
  }

  /** Pigeonhole: a non-repeating walk inside a set nobody can leave must fall on itself
      or on an unknown story. */
  lemma {:induction false} StuckIsBlocked(g: Graph, stuck: set<Story>, p: seq<Story>)
    requires forall s :: s in stuck ==> Waits(g, stuck, s)
    requires IsPath(g, p) && NoDuplicates(p) && forall s :: s in p ==> s in stuck
    ensures Blocked(g, p[0])
    decreases |stuck| - |p|
  {
    var s := p[|p| - 1];
    assert Waits(g, stuck, s);
    var d :| d in g.dependsOn[s] && (d in stuck || d !in g.dependsOn);
    var q := p + [d];
    PathExtends(g, p, d);
    if d !in g.dependsOn {
      assert EndsUnknown(g, q);
    } else if d in p {
      var i :| 0 <= i < |p| && p[i] == d;
      assert q[i] == q[|q| - 1];
      assert EndsRepeated(q);
    } else {
      DistinctFits(q, stuck);
      StuckIsBlocked(g, stuck, q);
    }
  }

  lemma PathExtends(g: Graph, p: seq<Story>, d: Story)
    requires IsPath(g, p) && p[|p| - 1] in g.dependsOn && d in g.dependsOn[p[|p| - 1]]
    ensures PathFrom(g, p[0], p + [d])
  {
  }

  /** Nothing is blocked exactly when the graph is a DAG over its own stories. */
  lemma NothingBlockedIffDag(g: Graph)
    ensures (forall s :: s in g.dependsOn ==> !Blocked(g, s)) <==> AllDependenciesKnown(g) && Acyclic(g)
  {
    if forall s :: s in g.dependsOn ==> !Blocked(g, s) {
      forall s, d | s in g.dependsOn && d in g.dependsOn[s] ensures d in g.dependsOn {
        if d !in g.dependsOn {
          assert PathFrom(g, s, [s, d]) && EndsUnknown(g, [s, d]);
        }
      }
      forall p | IsPath(g, p) && |p| >= 2 ensures p[0] != p[|p| - 1] {
        if p[0] == p[|p| - 1] {
          assert PathFrom(g, p[0], p) && EndsRepeated(p);
        }
      }
    }
    if AllDependenciesKnown(g) && Acyclic(g) {
      forall s, p | s in g.dependsOn && PathFrom(g, s, p) ensures !EndsUnknown(g, p) && !EndsRepeated(p) {
        if |p| > 1 {
          assert p[|p| - 1] in g.dependsOn[p[|p| - 2]];
        }
        assert forall k {:trigger p[k..]} :: 0 <= k < |p| - 1 ==>
            IsPath(g, p[k..]) && |p[k..]| >= 2 && p[k..][0] == p[k] && p[k..][|p[k..]| - 1] == p[|p| - 1];
        forall k | 0 <= k < |p| - 1 ensures p[k] != p[|p| - 1] {
          assert p[k..][0] != p[k..][|p[k..]| - 1];
        }
      }
    }
  }

  // ---------------------------------------------------------------- the algorithm

  /** How many entries of `deps` are not in `done` (repeats counted). */
  ghost function Pending(deps: seq<Story>, done: set<Story>): nat {
    if deps == [] then 0
    else Pending(deps[..|deps| - 1], done) + (if deps[|deps| - 1] in done then 0 else 1)
  }

  lemma {:induction false} PendingZero(deps: seq<Story>, done: set<Story>)
    ensures Pending(deps, done) == 0 <==> forall d :: d in deps ==> d in done
  {
    if deps != [] {
      var init := deps[..|deps| - 1];
      PendingZero(init, done);
      assert deps == init + [deps[|deps| - 1]];
    }
  }

  lemma {:induction false} PendingNone(deps: seq<Story>)
    ensures Pending(deps, {}) == |deps|
  {
    if deps != [] {
      PendingNone(deps[..|deps| - 1]);
    }
  }

  /** Finishing one more story removes each of its occurrences. */
  lemma {:induction false} PendingStep(deps: seq<Story>, done: set<Story>, c: Story)
    requires c !in done
    ensures Pending(deps, done + {c}) == Pending(deps, done) - multiset(deps)[c]
  {
    if deps != [] {
      var init := deps[..|deps| - 1];
      PendingStep(init, done, c);
      assert deps == init + [deps[|deps| - 1]];
    }
  }

  function Listed(m: map<Story, seq<Story>>, s: Story): seq<Story> {
    if s in m then m[s] else []
  }

  /** `dependents` holds each edge of `dependsOn` the other way round, with multiplicity. */
  ghost predicate Inverse(dependents: map<Story, seq<Story>>, dependsOn: map<Story, seq<Story>>) {
    forall d, n :: multiset(Listed(dependents, d))[n] == multiset(Listed(dependsOn, n))[d]
  }

  lemma InverseStep(dependents: map<Story, seq<Story>>, dependsOn: map<Story, seq<Story>>, dep: Story, node: Story)
    requires Inverse(dependents, dependsOn)
    ensures Inverse(dependents[dep := Listed(dependents, dep) + [node]],
                    dependsOn[node := Listed(dependsOn, node) + [dep]])
  {
    var dependents' := dependents[dep := Listed(dependents, dep) + [node]];
    var dependsOn' := dependsOn[node := Listed(dependsOn, node) + [dep]];
    forall d, n ensures multiset(Listed(dependents', d))[n] == multiset(Listed(dependsOn', n))[d] {
      assert multiset(Listed(dependents, d))[n] == multiset(Listed(dependsOn, n))[d];
      assert multiset(Listed(dependents', d))[n]
          == multiset(Listed(dependents, d))[n] + (if d == dep && n == node then 1 else 0);
      assert multiset(Listed(dependsOn', n))[d]
          == multiset(Listed(dependsOn, n))[d] + (if d == dep && n == node then 1 else 0);
    }
  }

  /** Each story's in-degree is the number of its dependencies seen so far. */
  ghost predicate InDegreesMatch(g: Graph, inDegree: map<Story, int>, seen: map<Story, seq<Story>>) {
    && inDegree.Keys == g.dependsOn.Keys
    && forall s :: s in inDegree ==> inDegree[s] == |Listed(seen, s)|
  }

  method AddDependencies(g: Graph, node: Story, inDegree0: map<Story, int>, dependents0: map<Story, seq<Story>>,
                         ghost seen: map<Story, seq<Story>>)
    returns (inDegree: map<Story, int>, dependents: map<Story, seq<Story>>)
    requires node in g.dependsOn && node !in seen
    requires InDegreesMatch(g, inDegree0, seen) && Inverse(dependents0, seen)
    ensures InDegreesMatch(g, inDegree, seen[node := g.dependsOn[node]])
    ensures Inverse(dependents, seen[node := g.dependsOn[node]])
  {
    var deps := g.dependsOn[node];
    inDegree, dependents := inDegree0, dependents0;
    NothingListedYet(g, node, inDegree, dependents, seen);
    for j := 0 to |deps|
      invariant InDegreesMatch(g, inDegree, seen[node := deps[..j]])
      invariant Inverse(dependents, seen[node := deps[..j]])
    {
      EdgeStep(g, node, j, inDegree, dependents, seen);
      var dep := deps[j];
      inDegree := inDegree[node := inDegree[node] + 1];
      dependents := dependents[dep := Listed(dependents, dep) + [node]];
    }
    assert deps[..|deps|] == deps;
  }

  lemma NothingListedYet(g: Graph, node: Story, inDegree: map<Story, int>, dependents: map<Story, seq<Story>>,
                         seen: map<Story, seq<Story>>)
    requires node in g.dependsOn && node !in seen
    requires InDegreesMatch(g, inDegree, seen) && Inverse(dependents, seen)
    ensures InDegreesMatch(g, inDegree, seen[node := g.dependsOn[node][..0]])
    ensures Inverse(dependents, seen[node := g.dependsOn[node][..0]])
  {
    var now := seen[node := g.dependsOn[node][..0]];
    assert forall n :: Listed(now, n) == Listed(seen, n);
  }

  lemma EdgeStep(g: Graph, node: Story, j: nat, inDegree: map<Story, int>, dependents: map<Story, seq<Story>>,
                 seen: map<Story, seq<Story>>)
    requires node in g.dependsOn && j < |g.dependsOn[node]|
    requires InDegreesMatch(g, inDegree, seen[node := g.dependsOn[node][..j]])
    requires Inverse(dependents, seen[node := g.dependsOn[node][..j]])
    ensures node in inDegree
    ensures InDegreesMatch(g, inDegree[node := inDegree[node] + 1], seen[node := g.dependsOn[node][..j + 1]])
    ensures var dep := g.dependsOn[node][j];
            Inverse(dependents[dep := Listed(dependents, dep) + [node]], seen[node := g.dependsOn[node][..j + 1]])
  {
    var deps := g.dependsOn[node];
    var now := seen[node := deps[..j]];
    assert deps[..j + 1] == deps[..j] + [deps[j]];
    InverseStep(dependents, now, deps[j], node);
    assert now[node := deps[..j + 1]] == seen[node := deps[..j + 1]];
  }

  ghost function RestrictTo(m: map<Story, seq<Story>>, s: seq<Story>): map<Story, seq<Story>> {
    map x | x in m && x in s :: m[x]
  }

  /** The first pass: counts each story's dependencies and inverts the relation. */
  method BuildInDegrees(g: Graph) returns (inDegree: map<Story, int>, dependents: map<Story, seq<Story>>)
    requires g.Valid()
    ensures InDegreesMatch(g, inDegree, g.dependsOn)
    ensures Inverse(dependents, g.dependsOn)
  {
    inDegree := map node | node in g.dependsOn :: 0;
    dependents := map node | node in g.dependsOn :: [];
    NothingSeenYet(g, inDegree, dependents);
    for k := 0 to |g.order|
      invariant InDegreesMatch(g, inDegree, RestrictTo(g.dependsOn, g.order[..k]))
      invariant Inverse(dependents, RestrictTo(g.dependsOn, g.order[..k]))
    {
      RestrictStep(g, k);
      inDegree, dependents :=
        AddDependencies(g, g.order[k], inDegree, dependents, RestrictTo(g.dependsOn, g.order[..k]));
    }
    EverythingSeen(g);
  }

  lemma NothingSeenYet(g: Graph, inDegree: map<Story, int>, dependents: map<Story, seq<Story>>)
    requires inDegree.Keys == g.dependsOn.Keys && forall s :: s in inDegree ==> inDegree[s] == 0
    requires forall s :: s in dependents ==> dependents[s] == []
    ensures InDegreesMatch(g, inDegree, RestrictTo(g.dependsOn, g.order[..0]))
    ensures Inverse(dependents, RestrictTo(g.dependsOn, g.order[..0]))
  {
    assert RestrictTo(g.dependsOn, g.order[..0]) == map[];
    assert forall d :: Listed(dependents, d) == [];
  }

  lemma EverythingSeen(g: Graph)
    requires g.Valid()
    ensures RestrictTo(g.dependsOn, g.order[..|g.order|]) == g.dependsOn
  {
    assert g.order[..|g.order|] == g.order;
  }

  lemma RestrictStep(g: Graph, k: nat)
    requires g.Valid() && k < |g.order|
    ensures g.order[k] in g.dependsOn && g.order[k] !in RestrictTo(g.dependsOn, g.order[..k])
    ensures RestrictTo(g.dependsOn, g.order[..k + 1])
         == RestrictTo(g.dependsOn, g.order[..k])[g.order[k] := g.dependsOn[g.order[k]]]
  {
    assert g.order[..k + 1] == g.order[..k] + [g.order[k]];
  }

  /** The bookkeeping of the second pass while `visits` are done, `current` is being finished and
      the first `j` of its dependents have been decremented. */
  ghost predicate Counted(g: Graph, inDegree: map<Story, int>, done: set<Story>, decremented: seq<Story>) {
    && inDegree.Keys == g.dependsOn.Keys
    && forall n :: n in g.dependsOn ==>
         inDegree[n] == Pending(g.dependsOn[n], done) - multiset(decremented)[n]
  }

  /** The work list holds, once each, the stories whose count is zero and that are not done. */
  ghost predicate QueueIs(g: Graph, inDegree: map<Story, int>, queue: seq<Story>, done: set<Story>) {
    && inDegree.Keys == g.dependsOn.Keys
    && NoDuplicates(queue)
    && (forall s :: s in queue <==> s in inDegree && inDegree[s] == 0 && s !in done)
  }

  method InitialQueue(g: Graph, inDegree: map<Story, int>) returns (queue: seq<Story>)
    requires g.Valid() && inDegree.Keys == g.dependsOn.Keys
    ensures QueueIs(g, inDegree, queue, {})
  {
    queue := [];
    for i := 0 to |g.order|
      invariant NoDuplicates(queue)
      invariant forall s :: s in queue <==> s in g.order[..i] && inDegree[s] == 0
    {
      assert g.order[..i + 1] == g.order[..i] + [g.order[i]];
      if inDegree[g.order[i]] == 0 {
        queue := queue + [g.order[i]];
      }
    }
    assert g.order[..|g.order|] == g.order;
  }

  /** A dependent that is about to be decremented is unfinished and still counts `current`. */
  lemma StillPending(g: Graph, inDegree: map<Story, int>, done: set<Story>, current: Story,
                     released: seq<Story>, j: nat)
    requires current in g.dependsOn && current !in done && j < |released|
    requires Counted(g, inDegree, done, released[..j])
    requires forall n :: multiset(released)[n] == multiset(Listed(g.dependsOn, n))[current]
    requires forall s, d :: s in done && s in g.dependsOn && d in g.dependsOn[s] ==> d in done
    requires forall d :: d in g.dependsOn[current] ==> d in done
    ensures released[j] in g.dependsOn && released[j] !in done && released[j] != current
    ensures inDegree[released[j]] > 0
  {
    var n := released[j];
    assert released == released[..j] + [n] + released[j + 1..];
    assert multiset(released)[n] > 0;
    assert current in Listed(g.dependsOn, n);
    PendingStep(g.dependsOn[n], done, current);
  }

  /** Decrements every dependent of `current` and queues the ones that reach zero. */
  method Release(g: Graph, inDegree0: map<Story, int>, dependents: map<Story, seq<Story>>,
                 queue0: seq<Story>, current: Story, ghost done: set<Story>)
    returns (inDegree: map<Story, int>, queue: seq<Story>)
    requires current in g.dependsOn && current !in done
    requires Inverse(dependents, g.dependsOn)
    requires Counted(g, inDegree0, done, [])
    requires QueueIs(g, inDegree0, queue0, done + {current})
    requires forall s, d :: s in done && s in g.dependsOn && d in g.dependsOn[s] ==> d in done
    requires forall d :: d in g.dependsOn[current] ==> d in done
    ensures Counted(g, inDegree, done + {current}, [])
    ensures QueueIs(g, inDegree, queue, done + {current})
  {
    var released := Listed(dependents, current);
    inDegree, queue := inDegree0, queue0;
    assert forall n :: multiset(released)[n] == multiset(Listed(g.dependsOn, n))[current];
    for j := 0 to |released|
      invariant Counted(g, inDegree, done, released[..j])
      invariant QueueIs(g, inDegree, queue, done + {current})
    {
      var dependent := released[j];
      StillPending(g, inDegree, done, current, released, j);
      CountedStep(g, inDegree, done, released, j);
      QueueStep(g, inDegree, queue, done + {current}, dependent);
      inDegree := inDegree[dependent := inDegree[dependent] - 1];
      if inDegree[dependent] == 0 {
        queue := queue + [dependent];
      }
    }
    assert released[..|released|] == released;
    CurrentIsDone(g, inDegree, done, current, released);
  }

  /** With all its dependents decremented, `current` counts as done. */
  lemma CurrentIsDone(g: Graph, inDegree: map<Story, int>, done: set<Story>, current: Story, released: seq<Story>)
    requires current !in done && Counted(g, inDegree, done, released)
    requires forall n :: multiset(released)[n] == multiset(Listed(g.dependsOn, n))[current]
    ensures Counted(g, inDegree, done + {current}, [])
  {
    forall n | n in g.dependsOn ensures inDegree[n] == Pending(g.dependsOn[n], done + {current}) {
      PendingStep(g.dependsOn[n], done, current);
      assert multiset(released)[n] == multiset(g.dependsOn[n])[current];
    }
  }

  lemma CountedStep(g: Graph, inDegree: map<Story, int>, done: set<Story>, released: seq<Story>, j: nat)
    requires j < |released| && released[j] in inDegree
    requires Counted(g, inDegree, done, released[..j])
    ensures Counted(g, inDegree[released[j] := inDegree[released[j]] - 1], done, released[..j + 1])
  {
    assert released[..j + 1] == released[..j] + [released[j]];
  }

  lemma QueueStep(g: Graph, inDegree: map<Story, int>, queue: seq<Story>, done: set<Story>, s: Story)
    requires QueueIs(g, inDegree, queue, done) && s in inDegree && s !in done && inDegree[s] > 0
    ensures QueueIs(g, inDegree[s := inDegree[s] - 1], if inDegree[s] == 1 then queue + [s] else queue, done)
  {
  }

  /** When the work list runs dry the unfinished stories are exactly the blocked ones. */
  lemma UnfinishedIsBlocked(g: Graph, inDegree: map<Story, int>, visits: seq<Story>)
    requires TopologicallyOrdered(g, visits)
    requires Counted(g, inDegree, Elements(visits), [])
    requires QueueIs(g, inDegree, [], Elements(visits))
    ensures forall s :: s in g.dependsOn ==> (s in visits <==> !Blocked(g, s))
    ensures forall s :: s in g.dependsOn ==> (inDegree[s] > 0 <==> Blocked(g, s))
  {
    var stuck := g.dependsOn.Keys - Elements(visits);
    forall s | s in stuck ensures Waits(g, stuck, s) {
      assert s !in Elements(visits) && inDegree[s] != 0;
      PendingZero(g.dependsOn[s], Elements(visits));
    }
    forall s | s in g.dependsOn
      ensures s in visits <==> !Blocked(g, s)
      ensures inDegree[s] > 0 <==> Blocked(g, s)
    {
      PendingZero(g.dependsOn[s], Elements(visits));
      if s in visits {
        var i :| 0 <= i < |visits| && visits[i] == s;
        OrderedIsUnblocked(g, visits, i);
        forall d | d in g.dependsOn[s] ensures d in Elements(visits) {
          assert d in visits[..i];
        }
      } else {
        StuckIsBlocked(g, stuck, [s]);
      }
    }
  }

  lemma AllFinishedIffCounted(g: Graph, visits: seq<Story>)
    requires g.Valid() && NoDuplicates(visits) && forall s :: s in visits ==> s in g.dependsOn
    ensures |visits| == |g.dependsOn| <==> forall s :: s in g.dependsOn ==> s in visits
  {
    DistinctSize(visits);
    assert Elements(visits) <= g.dependsOn.Keys;
    if |visits| == |g.dependsOn| {
      assert g.dependsOn.Keys == (g.dependsOn.Keys - Elements(visits)) + Elements(visits);
    }
    if g.dependsOn.Keys <= Elements(visits) {
      assert Elements(visits) == g.dependsOn.Keys;
    }
  }

  /** What holds each time the work list is inspected. */
  ghost predicate Progress(g: Graph, inDegree: map<Story, int>, queue: seq<Story>, visits: seq<Story>) {
    && TopologicallyOrdered(g, visits)
    && Counted(g, inDegree, Elements(visits), [])
    && QueueIs(g, inDegree, queue, Elements(visits))
  }

  lemma Finished(g: Graph, inDegree: map<Story, int>, visits: seq<Story>)
    requires g.Valid() && Progress(g, inDegree, [], visits)
    ensures |visits| == |g.dependsOn| <==> AllDependenciesKnown(g) && Acyclic(g)
    ensures forall s :: s in visits <==> s in g.dependsOn && !Blocked(g, s)
    ensures forall s :: s in g.dependsOn ==> (inDegree[s] > 0 <==> Blocked(g, s))
  {
    UnfinishedIsBlocked(g, inDegree, visits);
    AllFinishedIffCounted(g, visits);
    NothingBlockedIffDag(g);
  }

  method StillCounted(g: Graph, inDegree: map<Story, int>) returns (remaining: seq<Story>)
    requires g.Valid() && inDegree.Keys == g.dependsOn.Keys
    requires forall s :: s in g.dependsOn ==> (inDegree[s] > 0 <==> Blocked(g, s))
    ensures remaining == BlockedAmong(g, g.order)
  {
    remaining := [];
    for i := 0 to |g.order|
      invariant remaining == BlockedAmong(g, g.order[..i])
    {
      assert g.order[..i + 1][..i] == g.order[..i];
      if inDegree[g.order[i]] > 0 {
        remaining := remaining + [g.order[i]];
      }
    }
    assert g.order[..|g.order|] == g.order;
  }

  lemma VisitExtends(g: Graph, visits: seq<Story>, current: Story)
    requires TopologicallyOrdered(g, visits) && current in g.dependsOn && current !in visits
    requires forall d :: d in g.dependsOn[current] ==> d in Elements(visits)
    ensures TopologicallyOrdered(g, visits + [current])
    ensures Elements(visits + [current]) == Elements(visits) + {current}
    ensures forall s, d :: s in Elements(visits) && s in g.dependsOn && d in g.dependsOn[s] ==> d in Elements(visits)
  {
    var v := visits + [current];
    forall i, d | 0 <= i < |v| && d in g.dependsOn[v[i]] ensures d in v[..i] {
      assert v[..i] == visits[..i];
    }
    forall s, d | s in Elements(visits) && s in g.dependsOn && d in g.dependsOn[s] ensures d in Elements(visits) {
      var i :| 0 <= i < |visits| && visits[i] == s;
      assert d in visits[..i];
    }
  }

  lemma QueuePop(g: Graph, inDegree: map<Story, int>, queue: seq<Story>, done: set<Story>)
    requires queue != [] && QueueIs(g, inDegree, queue, done)
    ensures QueueIs(g, inDegree, queue[..|queue| - 1], done + {queue[|queue| - 1]})
  {
    var current, rest := queue[|queue| - 1], queue[..|queue| - 1];
    assert queue == rest + [current];
    assert current !in rest;
  }

  lemma PopIsReady(g: Graph, inDegree: map<Story, int>, queue: seq<Story>, visits: seq<Story>)
    requires queue != [] && Progress(g, inDegree, queue, visits)
    ensures var current, done := queue[|queue| - 1], Elements(visits);
            && current in g.dependsOn && current !in done
            && QueueIs(g, inDegree, queue[..|queue| - 1], done + {current})
            && (forall s, d :: s in done && s in g.dependsOn && d in g.dependsOn[s] ==> d in done)
            && (forall d :: d in g.dependsOn[current] ==> d in done)
            && TopologicallyOrdered(g, visits + [current])
            && Elements(visits + [current]) == done + {current}
  {
    var current := queue[|queue| - 1];
    PendingZero(g.dependsOn[current], Elements(visits));
    VisitExtends(g, visits, current);
    QueuePop(g, inDegree, queue, Elements(visits));
  }

  /** One turn of the main loop: pop the last queued story and release its dependents. */
  method VisitNext(g: Graph, inDegree0: map<Story, int>, dependents: map<Story, seq<Story>>,
                   queue0: seq<Story>, ghost visits: seq<Story>)
    returns (inDegree: map<Story, int>, queue: seq<Story>, current: Story)
    requires queue0 != [] && Inverse(dependents, g.dependsOn) && Progress(g, inDegree0, queue0, visits)
    ensures current == queue0[|queue0| - 1] && current in g.dependsOn && current !in visits
    ensures Progress(g, inDegree, queue, visits + [current])
  {
    current := queue0[|queue0| - 1];
    PopIsReady(g, inDegree0, queue0, visits);
    inDegree, queue := Release(g, inDegree0, dependents, queue0[..|queue0| - 1], current, Elements(visits));
  }

  lemma Started(g: Graph, inDegree: map<Story, int>, queue: seq<Story>)
    requires InDegreesMatch(g, inDegree, g.dependsOn) && QueueIs(g, inDegree, queue, {})
    ensures Progress(g, inDegree, queue, [])
  {
    forall n | n in g.dependsOn ensures Pending(g.dependsOn[n], {}) == |g.dependsOn[n]| {
      PendingNone(g.dependsOn[n]);
    }
    assert Elements<Story>([]) == {};
  }

  lemma VisitsLeft(g: Graph, visits: seq<Story>, current: Story)
    requires current in g.dependsOn && current !in visits
    ensures |g.dependsOn.Keys - Elements(visits + [current])| < |g.dependsOn.Keys - Elements(visits)|
  {
    assert g.dependsOn.Keys - Elements(visits)
        == (g.dependsOn.Keys - Elements(visits + [current])) + {current};
  }

  /** The main loop. `visits` records the order in which stories are popped. */
  method Drain(g: Graph) returns (inDegree: map<Story, int>, visitedCount: nat, ghost visits: seq<Story>)
    requires g.Valid()
    ensures visitedCount == |visits| && Progress(g, inDegree, [], visits)
  {
    var dependents;
    inDegree, dependents := BuildInDegrees(g);
    var queue := InitialQueue(g, inDegree);
    Started(g, inDegree, queue);
    visitedCount := 0;
    visits := [];
    while queue != []
      invariant visitedCount == |visits|
      invariant Progress(g, inDegree, queue, visits)
      decreases |g.dependsOn.Keys - Elements(visits)|
    {
      var current;
      inDegree, queue, current := VisitNext(g, inDegree, dependents, queue, visits);
      VisitsLeft(g, visits, current);
      visits := visits + [current];
      visitedCount := visitedCount + 1;
    }
  }

  /** Kahn's algorithm. */
  method CheckNoCycles(g: Graph) returns (result: CheckResult, ghost visits: seq<Story>)
    requires g.Valid()
    ensures result.NoCycles? <==> AllDependenciesKnown(g) && Acyclic(g)
    ensures result.CircularDependency? ==> result.remaining == BlockedAmong(g, g.order)
    ensures TopologicallyOrdered(g, visits)
    ensures forall s :: s in visits <==> s in g.dependsOn && !Blocked(g, s)
  {
    var inDegree, visitedCount;
    inDegree, visitedCount, visits := Drain(g);
    Finished(g, inDegree, visits);
    if visitedCount != |g.dependsOn| {
      var remaining := StillCounted(g, inDegree);
      result := CircularDependency(remaining);
    } else {
      result := NoCycles;
    }
  }
}
