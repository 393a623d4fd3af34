/** The life of a memory item: active, then compressed, then archived. Two engines move items along it;
    each reads an item, checks a guard, and then has the zone persist the move. Nothing holds the item
    between the read and the persist. */
module Lifecycle {
  import opened Sequences
  import opened Zones
  import D = RotationDeadline

  const ARCHIVE_THRESHOLD := 0.25

  datatype RotationState = Active | Compressed | Archived
  datatype Key = Key(tenantId: string, zone: Zone, itemId: string)
  type Items = map<Key, RotationState>

  /** The rotation engine, with its zone's threshold, or the archive engine. */
  datatype Engine = Rotation(compressThreshold: real) | Archival

  /** How the ports answer for one item: whether it can be read, its score, whether the move persists. */
  datatype Port = Port(readable: bool, score: real, persists: bool)

  datatype Verdict = Moved | Skipped | Failed

  function Target(engine: Engine): RotationState {
    match engine
    case Rotation(_) => Compressed
    case Archival => Archived
  }

  /** The two transition tables: each allows one edge. */
  predicate Allowed(engine: Engine, current: RotationState) {
    match engine
    case Rotation(_) => current.Active?
    case Archival => current.Compressed?
  }

  predicate ArchiveEligible(score: real) {
    score <= ARCHIVE_THRESHOLD + D.SCORE_GUARD_EPSILON
  }

  predicate PassesRescore(engine: Engine, score: real) {
    match engine
    case Rotation(threshold) => D.PassesSweepGuard(score, threshold)
    case Archival => ArchiveEligible(score)
  }

  /** Read, re-score, guard, persist: what both engines do with one item. */
  function Process(items: Items, key: Key, engine: Engine, port: Port): (Items, Verdict) {
    if !port.readable || key !in items then (items, Failed)
    else if !PassesRescore(engine, port.score) || !Allowed(engine, items[key]) then (items, Skipped)
    else if !port.persists then (items, Failed)
    else (items[key := Target(engine)], Moved)
  }

  /** One sweep over `keys`, in order. */
  function ProcessAll(items: Items, keys: seq<Key>, engine: Engine, ports: nat -> Port): (Items, seq<Verdict>) {
    if keys == [] then (items, [])
    else
      var n := |keys| - 1;
      var (items', verdicts) := ProcessAll(items, keys[..n], engine, ports);
      var (items'', verdict) := Process(items', keys[n], engine, ports(n));
      (items'', verdicts + [verdict])
  }

  // ---------------------------------------------------------------- what a sweep does

  function Rank(s: RotationState): nat {
    match s
    case Active => 0
    case Compressed => 1
    case Archived => 2
  }

  /** From the state before to the state after: unchanged, newly created, or one step on. */
  ghost predicate LegalMove(before: Items, after: Items, key: Key) {
    if key !in after then key !in before
    else if key !in before then after[key].Active?
    else after[key] == before[key] || Rank(after[key]) == Rank(before[key]) + 1
  }

  /** A whole sweep moves an item at most one step, from the one state its engine accepts, and only if
      some position of the sweep names it, read it with a passing score and persisted it. */
  lemma {:induction false} SweepMoves(items: Items, keys: seq<Key>, engine: Engine, ports: nat -> Port, key: Key)
    ensures var (items', verdicts) := ProcessAll(items, keys, engine, ports);
            && |verdicts| == |keys| && items'.Keys == items.Keys
            && (key in items ==>
                  if exists k :: 0 <= k < |keys| && keys[k] == key && verdicts[k].Moved?
                  then Allowed(engine, items[key]) && items'[key] == Target(engine)
                  else items'[key] == items[key])
  {
    if keys != [] {
      var n := |keys| - 1;
      SweepMoves(items, keys[..n], engine, ports, key);
      var (items', verdicts) := ProcessAll(items, keys[..n], engine, ports);
      var (items'', all) := ProcessAll(items, keys, engine, ports);
      assert all[..n] == verdicts;
      if k :| 0 <= k < |keys[..n]| && keys[..n][k] == key && verdicts[k].Moved? {
        assert keys[k] == key && all[k].Moved?;
      }
      if k :| 0 <= k < |keys| && keys[k] == key && all[k].Moved? && k < n {
        assert keys[..n][k] == key && verdicts[k].Moved?;
      }
    }
  }

  /** An item named once is moved exactly when it can be read, passes its re-score, is in the state the
      engine accepts, and the move persists. */
  lemma {:induction false} MovedIff(items: Items, keys: seq<Key>, engine: Engine, ports: nat -> Port, k: nat)
    requires k < |keys| && forall j :: 0 <= j < |keys| && j != k ==> keys[j] != keys[k]
    ensures var verdicts := ProcessAll(items, keys, engine, ports).1;
            && |verdicts| == |keys|
            && verdicts[k] == Process(items, keys[k], engine, ports(k)).1
    decreases |keys|
  {
    var n := |keys| - 1;
    SweepMoves(items, keys[..n], engine, ports, keys[k]);
    if k < n {
      MovedIff(items, keys[..n], engine, ports, k);
    }
  }

  // ---------------------------------------------------------------- reports

  function Keys(tenantId: string, zone: Zone, ids: seq<string>): (keys: seq<Key>)
    ensures |keys| == |ids| && forall k :: 0 <= k < |ids| ==> keys[k] == Key(tenantId, zone, ids[k])
  {
    Mapped(ids, (id: string) => Key(tenantId, zone, id))
  }

  /** The keys that got the verdict, in order. */
  function WithVerdict(keys: seq<Key>, verdicts: seq<Verdict>, v: Verdict): seq<Key>
    requires |keys| == |verdicts|
  {
    if keys == [] then []
    else
      var n := |keys| - 1;
      WithVerdict(keys[..n], verdicts[..n], v) + (if verdicts[n] == v then [keys[n]] else [])
  }

  lemma WithVerdictGrows(keys: seq<Key>, verdicts: seq<Verdict>, v: Verdict, x: Key)
    requires |keys| == |verdicts| && keys != []
    ensures var n := |keys| - 1;
            multiset(WithVerdict(keys, verdicts, v))[x]
            == multiset(WithVerdict(keys[..n], verdicts[..n], v))[x] + (if verdicts[n] == v && keys[n] == x then 1 else 0)
  {
    MultisetAppend(WithVerdict(keys[..|keys| - 1], verdicts[..|keys| - 1], v), keys[|keys| - 1]);
  }

  lemma LastCounts(keys: seq<Key>, x: Key)
    requires keys != []
    ensures multiset(keys)[x] == multiset(keys[..|keys| - 1])[x] + (if keys[|keys| - 1] == x then 1 else 0)
  {
    MultisetAppend(keys[..|keys| - 1], keys[|keys| - 1]);
    assert keys == keys[..|keys| - 1] + [keys[|keys| - 1]];
  }

  lemma {:induction false} VerdictCounts(keys: seq<Key>, verdicts: seq<Verdict>, x: Key)
    requires |keys| == |verdicts|
    ensures multiset(keys)[x]
         == multiset(WithVerdict(keys, verdicts, Moved))[x] + multiset(WithVerdict(keys, verdicts, Skipped))[x]
            + multiset(WithVerdict(keys, verdicts, Failed))[x]
  {
    if keys != [] {
      var n := |keys| - 1;
      VerdictCounts(keys[..n], verdicts[..n], x);
      WithVerdictGrows(keys, verdicts, Moved, x);
      WithVerdictGrows(keys, verdicts, Skipped, x);
      WithVerdictGrows(keys, verdicts, Failed, x);
      LastCounts(keys, x);
    }
  }

  lemma {:induction false} HasVerdictIff(keys: seq<Key>, verdicts: seq<Verdict>, v: Verdict, key: Key)
    requires |keys| == |verdicts|
    ensures key in WithVerdict(keys, verdicts, v) <==> exists k :: 0 <= k < |keys| && keys[k] == key && verdicts[k] == v
  {
    var n := |keys| - 1;
    if n >= 0 {
      HasVerdictIff(keys[..n], verdicts[..n], v, key);
      if k :| 0 <= k < |keys| && keys[k] == key && verdicts[k] == v && k < n {
        assert keys[..n][k] == key && verdicts[..n][k] == v;
      }
    }
  }

  /** A key named once is listed under its own verdict only. */
  lemma OnlyVerdict(keys: seq<Key>, verdicts: seq<Verdict>, k: nat, v: Verdict)
    requires |keys| == |verdicts| && k < |keys| && forall j :: 0 <= j < |keys| && j != k ==> keys[j] != keys[k]
    ensures keys[k] in WithVerdict(keys, verdicts, v) <==> verdicts[k] == v
  {
    HasVerdictIff(keys, verdicts, v, keys[k]);
  }

  /** The highest score each engine lets through, and the state it takes an item from. */
  ghost function Limit(engine: Engine): real {
    match engine
    case Rotation(threshold) => threshold + 0.000000001
    case Archival => 0.25 + 0.000000001
  }

  ghost function Source(engine: Engine): RotationState {
    if engine.Rotation? then Active else Compressed
  }

  /** An item named once fails if it cannot be read or is gone, is skipped if it scores above the limit or is not
      in the engine's state, fails if the move does not persist, and otherwise moves. */
  lemma VerdictIs(items: Items, keys: seq<Key>, engine: Engine, ports: nat -> Port, k: nat)
    requires k < |keys| && forall j :: 0 <= j < |keys| && j != k ==> keys[j] != keys[k]
    ensures var verdicts := ProcessAll(items, keys, engine, ports).1;
            && |verdicts| == |keys|
            && verdicts[k] == if !ports(k).readable || keys[k] !in items then Failed
                              else if ports(k).score > Limit(engine) || items[keys[k]] != Source(engine) then Skipped
                              else if !ports(k).persists then Failed
                              else Moved
  {
    MovedIff(items, keys, engine, ports, k);
  }

  /** Every swept key is listed under its verdict, exactly once. */
  lemma VerdictsPartition(keys: seq<Key>, verdicts: seq<Verdict>)
    requires |keys| == |verdicts|
    ensures multiset(keys)
         == multiset(WithVerdict(keys, verdicts, Moved)) + multiset(WithVerdict(keys, verdicts, Skipped))
            + multiset(WithVerdict(keys, verdicts, Failed))
  {
    forall x
      ensures multiset(keys)[x]
           == multiset(WithVerdict(keys, verdicts, Moved))[x] + multiset(WithVerdict(keys, verdicts, Skipped))[x]
              + multiset(WithVerdict(keys, verdicts, Failed))[x]
    {
      VerdictCounts(keys, verdicts, x);
    }
  }

  lemma {:induction false} VerdictCount(items: Items, keys: seq<Key>, engine: Engine, ports: nat -> Port)
    ensures |ProcessAll(items, keys, engine, ports).1| == |keys|
  {
    if keys != [] {
      VerdictCount(items, keys[..|keys| - 1], engine, ports);
    }
  }

  /** One more item of the sweep. */
  lemma SweepStep(items: Items, keys: seq<Key>, engine: Engine, ports: nat -> Port, i: nat, now: Items, verdicts: seq<Verdict>)
    requires i < |keys| && |verdicts| == i && ProcessAll(items, keys[..i], engine, ports) == (now, verdicts)
    ensures var (after, verdict) := Process(now, keys[i], engine, ports(i));
            ProcessAll(items, keys[..i + 1], engine, ports) == (after, verdicts + [verdict])
  {
    assert keys[..i + 1][..i] == keys[..i];
  }

  lemma VerdictStep(keys: seq<Key>, verdicts: seq<Verdict>, i: nat, verdict: Verdict, v: Verdict)
    requires i < |keys| && |verdicts| == i
    ensures WithVerdict(keys[..i + 1], verdicts + [verdict], v)
         == WithVerdict(keys[..i], verdicts, v) + (if verdict == v then [keys[i]] else [])
  {
    assert keys[..i + 1][..i] == keys[..i] && (verdicts + [verdict])[..i] == verdicts;
  }

  // ---------------------------------------------------------------- any interleaving

  /** What a worker knows between its read and its persist: the guard held then. */
  datatype Holding = Holding(key: Key, engine: Engine)

  datatype System = System(items: Items, workers: map<nat, Holding>)

  datatype Act =
    | Create(key: Key)
    | Read(worker: nat, key: Key, engine: Engine, port: Port)
    | Persist(worker: nat, persists: bool)

  const START := System(map[], map[])

  function Next(s: System, a: Act): System {
    match a
    case Create(key) => if key in s.items then s else s.(items := s.items[key := Active])
    case Read(worker, key, engine, port) =>
      if worker !in s.workers && port.readable && key in s.items
         && PassesRescore(engine, port.score) && Allowed(engine, s.items[key])
      then s.(workers := s.workers[worker := Holding(key, engine)])
      else s
    case Persist(worker, persists) =>
      if worker !in s.workers then s
      else
        var h := s.workers[worker];
        System(if persists then s.items[h.key := Target(h.engine)] else s.items, s.workers - {worker})
  }

  function Run(acts: seq<Act>): System {
    if acts == [] then START else Next(Run(acts[..|acts| - 1]), acts[|acts| - 1])
  }

  function At(acts: seq<Act>, k: nat): System
    requires k <= |acts|
  {
    Run(acts[..k])
  }

  lemma AtNext(acts: seq<Act>, k: nat)
    requires k < |acts|
    ensures At(acts, k + 1) == Next(At(acts, k), acts[k])
  {
    assert acts[..k + 1][..k] == acts[..k];
  }

  /** A read directly followed by its persist is one step of a sweep. */
  lemma SweepStepIsReadThenPersist(s: System, worker: nat, key: Key, engine: Engine, port: Port)
    requires worker !in s.workers
    ensures Next(Next(s, Read(worker, key, engine, port)), Persist(worker, port.persists))
         == s.(items := Process(s.items, key, engine, port).0)
  {
    var read := Next(s, Read(worker, key, engine, port));
    if worker in read.workers {
      assert read.workers - {worker} == s.workers;
    }
  }

  /** What every worker between read and persist can rely on: its item exists, and an item about to be
      archived has been compressed. */
  ghost predicate Inv(s: System) {
    forall w :: w in s.workers ==>
      && s.workers[w].key in s.items
      && (s.workers[w].engine.Archival? ==> !s.items[s.workers[w].key].Active?)
  }

  lemma NextKeeps(s: System, a: Act)
    requires Inv(s)
    ensures Inv(Next(s, a))
  {
  }

  lemma {:induction false} RunKeeps(acts: seq<Act>)
    ensures Inv(Run(acts))
  {
    if acts != [] {
      RunKeeps(acts[..|acts| - 1]);
      NextKeeps(Run(acts[..|acts| - 1]), acts[|acts| - 1]);
    }
  }

  /** A compression persisted after its item has already been archived. */
  ghost predicate LateCompression(s: System, a: Act) {
    && a.Persist? && a.persists && a.worker in s.workers
    && s.workers[a.worker].engine.Rotation?
    && s.workers[a.worker].key in s.items && s.items[s.workers[a.worker].key].Archived?
  }

  ghost predicate StepLegal(before: Items, after: Items) {
    forall key :: LegalMove(before, after, key)
  }

  lemma StepIsLegalIffNotLate(s: System, a: Act)
    requires Inv(s)
    ensures StepLegal(s.items, Next(s, a).items) <==> !LateCompression(s, a)
  {
    var s' := Next(s, a);
    if LateCompression(s, a) {
      assert !LegalMove(s.items, s'.items, s.workers[a.worker].key);
    }
  }

  ghost predicate EveryMoveLegal(acts: seq<Act>) {
    forall k :: 0 <= k < |acts| ==> StepLegal(At(acts, k).items, Next(At(acts, k), acts[k]).items)
  }

  ghost predicate NoLateCompression(acts: seq<Act>) {
    forall k :: 0 <= k < |acts| ==> !LateCompression(At(acts, k), acts[k])
  }

  /** Over any interleaving, items move one step at a time, active to compressed to archived, if and only
      if no compression is persisted for an item that was archived since its guard was checked. */
  lemma ItemsMoveOneStepIffNotLate(acts: seq<Act>)
    ensures EveryMoveLegal(acts) <==> NoLateCompression(acts)
  {
    forall k | 0 <= k < |acts|
      ensures StepLegal(At(acts, k).items, Next(At(acts, k), acts[k]).items)
              <==> !LateCompression(At(acts, k), acts[k])
    {
      RunKeeps(acts[..k]);
      StepIsLegalIffNotLate(At(acts, k), acts[k]);
    }
  }

  /** Two compressions of the same item are both past their guard. */
  ghost predicate BothCompress(s: System, v: nat, w: nat) {
    && v != w && v in s.workers && w in s.workers
    && s.workers[v].engine.Rotation? && s.workers[w].engine.Rotation?
    && s.workers[v].key == s.workers[w].key
  }

  /** No two compressions are ever between read and persist on the same item; every other overlap, of
      archive sweeps and fast tracks with one another or with a compression, is left free. */
  ghost predicate OneCompressionEach(acts: seq<Act>) {
    forall k, v, w :: 0 <= k <= |acts| ==> !BothCompress(At(acts, k), v, w)
  }

  /** What a worker about to compress relies on: its item is still active. */
  ghost predicate CompressingActive(s: System) {
    forall w :: w in s.workers && s.workers[w].engine.Rotation? ==>
      s.workers[w].key in s.items && s.items[s.workers[w].key].Active?
  }

  lemma CompressingStaysActive(s: System, a: Act)
    requires Inv(s) && CompressingActive(s) && forall v, w :: !BothCompress(s, v, w)
    ensures CompressingActive(Next(s, a))
  {
    var s' := Next(s, a);
    forall w | w in s'.workers && s'.workers[w].engine.Rotation?
      ensures s'.workers[w].key in s'.items && s'.items[s'.workers[w].key].Active?
    {
      if a.Persist? && a.worker in s.workers {
        assert !BothCompress(s, a.worker, w);
      }
    }
  }

  lemma {:induction false} OneCompressionKeepsActive(acts: seq<Act>, k: nat)
    requires OneCompressionEach(acts) && k <= |acts|
    ensures CompressingActive(At(acts, k))
  {
    if k > 0 {
      OneCompressionKeepsActive(acts, k - 1);
      AtNext(acts, k - 1);
      RunKeeps(acts[..k - 1]);
      CompressingStaysActive(At(acts, k - 1), acts[k - 1]);
    }
  }

  /** So if compressions never overlap on an item, it only ever moves one step at a time. */
  lemma SeparateCompressionsMoveOneStep(acts: seq<Act>)
    requires OneCompressionEach(acts)
    ensures EveryMoveLegal(acts)
  {
    forall k | 0 <= k < |acts| ensures !LateCompression(At(acts, k), acts[k]) {
      OneCompressionKeepsActive(acts, k);
    }
    ItemsMoveOneStepIffNotLate(acts);
  }

  /** Every archived item was compressed at some earlier time, however the workers interleave. */
  lemma {:induction false} ArchivedWasCompressed(acts: seq<Act>, k: nat, key: Key)
    requires k <= |acts| && key in At(acts, k).items && !At(acts, k).items[key].Active?
    ensures exists j :: 0 <= j <= k && key in At(acts, j).items && At(acts, j).items[key].Compressed?
  {
    if At(acts, k).items[key].Archived? {
      assert k > 0;
      AtNext(acts, k - 1);
      RunKeeps(acts[..k - 1]);
      ArchivedWasCompressed(acts, k - 1, key);
    }
  }

  /** The first compression persists, an archive worker takes the item on, and the second compression
      persists; steps already taken are left out. */
  ghost function TakingBack(state: RotationState, v: nat, w: nat, archiver: nat, key: Key): seq<Act> {
    (if state.Active? then [Persist(v, true)] else [])
    + (if state.Archived? then [] else [Read(archiver, key, Archival, Port(true, 0.0, true)), Persist(archiver, true)])
    + [Persist(w, true)]
  }

  /** The run's last act turns the item from archived back to compressed. */
  ghost predicate TakenBack(run: seq<Act>, key: Key) {
    && run != []
    && key in At(run, |run| - 1).items && At(run, |run| - 1).items[key].Archived?
    && key in At(run, |run|).items && At(run, |run|).items[key].Compressed?
    && !EveryMoveLegal(run)
  }

  ghost predicate Continues(run: seq<Act>, n: nat, more: seq<Act>) {
    |run| == n + |more| && forall k :: n <= k < |run| ==> run[k] == more[k - n]
  }

  lemma HeldItemExists(acts: seq<Act>, k: nat, v: nat)
    requires k <= |acts| && v in At(acts, k).workers
    ensures At(acts, k).workers[v].key in At(acts, k).items
  {
    RunKeeps(acts[..k]);
  }

  lemma ConcatenationContinues(acts: seq<Act>, more: seq<Act>)
    ensures Continues(acts + more, |acts|, more) && At(acts + more, |acts|) == At(acts, |acts|)
  {
    assert (acts + more)[..|acts|] == acts == acts[..|acts|];
  }

  /** That condition cannot be weakened: whenever two compressions are both past their guard on an item,
      some continuation turns it from archived back to compressed. */
  lemma OverlapTakesItemBack(acts: seq<Act>, v: nat, w: nat, archiver: nat) returns (more: seq<Act>)
    requires BothCompress(At(acts, |acts|), v, w) && archiver !in At(acts, |acts|).workers
    ensures TakenBack(acts + more, At(acts, |acts|).workers[v].key)
  {
    HeldItemExists(acts, |acts|, v);
    var key := At(acts, |acts|).workers[v].key;
    more := TakingBack(At(acts, |acts|).items[key], v, w, archiver, key);
    ConcatenationContinues(acts, more);
    TakingBackFollows(acts + more, |acts|, v, w, archiver, key);
  }

  lemma TakingBackFollows(run: seq<Act>, n: nat, v: nat, w: nat, archiver: nat, key: Key)
    requires n <= |run| && BothCompress(At(run, n), v, w) && archiver !in At(run, n).workers
    requires At(run, n).workers[v].key == key && key in At(run, n).items
    requires Continues(run, n, TakingBack(At(run, n).items[key], v, w, archiver, key))
    ensures TakenBack(run, key)
  {
    if !At(run, n).items[key].Archived? {
      AtNext(run, n);
      AtNext(run, n + 1);
    }
    if At(run, n).items[key].Active? {
      AtNext(run, n + 2);
    }
    LastActTakesBack(run, w, key);
  }

  lemma LastActTakesBack(run: seq<Act>, w: nat, key: Key)
    requires run != [] && run[|run| - 1] == Persist(w, true)
    requires var s := At(run, |run| - 1);
             w in s.workers && s.workers[w].engine.Rotation? && s.workers[w].key == key
             && key in s.items && s.items[key].Archived?
    ensures TakenBack(run, key)
  {
    var m := |run| - 1;
    AtNext(run, m);
    assert !LegalMove(At(run, m).items, At(run, m + 1).items, key);
    assert !StepLegal(At(run, m).items, Next(At(run, m), run[m]).items);
  }

  /** Such a state is reachable: two sweeps read the same item. */
  lemma OverlapIsReachable(key: Key)
    ensures var port := Port(true, 0.0, true);
            var acts := [Create(key), Read(1, key, Rotation(0.5), port), Read(2, key, Rotation(0.5), port)];
            BothCompress(At(acts, 3), 1, 2) && 3 !in At(acts, 3).workers
  {
    var port := Port(true, 0.0, true);
    var acts := [Create(key), Read(1, key, Rotation(0.5), port), Read(2, key, Rotation(0.5), port)];
    assert acts[..0] == [] && acts[..3] == acts;
    AtNext(acts, 0);
    AtNext(acts, 1);
    AtNext(acts, 2);
  }

  /** The zone's own record of its items' states, behind the two ports. */
  class ItemStates {
    var items: Items

    constructor (items: Items)
      ensures this.items == items
    {
      this.items := items;
    }
  }
}
