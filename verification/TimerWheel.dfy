/** The rotation timer wheel: a heap with lazy deletion by generation number. `dueAt` is the map
    the wheel stands for; popping never reads it, so whether a pop agrees with it is a theorem. */
module TimerWheel {
  import opened Sequences
  import opened Sorting
  import opened Text

  datatype HeapEntry = HeapEntry(dueAt: real, generation: nat, itemId: string)
  datatype ScheduledRotation = ScheduledRotation(itemId: string, dueAt: real)

  /** The heap is kept as the order `heappop` would return it in. */
  datatype Wheel = Wheel(heap: seq<HeapEntry>, generation: map<string, nat>, dueAt: map<string, real>)

  const EMPTY := Wheel([], map[], map[])

  /** Tuple order on (due_at, generation, item_id). */
  predicate Before(a: HeapEntry, b: HeapEntry) {
    || a.dueAt < b.dueAt
    || (a.dueAt == b.dueAt && a.generation < b.generation)
    || (a.dueAt == b.dueAt && a.generation == b.generation && Less(a.itemId, b.itemId))
  }

  lemma BeforeIsOrder()
    ensures StrictWeakOrder(Before)
  {
    forall a, b | Before(a, b) ensures !Before(b, a) {
      LessTotal(a.itemId, b.itemId);
    }
    forall a, b, c | !Before(b, a) && !Before(c, b) ensures !Before(c, a) {
      LessTotal(a.itemId, b.itemId);
      LessTotal(b.itemId, c.itemId);
      if Less(a.itemId, b.itemId) && Less(b.itemId, c.itemId) {
        LessTransitive(a.itemId, b.itemId, c.itemId);
      }
      LessTotal(a.itemId, c.itemId);
    }
  }

  function Scheduled(w: Wheel, itemId: string, dueAt: real): Wheel {
    var generation := (if itemId in w.generation then w.generation[itemId] else 0) + 1;
    Wheel(Insert(w.heap, HeapEntry(dueAt, generation, itemId), Before),
          w.generation[itemId := generation], w.dueAt[itemId := dueAt])
  }

  function Invalidated(w: Wheel, itemId: string): Wheel {
    w.(generation := w.generation - {itemId}, dueAt := w.dueAt - {itemId})
  }

  /** Whether a popped entry is the live one of its item, as far as generations can tell. */
  predicate Matches(w: Wheel, e: HeapEntry) {
    e.itemId in w.generation && w.generation[e.itemId] == e.generation
  }

  function Popped(w: Wheel, asOf: real): (Wheel, seq<ScheduledRotation>)
    decreases |w.heap|
  {
    if w.heap == [] || w.heap[0].dueAt > asOf then (w, [])
    else
      var e := w.heap[0];
      var rest := w.(heap := w.heap[1..]);
      if !Matches(w, e) then Popped(rest, asOf)
      else
        var (end, due) := Popped(Invalidated(rest, e.itemId), asOf);
        (end, [ScheduledRotation(e.itemId, e.dueAt)] + due)
  }

  // ---------------------------------------------------------------- what always holds

  ghost predicate Inv(w: Wheel) {
    && Ordered(w.heap, Before)
    && w.generation.Keys == w.dueAt.Keys
    && forall id :: id in w.generation ==> HeapEntry(w.dueAt[id], w.generation[id], id) in w.heap
  }

  lemma InsertedHeap(heap: seq<HeapEntry>, e: HeapEntry)
    requires Ordered(heap, Before)
    ensures Ordered(Insert(heap, e, Before), Before)
    ensures forall x :: x in Insert(heap, e, Before) <==> x in heap || x == e
  {
    BeforeIsOrder();
    InsertKeeps(heap, e, Before);
    forall x ensures x in Insert(heap, e, Before) <==> x in heap || x == e {
      assert x in Insert(heap, e, Before) <==> x in multiset(Insert(heap, e, Before));
      assert x in heap <==> x in multiset(heap);
    }
  }

  lemma ScheduleKeeps(w: Wheel, itemId: string, dueAt: real)
    requires Inv(w)
    ensures Inv(Scheduled(w, itemId, dueAt))
    ensures forall e :: e in Scheduled(w, itemId, dueAt).heap <==>
              e in w.heap || e == HeapEntry(dueAt, Scheduled(w, itemId, dueAt).generation[itemId], itemId)
  {
    InsertedHeap(w.heap, HeapEntry(dueAt, Scheduled(w, itemId, dueAt).generation[itemId], itemId));
  }

  /** Which entry of `id` a pop would act on: a matching one no later than `asOf`. */
  ghost predicate PopsAt(w: Wheel, asOf: real, id: string, due: real) {
    id in w.generation && due <= asOf && HeapEntry(due, w.generation[id], id) in w.heap
  }

  ghost predicate Listed(due: seq<ScheduledRotation>, id: string) {
    exists i :: 0 <= i < |due| && due[i].itemId == id
  }

  /** Distinct items, in ascending due order. */
  ghost predicate Ascending(due: seq<ScheduledRotation>) {
    forall i, j :: 0 <= i < j < |due| ==> due[i].itemId != due[j].itemId && due[i].dueAt <= due[j].dueAt
  }

  /** Everything returned was poppable, at its earliest matching entry. */
  ghost predicate Earliest(w: Wheel, asOf: real, due: seq<ScheduledRotation>) {
    forall i :: 0 <= i < |due| ==>
      PopsAt(w, asOf, due[i].itemId, due[i].dueAt)
      && forall d :: PopsAt(w, asOf, due[i].itemId, d) ==> due[i].dueAt <= d
  }

  ghost predicate NoneMissed(w: Wheel, asOf: real, due: seq<ScheduledRotation>) {
    forall id, d :: PopsAt(w, asOf, id, d) ==> Listed(due, id)
  }

  /** Items not returned keep their schedule, and only those are still live. */
  ghost predicate RestUntouched(w: Wheel, w': Wheel, due: seq<ScheduledRotation>) {
    && w'.generation.Keys == w'.dueAt.Keys
    && (forall id :: id in w'.generation <==> id in w.generation && !Listed(due, id))
    && (forall id :: id in w'.generation && id in w.dueAt ==>
          w'.generation[id] == w.generation[id] && w'.dueAt[id] == w.dueAt[id])
  }

  /** What a pop returns and leaves, whatever orphans the heap holds. */
  ghost predicate PopContract(w: Wheel, asOf: real, result: (Wheel, seq<ScheduledRotation>)) {
    match result
    case (w', due) =>
      Inv(w') && Ascending(due) && Earliest(w, asOf, due) && NoneMissed(w, asOf, due) && RestUntouched(w, w', due)
  }

  lemma HeadIsFirst(w: Wheel)
    requires Inv(w) && w.heap != []
    ensures forall e :: e in w.heap ==> w.heap[0].dueAt <= e.dueAt
    ensures Ordered(w.heap[1..], Before)
    ensures forall e :: e in w.heap <==> e == w.heap[0] || e in w.heap[1..]
  {
    forall e | e in w.heap ensures w.heap[0].dueAt <= e.dueAt {
      var k :| 0 <= k < |w.heap| && w.heap[k] == e;
      if k > 0 {
        assert !Before(w.heap[k], w.heap[0]);
      }
    }
    assert w.heap == [w.heap[0]] + w.heap[1..];
  }

  lemma NothingDue(w: Wheel, asOf: real)
    requires Inv(w) && (w.heap == [] || w.heap[0].dueAt > asOf)
    ensures PopContract(w, asOf, (w, []))
  {
    if w.heap != [] {
      HeadIsFirst(w);
    }
  }

  /** Discarding an orphan changes nothing a pop can see. */
  lemma DiscardOrphan(w: Wheel, asOf: real, result: (Wheel, seq<ScheduledRotation>))
    requires Inv(w) && w.heap != [] && !Matches(w, w.heap[0])
    ensures Inv(w.(heap := w.heap[1..]))
    ensures PopContract(w.(heap := w.heap[1..]), asOf, result) ==> PopContract(w, asOf, result)
  {
    HeadIsFirst(w);
    var rest := w.(heap := w.heap[1..]);
    assert forall id, d :: PopsAt(rest, asOf, id, d) <==> PopsAt(w, asOf, id, d);
  }

  lemma TakeFacts(w: Wheel, asOf: real)
    requires Inv(w) && w.heap != [] && Matches(w, w.heap[0]) && w.heap[0].dueAt <= asOf
    ensures var next := Invalidated(w.(heap := w.heap[1..]), w.heap[0].itemId);
            && Inv(next)
            && (forall id, d :: PopsAt(next, asOf, id, d) <==> id != w.heap[0].itemId && PopsAt(w, asOf, id, d))
    ensures PopsAt(w, asOf, w.heap[0].itemId, w.heap[0].dueAt)
    ensures forall id, d :: PopsAt(w, asOf, id, d) ==> w.heap[0].dueAt <= d
  {
    HeadIsFirst(w);
  }

  lemma ListedPrepend(head: ScheduledRotation, due: seq<ScheduledRotation>)
    ensures forall id :: Listed([head] + due, id) <==> id == head.itemId || Listed(due, id)
  {
    forall id ensures Listed([head] + due, id) <==> id == head.itemId || Listed(due, id) {
      assert ([head] + due)[0] == head;
      if Listed(due, id) {
        var i :| 0 <= i < |due| && due[i].itemId == id;
        assert ([head] + due)[i + 1].itemId == id;
      }
    }
  }

  /** Putting an item nobody else returned, no later than all of them, in front. */
  lemma PrependEarliest(w: Wheel, next: Wheel, asOf: real, head: ScheduledRotation, due: seq<ScheduledRotation>)
    requires Ascending(due) && Earliest(next, asOf, due)
    requires PopsAt(w, asOf, head.itemId, head.dueAt)
    requires forall id, d :: PopsAt(w, asOf, id, d) ==> head.dueAt <= d
    requires forall id, d :: PopsAt(next, asOf, id, d) <==> id != head.itemId && PopsAt(w, asOf, id, d)
    ensures Ascending([head] + due) && Earliest(w, asOf, [head] + due)
  {
    forall i | 0 <= i < |due| ensures PopsAt(w, asOf, due[i].itemId, due[i].dueAt) && due[i].itemId != head.itemId {
      assert PopsAt(next, asOf, due[i].itemId, due[i].dueAt);
    }
    var all := [head] + due;
    forall i, d | 0 <= i < |all| && PopsAt(w, asOf, all[i].itemId, d) ensures all[i].dueAt <= d {
      if i > 0 {
        assert all[i] == due[i - 1];
        assert PopsAt(next, asOf, due[i - 1].itemId, d);
      }
    }
  }

  lemma TakeHead(w: Wheel, asOf: real, w': Wheel, due: seq<ScheduledRotation>)
    requires Inv(w) && w.heap != [] && Matches(w, w.heap[0]) && w.heap[0].dueAt <= asOf
    requires PopContract(Invalidated(w.(heap := w.heap[1..]), w.heap[0].itemId), asOf, (w', due))
    ensures PopContract(w, asOf, (w', [ScheduledRotation(w.heap[0].itemId, w.heap[0].dueAt)] + due))
  {
    TakeFacts(w, asOf);
    var next := Invalidated(w.(heap := w.heap[1..]), w.heap[0].itemId);
    var head := ScheduledRotation(w.heap[0].itemId, w.heap[0].dueAt);
    PrependEarliest(w, next, asOf, head, due);
    ListedPrepend(head, due);
  }

  lemma {:induction false} PopKeepsContract(w: Wheel, asOf: real)
    requires Inv(w)
    ensures PopContract(w, asOf, Popped(w, asOf))
    decreases |w.heap|
  {
    if w.heap == [] || w.heap[0].dueAt > asOf {
      NothingDue(w, asOf);
    } else if !Matches(w, w.heap[0]) {
      DiscardOrphan(w, asOf, Popped(w, asOf));
      PopKeepsContract(w.(heap := w.heap[1..]), asOf);
    } else {
      var next := Invalidated(w.(heap := w.heap[1..]), w.heap[0].itemId);
      TakeFacts(w, asOf);
      PopKeepsContract(next, asOf);
      TakeHead(w, asOf, Popped(next, asOf).0, Popped(next, asOf).1);
    }
  }

  // ---------------------------------------------------------------- agreement with the map

  /** Exactly the entries of the abstract map that are due, with their deadlines. */
  ghost predicate ExactlyTheDue(w: Wheel, asOf: real, due: seq<ScheduledRotation>) {
    && (forall id :: Listed(due, id) <==> id in w.dueAt && w.dueAt[id] <= asOf)
    && (forall i :: 0 <= i < |due| ==> due[i].itemId in w.dueAt && due[i].dueAt == w.dueAt[due[i].itemId])
  }

  /** An orphan that a pop at `asOf` would mistake for its item's live entry, too early. */
  ghost predicate EarlyImpostor(w: Wheel, asOf: real, e: HeapEntry) {
    e in w.heap && Matches(w, e) && e.itemId in w.dueAt && e.dueAt <= asOf && e.dueAt < w.dueAt[e.itemId]
  }

  /** Every live item whose deadline has passed is returned, in any state of the heap. */
  lemma PopIsComplete(w: Wheel, asOf: real)
    requires Inv(w)
    ensures var (w', due) := Popped(w, asOf);
            && Ascending(due)
            && (forall id :: id in w.dueAt && w.dueAt[id] <= asOf ==> Listed(due, id))
            && (forall i :: 0 <= i < |due| ==> due[i].itemId in w.dueAt && due[i].dueAt <= w.dueAt[due[i].itemId])
            && (forall id :: id in w.dueAt && !Listed(due, id) ==> id in w'.dueAt && w'.dueAt[id] == w.dueAt[id])
  {
    PopKeepsContract(w, asOf);
    var (w', due) := Popped(w, asOf);
    forall id | id in w.dueAt && w.dueAt[id] <= asOf ensures Listed(due, id) {
      assert PopsAt(w, asOf, id, w.dueAt[id]);
    }
    forall i | 0 <= i < |due| ensures due[i].itemId in w.dueAt && due[i].dueAt <= w.dueAt[due[i].itemId] {
      var id := due[i].itemId;
      assert PopsAt(w, asOf, id, due[i].dueAt);
      if w.dueAt[id] <= asOf {
        assert PopsAt(w, asOf, id, w.dueAt[id]);
      }
    }
  }

  /** The earlier deadline first; of equal ones the item scheduled fewer times, then the smaller id. */
  ghost predicate GoesFirst(w: Wheel, a: ScheduledRotation, b: ScheduledRotation) {
    && a.itemId in w.generation && b.itemId in w.generation
    && (|| a.dueAt < b.dueAt
        || (a.dueAt == b.dueAt && w.generation[a.itemId] < w.generation[b.itemId])
        || (a.dueAt == b.dueAt && w.generation[a.itemId] == w.generation[b.itemId] && Less(a.itemId, b.itemId)))
  }

  /** The `k`-th entry popped was in the heap under its item's generation. */
  lemma {:induction false} PoppedFromHeap(w: Wheel, asOf: real, k: nat)
    requires k < |Popped(w, asOf).1|
    ensures var d := Popped(w, asOf).1[k]; d.itemId in w.generation && HeapEntry(d.dueAt, w.generation[d.itemId], d.itemId) in w.heap
    decreases |w.heap|
  {
    var e := w.heap[0];
    var rest := w.(heap := w.heap[1..]);
    if !Matches(w, e) {
      PoppedFromHeap(rest, asOf, k);
    } else if k > 0 {
      PoppedFromHeap(Invalidated(rest, e.itemId), asOf, k - 1);
    }
  }

  lemma FirstGoesFirst(w: Wheel, e: HeapEntry, b: ScheduledRotation)
    requires Matches(w, e) && b.itemId in w.generation && b.itemId != e.itemId
    requires !Before(HeapEntry(b.dueAt, w.generation[b.itemId], b.itemId), e)
    ensures GoesFirst(w, ScheduledRotation(e.itemId, e.dueAt), b)
  {
    LessTotal(e.itemId, b.itemId);
  }

  lemma HeadGoesFirst(w: Wheel, b: ScheduledRotation)
    requires w.heap != [] && Ordered(w.heap, Before) && Matches(w, w.heap[0])
    requires var next := Invalidated(w.(heap := w.heap[1..]), w.heap[0].itemId);
             b.itemId in next.generation && HeapEntry(b.dueAt, next.generation[b.itemId], b.itemId) in next.heap
    ensures GoesFirst(w, ScheduledRotation(w.heap[0].itemId, w.heap[0].dueAt), b)
  {
    var entry := HeapEntry(b.dueAt, w.generation[b.itemId], b.itemId);
    var i :| 0 <= i < |w.heap[1..]| && w.heap[1..][i] == entry;
    assert w.heap[i + 1] == entry && !Before(w.heap[i + 1], w.heap[0]);
    FirstGoesFirst(w, w.heap[0], b);
  }

  /** The order in which a pop returns its entries, ties included. */
  lemma {:induction false} PopOrder(w: Wheel, asOf: real, i: nat, j: nat)
    requires Ordered(w.heap, Before) && i < j < |Popped(w, asOf).1|
    ensures GoesFirst(w, Popped(w, asOf).1[i], Popped(w, asOf).1[j])
    decreases |w.heap|
  {
    var rest := w.(heap := w.heap[1..]);
    if !Matches(w, w.heap[0]) {
      PopOrder(rest, asOf, i, j);
    } else {
      var next := Invalidated(rest, w.heap[0].itemId);
      if i > 0 {
        PopOrder(next, asOf, i - 1, j - 1);
      } else {
        PoppedFromHeap(next, asOf, j - 1);
        HeadGoesFirst(w, Popped(next, asOf).1[j - 1]);
      }
    }
  }

  /** A pop returns exactly the due entries of the map if and only if no orphan poses as live. */
  lemma PopIsExactIffNoImpostor(w: Wheel, asOf: real)
    requires Inv(w)
    ensures ExactlyTheDue(w, asOf, Popped(w, asOf).1) <==> forall e :: !EarlyImpostor(w, asOf, e)
  {
    if forall e :: !EarlyImpostor(w, asOf, e) {
      PopExactWithoutImpostor(w, asOf);
    }
    if e :| EarlyImpostor(w, asOf, e) {
      ImpostorSpoilsPop(w, asOf, e);
    }
  }

  lemma PopExactWithoutImpostor(w: Wheel, asOf: real)
    requires Inv(w) && forall e :: !EarlyImpostor(w, asOf, e)
    ensures ExactlyTheDue(w, asOf, Popped(w, asOf).1)
  {
    PopKeepsContract(w, asOf);
    PopIsComplete(w, asOf);
    var due := Popped(w, asOf).1;
    forall i | 0 <= i < |due| ensures due[i].dueAt == w.dueAt[due[i].itemId] {
      var id := due[i].itemId;
      assert PopsAt(w, asOf, id, due[i].dueAt);
      assert !EarlyImpostor(w, asOf, HeapEntry(due[i].dueAt, w.generation[id], id));
    }
  }

  lemma ImpostorSpoilsPop(w: Wheel, asOf: real, e: HeapEntry)
    requires Inv(w) && EarlyImpostor(w, asOf, e)
    ensures !ExactlyTheDue(w, asOf, Popped(w, asOf).1)
  {
    PopKeepsContract(w, asOf);
    var due := Popped(w, asOf).1;
    assert PopsAt(w, asOf, e.itemId, e.dueAt);
    assert Listed(due, e.itemId);
    var i :| 0 <= i < |due| && due[i].itemId == e.itemId;
    assert due[i].dueAt <= e.dueAt;
  }

  // ---------------------------------------------------------------- runs

  datatype Operation = ScheduleOp(itemId: string, dueAt: real) | InvalidateOp(itemId: string) | PopOp(asOf: real)

  function Step(w: Wheel, op: Operation): Wheel {
    match op
    case ScheduleOp(itemId, dueAt) => Scheduled(w, itemId, dueAt)
    case InvalidateOp(itemId) => Invalidated(w, itemId)
    case PopOp(asOf) => Popped(w, asOf).0
  }

  function Run(ops: seq<Operation>): Wheel {
    if ops == [] then EMPTY else Step(Run(ops[..|ops| - 1]), ops[|ops| - 1])
  }

  /** An item's counter only restarts once none of its old entries is left in the heap. */
  ghost predicate CleanRestart(w: Wheel, op: Operation) {
    op.ScheduleOp? && op.itemId !in w.generation ==> forall e :: e in w.heap ==> e.itemId != op.itemId
  }

  ghost predicate CleanRestarts(ops: seq<Operation>) {
    forall i :: 0 <= i < |ops| ==> CleanRestart(Run(ops[..i]), ops[i])
  }

  /** No entry of a live item is newer than its counter, and the current one is unique. */
  ghost predicate Distinguishable(w: Wheel) {
    forall e :: e in w.heap && e.itemId in w.generation && e.itemId in w.dueAt ==>
      e.generation <= w.generation[e.itemId]
      && (e.generation == w.generation[e.itemId] ==> e.dueAt == w.dueAt[e.itemId])
  }

  lemma {:induction false} PopOnlyRemoves(w: Wheel, asOf: real)
    ensures forall e :: e in Popped(w, asOf).0.heap ==> e in w.heap
    decreases |w.heap|
  {
    if w.heap != [] && w.heap[0].dueAt <= asOf {
      var rest := w.(heap := w.heap[1..]);
      PopOnlyRemoves(rest, asOf);
      PopOnlyRemoves(Invalidated(rest, w.heap[0].itemId), asOf);
    }
  }

  lemma StepKeeps(w: Wheel, op: Operation)
    requires Inv(w)
    ensures Inv(Step(w, op))
    ensures Distinguishable(w) && CleanRestart(w, op) ==> Distinguishable(Step(w, op))
  {
    match op
    case ScheduleOp(itemId, dueAt) => ScheduleKeeps(w, itemId, dueAt);
    case InvalidateOp(itemId) =>
    case PopOp(asOf) =>
      PopKeepsContract(w, asOf);
      PopOnlyRemoves(w, asOf);
  }

  lemma CleanRestartsPrefix(ops: seq<Operation>)
    requires ops != [] && CleanRestarts(ops)
    ensures CleanRestarts(ops[..|ops| - 1]) && CleanRestart(Run(ops[..|ops| - 1]), ops[|ops| - 1])
  {
    var init := ops[..|ops| - 1];
    forall i | 0 <= i < |init| ensures CleanRestart(Run(init[..i]), init[i]) {
      assert init[..i] == ops[..i];
    }
  }

  lemma {:induction false} RunKeeps(ops: seq<Operation>)
    ensures Inv(Run(ops))
    ensures CleanRestarts(ops) ==> Distinguishable(Run(ops))
  {
    if ops != [] {
      RunKeeps(ops[..|ops| - 1]);
      StepKeeps(Run(ops[..|ops| - 1]), ops[|ops| - 1]);
      if CleanRestarts(ops) {
        CleanRestartsPrefix(ops);
      }
    }
  }

  lemma {:induction false} PopKeepsLater(w: Wheel, asOf: real)
    ensures forall e :: e in w.heap && e.dueAt > asOf ==> e in Popped(w, asOf).0.heap
    decreases |w.heap|
  {
    if w.heap != [] && w.heap[0].dueAt <= asOf {
      var rest := w.(heap := w.heap[1..]);
      assert w.heap == [w.heap[0]] + w.heap[1..];
      PopKeepsLater(rest, asOf);
      PopKeepsLater(Invalidated(rest, w.heap[0].itemId), asOf);
    }
  }

  /** Whether a pop at `asOf` returns the item: at its deadline, or at an orphan that poses as it. */
  ghost predicate Poppable(w: Wheel, asOf: real, id: string) {
    exists d :: PopsAt(w, asOf, id, d)
  }

  lemma PopListsPoppable(w: Wheel, asOf: real, id: string)
    requires Inv(w)
    ensures Listed(Popped(w, asOf).1, id) <==> Poppable(w, asOf, id)
  {
    PopKeepsContract(w, asOf);
    var due := Popped(w, asOf).1;
    if i :| 0 <= i < |due| && due[i].itemId == id {
      assert PopsAt(w, asOf, id, due[i].dueAt);
    }
  }

  /** Before its deadline an item is returned exactly because of an impostor. */
  lemma PoppableEarlyIff(w: Wheel, asOf: real, id: string)
    requires Inv(w) && id in w.dueAt && asOf < w.dueAt[id]
    ensures Poppable(w, asOf, id) <==> exists e: HeapEntry :: e.itemId == id && EarlyImpostor(w, asOf, e)
  {
    if d :| PopsAt(w, asOf, id, d) {
      assert EarlyImpostor(w, asOf, HeapEntry(d, w.generation[id], id));
    }
    if e: HeapEntry :| e.itemId == id && EarlyImpostor(w, asOf, e) {
      assert PopsAt(w, asOf, id, e.dueAt);
    }
  }

  /** The item is as live as it was, with the same entries that a pop could take for it. */
  ghost predicate StillScheduled(was: Wheel, w: Wheel, id: string) {
    && id in was.generation && id in was.dueAt && id in w.generation && id in w.dueAt
    && w.generation[id] == was.generation[id] && w.dueAt[id] == was.dueAt[id]
    && forall d :: HeapEntry(d, was.generation[id], id) in w.heap <==> HeapEntry(d, was.generation[id], id) in was.heap
  }

  lemma ScheduleOtherKeeps(was: Wheel, w: Wheel, id: string, other: string, dueAt: real)
    requires Inv(w) && other != id
    ensures Inv(Scheduled(w, other, dueAt))
    ensures StillScheduled(was, w, id) ==> StillScheduled(was, Scheduled(w, other, dueAt), id)
    ensures id !in w.dueAt ==> id !in Scheduled(w, other, dueAt).dueAt
  {
    ScheduleKeeps(w, other, dueAt);
  }

  lemma InvalidateOtherKeeps(was: Wheel, w: Wheel, id: string, other: string)
    requires Inv(w) && other != id
    ensures Inv(Invalidated(w, other))
    ensures StillScheduled(was, w, id) ==> StillScheduled(was, Invalidated(w, other), id)
    ensures id !in w.dueAt ==> id !in Invalidated(w, other).dueAt
  {
  }

  /** A pop returns a scheduled item exactly when the wheel it was scheduled in would have; otherwise it
      leaves it as it is. */
  lemma PopKeepsOrDrops(was: Wheel, w: Wheel, id: string, asOf: real)
    requires Inv(w) && StillScheduled(was, w, id)
    ensures var (w', due) := Popped(w, asOf);
            && Inv(w')
            && (Poppable(was, asOf, id) <==> Listed(due, id))
            && (if Poppable(was, asOf, id) then id !in w'.dueAt else StillScheduled(was, w', id))
  {
    assert forall d :: PopsAt(was, asOf, id, d) <==> PopsAt(w, asOf, id, d);
    PopListsPoppable(w, asOf, id);
    PopKeepsContract(w, asOf);
    PopOnlyRemoves(w, asOf);
    PopKeepsLater(w, asOf);
    if !Poppable(was, asOf, id) {
      forall d | HeapEntry(d, was.generation[id], id) in was.heap ensures d > asOf {
        assert d <= asOf ==> PopsAt(was, asOf, id, d);
      }
    }
  }

  lemma PopOfAbsent(w: Wheel, asOf: real, id: string)
    requires Inv(w) && id !in w.dueAt
    ensures Inv(Popped(w, asOf).0) && id !in Popped(w, asOf).0.dueAt && !Listed(Popped(w, asOf).1, id)
  {
    PopKeepsContract(w, asOf);
    PopListsPoppable(w, asOf, id);
  }

  /** Over any run, a pop returns every due item once, in order; if no orphan survives a restart of
      its item's counter, it returns exactly the due entries of the map. */
  lemma EveryPopAgrees(ops: seq<Operation>, asOf: real)
    ensures var w := Run(ops);
            && Ascending(Popped(w, asOf).1)
            && (forall id :: id in w.dueAt && w.dueAt[id] <= asOf ==> Listed(Popped(w, asOf).1, id))
            && (CleanRestarts(ops) ==> ExactlyTheDue(w, asOf, Popped(w, asOf).1))
  {
    RunKeeps(ops);
    PopIsComplete(Run(ops), asOf);
    PopIsExactIffNoImpostor(Run(ops), asOf);
  }

  const RESTARTED := [ScheduleOp("a", 5.0), InvalidateOp("a"), ScheduleOp("a", 100.0)]

  lemma RestartedWheel()
    ensures Run(RESTARTED)
         == Wheel([HeapEntry(5.0, 1, "a"), HeapEntry(100.0, 1, "a")], map["a" := 1], map["a" := 100.0])
  {
    var ops := RESTARTED;
    assert ops[..2] == [ScheduleOp("a", 5.0), InvalidateOp("a")] && ops[..2][..1] == [ScheduleOp("a", 5.0)];
    assert ops[..2][..1][..0] == [];
    var e := HeapEntry(5.0, 1, "a");
    assert Run(ops[..2][..1]).heap == [e];
    assert Run(ops[..2]) == Wheel([e], map[], map[]);
  }

  /** Scheduling, invalidating and scheduling again later makes the item pop at its old deadline, and at
      its new one nothing is left to pop. */
  lemma RestartedCounterPopsEarly()
    ensures Run(RESTARTED).dueAt == map["a" := 100.0]
    ensures var left := Wheel([HeapEntry(100.0, 1, "a")], map[], map[]);
            Popped(Run(RESTARTED), 10.0) == (left, [ScheduledRotation("a", 5.0)]) && Popped(left, 200.0) == (EMPTY, [])
  {
    RestartedWheel();
    var e, f := HeapEntry(5.0, 1, "a"), HeapEntry(100.0, 1, "a");
    assert [e, f][1..] == [f] && [f][1..] == [];
    assert map["a" := 1] - {"a"} == map[] && map["a" := 100.0] - {"a"} == map[];
    var left := Wheel([f], map[], map[]);
    assert Popped(left, 10.0) == (left, []);
    var early: seq<ScheduledRotation> := [ScheduledRotation("a", 5.0)];
    assert early + [] == early;
  }

  // ---------------------------------------------------------------- a counter that never restarts

  /** The same wheel with each item's last generation remembered for good. */
  datatype KeptWheel = KeptWheel(wheel: Wheel, last: map<string, nat>)

  function KeptStep(k: KeptWheel, op: Operation): KeptWheel {
    match op
    case ScheduleOp(itemId, dueAt) =>
      var generation := (if itemId in k.last then k.last[itemId] else 0) + 1;
      var w := k.wheel;
      KeptWheel(Wheel(Insert(w.heap, HeapEntry(dueAt, generation, itemId), Before),
                      w.generation[itemId := generation], w.dueAt[itemId := dueAt]),
                k.last[itemId := generation])
    case _ => k.(wheel := Step(k.wheel, op))
  }

  function KeptRun(ops: seq<Operation>): KeptWheel {
    if ops == [] then KeptWheel(EMPTY, map[]) else KeptStep(KeptRun(ops[..|ops| - 1]), ops[|ops| - 1])
  }

  ghost predicate KeptInv(k: KeptWheel) {
    && Inv(k.wheel) && Distinguishable(k.wheel)
    && forall e :: e in k.wheel.heap ==> e.itemId in k.last && e.generation <= k.last[e.itemId]
  }

  lemma KeptStepKeeps(k: KeptWheel, op: Operation)
    requires KeptInv(k)
    ensures KeptInv(KeptStep(k, op))
  {
    match op
    case ScheduleOp(itemId, dueAt) =>
      var k' := KeptStep(k, op);
      var e := HeapEntry(dueAt, k'.last[itemId], itemId);
      InsertedHeap(k.wheel.heap, e);
    case InvalidateOp(itemId) =>
    case PopOp(asOf) =>
      PopKeepsContract(k.wheel, asOf);
      PopOnlyRemoves(k.wheel, asOf);
  }

  /** With counters that never restart every pop is exact, with no condition on the run. */
  lemma {:induction false} KeptCountersAreExact(ops: seq<Operation>, asOf: real)
    ensures KeptInv(KeptRun(ops))
    ensures ExactlyTheDue(KeptRun(ops).wheel, asOf, Popped(KeptRun(ops).wheel, asOf).1)
  {
    if ops != [] {
      KeptCountersAreExact(ops[..|ops| - 1], asOf);
      KeptStepKeeps(KeptRun(ops[..|ops| - 1]), ops[|ops| - 1]);
    }
    PopIsExactIffNoImpostor(KeptRun(ops).wheel, asOf);
  }

  // ---------------------------------------------------------------- the wheel, in place

  class RotationTimerWheel {
    var heap: seq<HeapEntry>
    var generation: map<string, nat>
    var dueAtByItem: map<string, real>

    function Now(): Wheel
      reads this
    {
      Wheel(heap, generation, dueAtByItem)
    }

    constructor ()
      ensures Now() == EMPTY
    {
      heap, generation, dueAtByItem := [], map[], map[];
    }

    /** The number of live entries. */
    function Size(): (n: nat)
      reads this
      ensures Inv(Now()) ==> n == |dueAtByItem|
    {
      assert Inv(Now()) ==> generation.Keys == dueAtByItem.Keys;
      |generation.Keys|
    }

    method Schedule(itemId: string, dueAt: real) returns (accepted: bool)
      modifies this
      ensures accepted == !Blank(itemId)
      ensures Now() == if accepted then Scheduled(old(Now()), itemId, dueAt) else old(Now())
    {
      if Blank(itemId) {
        return false;
      }
      var g := (if itemId in generation then generation[itemId] else 0) + 1;
      generation := generation[itemId := g];
      dueAtByItem := dueAtByItem[itemId := dueAt];
      heap := Insert(heap, HeapEntry(dueAt, g, itemId), Before);
      accepted := true;
    }

    method Invalidate(itemId: string)
      modifies this
      ensures Now() == Invalidated(old(Now()), itemId)
    {
      generation := generation - {itemId};
      dueAtByItem := dueAtByItem - {itemId};
    }

    method PopDue(asOf: real) returns (due: seq<ScheduledRotation>)
      modifies this
      ensures (Now(), due) == Popped(old(Now()), asOf)
    {
      due := [];
      while heap != [] && heap[0].dueAt <= asOf
        invariant Popped(old(Now()), asOf).0 == Popped(Now(), asOf).0
        invariant Popped(old(Now()), asOf).1 == due + Popped(Now(), asOf).1
        decreases |heap|
      {
        var e := heap[0];
        ghost var before := Now();
        heap := heap[1..];
        if e.itemId !in generation || generation[e.itemId] != e.generation {
          continue;
        }
        generation := generation - {e.itemId};
        dueAtByItem := dueAtByItem - {e.itemId};
        assert Popped(before, asOf).1 == [ScheduledRotation(e.itemId, e.dueAt)] + Popped(Now(), asOf).1;
        due := due + [ScheduledRotation(e.itemId, e.dueAt)];
      }
      assert due + [] == due;
    }
  }
}
