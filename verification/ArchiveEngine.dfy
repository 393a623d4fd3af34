/** The archive engine: re-scores compressed candidates, marks the eligible ones archived at their source,
    and then writes all of them into Zone 8 with one batch. */
module ArchiveEngine {
  import opened Lifecycle
  import opened Options
  import opened Sequences
  import opened Text
  import opened Zones
  import Z = Zone8Archive

  /** What marking an item archived hands over, with the subject its snapshot named. */
  datatype Content = Content(payload: Bytes, generation: nat, subjectId: Option<string>)
  datatype Marked = Marked(itemId: string, content: Content)

  datatype Receipt = Receipt(itemId: string, archivedAt: real, generation: nat, blobId: string)

  datatype Error = BlankTenant | InvalidItem | Zone8Refused(error: Z.Error)

  datatype SweepResult =
    | Raised(error: Error)
    | Swept(archived: seq<Receipt>, deferred: seq<string>, skipped: seq<string>, failed: seq<string>)

  function KeyIds(keys: seq<Key>): (ids: seq<string>)
    ensures |ids| == |keys| && forall k :: 0 <= k < |keys| ==> ids[k] == keys[k].itemId
  {
    Mapped(keys, (key: Key) => key.itemId)
  }

  /** The candidates that were marked, with what marking each handed over. */
  function MarkedItems(ids: seq<string>, verdicts: seq<Verdict>, contents: nat -> Content): seq<Marked>
    requires |ids| == |verdicts|
  {
    if ids == [] then []
    else
      var n := |ids| - 1;
      MarkedItems(ids[..n], verdicts[..n], contents)
      + (if verdicts[n].Moved? then [Marked(ids[n], contents(n))] else [])
  }

  function MarkedIds(marked: seq<Marked>): (ids: seq<string>)
    ensures |ids| == |marked| && forall k :: 0 <= k < |marked| ==> ids[k] == marked[k].itemId
  {
    Mapped(marked, (m: Marked) => m.itemId)
  }

  function BatchItem(tenantId: string, zone: Zone, m: Marked): Z.Item {
    Z.Item(tenantId, m.itemId, zone, m.content.payload, m.content.subjectId)
  }

  predicate Buildable(tenantId: string, zone: Zone, marked: seq<Marked>) {
    Z.AllowedSource(zone)
    && forall k :: 0 <= k < |marked| ==> Z.Constructible(BatchItem(tenantId, zone, marked[k]))
  }

  function BatchOf(tenantId: string, zone: Zone, marked: seq<Marked>): (batch: seq<Z.ArchiveBatchItem>)
    requires Buildable(tenantId, zone, marked)
    ensures |batch| == |marked|
    ensures forall k :: 0 <= k < |marked| ==> batch[k] == BatchItem(tenantId, zone, marked[k])
  {
    seq(|marked|, (k: int) requires 0 <= k < |marked| && Z.Constructible(BatchItem(tenantId, zone, marked[k])) =>
      var item: Z.ArchiveBatchItem := BatchItem(tenantId, zone, marked[k]); item)
  }

  /** A dictionary from item id, so the last entry of an id stands. */
  function Generations(marked: seq<Marked>): (m: map<string, nat>)
    ensures forall k :: 0 <= k < |marked| ==> marked[k].itemId in m
  {
    if marked == [] then map[]
    else Generations(marked[..|marked| - 1])[marked[|marked| - 1].itemId := marked[|marked| - 1].content.generation]
  }

  function ArchivedOf(written: seq<Z.ManifestEntry>, generations: map<string, nat>, now: real): (archived: seq<Receipt>)
    ensures |archived| == |written|
    ensures forall k :: 0 <= k < |written| ==>
      archived[k].itemId == written[k].itemId && archived[k].blobId == written[k].blobId
  {
    seq(|written|, (k: int) requires 0 <= k < |written| =>
      var id := written[k].itemId;
      Receipt(id, now, if id in generations then generations[id] else 0, written[k].blobId))
  }

  function ArchivedIds(archived: seq<Receipt>): (ids: seq<string>)
    ensures |ids| == |archived| && forall k :: 0 <= k < |archived| ==> ids[k] == archived[k].itemId
  {
    Mapped(archived, (r: Receipt) => r.itemId)
  }

  /** How Zone 8's answer to the batch is reported. */
  function SweepReport(outcome: Z.Outcome, marked: seq<Marked>, now: real, skipped: seq<string>, failed: seq<string>)
    : SweepResult
  {
    match outcome
    case Raised(error) => Raised(Zone8Refused(error))
    case Done(written, deferred, rejected) =>
      Swept(ArchivedOf(written, Generations(marked), now), deferred, skipped, failed + rejected)
  }

  /** What Zone 8 is asked, once, after all marking is done. */
  function WriteMarked(env: Z.Env, z: Z.Zone8, tenantId: string, zone: Zone, marked: seq<Marked>, now: real, put: Z.Put,
                       manifestUp: bool, skipped: seq<string>, failed: seq<string>): (Z.Zone8, SweepResult)
  {
    if marked == [] then (z, Swept([], [], skipped, failed))
    else if !Buildable(tenantId, zone, marked) then (z, Raised(InvalidItem))
    else
      var (z', outcome) := Z.Consolidated(env, z, BatchOf(tenantId, zone, marked), now, put, manifestUp);
      (z', SweepReport(outcome, marked, now, skipped, failed))
  }

  function ArchiveSwept(env: Z.Env, z: Z.Zone8, items: Items, tenantId: string, zone: Zone, ids: seq<string>,
                        ports: nat -> Port, contents: nat -> Content, now: real, put: Z.Put, manifestUp: bool)
    : (Z.Zone8, Items, SweepResult)
  {
    if Blank(tenantId) then (z, items, Raised(BlankTenant))
    else
      var keys := Keys(tenantId, zone, ids);
      var (items', verdicts) := ProcessAll(items, keys, Archival, ports);
      VerdictCount(items, keys, Archival, ports);
      var (z', result) := WriteMarked(env, z, tenantId, zone, MarkedItems(ids, verdicts, contents), now, put, manifestUp,
                                      KeyIds(WithVerdict(keys, verdicts, Skipped)), KeyIds(WithVerdict(keys, verdicts, Failed)));
      (z', items', result)
  }

  // ---------------------------------------------------------------- every candidate is accounted for

  lemma {:induction false} MarkedAreMoved(tenantId: string, zone: Zone, ids: seq<string>, verdicts: seq<Verdict>,
                                          contents: nat -> Content)
    requires |ids| == |verdicts|
    ensures MarkedIds(MarkedItems(ids, verdicts, contents)) == KeyIds(WithVerdict(Keys(tenantId, zone, ids), verdicts, Moved))
  {
    if ids != [] {
      var n := |ids| - 1;
      MarkedAreMoved(tenantId, zone, ids[..n], verdicts[..n], contents);
      assert Keys(tenantId, zone, ids)[..n] == Keys(tenantId, zone, ids[..n]);
    }
  }

  lemma {:induction false} KeyIdsCount(keys: seq<Key>, tenantId: string, zone: Zone, id: string)
    requires forall k :: 0 <= k < |keys| ==> keys[k].tenantId == tenantId && keys[k].zone == zone
    ensures multiset(KeyIds(keys))[id] == multiset(keys)[Key(tenantId, zone, id)]
  {
    if keys != [] {
      var init, last := keys[..|keys| - 1], keys[|keys| - 1];
      KeyIdsCount(init, tenantId, zone, id);
      assert keys == init + [last] && KeyIds(keys) == KeyIds(init) + [last.itemId];
      MultisetAppend(init, last);
      MultisetAppend(KeyIds(init), last.itemId);
    }
  }

  lemma {:induction false} WithVerdictSelects(keys: seq<Key>, verdicts: seq<Verdict>, v: Verdict)
    requires |keys| == |verdicts|
    ensures forall key :: key in WithVerdict(keys, verdicts, v) ==> key in keys
  {
    if keys != [] {
      WithVerdictSelects(keys[..|keys| - 1], verdicts[..|keys| - 1], v);
    }
  }

  /** How often an id got a verdict. */
  lemma VerdictIdCount(tenantId: string, zone: Zone, ids: seq<string>, verdicts: seq<Verdict>, v: Verdict, id: string)
    requires |ids| == |verdicts|
    ensures var keys := Keys(tenantId, zone, ids);
            multiset(KeyIds(WithVerdict(keys, verdicts, v)))[id]
            == multiset(WithVerdict(keys, verdicts, v))[Key(tenantId, zone, id)]
  {
    var keys := Keys(tenantId, zone, ids);
    WithVerdictSelects(keys, verdicts, v);
    forall k | 0 <= k < |WithVerdict(keys, verdicts, v)|
      ensures WithVerdict(keys, verdicts, v)[k].tenantId == tenantId && WithVerdict(keys, verdicts, v)[k].zone == zone
    {
      assert WithVerdict(keys, verdicts, v)[k] in keys;
    }
    KeyIdsCount(WithVerdict(keys, verdicts, v), tenantId, zone, id);
  }

  lemma VerdictIdsPartition(tenantId: string, zone: Zone, ids: seq<string>, verdicts: seq<Verdict>, id: string)
    requires |ids| == |verdicts|
    ensures var keys := Keys(tenantId, zone, ids);
            multiset(ids)[id]
            == multiset(KeyIds(WithVerdict(keys, verdicts, Moved)))[id]
               + multiset(KeyIds(WithVerdict(keys, verdicts, Skipped)))[id]
               + multiset(KeyIds(WithVerdict(keys, verdicts, Failed)))[id]
  {
    var keys := Keys(tenantId, zone, ids);
    VerdictCounts(keys, verdicts, Key(tenantId, zone, id));
    KeyIdsCount(keys, tenantId, zone, id);
    assert KeyIds(keys) == ids;
    VerdictIdCount(tenantId, zone, ids, verdicts, Moved, id);
    VerdictIdCount(tenantId, zone, ids, verdicts, Skipped, id);
    VerdictIdCount(tenantId, zone, ids, verdicts, Failed, id);
  }

  lemma ReportAccounts(outcome: Z.Outcome, marked: seq<Marked>, now: real, skipped: seq<string>, failed: seq<string>, id: string)
    requires outcome.Done?
    requires multiset(MarkedIds(marked))
          == multiset(Z.WrittenIds(outcome.written)) + multiset(outcome.deferred) + multiset(outcome.rejected)
    ensures var result := SweepReport(outcome, marked, now, skipped, failed);
            && result.Swept? && result.skipped == skipped
            && multiset(MarkedIds(marked))[id] + multiset(failed)[id]
               == multiset(ArchivedIds(result.archived))[id] + multiset(result.deferred)[id] + multiset(result.failed)[id]
  {
    assert ArchivedIds(ArchivedOf(outcome.written, Generations(marked), now)) == Z.WrittenIds(outcome.written);
  }

  lemma WriteAccounts(env: Z.Env, z: Z.Zone8, tenantId: string, zone: Zone, marked: seq<Marked>, now: real, put: Z.Put,
                      manifestUp: bool, skipped: seq<string>, failed: seq<string>, id: string)
    requires WriteMarked(env, z, tenantId, zone, marked, now, put, manifestUp, skipped, failed).1.Swept?
    ensures var result := WriteMarked(env, z, tenantId, zone, marked, now, put, manifestUp, skipped, failed).1;
            && result.skipped == skipped
            && multiset(MarkedIds(marked))[id] + multiset(failed)[id]
               == multiset(ArchivedIds(result.archived))[id] + multiset(result.deferred)[id] + multiset(result.failed)[id]
  {
    if marked != [] {
      var batch := BatchOf(tenantId, zone, marked);
      var outcome := Z.Consolidated(env, z, batch, now, put, manifestUp).1;
      Z.BatchAccountsForEveryItem(env, z, batch, now, put, manifestUp);
      assert Z.Ids(batch) == MarkedIds(marked);
      ReportAccounts(outcome, marked, now, skipped, failed, id);
    }
  }

  /** A sweep that returns reports every candidate exactly as often as it was named: once under one of
      archived, deferred, skipped or failed, when the candidates are distinct. */
  lemma SweepAccountsForEveryCandidate(
    env: Z.Env, z: Z.Zone8, items: Items, tenantId: string, zone: Zone, ids: seq<string>,
    ports: nat -> Port, contents: nat -> Content, now: real, put: Z.Put, manifestUp: bool)
    requires ArchiveSwept(env, z, items, tenantId, zone, ids, ports, contents, now, put, manifestUp).2.Swept?
    ensures var result := ArchiveSwept(env, z, items, tenantId, zone, ids, ports, contents, now, put, manifestUp).2;
            multiset(ids) == multiset(ArchivedIds(result.archived)) + multiset(result.deferred)
                             + multiset(result.skipped) + multiset(result.failed)
  {
    var result := ArchiveSwept(env, z, items, tenantId, zone, ids, ports, contents, now, put, manifestUp).2;
    var keys := Keys(tenantId, zone, ids);
    VerdictCount(items, keys, Archival, ports);
    var verdicts := ProcessAll(items, keys, Archival, ports).1;
    forall id
      ensures multiset(ids)[id] == multiset(ArchivedIds(result.archived))[id] + multiset(result.deferred)[id]
                                   + multiset(result.skipped)[id] + multiset(result.failed)[id]
    {
      VerdictIdsPartition(tenantId, zone, ids, verdicts, id);
      MarkedAreMoved(tenantId, zone, ids, verdicts, contents);
      WriteAccounts(env, z, tenantId, zone, MarkedItems(ids, verdicts, contents), now, put, manifestUp,
                    KeyIds(WithVerdict(keys, verdicts, Skipped)), KeyIds(WithVerdict(keys, verdicts, Failed)), id);
    }
  }

  // ---------------------------------------------------------------- what archived means

  lemma {:induction false} MarkedWasMoved(ids: seq<string>, verdicts: seq<Verdict>, contents: nat -> Content, k: nat)
    returns (j: nat)
    requires |ids| == |verdicts| && k < |MarkedItems(ids, verdicts, contents)|
    ensures j < |ids| && verdicts[j].Moved? && MarkedItems(ids, verdicts, contents)[k] == Marked(ids[j], contents(j))
  {
    var n := |ids| - 1;
    if k < |MarkedItems(ids[..n], verdicts[..n], contents)| {
      j := MarkedWasMoved(ids[..n], verdicts[..n], contents, k);
    } else {
      j := n;
    }
  }

  /** A marked item was compressed before the sweep and is archived at its source after it, whatever
      Zone 8 answered. */
  lemma MarkedIsArchivedAtSource(items: Items, tenantId: string, zone: Zone, ids: seq<string>, ports: nat -> Port,
                                 contents: nat -> Content, k: nat)
    requires var (_, verdicts) := ProcessAll(items, Keys(tenantId, zone, ids), Archival, ports);
             |verdicts| == |ids| && k < |MarkedItems(ids, verdicts, contents)|
    ensures var (items', verdicts) := ProcessAll(items, Keys(tenantId, zone, ids), Archival, ports);
            var key := Key(tenantId, zone, MarkedItems(ids, verdicts, contents)[k].itemId);
            key in items && items[key].Compressed? && key in items' && items'[key].Archived?
  {
    var keys := Keys(tenantId, zone, ids);
    var (items', verdicts) := ProcessAll(items, keys, Archival, ports);
    var j := MarkedWasMoved(ids, verdicts, contents, k);
    MovedExists(items, keys, Archival, ports, j);
    SweepMoves(items, keys, Archival, ports, keys[j]);
  }

  lemma {:induction false} MovedExists(items: Items, keys: seq<Key>, engine: Engine, ports: nat -> Port, j: nat)
    requires var verdicts := ProcessAll(items, keys, engine, ports).1;
             |verdicts| == |keys| && j < |keys| && verdicts[j].Moved?
    ensures keys[j] in items
  {
    var n := |keys| - 1;
    VerdictCount(items, keys[..n], engine, ports);
    SweepMoves(items, keys[..n], engine, ports, keys[j]);
    if j < n {
      MovedExists(items, keys[..n], engine, ports, j);
    }
  }

  /** The marked items in the order of the candidates. */
  ghost function MarkedBy(items: Items, tenantId: string, zone: Zone, ids: seq<string>, ports: nat -> Port,
                          contents: nat -> Content): seq<Marked>
  {
    var keys := Keys(tenantId, zone, ids);
    VerdictCount(items, keys, Archival, ports);
    MarkedItems(ids, ProcessAll(items, keys, Archival, ports).1, contents)
  }

  lemma {:induction false} AcceptedStep(batch: seq<Z.ArchiveBatchItem>, init: seq<Z.ArchiveBatchItem>, last: Z.ArchiveBatchItem)
    requires batch != [] && init == batch[..|batch| - 1] && last == batch[|batch| - 1] && Z.AllowedSource(last.sourceZone)
    ensures Z.Accepted(batch) == Z.Accepted(init) + [last]
    ensures Z.Rejected(batch) == Z.Rejected(init)
  {
    assert Z.Rejected(init) + [] == Z.Rejected(init);
  }

  lemma {:induction false} AllAccepted(batch: seq<Z.ArchiveBatchItem>)
    requires forall k :: 0 <= k < |batch| ==> Z.AllowedSource(batch[k].sourceZone)
    ensures Z.Accepted(batch) == batch && Z.Rejected(batch) == []
  {
    if batch != [] {
      var init, last := batch[..|batch| - 1], batch[|batch| - 1];
      AllAccepted(init);
      AcceptedStep(batch, init, last);
      assert init + [last] == batch;
    }
  }

  lemma {:induction false} OwnGeneration(marked: seq<Marked>, k: nat)
    requires k < |marked| && forall j :: k < j < |marked| ==> marked[j].itemId != marked[k].itemId
    ensures Generations(marked)[marked[k].itemId] == marked[k].content.generation
  {
    if k < |marked| - 1 {
      OwnGeneration(marked[..|marked| - 1], k);
    }
  }

  /** What a batch that wrote leaves of its `k`-th item. */
  lemma {:induction false} BatchStores(env: Z.Env, z: Z.Zone8, batch: seq<Z.ArchiveBatchItem>, now: real, put: Z.Put, manifestUp: bool,
                    payloads: set<Bytes>, k: nat)
    requires forall j :: 0 <= j < |batch| ==> Z.AllowedSource(batch[j].sourceZone)
    requires Z.BlobsFrom(env, z, payloads) && Z.CollisionFree(env.hash, payloads + {Z.Merged(batch)})
    requires var outcome := Z.Consolidated(env, z, batch, now, put, manifestUp).1; outcome.Done? && k < |outcome.written|
    ensures var (z', outcome) := Z.Consolidated(env, z, batch, now, put, manifestUp);
            && |outcome.written| == |batch| && Z.KeyOf(outcome.written[k]) == (batch[k].tenantId, batch[k].itemId)
            && Z.KeyOf(outcome.written[k]) in z'.manifest
            && z'.manifest[Z.KeyOf(outcome.written[k])] == outcome.written[k]
            && Z.ReadBlobRange(z', batch[k].tenantId, batch[k].itemId).Read?
            && (Z.ReadBlobRange(z', batch[k].tenantId, batch[k].itemId) == Z.Read(batch[k].payload)
                <==> Z.Fits(env, z, batch, k))
  {
    var (z', outcome) := Z.Consolidated(env, z, batch, now, put, manifestUp);
    AllAccepted(batch);
    Z.ConsolidatedWrote(env, z, batch, now, put, manifestUp);
    Z.WrittenRow(env, z, batch, now, put, z', outcome.written, k);
    Z.ReadsBackIffFits(env, z, batch, now, put, manifestUp, payloads, k);
  }

  /** A batch that wrote named no item twice. */
  lemma {:induction false} WrittenBatchIsDistinct(env: Z.Env, z: Z.Zone8, batch: seq<Z.ArchiveBatchItem>, now: real, put: Z.Put, manifestUp: bool)
    requires forall j :: 0 <= j < |batch| ==> Z.AllowedSource(batch[j].sourceZone)
    requires var outcome := Z.Consolidated(env, z, batch, now, put, manifestUp).1; outcome.Done? && outcome.written != []
    ensures forall j, l :: 0 <= j < l < |batch| ==> batch[j].itemId != batch[l].itemId
  {
    AllAccepted(batch);
    Z.BatchWritesIff(env, z, batch, now, put, manifestUp);
  }

  lemma {:induction false} ReceiptIs(written: seq<Z.ManifestEntry>, marked: seq<Marked>, now: real, k: nat)
    requires |written| == |marked| && k < |marked| && written[k].itemId == marked[k].itemId
    requires forall j, l :: 0 <= j < l < |marked| ==> marked[j].itemId != marked[l].itemId
    ensures ArchivedOf(written, Generations(marked), now)[k]
         == Receipt(marked[k].itemId, now, marked[k].content.generation, written[k].blobId)
  {
    OwnGeneration(marked, k);
  }

  /** The receipt of the `k`-th marked item, its manifest row, and whether it reads back. */
  ghost predicate Lodged(env: Z.Env, z: Z.Zone8, z': Z.Zone8, tenantId: string, batch: seq<Z.ArchiveBatchItem>, m: Marked,
                         now: real, receipt: Receipt, k: nat)
    requires k < |batch|
  {
    && receipt == Receipt(m.itemId, now, m.content.generation, receipt.blobId)
    && (tenantId, m.itemId) in z'.manifest && z'.manifest[(tenantId, m.itemId)].blobId == receipt.blobId
    && Z.ReadBlobRange(z', tenantId, m.itemId).Read?
    && (Z.ReadBlobRange(z', tenantId, m.itemId) == Z.Read(m.content.payload) <==> Z.Fits(env, z, batch, k))
  }

  lemma {:induction false} OutcomeLodges(env: Z.Env, z: Z.Zone8, tenantId: string, zone: Zone, marked: seq<Marked>, now: real, put: Z.Put,
                      manifestUp: bool, payloads: set<Bytes>, k: nat)
    requires Buildable(tenantId, zone, marked) && Z.BlobsFrom(env, z, payloads)
    requires Z.CollisionFree(env.hash, payloads + {Z.Merged(BatchOf(tenantId, zone, marked))})
    requires var outcome := Z.Consolidated(env, z, BatchOf(tenantId, zone, marked), now, put, manifestUp).1;
             outcome.Done? && k < |outcome.written|
    ensures var batch := BatchOf(tenantId, zone, marked);
            var (z', outcome) := Z.Consolidated(env, z, batch, now, put, manifestUp);
            && |marked| == |outcome.written|
            && Lodged(env, z, z', tenantId, batch, marked[k], now, ArchivedOf(outcome.written, Generations(marked), now)[k], k)
  {
    var batch := BatchOf(tenantId, zone, marked);
    var (z', outcome) := Z.Consolidated(env, z, batch, now, put, manifestUp);
    BatchStores(env, z, batch, now, put, manifestUp, payloads, k);
    WrittenBatchIsDistinct(env, z, batch, now, put, manifestUp);
    forall j, l | 0 <= j < l < |marked| ensures marked[j].itemId != marked[l].itemId {
      assert batch[j].itemId != batch[l].itemId;
    }
    ReceiptIs(outcome.written, marked, now, k);
  }

  lemma WrittenMarked(env: Z.Env, z: Z.Zone8, tenantId: string, zone: Zone, marked: seq<Marked>, now: real, put: Z.Put,
                      manifestUp: bool, skipped: seq<string>, failed: seq<string>, payloads: set<Bytes>, k: nat)
    requires Buildable(tenantId, zone, marked) && Z.BlobsFrom(env, z, payloads)
    requires Z.CollisionFree(env.hash, payloads + {Z.Merged(BatchOf(tenantId, zone, marked))})
    requires var result := WriteMarked(env, z, tenantId, zone, marked, now, put, manifestUp, skipped, failed).1;
             result.Swept? && k < |result.archived|
    ensures var (z', result) := WriteMarked(env, z, tenantId, zone, marked, now, put, manifestUp, skipped, failed);
            && |marked| == |result.archived|
            && Lodged(env, z, z', tenantId, BatchOf(tenantId, zone, marked), marked[k], now, result.archived[k], k)
  {
    WriteMarkedReports(env, z, tenantId, zone, marked, now, put, manifestUp, skipped, failed);
    OutcomeLodges(env, z, tenantId, zone, marked, now, put, manifestUp, payloads, k);
  }

  /** Over any run of Zone 8 before, torn writes included: every item reported archived was compressed, is
      archived at its source, and has a manifest row in the reported blob, through which it reads back as
      the payload it was marked with if and only if the store had room for it before the sweep. */
  lemma ArchivedItemsReadBackIff(
    env: Z.Env, before: seq<Z.Event>, items: Items, tenantId: string, zone: Zone, ids: seq<string>,
    ports: nat -> Port, contents: nat -> Content, now: real, put: Z.Put, manifestUp: bool, k: nat)
    requires var z, marked := Z.Run(env, Z.EMPTY, before).zone8, MarkedBy(items, tenantId, zone, ids, ports, contents);
             && Buildable(tenantId, zone, marked)
             && Z.CollisionFree(env.hash, Z.Payloads(env, Z.EMPTY, before) + {Z.Merged(BatchOf(tenantId, zone, marked))})
             && var result := ArchiveSwept(env, z, items, tenantId, zone, ids, ports, contents, now, put, manifestUp).2;
                result.Swept? && k < |result.archived|
    ensures var z, marked := Z.Run(env, Z.EMPTY, before).zone8, MarkedBy(items, tenantId, zone, ids, ports, contents);
            var (z', items', result) := ArchiveSwept(env, z, items, tenantId, zone, ids, ports, contents, now, put, manifestUp);
            var key := Key(tenantId, zone, result.archived[k].itemId);
            && |marked| == |result.archived|
            && result.archived[k] == Receipt(marked[k].itemId, now, marked[k].content.generation, result.archived[k].blobId)
            && key in items && items[key].Compressed? && key in items' && items'[key].Archived?
            && (tenantId, key.itemId) in z'.manifest && z'.manifest[(tenantId, key.itemId)].blobId == result.archived[k].blobId
            && Z.ReadBlobRange(z', tenantId, key.itemId).Read?
            && (Z.ReadBlobRange(z', tenantId, key.itemId) == Z.Read(marked[k].content.payload)
                <==> Z.Fits(env, z, BatchOf(tenantId, zone, marked), k))
  {
    var z := Z.Run(env, Z.EMPTY, before).zone8;
    var marked := MarkedBy(items, tenantId, zone, ids, ports, contents);
    var keys := Keys(tenantId, zone, ids);
    VerdictCount(items, keys, Archival, ports);
    var verdicts := ProcessAll(items, keys, Archival, ports).1;
    Z.RunBlobsFrom(env, before);
    WrittenMarked(env, z, tenantId, zone, marked, now, put, manifestUp,
                  KeyIds(WithVerdict(keys, verdicts, Skipped)), KeyIds(WithVerdict(keys, verdicts, Failed)),
                  Z.Payloads(env, Z.EMPTY, before), k);
    MarkedIsArchivedAtSource(items, tenantId, zone, ids, ports, contents, k);
  }

  lemma {:induction false} MarkedIffMoved(ids: seq<string>, verdicts: seq<Verdict>, contents: nat -> Content, k: nat)
    requires |ids| == |verdicts| && k < |ids| && forall j :: 0 <= j < |ids| && j != k ==> ids[j] != ids[k]
    ensures Marked(ids[k], contents(k)) in MarkedItems(ids, verdicts, contents) <==> verdicts[k].Moved?
  {
    var marked := MarkedItems(ids, verdicts, contents);
    if m :| 0 <= m < |marked| && marked[m] == Marked(ids[k], contents(k)) {
      var j := MarkedWasMoved(ids, verdicts, contents, m);
      assert ids[j] == ids[k];
    }
    if verdicts[k].Moved? {
      MovedIsMarked(ids, verdicts, contents, k);
    }
  }

  lemma {:induction false} MovedIsMarked(ids: seq<string>, verdicts: seq<Verdict>, contents: nat -> Content, k: nat)
    requires |ids| == |verdicts| && k < |ids| && verdicts[k].Moved?
    ensures Marked(ids[k], contents(k)) in MarkedItems(ids, verdicts, contents)
  {
    var n := |ids| - 1;
    if k < n {
      MovedIsMarked(ids[..n], verdicts[..n], contents, k);
    }
  }

  /** A candidate named once is handed to Zone 8 exactly if it can be read, is compressed, scores at most a
      quarter, and could be persisted as archived; it is reported skipped exactly if it can be read and scores
      more or is not compressed. */
  lemma CandidateIsMarkedIff(
    env: Z.Env, z: Z.Zone8, items: Items, tenantId: string, zone: Zone, ids: seq<string>,
    ports: nat -> Port, contents: nat -> Content, now: real, put: Z.Put, manifestUp: bool, k: nat)
    requires k < |ids| && forall j :: 0 <= j < |ids| && j != k ==> ids[j] != ids[k]
    ensures var key, port := Key(tenantId, zone, ids[k]), ports(k);
            var fits := port.score <= 0.25 + 0.000000001;
            var result := ArchiveSwept(env, z, items, tenantId, zone, ids, ports, contents, now, put, manifestUp).2;
            && (Marked(ids[k], contents(k)) in MarkedBy(items, tenantId, zone, ids, ports, contents) <==>
                  port.readable && key in items && fits && items[key] == Compressed && port.persists)
            && (result.Swept? ==>
                  (ids[k] in result.skipped <==> port.readable && key in items && (!fits || items[key] != Compressed)))
            && (result.Swept? && (!port.readable || key !in items || (fits && items[key] == Compressed && !port.persists)) ==>
                  ids[k] in result.failed)
  {
    var verdicts := ProcessAll(items, Keys(tenantId, zone, ids), Archival, ports).1;
    CandidateVerdict(items, tenantId, zone, ids, ports, k);
    MarkedIffMoved(ids, verdicts, contents, k);
    SweepReports(env, z, items, tenantId, zone, ids, ports, contents, now, put, manifestUp, k);
  }

  lemma CandidateVerdict(items: Items, tenantId: string, zone: Zone, ids: seq<string>, ports: nat -> Port, k: nat)
    requires k < |ids| && forall j :: 0 <= j < |ids| && j != k ==> ids[j] != ids[k]
    ensures var key, port := Key(tenantId, zone, ids[k]), ports(k);
            var fits := port.score <= 0.25 + 0.000000001;
            var verdicts := ProcessAll(items, Keys(tenantId, zone, ids), Archival, ports).1;
            && |verdicts| == |ids|
            && (verdicts[k].Moved? <==> port.readable && key in items && fits && items[key] == Compressed && port.persists)
            && (verdicts[k].Skipped? <==> port.readable && key in items && (!fits || items[key] != Compressed))
            && (verdicts[k].Failed? <==>
                  !port.readable || key !in items || (fits && items[key] == Compressed && !port.persists))
  {
    VerdictIs(items, Keys(tenantId, zone, ids), Archival, ports, k);
  }

  lemma SweepReports(
    env: Z.Env, z: Z.Zone8, items: Items, tenantId: string, zone: Zone, ids: seq<string>,
    ports: nat -> Port, contents: nat -> Content, now: real, put: Z.Put, manifestUp: bool, k: nat)
    requires k < |ids| && forall j :: 0 <= j < |ids| && j != k ==> ids[j] != ids[k]
    requires |ProcessAll(items, Keys(tenantId, zone, ids), Archival, ports).1| == |ids|
    ensures var verdict := ProcessAll(items, Keys(tenantId, zone, ids), Archival, ports).1[k];
            var result := ArchiveSwept(env, z, items, tenantId, zone, ids, ports, contents, now, put, manifestUp).2;
            result.Swept? ==>
              (ids[k] in result.skipped <==> verdict.Skipped?) && (verdict.Failed? ==> ids[k] in result.failed)
  {
    var keys := Keys(tenantId, zone, ids);
    var verdicts := ProcessAll(items, keys, Archival, ports).1;
    ReportedIff(tenantId, zone, ids, verdicts, k, Skipped);
    ReportedIff(tenantId, zone, ids, verdicts, k, Failed);
    ReportsPassOn(env, z, tenantId, zone, MarkedItems(ids, verdicts, contents), now, put, manifestUp,
                  KeyIds(WithVerdict(keys, verdicts, Skipped)), KeyIds(WithVerdict(keys, verdicts, Failed)));
  }

  lemma ReportedIff(tenantId: string, zone: Zone, ids: seq<string>, verdicts: seq<Verdict>, k: nat, v: Verdict)
    requires |ids| == |verdicts| && k < |ids| && forall j :: 0 <= j < |ids| && j != k ==> ids[j] != ids[k]
    ensures ids[k] in KeyIds(WithVerdict(Keys(tenantId, zone, ids), verdicts, v)) <==> verdicts[k] == v
  {
    var keys := Keys(tenantId, zone, ids);
    var listed := WithVerdict(keys, verdicts, v);
    OnlyVerdict(keys, verdicts, k, v);
    if m :| 0 <= m < |listed| && KeyIds(listed)[m] == ids[k] {
      HasVerdictIff(keys, verdicts, v, listed[m]);
      assert listed[m] == keys[k];
    }
    if keys[k] in listed {
      var m :| 0 <= m < |listed| && listed[m] == keys[k];
      assert KeyIds(listed)[m] == ids[k];
    }
  }

  lemma ReportsPassOn(env: Z.Env, z: Z.Zone8, tenantId: string, zone: Zone, marked: seq<Marked>, now: real, put: Z.Put,
                      manifestUp: bool, skipped: seq<string>, failed: seq<string>)
    ensures var result := WriteMarked(env, z, tenantId, zone, marked, now, put, manifestUp, skipped, failed).1;
            result.Swept? ==> result.skipped == skipped && failed <= result.failed
  {
  }

  // ---------------------------------------------------------------- what a failed write means

  /** Sweeps of either engine that come later. */
  datatype Later = Later(keys: seq<Key>, engine: Engine, ports: nat -> Port)

  function AfterLater(items: Items, later: seq<Later>): Items {
    if later == [] then items
    else
      var l := later[|later| - 1];
      ProcessAll(AfterLater(items, later[..|later| - 1]), l.keys, l.engine, l.ports).0
  }

  /** An archived item stays archived, and no later sweep marks it. */
  lemma {:induction false} ArchivedIsNeverMarkedAgain(items: Items, later: seq<Later>, next: Later, key: Key, j: nat)
    requires key in items && items[key].Archived? && j < |next.keys| && next.keys[j] == key
    ensures var now := AfterLater(items, later);
            && key in now && now[key].Archived?
            && var verdicts := ProcessAll(now, next.keys, next.engine, next.ports).1;
               |verdicts| == |next.keys| && !verdicts[j].Moved?
  {
    if later != [] {
      var l := later[|later| - 1];
      ArchivedIsNeverMarkedAgain(items, later[..|later| - 1], next, key, j);
      SweepMoves(AfterLater(items, later[..|later| - 1]), l.keys, l.engine, l.ports, key);
    }
    SweepMoves(AfterLater(items, later), next.keys, next.engine, next.ports, key);
  }

  /** What it takes for the marked items to reach Zone 8, asked before the write. */
  ghost predicate Lands(env: Z.Env, z: Z.Zone8, tenantId: string, zone: Zone, marked: seq<Marked>, put: Z.Put,
                        manifestUp: bool)
  {
    Buildable(tenantId, zone, marked) && Z.WillWrite(env, z, BatchOf(tenantId, zone, marked), put, manifestUp)
  }

  lemma LandedHasRow(env: Z.Env, z: Z.Zone8, tenantId: string, zone: Zone, marked: seq<Marked>, now: real, put: Z.Put,
                     manifestUp: bool, skipped: seq<string>, failed: seq<string>, k: nat)
    requires Lands(env, z, tenantId, zone, marked, put, manifestUp) && k < |marked|
    ensures var (z', result) := WriteMarked(env, z, tenantId, zone, marked, now, put, manifestUp, skipped, failed);
            && (tenantId, marked[k].itemId) !in z.manifest && (tenantId, marked[k].itemId) in z'.manifest
            && result.Swept? && marked[k].itemId in ArchivedIds(result.archived)
  {
    var batch := BatchOf(tenantId, zone, marked);
    var (z', outcome) := Z.Consolidated(env, z, batch, now, put, manifestUp);
    AllAccepted(batch);
    Z.BatchWritesIff(env, z, batch, now, put, manifestUp);
    Z.ConsolidatedWrote(env, z, batch, now, put, manifestUp);
    Z.WrittenRow(env, z, batch, now, put, z', outcome.written, k);
    LandedWasNew(env, z, tenantId, zone, marked, put, manifestUp, k);
    WriteMarkedReports(env, z, tenantId, zone, marked, now, put, manifestUp, skipped, failed);
    assert ArchivedIds(ArchivedOf(outcome.written, Generations(marked), now))[k] == marked[k].itemId;
  }

  lemma LandedWasNew(env: Z.Env, z: Z.Zone8, tenantId: string, zone: Zone, marked: seq<Marked>, put: Z.Put,
                     manifestUp: bool, k: nat)
    requires Lands(env, z, tenantId, zone, marked, put, manifestUp) && k < |marked|
    ensures (tenantId, marked[k].itemId) !in z.manifest
  {
    AllAccepted(BatchOf(tenantId, zone, marked));
  }

  lemma WriteMarkedReports(env: Z.Env, z: Z.Zone8, tenantId: string, zone: Zone, marked: seq<Marked>, now: real, put: Z.Put,
                           manifestUp: bool, skipped: seq<string>, failed: seq<string>)
    requires marked != [] && Buildable(tenantId, zone, marked)
    ensures var (z', outcome) := Z.Consolidated(env, z, BatchOf(tenantId, zone, marked), now, put, manifestUp);
            WriteMarked(env, z, tenantId, zone, marked, now, put, manifestUp, skipped, failed)
            == (z', SweepReport(outcome, marked, now, skipped, failed))
  {
  }

  lemma NothingWrittenIsDeferred(outcome: Z.Outcome, marked: seq<Marked>, now: real, skipped: seq<string>, failed: seq<string>)
    requires outcome.Done? ==> outcome.written == [] && outcome.deferred == MarkedIds(marked)
    ensures var result := SweepReport(outcome, marked, now, skipped, failed);
            result.Swept? ==> result.archived == [] && forall k :: 0 <= k < |marked| ==> marked[k].itemId in result.deferred
  {
    forall k | 0 <= k < |marked| ensures marked[k].itemId in MarkedIds(marked) {
      assert MarkedIds(marked)[k] == marked[k].itemId;
    }
  }

  lemma BatchIds(tenantId: string, zone: Zone, marked: seq<Marked>)
    requires Buildable(tenantId, zone, marked)
    ensures Z.Ids(BatchOf(tenantId, zone, marked)) == MarkedIds(marked)
  {
  }

  lemma UnwrittenIsDeferred(env: Z.Env, z: Z.Zone8, tenantId: string, zone: Zone, marked: seq<Marked>, now: real,
                            put: Z.Put, manifestUp: bool)
    requires Buildable(tenantId, zone, marked) && !Lands(env, z, tenantId, zone, marked, put, manifestUp)
    ensures var (z', outcome) := Z.Consolidated(env, z, BatchOf(tenantId, zone, marked), now, put, manifestUp);
            && z'.manifest == z.manifest
            && (outcome.Done? ==> outcome.written == [] && outcome.deferred == MarkedIds(marked))
  {
    var batch := BatchOf(tenantId, zone, marked);
    AllAccepted(batch);
    Z.BatchWritesIff(env, z, batch, now, put, manifestUp);
    BatchIds(tenantId, zone, marked);
  }

  lemma UnlandedHasNone(env: Z.Env, z: Z.Zone8, tenantId: string, zone: Zone, marked: seq<Marked>, now: real, put: Z.Put,
                        manifestUp: bool, skipped: seq<string>, failed: seq<string>, k: nat)
    requires !Lands(env, z, tenantId, zone, marked, put, manifestUp) && k < |marked|
    ensures var (z', result) := WriteMarked(env, z, tenantId, zone, marked, now, put, manifestUp, skipped, failed);
            && z'.manifest == z.manifest
            && (result.Swept? ==> result.archived == [] && marked[k].itemId in result.deferred)
  {
    if Buildable(tenantId, zone, marked) {
      UnwrittenIsDeferred(env, z, tenantId, zone, marked, now, put, manifestUp);
      WriteMarkedReports(env, z, tenantId, zone, marked, now, put, manifestUp, skipped, failed);
      NothingWrittenIsDeferred(Z.Consolidated(env, z, BatchOf(tenantId, zone, marked), now, put, manifestUp).1,
                               marked, now, skipped, failed);
    }
  }

  /** A marked item is archived at its source whatever Zone 8 answers. It gets a row, and is reported
      archived, exactly when the batch lands; otherwise it is reported deferred or, when Zone 8 raises, not
      reported at all. */
  lemma MarkedItemHasRowIffLands(
    env: Z.Env, z: Z.Zone8, items: Items, tenantId: string, zone: Zone, ids: seq<string>,
    ports: nat -> Port, contents: nat -> Content, now: real, put: Z.Put, manifestUp: bool, k: nat)
    requires !Blank(tenantId) && k < |MarkedBy(items, tenantId, zone, ids, ports, contents)|
    ensures var (z', items', result) := ArchiveSwept(env, z, items, tenantId, zone, ids, ports, contents, now, put, manifestUp);
            var marked := MarkedBy(items, tenantId, zone, ids, ports, contents);
            var key := Key(tenantId, zone, marked[k].itemId);
            && key in items && items[key].Compressed? && key in items' && items'[key].Archived?
            && if Lands(env, z, tenantId, zone, marked, put, manifestUp)
               then && (tenantId, key.itemId) !in z.manifest && (tenantId, key.itemId) in z'.manifest
                    && result.Swept? && key.itemId in ArchivedIds(result.archived)
               else z'.manifest == z.manifest && (result.Swept? ==> result.archived == [] && key.itemId in result.deferred)
  {
    var keys := Keys(tenantId, zone, ids);
    VerdictCount(items, keys, Archival, ports);
    var verdicts := ProcessAll(items, keys, Archival, ports).1;
    var marked := MarkedBy(items, tenantId, zone, ids, ports, contents);
    var skipped, failed := KeyIds(WithVerdict(keys, verdicts, Skipped)), KeyIds(WithVerdict(keys, verdicts, Failed));
    MarkedIsArchivedAtSource(items, tenantId, zone, ids, ports, contents, k);
    if Lands(env, z, tenantId, zone, marked, put, manifestUp) {
      LandedHasRow(env, z, tenantId, zone, marked, now, put, manifestUp, skipped, failed, k);
    } else {
      UnlandedHasNone(env, z, tenantId, zone, marked, now, put, manifestUp, skipped, failed, k);
    }
  }

  /** So every item of a batch that does not land is stranded: archived at its source with no row, and
      since no later sweep of either engine marks it, never handed to Zone 8 again. */
  lemma UnlandedItemIsStranded(
    env: Z.Env, z: Z.Zone8, items: Items, tenantId: string, zone: Zone, ids: seq<string>,
    ports: nat -> Port, contents: nat -> Content, now: real, put: Z.Put, manifestUp: bool, k: nat,
    later: seq<Later>, next: Later, j: nat)
    requires !Blank(tenantId) && k < |MarkedBy(items, tenantId, zone, ids, ports, contents)|
    requires !Lands(env, z, tenantId, zone, MarkedBy(items, tenantId, zone, ids, ports, contents), put, manifestUp)
    requires j < |next.keys|
          && next.keys[j] == Key(tenantId, zone, MarkedBy(items, tenantId, zone, ids, ports, contents)[k].itemId)
    ensures var (z', items', _) := ArchiveSwept(env, z, items, tenantId, zone, ids, ports, contents, now, put, manifestUp);
            && z'.manifest == z.manifest
            && var verdicts := ProcessAll(AfterLater(items', later), next.keys, next.engine, next.ports).1;
               |verdicts| == |next.keys| && !verdicts[j].Moved?
  {
    MarkedItemHasRowIffLands(env, z, items, tenantId, zone, ids, ports, contents, now, put, manifestUp, k);
    var items' := ArchiveSwept(env, z, items, tenantId, zone, ids, ports, contents, now, put, manifestUp).1;
    ArchivedIsNeverMarkedAgain(items', later, next, next.keys[j], j);
  }

  // ---------------------------------------------------------------- the fast track

  datatype FastOutcome =
    | FastRaised(error: Error) | FastArchived(receipt: Receipt) | FastSkipped | FastFailed

  /** One item: written, or deferred. */
  ghost predicate WrittenOrDeferred(outcome: Z.Outcome, id: string) {
    outcome.Done? ==>
      || (Z.WrittenIds(outcome.written) == [id] && outcome.deferred == [] && outcome.rejected == [])
      || (outcome.written == [] && outcome.deferred == [id] && outcome.rejected == [])
  }

  function FastReport(outcome: Z.Outcome, m: Marked, now: real): FastOutcome
    requires WrittenOrDeferred(outcome, m.itemId)
  {
    match outcome
    case Raised(error) => FastRaised(Zone8Refused(error))
    case Done(written, deferred, rejected) =>
      if deferred != [] then FastSkipped
      else if rejected != [] then FastFailed
      else
        assert |Z.WrittenIds(written)| == 1;
        FastArchived(Receipt(m.itemId, now, m.content.generation, written[0].blobId))
  }

  lemma OneIsWritten(env: Z.Env, z: Z.Zone8, tenantId: string, zone: Zone, m: Marked, now: real, put: Z.Put, manifestUp: bool)
    requires Buildable(tenantId, zone, [m])
    ensures WrittenOrDeferred(Z.Consolidated(env, z, BatchOf(tenantId, zone, [m]), now, put, manifestUp).1, m.itemId)
  {
    var batch := BatchOf(tenantId, zone, [m]);
    AllAccepted(batch);
    assert Z.Ids(batch) == [m.itemId];
    var outcome := Z.Consolidated(env, z, batch, now, put, manifestUp).1;
    if outcome.Done? {
      Z.ConsolidatedAllOrNothing(env, z, batch, now, put, manifestUp);
    }
  }

  function WriteOne(env: Z.Env, z: Z.Zone8, tenantId: string, zone: Zone, m: Marked, now: real, put: Z.Put,
                    manifestUp: bool): (Z.Zone8, FastOutcome)
  {
    if !Buildable(tenantId, zone, [m]) then (z, FastRaised(InvalidItem))
    else
      var (z', outcome) := Z.Consolidated(env, z, BatchOf(tenantId, zone, [m]), now, put, manifestUp);
      OneIsWritten(env, z, tenantId, zone, m, now, put, manifestUp);
      (z', FastReport(outcome, m, now))
  }

  function FastTracked(env: Z.Env, z: Z.Zone8, items: Items, tenantId: string, zone: Zone, id: string, port: Port,
                       content: Content, now: real, put: Z.Put, manifestUp: bool): (Z.Zone8, Items, FastOutcome)
  {
    if Blank(tenantId) then (z, items, FastRaised(BlankTenant))
    else
      var (items', verdict) := Process(items, Key(tenantId, zone, id), Archival, port);
      match verdict
      case Skipped => (z, items', FastSkipped)
      case Failed => (z, items', FastFailed)
      case Moved =>
        var (z', outcome) := WriteOne(env, z, tenantId, zone, Marked(id, content), now, put, manifestUp);
        (z', items', outcome)
  }

  /** How a sweep of one candidate reads as a fast-track outcome: deferred counts as skipped. */
  ghost predicate SameOutcome(fast: FastOutcome, sweep: SweepResult, id: string) {
    match fast
    case FastRaised(error) => sweep == Raised(error)
    case FastArchived(receipt) => sweep == Swept([receipt], [], [], [])
    case FastSkipped => sweep == Swept([], [id], [], []) || sweep == Swept([], [], [id], [])
    case FastFailed => sweep == Swept([], [], [], [id])
  }

  lemma OneReceipt(m: Marked, written: seq<Z.ManifestEntry>, now: real)
    requires Z.WrittenIds(written) == [m.itemId]
    ensures ArchivedOf(written, Generations([m]), now) == [Receipt(m.itemId, now, m.content.generation, written[0].blobId)]
  {
    assert written[0].itemId == Z.WrittenIds(written)[0];
    assert [m][..0] == [];
  }

  lemma WriteOneIsWriteMarked(env: Z.Env, z: Z.Zone8, tenantId: string, zone: Zone, m: Marked, now: real, put: Z.Put, manifestUp: bool)
    ensures var (zf, fast) := WriteOne(env, z, tenantId, zone, m, now, put, manifestUp);
            var (zs, sweep) := WriteMarked(env, z, tenantId, zone, [m], now, put, manifestUp, [], []);
            zf == zs && SameOutcome(fast, sweep, m.itemId)
  {
    if Buildable(tenantId, zone, [m]) {
      OneIsWritten(env, z, tenantId, zone, m, now, put, manifestUp);
      ReportsAgree(Z.Consolidated(env, z, BatchOf(tenantId, zone, [m]), now, put, manifestUp).1, m, now);
    }
  }

  lemma ReportsAgree(outcome: Z.Outcome, m: Marked, now: real)
    requires WrittenOrDeferred(outcome, m.itemId)
    ensures SameOutcome(FastReport(outcome, m, now), SweepReport(outcome, [m], now, [], []), m.itemId)
  {
    if outcome.Done? {
      if outcome.deferred != [] {
        assert ArchivedOf(outcome.written, Generations([m]), now) == [];
      } else {
        OneReceipt(m, outcome.written, now);
      }
    }
  }

  lemma ProcessOne(items: Items, key: Key, engine: Engine, ports: nat -> Port)
    ensures var (items', verdict) := Process(items, key, engine, ports(0));
            ProcessAll(items, [key], engine, ports) == (items', [verdict])
  {
    var keys := [key];
    assert keys[..0] == [];
    assert ProcessAll(items, keys[..0], engine, ports) == (items, []);
    assert [] + [Process(items, key, engine, ports(0)).1] == [Process(items, key, engine, ports(0)).1];
  }

  /** The fast track is exactly a weekly sweep of one candidate. */
  lemma FastTrackIsSweepOfOne(
    env: Z.Env, z: Z.Zone8, items: Items, tenantId: string, zone: Zone, id: string, ports: nat -> Port,
    contents: nat -> Content, now: real, put: Z.Put, manifestUp: bool)
    ensures var (zf, itemsF, fast) :=
              FastTracked(env, z, items, tenantId, zone, id, ports(0), contents(0), now, put, manifestUp);
            var (zs, itemsS, sweep) :=
              ArchiveSwept(env, z, items, tenantId, zone, [id], ports, contents, now, put, manifestUp);
            zf == zs && itemsF == itemsS && SameOutcome(fast, sweep, id)
  {
    if Blank(tenantId) {
      return;
    }
    SweepOfOne(env, z, items, tenantId, zone, id, ports, contents, now, put, manifestUp);
    WriteOneIsWriteMarked(env, z, tenantId, zone, Marked(id, contents(0)), now, put, manifestUp);
  }

  lemma SweepOfOne(
    env: Z.Env, z: Z.Zone8, items: Items, tenantId: string, zone: Zone, id: string, ports: nat -> Port,
    contents: nat -> Content, now: real, put: Z.Put, manifestUp: bool)
    requires !Blank(tenantId)
    ensures var (items', verdict) := Process(items, Key(tenantId, zone, id), Archival, ports(0));
            var (z', result) := WriteMarked(env, z, tenantId, zone, if verdict.Moved? then [Marked(id, contents(0))] else [],
                                            now, put, manifestUp, if verdict.Skipped? then [id] else [],
                                            if verdict.Failed? then [id] else []);
            ArchiveSwept(env, z, items, tenantId, zone, [id], ports, contents, now, put, manifestUp) == (z', items', result)
  {
    var key := Key(tenantId, zone, id);
    assert Keys(tenantId, zone, [id]) == [key];
    ProcessOne(items, key, Archival, ports);
    OneReport(key, id, Process(items, key, Archival, ports(0)).1, contents);
  }

  lemma OneReport(key: Key, id: string, verdict: Verdict, contents: nat -> Content)
    requires key.itemId == id
    ensures KeyIds(WithVerdict([key], [verdict], Skipped)) == (if verdict.Skipped? then [id] else [])
    ensures KeyIds(WithVerdict([key], [verdict], Failed)) == (if verdict.Failed? then [id] else [])
    ensures MarkedItems([id], [verdict], contents) == if verdict.Moved? then [Marked(id, contents(0))] else []
  {
    assert [id][..0] == [] && [verdict][..0] == [] && [key][..0] == [];
  }

  // ---------------------------------------------------------------- the engine, in place

  class ArchiveEngine {
    const zones: ItemStates
    const store: Z.Zone8ConsolidationStore
    var published: seq<Key>

    constructor (zones: ItemStates, store: Z.Zone8ConsolidationStore)
      ensures this.zones == zones && this.store == store && published == []
    {
      this.zones, this.store, published := zones, store, [];
    }

    method RunWeeklyArchiveSweep(tenantId: string, zone: Zone, ids: seq<string>, ports: nat -> Port,
                                 contents: nat -> Content, now: real, put: Z.Put, manifestUp: bool)
      returns (result: SweepResult)
      modifies this, zones, store.objectStore, store.manifest
      ensures (store.Now(), zones.items, result)
           == ArchiveSwept(store.env, old(store.Now()), old(zones.items), tenantId, zone, ids, ports, contents, now, put, manifestUp)
      ensures published == old(published)
                           + (if result.Swept? then Keys(tenantId, zone, ArchivedIds(result.archived)) else [])
    {
      if Blank(tenantId) {
        return Raised(BlankTenant);
      }
      var marked, skipped, failed := MarkAll(tenantId, zone, ids, ports, contents);
      if marked == [] {
        return Swept([], [], skipped, failed);
      }
      if !Buildable(tenantId, zone, marked) {
        return Raised(InvalidItem);
      }
      var generations := Generations(marked);
      var outcome := store.ConsolidateBatch(BatchOf(tenantId, zone, marked), now, put, manifestUp);
      if outcome.Raised? {
        return Raised(Zone8Refused(outcome.error));
      }
      var archived := ArchivedOf(outcome.written, generations, now);
      published := published + Keys(tenantId, zone, ArchivedIds(archived));
      result := Swept(archived, outcome.deferred, skipped, failed + outcome.rejected);
    }

    method MarkAll(tenantId: string, zone: Zone, ids: seq<string>, ports: nat -> Port, contents: nat -> Content)
      returns (marked: seq<Marked>, skipped: seq<string>, failed: seq<string>)
      modifies zones
      ensures var keys := Keys(tenantId, zone, ids);
              var (items', verdicts) := ProcessAll(old(zones.items), keys, Archival, ports);
              && |verdicts| == |keys| && zones.items == items'
              && marked == MarkedItems(ids, verdicts, contents)
              && skipped == KeyIds(WithVerdict(keys, verdicts, Skipped))
              && failed == KeyIds(WithVerdict(keys, verdicts, Failed))
    {
      ghost var keys := Keys(tenantId, zone, ids);
      ghost var verdicts: seq<Verdict> := [];
      marked, skipped, failed := [], [], [];
      assert keys[..0] == [] && ids[..0] == [];
      for i := 0 to |ids|
        invariant |verdicts| == i && ProcessAll(old(zones.items), keys[..i], Archival, ports) == (zones.items, verdicts)
        invariant marked == MarkedItems(ids[..i], verdicts, contents)
        invariant skipped == KeyIds(WithVerdict(keys[..i], verdicts, Skipped))
        invariant failed == KeyIds(WithVerdict(keys[..i], verdicts, Failed))
      {
        SweepStep(old(zones.items), keys, Archival, ports, i, zones.items, verdicts);
        ghost var next := Process(zones.items, keys[i], Archival, ports(i)).1;
        MarkedStep(ids, verdicts, contents, i, next);
        VerdictIdsStep(keys, verdicts, i, next, Skipped);
        VerdictIdsStep(keys, verdicts, i, next, Failed);
        var verdict := EvaluateAndMark(Key(tenantId, zone, ids[i]), ports(i));
        verdicts := verdicts + [verdict];
        match verdict
        case Moved => marked := marked + [Marked(ids[i], contents(i))];
        case Skipped => skipped := skipped + [ids[i]];
        case Failed => failed := failed + [ids[i]];
      }
      assert keys[..|ids|] == keys && ids[..|ids|] == ids;
    }

    method EvaluateAndMark(key: Key, port: Port) returns (verdict: Verdict)
      modifies zones
      ensures (zones.items, verdict) == Process(old(zones.items), key, Archival, port)
    {
      if !port.readable || key !in zones.items {
        return Failed;
      }
      if !ArchiveEligible(port.score) {
        return Skipped;
      }
      if !zones.items[key].Compressed? {
        return Skipped;
      }
      if !port.persists {
        return Failed;
      }
      zones.items := zones.items[key := RotationState.Archived];
      verdict := Moved;
    }

    method FastTrackArchive(tenantId: string, zone: Zone, id: string, port: Port, content: Content, now: real,
                            put: Z.Put, manifestUp: bool) returns (outcome: FastOutcome)
      modifies this, zones, store.objectStore, store.manifest
      ensures (store.Now(), zones.items, outcome)
           == FastTracked(store.env, old(store.Now()), old(zones.items), tenantId, zone, id, port, content, now, put, manifestUp)
      ensures published == old(published) + (if outcome.FastArchived? then [Key(tenantId, zone, id)] else [])
    {
      if Blank(tenantId) {
        return FastRaised(BlankTenant);
      }
      var verdict := EvaluateAndMark(Key(tenantId, zone, id), port);
      if verdict.Skipped? {
        return FastSkipped;
      }
      if verdict.Failed? {
        return FastFailed;
      }
      var m := Marked(id, content);
      if !Buildable(tenantId, zone, [m]) {
        return FastRaised(InvalidItem);
      }
      ghost var before := store.Now();
      OneIsWritten(store.env, before, tenantId, zone, m, now, put, manifestUp);
      var batch := store.ConsolidateBatch(BatchOf(tenantId, zone, [m]), now, put, manifestUp);
      assert WriteOne(store.env, before, tenantId, zone, m, now, put, manifestUp) == (store.Now(), FastReport(batch, m, now));
      if batch.Raised? {
        return FastRaised(Zone8Refused(batch.error));
      }
      if batch.deferred != [] {
        return FastSkipped;
      }
      if batch.rejected != [] {
        return FastFailed;
      }
      published := published + [Key(tenantId, zone, id)];
      outcome := FastArchived(Receipt(id, now, content.generation, batch.written[0].blobId));
    }
  }

  lemma MarkedStep(ids: seq<string>, verdicts: seq<Verdict>, contents: nat -> Content, i: nat, verdict: Verdict)
    requires i < |ids| && |verdicts| == i
    ensures MarkedItems(ids[..i + 1], verdicts + [verdict], contents)
         == MarkedItems(ids[..i], verdicts, contents) + (if verdict.Moved? then [Marked(ids[i], contents(i))] else [])
  {
    assert ids[..i + 1][..i] == ids[..i] && (verdicts + [verdict])[..i] == verdicts;
  }

  lemma VerdictIdsStep(keys: seq<Key>, verdicts: seq<Verdict>, i: nat, verdict: Verdict, v: Verdict)
    requires i < |keys| && |verdicts| == i
    ensures KeyIds(WithVerdict(keys[..i + 1], verdicts + [verdict], v))
         == KeyIds(WithVerdict(keys[..i], verdicts, v)) + (if verdict == v then [keys[i].itemId] else [])
  {
    assert (verdicts + [verdict])[..i] == verdicts && keys[..i + 1][..i] == keys[..i];
  }
}
