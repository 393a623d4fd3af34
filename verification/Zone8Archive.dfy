/** Zone 8: payloads merged into one content-addressed blob, found again through a manifest of byte
    ranges, optionally sealed under a key of their data subject that an erasure destroys.
    The object store is the local file store: one exclusive create, then one write. */
module Zone8Archive {
  import opened Encodings
  import opened Options
  import opened Sequences
  import opened Text
  import opened Zones

  datatype ByteRange = ByteRange(start: nat, end: nat)
  datatype Item = Item(tenantId: string, itemId: string, sourceZone: Zone, payload: Bytes, subjectId: Option<string>)

  predicate Constructible(i: Item) {
    && !Blank(i.tenantId) && !Blank(i.itemId) && i.payload != []
    && (i.subjectId.Some? ==> !Blank(i.subjectId.value))
  }

  function AnItem(): (i: Item)
    ensures Constructible(i)
  {
    var name := "x";
    assert !Whitespace(name[0]);
    Item(name, name, Episodic, [0], None)
  }

  /** What construction has checked; the zone is checked once more by the store. */
  type ArchiveBatchItem = i: Item | Constructible(i) witness AnItem()

  datatype ManifestEntry = ManifestEntry(
    tenantId: string, itemId: string, blobId: string, byteRange: ByteRange, compressionGeneration: nat,
    sourceZone: Zone, writtenAt: real, subjectId: Option<string>)

  datatype Zone8 = Zone8(blobs: map<string, Bytes>, manifest: map<(string, string), ManifestEntry>)

  datatype Error =
    | CrossTenant | Unprovisioned | InvalidRange | ManifestFailed | BlankArgument | NeverArchived | BlobMissing
    | NoKey | SealBroken

  datatype Outcome =
    | Raised(error: Error)
    | Done(written: seq<ManifestEntry>, deferred: seq<string>, rejected: seq<string>)

  /** How the attempt to create and write a blob ends: `Torn` has created the file and written part. */
  datatype Put = Stored | Unreachable | Torn(kept: nat)

  /** A sealed payload is a nonce and a tagged ciphertext, so never empty. */
  type SealedBytes = b: Bytes | b != [] witness [0]

  /** Authenticated encryption: `seal(key, nonce, payload, associated data)` and `open`. */
  datatype Cipher = Cipher(seal: (nat, nat, Bytes, string) -> SealedBytes, open: (nat, Bytes, string) -> Option<Bytes>)

  /** What lies outside the store: the hash, the cipher, and which tenants have a bucket (when that is checked). */
  datatype Env = Env(hash: Bytes -> string, cipher: Cipher, provisioned: Option<set<string>>)

  // ---------------------------------------------------------------- writing a batch

  predicate AllowedSource(zone: Zone) {
    zone in {Episodic, Semantic, Procedural, Entity}
  }

  function Accepted(items: seq<ArchiveBatchItem>): seq<ArchiveBatchItem> {
    if items == [] then []
    else Accepted(items[..|items| - 1])
         + (if AllowedSource(items[|items| - 1].sourceZone) then [items[|items| - 1]] else [])
  }

  function Rejected(items: seq<ArchiveBatchItem>): seq<string> {
    if items == [] then []
    else Rejected(items[..|items| - 1])
         + (if AllowedSource(items[|items| - 1].sourceZone) then [] else [items[|items| - 1].itemId])
  }

  function Ids(items: seq<ArchiveBatchItem>): (ids: seq<string>)
    ensures |ids| == |items| && forall k :: 0 <= k < |items| ==> ids[k] == items[k].itemId
  {
    Mapped(items, (i: ArchiveBatchItem) => i.itemId)
  }

  function Merged(items: seq<ArchiveBatchItem>): Bytes {
    if items == [] then [] else Merged(items[..|items| - 1]) + items[|items| - 1].payload
  }

  function Ranges(items: seq<ArchiveBatchItem>): (ranges: map<string, ByteRange>)
    ensures forall k :: 0 <= k < |items| ==> items[k].itemId in ranges
  {
    if items == [] then map[]
    else
      var init := items[..|items| - 1];
      Ranges(init)[items[|items| - 1].itemId := ByteRange(|Merged(init)|, |Merged(items)|)]
  }

  function Entry(item: ArchiveBatchItem, blobId: string, range: ByteRange, now: real): ManifestEntry {
    ManifestEntry(item.tenantId, item.itemId, blobId, range, 0, item.sourceZone, now, item.subjectId)
  }

  function Entries(items: seq<ArchiveBatchItem>, blobId: string, now: real): (entries: seq<ManifestEntry>)
    ensures |entries| == |items|
    ensures forall k :: 0 <= k < |items| ==> entries[k] == Entry(items[k], blobId, Ranges(items)[items[k].itemId], now)
  {
    seq(|items|, (k: int) requires 0 <= k < |items| => Entry(items[k], blobId, Ranges(items)[items[k].itemId], now))
  }

  /** One exclusive create and one write; a file that exists already counts as written. */
  function BlobPut(blobs: map<string, Bytes>, blobId: string, payload: Bytes, put: Put): (map<string, Bytes>, bool) {
    match put
    case Unreachable => (blobs, false)
    case Stored => (if blobId in blobs then blobs else blobs[blobId := payload], true)
    case Torn(kept) =>
      if blobId in blobs then (blobs, true)
      else (blobs[blobId := if kept < |payload| then payload[..kept] else payload], false)
  }

  function PutIfAbsent(z: Zone8, blobId: string, payload: Bytes, put: Put): (Zone8, bool) {
    var (blobs, ok) := BlobPut(z.blobs, blobId, payload, put);
    (z.(blobs := blobs), ok)
  }

  function KeyOf(e: ManifestEntry): (string, string) {
    (e.tenantId, e.itemId)
  }

  /** Row by row in one transaction: a key already present undoes them all. */
  function InsertBatch(manifest: map<(string, string), ManifestEntry>, entries: seq<ManifestEntry>)
    : Option<map<(string, string), ManifestEntry>>
  {
    if entries == [] then Some(manifest)
    else
      var e := entries[|entries| - 1];
      match InsertBatch(manifest, entries[..|entries| - 1])
      case None => None
      case Some(m) => if KeyOf(e) in m then None else Some(m[KeyOf(e) := e])
  }

  function Record(z: Zone8, entries: seq<ManifestEntry>, manifestUp: bool, rejected: seq<string>): (Zone8, Outcome) {
    if !manifestUp then (z, Raised(ManifestFailed))
    else
      match InsertBatch(z.manifest, entries)
      case None => (z, Raised(ManifestFailed))
      case Some(m) => (z.(manifest := m), Done(entries, [], rejected))
  }

  /** What the whole batch is refused for, before anything is written. */
  function Refusal(env: Env, items: seq<ArchiveBatchItem>): Option<Error> {
    if items == [] then None
    else if exists k :: 0 <= k < |items| && items[k].tenantId != items[0].tenantId then Some(CrossTenant)
    else if env.provisioned.Some? && items[0].tenantId !in env.provisioned.value then Some(Unprovisioned)
    else None
  }

  function WriteBatch(env: Env, z: Zone8, accepted: seq<ArchiveBatchItem>, rejected: seq<string>, now: real, put: Put,
                      manifestUp: bool): (Zone8, Outcome)
  {
    if accepted == [] then (z, Done([], [], rejected))
    else
      var blobId := env.hash(Merged(accepted));
      var (stored, ok) := PutIfAbsent(z, blobId, Merged(accepted), put);
      if ok then Record(stored, Entries(accepted, blobId, now), manifestUp, rejected)
      else (stored, Done([], Ids(accepted), rejected))
  }

  function Consolidated(env: Env, z: Zone8, items: seq<ArchiveBatchItem>, now: real, put: Put, manifestUp: bool)
    : (Zone8, Outcome)
  {
    match Refusal(env, items)
    case Some(error) => (z, Raised(error))
    case None => WriteBatch(env, z, Accepted(items), Rejected(items), now, put, manifestUp)
  }

  function ReadBlobRange(z: Zone8, tenantId: string, itemId: string): Result {
    if Blank(tenantId) || Blank(itemId) then Failed(BlankArgument)
    else if (tenantId, itemId) !in z.manifest then Failed(NeverArchived)
    else
      var e := z.manifest[(tenantId, itemId)];
      if e.blobId !in z.blobs then Failed(BlobMissing) else Read(Slice(z.blobs[e.blobId], e.byteRange))
  }

  datatype Result = Read(bytes: Bytes) | Failed(error: Error)

  /** One seek and one bounded read: short when the file is. */
  function Slice(blob: Bytes, range: ByteRange): Bytes {
    var end := if range.end < |blob| then range.end else |blob|;
    if range.start < end then blob[range.start..end] else []
  }

  // ---------------------------------------------------------------- what one batch leaves behind

  /** Blobs and manifest rows, once there, never change. */
  ghost predicate Grows(z: Zone8, z': Zone8) {
    && (forall h :: h in z.blobs ==> h in z'.blobs && z'.blobs[h] == z.blobs[h])
    && (forall k :: k in z.manifest ==> k in z'.manifest && z'.manifest[k] == z.manifest[k])
  }

  lemma {:induction false} InsertKeepsRows(
    manifest: map<(string, string), ManifestEntry>, entries: seq<ManifestEntry>, key: (string, string))
    requires InsertBatch(manifest, entries).Some? && key in manifest
    ensures var m := InsertBatch(manifest, entries).value;
            key in m && m[key] == manifest[key]
  {
    if entries != [] {
      InsertKeepsRows(manifest, entries[..|entries| - 1], key);
    }
  }

  lemma {:induction false} InsertAddsRow(manifest: map<(string, string), ManifestEntry>, entries: seq<ManifestEntry>, k: nat)
    requires InsertBatch(manifest, entries).Some? && k < |entries|
    ensures var m := InsertBatch(manifest, entries).value;
            KeyOf(entries[k]) in m && m[KeyOf(entries[k])] == entries[k]
  {
    if k < |entries| - 1 {
      InsertAddsRow(manifest, entries[..|entries| - 1], k);
    }
  }

  lemma InsertedDiffer(manifest: map<(string, string), ManifestEntry>, entries: seq<ManifestEntry>, j: nat, k: nat)
    requires InsertBatch(manifest, entries).Some? && j < k < |entries|
    ensures KeyOf(entries[j]) != KeyOf(entries[k])
    decreases |entries|
  {
    var init := entries[..|entries| - 1];
    if k < |init| {
      InsertedDiffer(manifest, init, j, k);
    } else {
      InsertAddsRow(manifest, init, j);
    }
  }

  lemma {:induction false} InsertAddsNoOther(
    manifest: map<(string, string), ManifestEntry>, entries: seq<ManifestEntry>, key: (string, string))
    requires InsertBatch(manifest, entries).Some? && key in InsertBatch(manifest, entries).value
    ensures key in manifest || exists k :: 0 <= k < |entries| && KeyOf(entries[k]) == key
  {
    if entries != [] {
      var last := entries[|entries| - 1];
      if KeyOf(last) != key {
        InsertAddsNoOther(manifest, entries[..|entries| - 1], key);
      }
    }
  }

  lemma RecordGrows(z: Zone8, entries: seq<ManifestEntry>, manifestUp: bool, rejected: seq<string>)
    ensures Grows(z, Record(z, entries, manifestUp, rejected).0)
  {
    if InsertBatch(z.manifest, entries).Some? {
      forall key | key in z.manifest
        ensures key in InsertBatch(z.manifest, entries).value
                && InsertBatch(z.manifest, entries).value[key] == z.manifest[key]
      {
        InsertKeepsRows(z.manifest, entries, key);
      }
    }
  }

  /** Nothing already archived is touched by a batch, however it ends. */
  lemma ConsolidationGrows(env: Env, z: Zone8, items: seq<ArchiveBatchItem>, now: real, put: Put, manifestUp: bool)
    ensures Grows(z, Consolidated(env, z, items, now, put, manifestUp).0)
  {
    var accepted := Accepted(items);
    var blobId := env.hash(Merged(accepted));
    var stored := PutIfAbsent(z, blobId, Merged(accepted), put).0;
    RecordGrows(stored, Entries(accepted, blobId, now), manifestUp, Rejected(items));
  }

  lemma SliceOfConcat(a: Bytes, b: Bytes, range: ByteRange)
    requires range.start <= range.end <= |a|
    ensures (a + b)[range.start..range.end] == a[range.start..range.end]
  {
  }

  lemma LastSlice(a: Bytes, b: Bytes)
    ensures (a + b)[|a|..|a + b|] == b
  {
  }

  /** Each item's range of the merged payload is its own payload, unless a later item has its id. */
  lemma {:induction false} MergeSlices(items: seq<ArchiveBatchItem>, k: nat)
    requires k < |items| && forall j :: k < j < |items| ==> items[j].itemId != items[k].itemId
    ensures var range := Ranges(items)[items[k].itemId];
            && range.start < range.end <= |Merged(items)|
            && Merged(items)[range.start..range.end] == items[k].payload
  {
    var init, last := items[..|items| - 1], items[|items| - 1];
    if k < |init| {
      MergeSlices(init, k);
      SliceOfConcat(Merged(init), last.payload, Ranges(init)[items[k].itemId]);
    } else {
      LastSlice(Merged(init), last.payload);
    }
  }

  lemma {:induction false} AcceptedAreAllowed(items: seq<ArchiveBatchItem>)
    ensures forall i :: i in Accepted(items) ==> i in items && AllowedSource(i.sourceZone)
  {
    if items != [] {
      AcceptedAreAllowed(items[..|items| - 1]);
    }
  }

  /** A row whose range lies within a blob that is there. */
  ghost predicate Covered(z: Zone8, e: ManifestEntry) {
    e.blobId in z.blobs && e.byteRange.start < e.byteRange.end <= |z.blobs[e.blobId]|
  }

  ghost predicate CollisionFree(hash: Bytes -> string, payloads: set<Bytes>) {
    forall p, q :: p in payloads && q in payloads && hash(p) == hash(q) ==> p == q
  }

  /** Every blob is (the start of) a payload that was submitted, under that payload's hash. */
  ghost predicate BlobsFrom(env: Env, z: Zone8, payloads: set<Bytes>) {
    forall h :: h in z.blobs ==> exists p :: p in payloads && env.hash(p) == h && z.blobs[h] <= p
  }

  /** Every blob is whole, and every row lies within its blob. */
  ghost predicate Whole(env: Env, z: Zone8, payloads: set<Bytes>) {
    && (forall h :: h in z.blobs ==> z.blobs[h] in payloads && env.hash(z.blobs[h]) == h)
    && (forall k :: k in z.manifest ==> Covered(z, z.manifest[k]))
  }

  /** The step that came back with written items: one put, one insert. */
  ghost predicate Wrote(env: Env, z: Zone8, accepted: seq<ArchiveBatchItem>, now: real, put: Put,
                        z': Zone8, written: seq<ManifestEntry>)
  {
    var blobId := env.hash(Merged(accepted));
    && accepted != []
    && written == Entries(accepted, blobId, now)
    && PutIfAbsent(z, blobId, Merged(accepted), put) == (z.(blobs := z'.blobs), true)
    && InsertBatch(z.manifest, written) == Some(z'.manifest)
    && (forall k :: 0 <= k < |accepted| ==> accepted[k].tenantId == accepted[0].tenantId)
  }

  lemma WriteBatchWrote(env: Env, z: Zone8, accepted: seq<ArchiveBatchItem>, rejected: seq<string>, now: real,
                        put: Put, manifestUp: bool)
    requires forall k :: 0 <= k < |accepted| ==> accepted[k].tenantId == accepted[0].tenantId
    ensures var (z', outcome) := WriteBatch(env, z, accepted, rejected, now, put, manifestUp);
            outcome.Done? && outcome.written != [] ==> Wrote(env, z, accepted, now, put, z', outcome.written)
  {
  }

  lemma UniformTenant(env: Env, items: seq<ArchiveBatchItem>)
    requires Refusal(env, items).None?
    ensures forall k :: 0 <= k < |Accepted(items)| ==> Accepted(items)[k].tenantId == Accepted(items)[0].tenantId
  {
    AcceptedAreAllowed(items);
    forall k | 0 <= k < |Accepted(items)| ensures Accepted(items)[k].tenantId == items[0].tenantId {
      assert Accepted(items)[k] in items;
    }
  }

  lemma ConsolidatedWrote(env: Env, z: Zone8, items: seq<ArchiveBatchItem>, now: real, put: Put, manifestUp: bool)
    ensures var (z', outcome) := Consolidated(env, z, items, now, put, manifestUp);
            outcome.Done? && outcome.written != [] ==> Wrote(env, z, Accepted(items), now, put, z', outcome.written)
  {
    if Refusal(env, items).None? {
      UniformTenant(env, items);
      WriteBatchWrote(env, z, Accepted(items), Rejected(items), now, put, manifestUp);
    }
  }

  /** The `k`-th written row: found under its key, with a range that holds its payload in the merge. */
  lemma WrittenRow(env: Env, z: Zone8, accepted: seq<ArchiveBatchItem>, now: real, put: Put,
                   z': Zone8, written: seq<ManifestEntry>, k: nat)
    requires Wrote(env, z, accepted, now, put, z', written) && k < |written|
    ensures |written| == |accepted| && KeyOf(written[k]) == (accepted[k].tenantId, accepted[k].itemId)
    ensures KeyOf(written[k]) in z'.manifest && z'.manifest[KeyOf(written[k])] == written[k]
    ensures written[k].blobId == env.hash(Merged(accepted)) && written[k].blobId in z'.blobs
    ensures var range := written[k].byteRange;
            range.start < range.end <= |Merged(accepted)|
            && Merged(accepted)[range.start..range.end] == accepted[k].payload
  {
    InsertAddsRow(z.manifest, written, k);
    forall j | k < j < |accepted| ensures accepted[j].itemId != accepted[k].itemId {
      InsertedDiffer(z.manifest, written, k, j);
      assert accepted[j].tenantId == accepted[k].tenantId;
    }
    MergeSlices(accepted, k);
  }

  lemma SliceOfPrefix(whole: Bytes, part: Bytes, range: ByteRange)
    requires part <= whole && range.start < range.end <= |whole|
    ensures Slice(part, range) == whole[range.start..range.end] <==> range.end <= |part|
  {
    if range.end <= |part| {
      assert part[range.start..range.end] == whole[range.start..range.end];
    } else {
      assert |Slice(part, range)| < range.end - range.start;
    }
  }

  /** The blob that the accepted items merge into is not stored yet, or what is stored under its id is
      long enough for the `k`-th of them. Only a blob torn by an earlier failed write is too short. */
  ghost predicate Fits(env: Env, z: Zone8, accepted: seq<ArchiveBatchItem>, k: nat)
    requires k < |accepted|
  {
    var blobId := env.hash(Merged(accepted));
    blobId in z.blobs ==> Ranges(accepted)[accepted[k].itemId].end <= |z.blobs[blobId]|
  }

  /** A written row lies within its blob exactly when its item fitted before the batch. */
  lemma WrittenRowCoveredIff(env: Env, z: Zone8, accepted: seq<ArchiveBatchItem>, now: real, put: Put,
                             z': Zone8, written: seq<ManifestEntry>, k: nat)
    requires Wrote(env, z, accepted, now, put, z', written) && k < |written|
    ensures |written| == |accepted|
    ensures Covered(z', written[k]) <==> Fits(env, z, accepted, k)
  {
    WrittenRow(env, z, accepted, now, put, z', written, k);
  }

  /** Right after it is written an item reads back as its own payload exactly when it fitted: a question
      about the store before the batch. */
  lemma {:induction false} ReadsBackIffFits(env: Env, z: Zone8, items: seq<ArchiveBatchItem>, now: real, put: Put,
                                            manifestUp: bool, payloads: set<Bytes>, k: nat)
    requires BlobsFrom(env, z, payloads) && CollisionFree(env.hash, payloads + {Merged(Accepted(items))})
    requires var outcome := Consolidated(env, z, items, now, put, manifestUp).1;
             outcome.Done? && k < |outcome.written|
    ensures var z' := Consolidated(env, z, items, now, put, manifestUp).0;
            && k < |Accepted(items)|
            && ReadBlobRange(z', Accepted(items)[k].tenantId, Accepted(items)[k].itemId).Read?
            && (ReadBlobRange(z', Accepted(items)[k].tenantId, Accepted(items)[k].itemId) == Read(Accepted(items)[k].payload)
                <==> Fits(env, z, Accepted(items), k))
  {
    var (z', outcome) := Consolidated(env, z, items, now, put, manifestUp);
    ConsolidatedWrote(env, z, items, now, put, manifestUp);
    StoredReadsBackIffFits(env, z, Accepted(items), now, put, payloads, z', outcome.written, k);
  }

  lemma {:induction false} StoredReadsBackIffFits(env: Env, z: Zone8, accepted: seq<ArchiveBatchItem>, now: real, put: Put,
                               payloads: set<Bytes>, z': Zone8, written: seq<ManifestEntry>, k: nat)
    requires BlobsFrom(env, z, payloads) && CollisionFree(env.hash, payloads + {Merged(accepted)})
    requires Wrote(env, z, accepted, now, put, z', written) && k < |written|
    ensures |written| == |accepted|
    ensures ReadBlobRange(z', accepted[k].tenantId, accepted[k].itemId).Read?
    ensures ReadBlobRange(z', accepted[k].tenantId, accepted[k].itemId) == Read(accepted[k].payload)
       <==> Fits(env, z, accepted, k)
  {
    var whole, e := Merged(accepted), written[k];
    WrittenRow(env, z, accepted, now, put, z', written, k);
    WrittenRowCoveredIff(env, z, accepted, now, put, z', written, k);
    if e.blobId in z.blobs {
      var p :| p in payloads && env.hash(p) == e.blobId && z.blobs[e.blobId] <= p;
      assert p == whole;
    }
    SliceOfPrefix(whole, z'.blobs[e.blobId], e.byteRange);
  }

  // ---------------------------------------------------------------- when a batch is written

  /** None of the rows' keys is taken, and no two rows share one. */
  ghost predicate Fresh(manifest: map<(string, string), ManifestEntry>, entries: seq<ManifestEntry>) {
    && (forall k :: 0 <= k < |entries| ==> KeyOf(entries[k]) !in manifest)
    && (forall j, k :: 0 <= j < k < |entries| ==> KeyOf(entries[j]) != KeyOf(entries[k]))
  }

  lemma {:induction false} InsertSucceedsIff(manifest: map<(string, string), ManifestEntry>, entries: seq<ManifestEntry>)
    ensures InsertBatch(manifest, entries).Some? <==> Fresh(manifest, entries)
  {
    if entries != [] {
      var init, last := entries[..|entries| - 1], entries[|entries| - 1];
      InsertSucceedsIff(manifest, init);
      if InsertBatch(manifest, init).Some? {
        KeyInInsertedIff(manifest, init, KeyOf(last));
      }
    }
  }

  lemma KeyInInsertedIff(manifest: map<(string, string), ManifestEntry>, entries: seq<ManifestEntry>, key: (string, string))
    requires InsertBatch(manifest, entries).Some?
    ensures key in InsertBatch(manifest, entries).value
       <==> key in manifest || exists k :: 0 <= k < |entries| && KeyOf(entries[k]) == key
  {
    if key in manifest {
      InsertKeepsRows(manifest, entries, key);
    } else if k :| 0 <= k < |entries| && KeyOf(entries[k]) == key {
      InsertAddsRow(manifest, entries, k);
    } else if key in InsertBatch(manifest, entries).value {
      InsertAddsNoOther(manifest, entries, key);
    }
  }

  /** No two of the items share their id, and none has been archived for its tenant before. */
  ghost predicate NewItems(z: Zone8, items: seq<ArchiveBatchItem>) {
    && (forall k :: 0 <= k < |items| ==> (items[k].tenantId, items[k].itemId) !in z.manifest)
    && (forall j, k :: 0 <= j < k < |items| ==> items[j].itemId != items[k].itemId)
  }

  predicate PutSucceeds(z: Zone8, blobId: string, put: Put) {
    put.Stored? || (put.Torn? && blobId in z.blobs)
  }

  /** What it takes for a batch to be written, asked before the batch. */
  ghost predicate WillWrite(env: Env, z: Zone8, items: seq<ArchiveBatchItem>, put: Put, manifestUp: bool) {
    var accepted := Accepted(items);
    && Refusal(env, items).None? && accepted != [] && PutSucceeds(z, env.hash(Merged(accepted)), put)
    && manifestUp && NewItems(z, accepted)
  }

  /** A batch writes rows exactly when it is not refused, accepts something, its put succeeds, the manifest
      answers, and its items are new; and then it writes one for every accepted item. */
  lemma BatchWritesIff(env: Env, z: Zone8, items: seq<ArchiveBatchItem>, now: real, put: Put, manifestUp: bool)
    ensures var (z', outcome) := Consolidated(env, z, items, now, put, manifestUp);
            if WillWrite(env, z, items, put, manifestUp) then outcome.Done? && |outcome.written| == |Accepted(items)|
            else z'.manifest == z.manifest && (outcome.Done? ==> outcome.written == [] && outcome.deferred == Ids(Accepted(items)))
  {
    if Refusal(env, items).None? {
      UniformTenant(env, items);
      WriteBatchWritesIff(env, z, Accepted(items), Rejected(items), now, put, manifestUp);
    }
  }

  lemma {:induction false} WriteBatchWritesIff(env: Env, z: Zone8, accepted: seq<ArchiveBatchItem>, rejected: seq<string>, now: real,
                            put: Put, manifestUp: bool)
    requires forall k :: 0 <= k < |accepted| ==> accepted[k].tenantId == accepted[0].tenantId
    ensures var (z', outcome) := WriteBatch(env, z, accepted, rejected, now, put, manifestUp);
            if accepted != [] && PutSucceeds(z, env.hash(Merged(accepted)), put) && manifestUp && NewItems(z, accepted)
            then outcome.Done? && |outcome.written| == |accepted|
            else z'.manifest == z.manifest && (outcome.Done? ==> outcome.written == [] && outcome.deferred == Ids(accepted))
  {
    if accepted != [] {
      var blobId := env.hash(Merged(accepted));
      EntriesFreshIff(z, accepted, blobId, now);
      InsertSucceedsIff(z.manifest, Entries(accepted, blobId, now));
      assert PutIfAbsent(z, blobId, Merged(accepted), put).1 == PutSucceeds(z, blobId, put);
    }
  }

  lemma EntriesFreshIff(z: Zone8, items: seq<ArchiveBatchItem>, blobId: string, now: real)
    requires forall k :: 0 <= k < |items| ==> items[k].tenantId == items[0].tenantId
    ensures Fresh(z.manifest, Entries(items, blobId, now)) <==> NewItems(z, items)
  {
    var entries := Entries(items, blobId, now);
    assert forall k :: 0 <= k < |items| ==> KeyOf(entries[k]) == (items[k].tenantId, items[k].itemId);
  }

  /** The four zones whose items may be archived. */
  ghost predicate Archivable(zone: Zone) {
    zone == Episodic || zone == Semantic || zone == Procedural || zone == Entity
  }

  lemma {:induction false} AcceptedIff(items: seq<ArchiveBatchItem>, k: nat)
    requires k < |items|
    ensures Archivable(items[k].sourceZone) ==> items[k] in Accepted(items)
    ensures !Archivable(items[k].sourceZone) ==> items[k].itemId in Rejected(items)
  {
    if k < |items| - 1 {
      AcceptedIff(items[..|items| - 1], k);
    }
  }

  lemma {:induction false} WroteRow(env: Env, z: Zone8, accepted: seq<ArchiveBatchItem>, now: real, put: Put, z': Zone8,
                                    written: seq<ManifestEntry>, i: ArchiveBatchItem)
    requires Wrote(env, z, accepted, now, put, z', written) && i in accepted
    ensures (i.tenantId, i.itemId) in z'.manifest
    ensures var row := z'.manifest[(i.tenantId, i.itemId)];
            row == ManifestEntry(i.tenantId, i.itemId, env.hash(Merged(accepted)), row.byteRange, 0, i.sourceZone, now, i.subjectId)
  {
    var j :| 0 <= j < |accepted| && accepted[j] == i;
    WrittenRow(env, z, accepted, now, put, z', written, j);
  }

  lemma {:induction false} WroteNoOther(env: Env, z: Zone8, accepted: seq<ArchiveBatchItem>, now: real, put: Put, z': Zone8,
                                        written: seq<ManifestEntry>, key: (string, string))
    requires Wrote(env, z, accepted, now, put, z', written) && key in z'.manifest && key !in z.manifest
    ensures z'.manifest[key].blobId == env.hash(Merged(accepted))
  {
    InsertAddsNoOther(z.manifest, written, key);
    var j :| 0 <= j < |written| && KeyOf(written[j]) == key;
    WrittenRow(env, z, accepted, now, put, z', written, j);
  }

  lemma {:induction false} WroteBlob(env: Env, z: Zone8, accepted: seq<ArchiveBatchItem>, now: real, put: Put, z': Zone8,
                                     written: seq<ManifestEntry>)
    requires Wrote(env, z, accepted, now, put, z', written)
    ensures var blobId := env.hash(Merged(accepted));
            z'.blobs == if blobId in z.blobs then z.blobs else z.blobs[blobId := Merged(accepted)]
  {
    assert PutIfAbsent(z, env.hash(Merged(accepted)), Merged(accepted), put).0.blobs == z'.blobs;
  }

  /** A batch that writes leaves, for every archivable item, one row that repeats the item, names the blob of the
      merged payloads by its hash, and starts at compression generation zero; it rejects the other items, and
      touches no other row and no other blob. */
  lemma WrittenBatchLeaves(env: Env, z: Zone8, items: seq<ArchiveBatchItem>, now: real, put: Put, manifestUp: bool, k: nat)
    requires k < |items|
    requires var outcome := Consolidated(env, z, items, now, put, manifestUp).1; outcome.Done? && outcome.written != []
    ensures var (z', outcome) := Consolidated(env, z, items, now, put, manifestUp);
            var i, blobId := items[k], env.hash(Merged(Accepted(items)));
            && (if Archivable(i.sourceZone)
                then && (i.tenantId, i.itemId) in z'.manifest
                     && var row := z'.manifest[(i.tenantId, i.itemId)];
                        row == ManifestEntry(i.tenantId, i.itemId, blobId, row.byteRange, 0, i.sourceZone, now, i.subjectId)
                else i.itemId in outcome.rejected)
            && z'.blobs == (if blobId in z.blobs then z.blobs else z.blobs[blobId := Merged(Accepted(items))])
            && forall key :: key in z'.manifest ==> key in z.manifest || z'.manifest[key].blobId == blobId
  {
    var (z', outcome) := Consolidated(env, z, items, now, put, manifestUp);
    var accepted := Accepted(items);
    ConsolidatedWrote(env, z, items, now, put, manifestUp);
    ConsolidatedAllOrNothing(env, z, items, now, put, manifestUp);
    AcceptedIff(items, k);
    WroteBlob(env, z, accepted, now, put, z', outcome.written);
    if Archivable(items[k].sourceZone) {
      WroteRow(env, z, accepted, now, put, z', outcome.written, items[k]);
    }
    forall key | key in z'.manifest && key !in z.manifest ensures z'.manifest[key].blobId == env.hash(Merged(accepted)) {
      WroteNoOther(env, z, accepted, now, put, z', outcome.written, key);
    }
  }

  /** A batch raises exactly for items of two tenants, for a tenant without a bucket where that is checked, or,
      once its put succeeded, for a manifest that does not answer or an item that is not new. */
  lemma BatchRaisesIff(env: Env, z: Zone8, items: seq<ArchiveBatchItem>, now: real, put: Put, manifestUp: bool)
    ensures var outcome := Consolidated(env, z, items, now, put, manifestUp).1;
            var mixed := exists j, k :: 0 <= j < k < |items| && items[j].tenantId != items[k].tenantId;
            var unprovisioned := items != [] && env.provisioned.Some? && items[0].tenantId !in env.provisioned.value;
            var accepted := Accepted(items);
            && (outcome == Raised(CrossTenant) <==> mixed)
            && (outcome == Raised(Unprovisioned) <==> !mixed && unprovisioned)
            && (outcome == Raised(ManifestFailed) <==>
                  && !mixed && !unprovisioned && accepted != [] && PutSucceeds(z, env.hash(Merged(accepted)), put)
                  && (!manifestUp || !NewItems(z, accepted)))
            && (outcome.Raised? ==> outcome.error in {CrossTenant, Unprovisioned, ManifestFailed})
  {
    MixedIff(items);
    if Refusal(env, items).None? {
      UniformTenant(env, items);
      WriteBatchWritesIff(env, z, Accepted(items), Rejected(items), now, put, manifestUp);
      WriteBatchRaisesIff(env, z, Accepted(items), Rejected(items), now, put, manifestUp);
    }
  }

  lemma MixedIff(items: seq<ArchiveBatchItem>)
    ensures (exists j, k :: 0 <= j < k < |items| && items[j].tenantId != items[k].tenantId)
       <==> exists k :: 0 <= k < |items| && items[k].tenantId != items[0].tenantId
  {
    if k :| 0 <= k < |items| && items[k].tenantId != items[0].tenantId {
      assert 0 < k && items[0].tenantId != items[k].tenantId;
    }
  }

  lemma WriteBatchRaisesIff(env: Env, z: Zone8, accepted: seq<ArchiveBatchItem>, rejected: seq<string>, now: real,
                            put: Put, manifestUp: bool)
    requires forall k :: 0 <= k < |accepted| ==> accepted[k].tenantId == accepted[0].tenantId
    ensures var outcome := WriteBatch(env, z, accepted, rejected, now, put, manifestUp).1;
            && (outcome.Raised? ==> outcome.error == ManifestFailed)
            && (outcome.Raised? <==> accepted != [] && PutSucceeds(z, env.hash(Merged(accepted)), put)
                                     && (!manifestUp || !NewItems(z, accepted)))
  {
    if accepted != [] {
      var blobId := env.hash(Merged(accepted));
      EntriesFreshIff(z, accepted, blobId, now);
      InsertSucceedsIff(z.manifest, Entries(accepted, blobId, now));
    }
  }

  // ---------------------------------------------------------------- whole stores

  predicate Tears(put: Put) {
    put.Torn?
  }

  lemma PutKeepsPrefixes(env: Env, z: Zone8, payload: Bytes, put: Put, payloads: set<Bytes>)
    requires BlobsFrom(env, z, payloads)
    ensures BlobsFrom(env, PutIfAbsent(z, env.hash(payload), payload, put).0, payloads + {payload})
  {
    var z' := PutIfAbsent(z, env.hash(payload), payload, put).0;
    forall h | h in z'.blobs ensures exists p :: p in payloads + {payload} && env.hash(p) == h && z'.blobs[h] <= p {
      if h in z.blobs {
        var p :| p in payloads && env.hash(p) == h && z.blobs[h] <= p;
        assert p in payloads + {payload};
      } else {
        assert payload in payloads + {payload};
      }
    }
  }

  lemma BatchKeepsPrefixes(env: Env, z: Zone8, items: seq<ArchiveBatchItem>, now: real, put: Put, manifestUp: bool,
                           payloads: set<Bytes>)
    requires BlobsFrom(env, z, payloads)
    ensures BlobsFrom(env, Consolidated(env, z, items, now, put, manifestUp).0, payloads + {Merged(Accepted(items))})
  {
    PutKeepsPrefixes(env, z, Merged(Accepted(items)), put, payloads);
    PutKeepsPrefixes(env, z, Merged(Accepted(items)), Unreachable, payloads);
  }

  lemma PutKeepsWhole(env: Env, z: Zone8, payload: Bytes, put: Put, payloads: set<Bytes>)
    requires Whole(env, z, payloads) && !Tears(put)
    ensures Whole(env, PutIfAbsent(z, env.hash(payload), payload, put).0, payloads + {payload})
  {
  }

  lemma RowIsCovered(env: Env, z: Zone8, accepted: seq<ArchiveBatchItem>, now: real, put: Put, payloads: set<Bytes>,
                     z': Zone8, written: seq<ManifestEntry>, key: (string, string))
    requires Whole(env, z, payloads) && !Tears(put) && CollisionFree(env.hash, payloads + {Merged(accepted)})
    requires Wrote(env, z, accepted, now, put, z', written) && key in z'.manifest
    ensures Covered(z', z'.manifest[key])
  {
    InsertAddsNoOther(z.manifest, written, key);
    if key in z.manifest {
      InsertKeepsRows(z.manifest, written, key);
    } else {
      var k :| 0 <= k < |written| && KeyOf(written[k]) == key;
      WrittenRow(env, z, accepted, now, put, z', written, k);
      assert z'.blobs[env.hash(Merged(accepted))] == Merged(accepted);
    }
  }

  lemma WriteKeepsWhole(env: Env, z: Zone8, accepted: seq<ArchiveBatchItem>, now: real, put: Put, payloads: set<Bytes>,
                        z': Zone8, written: seq<ManifestEntry>)
    requires Whole(env, z, payloads) && !Tears(put) && CollisionFree(env.hash, payloads + {Merged(accepted)})
    requires Wrote(env, z, accepted, now, put, z', written)
    ensures Whole(env, z', payloads + {Merged(accepted)})
  {
    PutKeepsWhole(env, z, Merged(accepted), put, payloads);
    forall key | key in z'.manifest ensures Covered(z', z'.manifest[key]) {
      RowIsCovered(env, z, accepted, now, put, payloads, z', written, key);
    }
  }

  lemma BatchKeepsWhole(env: Env, z: Zone8, items: seq<ArchiveBatchItem>, now: real, put: Put, manifestUp: bool,
                        payloads: set<Bytes>)
    requires Whole(env, z, payloads) && !Tears(put)
    requires CollisionFree(env.hash, payloads + {Merged(Accepted(items))})
    ensures Whole(env, Consolidated(env, z, items, now, put, manifestUp).0, payloads + {Merged(Accepted(items))})
  {
    var (z', outcome) := Consolidated(env, z, items, now, put, manifestUp);
    PutKeepsWhole(env, z, Merged(Accepted(items)), put, payloads);
    if outcome.Done? && outcome.written != [] {
      ConsolidatedWrote(env, z, items, now, put, manifestUp);
      WriteKeepsWhole(env, z, Accepted(items), now, put, payloads, z', outcome.written);
    }
  }

  function WrittenIds(written: seq<ManifestEntry>): (ids: seq<string>)
    ensures |ids| == |written| && forall k :: 0 <= k < |written| ==> ids[k] == written[k].itemId
  {
    Mapped(written, (e: ManifestEntry) => e.itemId)
  }

  lemma IdsAppend(items: seq<ArchiveBatchItem>, last: ArchiveBatchItem)
    ensures multiset(Ids(items + [last])) == multiset(Ids(items)) + multiset{last.itemId}
  {
    assert Ids(items + [last]) == Ids(items) + [last.itemId];
  }

  lemma AcceptedAppend(items: seq<ArchiveBatchItem>)
    requires items != []
    ensures var init, last := items[..|items| - 1], items[|items| - 1];
            multiset(Ids(Accepted(items))) + multiset(Rejected(items))
            == multiset(Ids(Accepted(init))) + multiset(Rejected(init)) + multiset{last.itemId}
  {
    var init, last := items[..|items| - 1], items[|items| - 1];
    if AllowedSource(last.sourceZone) {
      assert Accepted(items) == Accepted(init) + [last] && Rejected(items) == Rejected(init);
      IdsAppend(Accepted(init), last);
    } else {
      assert Accepted(items) == Accepted(init) && Rejected(items) == Rejected(init) + [last.itemId];
      MultisetAppend(Rejected(init), last.itemId);
    }
  }

  lemma {:induction false} AcceptedOrRejected(items: seq<ArchiveBatchItem>)
    ensures multiset(Ids(items)) == multiset(Ids(Accepted(items))) + multiset(Rejected(items))
  {
    if items != [] {
      var init, last := items[..|items| - 1], items[|items| - 1];
      AcceptedOrRejected(init);
      assert items == init + [last];
      IdsAppend(init, last);
      AcceptedAppend(items);
    }
  }

  /** Either everything accepted is written, or everything accepted is deferred. */
  lemma WriteBatchIsAllOrNothing(env: Env, z: Zone8, accepted: seq<ArchiveBatchItem>, rejected: seq<string>, now: real,
                                 put: Put, manifestUp: bool)
    requires WriteBatch(env, z, accepted, rejected, now, put, manifestUp).1.Done?
    ensures var outcome := WriteBatch(env, z, accepted, rejected, now, put, manifestUp).1;
            && outcome.rejected == rejected
            && (|| (WrittenIds(outcome.written) == Ids(accepted) && outcome.deferred == [])
                || (outcome.written == [] && outcome.deferred == Ids(accepted)))
  {
    var blobId := env.hash(Merged(accepted));
    assert WrittenIds(Entries(accepted, blobId, now)) == Ids(accepted);
  }

  lemma ConsolidatedAllOrNothing(env: Env, z: Zone8, items: seq<ArchiveBatchItem>, now: real, put: Put, manifestUp: bool)
    requires Consolidated(env, z, items, now, put, manifestUp).1.Done?
    ensures var outcome := Consolidated(env, z, items, now, put, manifestUp).1;
            && outcome.rejected == Rejected(items)
            && (|| (WrittenIds(outcome.written) == Ids(Accepted(items)) && outcome.deferred == [])
                || (outcome.written == [] && outcome.deferred == Ids(Accepted(items))))
  {
    WriteBatchIsAllOrNothing(env, z, Accepted(items), Rejected(items), now, put, manifestUp);
  }

  /** A batch that comes back accounts for every item once: written, deferred or rejected; and items
      are deferred only all together, with nothing written. */
  lemma BatchAccountsForEveryItem(env: Env, z: Zone8, items: seq<ArchiveBatchItem>, now: real, put: Put, manifestUp: bool)
    requires Consolidated(env, z, items, now, put, manifestUp).1.Done?
    ensures var outcome := Consolidated(env, z, items, now, put, manifestUp).1;
            && multiset(Ids(items))
               == multiset(WrittenIds(outcome.written)) + multiset(outcome.deferred) + multiset(outcome.rejected)
            && (outcome.deferred != [] ==> outcome.written == [])
  {
    AcceptedOrRejected(items);
    WriteBatchIsAllOrNothing(env, z, Accepted(items), Rejected(items), now, put, manifestUp);
  }

  // ---------------------------------------------------------------- subject keys

  /** The key store's keys, how many keys it has ever generated, and the items indexed per subject. */
  datatype World = World(zone8: Zone8, keys: map<(string, string), nat>, minted: nat,
                         index: map<(string, string), seq<string>>)

  const EMPTY := World(Zone8(map[], map[]), map[], 0, map[])

  /** Generated keys never repeat, so a key is named by its number. */
  function KeyFor(keys: map<(string, string), nat>, minted: nat, owner: (string, string))
    : (map<(string, string), nat>, nat, nat)
  {
    if owner in keys then (keys, minted, keys[owner]) else (keys[owner := minted], minted + 1, minted)
  }

  function GetOrCreateKey(w: World, tenantId: string, subjectId: string): (World, nat) {
    var (keys, minted, key) := KeyFor(w.keys, w.minted, (tenantId, subjectId));
    (w.(keys := keys, minted := minted), key)
  }

  function AssociatedData(tenantId: string, itemId: string): string {
    tenantId + ":" + itemId
  }

  function SealedItem(env: Env, item: ArchiveBatchItem, subjectId: string, key: nat, nonce: nat): ArchiveBatchItem
    requires !Blank(subjectId)
  {
    Item(item.tenantId, item.itemId, item.sourceZone,
         env.cipher.seal(key, nonce, item.payload, AssociatedData(item.tenantId, item.itemId)), Some(subjectId))
  }

  function Indexed(index: map<(string, string), seq<string>>, key: (string, string), itemId: string)
    : map<(string, string), seq<string>>
  {
    var ids := if key in index then index[key] else [];
    index[key := if itemId in ids then ids else ids + [itemId]]
  }

  function ArchivedForSubject(env: Env, w: World, item: ArchiveBatchItem, subjectId: string, nonce: nat, now: real,
                              put: Put, manifestUp: bool): (World, Outcome)
  {
    if Blank(subjectId) then (w, Raised(BlankArgument))
    else
      var (keyed, key) := GetOrCreateKey(w, item.tenantId, subjectId);
      var (z, outcome) :=
        Consolidated(env, w.zone8, [SealedItem(env, item, subjectId, key, nonce)], now, put, manifestUp);
      (keyed.(zone8 := z,
              index := if outcome.Done? && outcome.written != []
                       then Indexed(w.index, (item.tenantId, subjectId), item.itemId) else w.index),
       outcome)
  }

  function ReadForSubject(env: Env, w: World, tenantId: string, itemId: string, subjectId: string): Result {
    if (tenantId, subjectId) !in w.keys then Failed(NoKey)
    else
      match ReadBlobRange(w.zone8, tenantId, itemId)
      case Failed(error) => Failed(error)
      case Read(sealed) =>
        match env.cipher.open(w.keys[(tenantId, subjectId)], sealed, AssociatedData(tenantId, itemId))
        case None => Failed(SealBroken)
        case Some(bytes) => Read(bytes)
  }

  /** The items reported as erased, or nothing when an argument is blank. */
  function SubjectErased(w: World, tenantId: string, subjectId: string): (World, Option<seq<string>>) {
    if Blank(tenantId) || Blank(subjectId) then (w, None)
    else
      (w.(keys := w.keys - {(tenantId, subjectId)}),
       Some(if (tenantId, subjectId) in w.index then w.index[(tenantId, subjectId)] else []))
  }

  lemma KeyForLeaves(w: World, tenantId: string, subjectId: string)
    ensures var owner, w' := (tenantId, subjectId), GetOrCreateKey(w, tenantId, subjectId).0;
            && w'.index == w.index
            && if owner in w.keys then w'.keys == w.keys && w'.minted == w.minted
               else w'.keys == w.keys[owner := w.minted] && w'.minted > w.minted
  {
  }

  lemma IndexedIs(index: map<(string, string), seq<string>>, owner: (string, string), itemId: string)
    ensures var before := if owner in index then index[owner] else [];
            Indexed(index, owner, itemId) == index[owner := if itemId in before then before else before + [itemId]]
  {
  }

  lemma IndexFollows(env: Env, w: World, item: ArchiveBatchItem, subjectId: string, nonce: nat, now: real, put: Put,
                     manifestUp: bool) returns (outcome: Outcome)
    requires !Blank(subjectId)
    ensures ArchivedForSubject(env, w, item, subjectId, nonce, now, put, manifestUp).1 == outcome
    ensures var keyed := GetOrCreateKey(w, item.tenantId, subjectId).0;
            var w' := ArchivedForSubject(env, w, item, subjectId, nonce, now, put, manifestUp).0;
            && w'.keys == keyed.keys && w'.minted == keyed.minted
            && w'.index == if outcome.Done? && outcome.written != []
                           then Indexed(w.index, (item.tenantId, subjectId), item.itemId) else w.index
  {
    outcome := ArchivedForSubject(env, w, item, subjectId, nonce, now, put, manifestUp).1;
  }

  /** Archiving for a subject: refused without one; otherwise a held key is used, or a new one handed out, and
      the item is added to its subject's index, once, exactly if a row was written for it. */
  lemma KeyedArchiveLeaves(env: Env, w: World, item: ArchiveBatchItem, subjectId: string, nonce: nat, now: real, put: Put,
                           manifestUp: bool)
    ensures var (w', outcome) := ArchivedForSubject(env, w, item, subjectId, nonce, now, put, manifestUp);
            var owner := (item.tenantId, subjectId);
            var before := if owner in w.index then w.index[owner] else [];
            if Blank(subjectId) then w' == w && outcome == Raised(BlankArgument)
            else
              && (if owner in w.keys then w'.keys == w.keys && w'.minted == w.minted
                  else w'.keys == w.keys[owner := w.minted] && w'.minted > w.minted)
              && w'.index == if outcome.Done? && outcome.written != []
                             then w.index[owner := if item.itemId in before then before else before + [item.itemId]]
                             else w.index
  {
    if !Blank(subjectId) {
      KeyForLeaves(w, item.tenantId, subjectId);
      IndexedIs(w.index, (item.tenantId, subjectId), item.itemId);
      var outcome := IndexFollows(env, w, item, subjectId, nonce, now, put, manifestUp);
    }
  }

  /** Erasing a subject: refused for blank arguments; otherwise its key goes, and nothing else. */
  lemma ErasureLeaves(w: World, tenantId: string, subjectId: string)
    ensures SubjectErased(w, tenantId, subjectId)
         == if Blank(tenantId) || Blank(subjectId) then (w, None)
            else (World(w.zone8, w.keys - {(tenantId, subjectId)}, w.minted, w.index),
                  Some(if (tenantId, subjectId) in w.index then w.index[(tenantId, subjectId)] else []))
  {
  }

  // ---------------------------------------------------------------- runs

  datatype Event =
    | Batch(items: seq<ArchiveBatchItem>, now: real, put: Put, manifestUp: bool)
    | Keyed(item: ArchiveBatchItem, subjectId: string, nonce: nat, now: real, put: Put, manifestUp: bool)
    | Erase(tenantId: string, subjectId: string)

  function Step(env: Env, w: World, e: Event): World {
    match e
    case Batch(items, now, put, manifestUp) =>
      w.(zone8 := Consolidated(env, w.zone8, items, now, put, manifestUp).0)
    case Keyed(item, subjectId, nonce, now, put, manifestUp) =>
      ArchivedForSubject(env, w, item, subjectId, nonce, now, put, manifestUp).0
    case Erase(tenantId, subjectId) => SubjectErased(w, tenantId, subjectId).0
  }

  function Run(env: Env, w: World, es: seq<Event>): World {
    if es == [] then w else Step(env, Run(env, w, es[..|es| - 1]), es[|es| - 1])
  }

  /** The items that an event hands to the store. */
  ghost function Submits(env: Env, w: World, e: Event): seq<ArchiveBatchItem> {
    match e
    case Batch(items, _, _, _) => items
    case Keyed(item, subjectId, nonce, _, _, _) =>
      if Blank(subjectId) then []
      else [SealedItem(env, item, subjectId, GetOrCreateKey(w, item.tenantId, subjectId).1, nonce)]
    case Erase(_, _) => []
  }

  /** Every merged payload that the run from `w` offers to the object store. */
  ghost function Payloads(env: Env, w: World, es: seq<Event>): set<Bytes> {
    if es == [] then {}
    else
      var init := es[..|es| - 1];
      Payloads(env, w, init) + {Merged(Accepted(Submits(env, Run(env, w, init), es[|es| - 1])))}
  }

  ghost predicate TornWrite(e: Event) {
    !e.Erase? && Tears(e.put)
  }

  /** No write in the run failed after creating its file. */
  ghost predicate NoTornWrite(es: seq<Event>) {
    forall k :: 0 <= k < |es| ==> !TornWrite(es[k])
  }

  /** Whatever an event does to Zone 8, it does by one batch of what it submits. */
  lemma StepIsOneBatch(env: Env, w: World, e: Event)
    ensures e.Erase? ==> Step(env, w, e).zone8 == w.zone8
    ensures !e.Erase? ==>
      Step(env, w, e).zone8 == Consolidated(env, w.zone8, Submits(env, w, e), e.now, e.put, e.manifestUp).0
  {
  }

  lemma StepGrows(env: Env, w: World, e: Event)
    ensures Grows(w.zone8, Step(env, w, e).zone8)
  {
    StepIsOneBatch(env, w, e);
    if !e.Erase? {
      ConsolidationGrows(env, w.zone8, Submits(env, w, e), e.now, e.put, e.manifestUp);
    }
  }

  lemma {:induction false} RunGrows(env: Env, w: World, es: seq<Event>)
    ensures Grows(w.zone8, Run(env, w, es).zone8)
  {
    if es != [] {
      RunGrows(env, w, es[..|es| - 1]);
      StepGrows(env, Run(env, w, es[..|es| - 1]), es[|es| - 1]);
    }
  }

  lemma WholeWidens(env: Env, z: Zone8, payloads: set<Bytes>, more: set<Bytes>)
    requires Whole(env, z, payloads) && payloads <= more
    ensures Whole(env, z, more)
  {
  }

  lemma {:induction false} RunIsWhole(env: Env, es: seq<Event>)
    requires NoTornWrite(es) && CollisionFree(env.hash, Payloads(env, EMPTY, es))
    ensures Whole(env, Run(env, EMPTY, es).zone8, Payloads(env, EMPTY, es))
  {
    if es != [] {
      var init, last := es[..|es| - 1], es[|es| - 1];
      RunIsWhole(env, init);
      var w := Run(env, EMPTY, init);
      StepIsOneBatch(env, w, last);
      if last.Erase? {
        WholeWidens(env, w.zone8, Payloads(env, EMPTY, init), Payloads(env, EMPTY, es));
      } else {
        assert !TornWrite(es[|es| - 1]);
        BatchKeepsWhole(env, w.zone8, Submits(env, w, last), last.now, last.put, last.manifestUp,
                        Payloads(env, EMPTY, init));
      }
    }
  }

  /** Torn writes included, every blob of a reachable store is the start of a payload offered under its id. */
  lemma {:induction false} RunBlobsFrom(env: Env, es: seq<Event>)
    ensures BlobsFrom(env, Run(env, EMPTY, es).zone8, Payloads(env, EMPTY, es))
  {
    if es != [] {
      var init, last := es[..|es| - 1], es[|es| - 1];
      RunBlobsFrom(env, init);
      var w := Run(env, EMPTY, init);
      StepIsOneBatch(env, w, last);
      if last.Erase? {
        BlobsFromWidens(env, w.zone8, Payloads(env, EMPTY, init), Payloads(env, EMPTY, es));
      } else {
        BatchKeepsPrefixes(env, w.zone8, Submits(env, w, last), last.now, last.put, last.manifestUp,
                           Payloads(env, EMPTY, init));
      }
    }
  }

  lemma BlobsFromWidens(env: Env, z: Zone8, payloads: set<Bytes>, more: set<Bytes>)
    requires BlobsFrom(env, z, payloads) && payloads <= more
    ensures BlobsFrom(env, z, more)
  {
    forall h | h in z.blobs ensures exists p :: p in more && env.hash(p) == h && z.blobs[h] <= p {
      var p :| p in payloads && env.hash(p) == h && z.blobs[h] <= p;
      assert p in more;
    }
  }

  /** What the event's batch answered; an erasure submits none. */
  ghost function Answer(env: Env, w: World, e: Event): Outcome {
    if e.Erase? then Done([], [], []) else Consolidated(env, w.zone8, Submits(env, w, e), e.now, e.put, e.manifestUp).1
  }

  /** Every item that the event wrote had room in the store it found. */
  ghost predicate WritesFit(env: Env, w: World, e: Event) {
    var accepted := Accepted(Submits(env, w, e));
    Answer(env, w, e).Done? && Answer(env, w, e).written != [] ==> forall k :: 0 <= k < |accepted| ==> Fits(env, w.zone8, accepted, k)
  }

  ghost predicate EveryWriteFits(env: Env, es: seq<Event>) {
    if es == [] then true
    else
      var init, last := es[..|es| - 1], es[|es| - 1];
      EveryWriteFits(env, init) && WritesFit(env, Run(env, EMPTY, init), last)
  }

  /** Every row names a stored blob and a range that is not empty. */
  ghost predicate RowsHaveBlobs(z: Zone8) {
    forall key :: key in z.manifest ==>
      z.manifest[key].blobId in z.blobs && z.manifest[key].byteRange.start < z.manifest[key].byteRange.end
  }

  ghost predicate RowsCovered(z: Zone8) {
    forall key :: key in z.manifest ==> Covered(z, z.manifest[key])
  }

  lemma WriteRowsCoveredIff(env: Env, z: Zone8, accepted: seq<ArchiveBatchItem>, now: real, put: Put,
                            z': Zone8, written: seq<ManifestEntry>)
    requires RowsHaveBlobs(z) && Grows(z, z') && Wrote(env, z, accepted, now, put, z', written)
    ensures RowsHaveBlobs(z')
    ensures RowsCovered(z')
       <==> RowsCovered(z) && forall k :: 0 <= k < |accepted| ==> Fits(env, z, accepted, k)
  {
    forall k | 0 <= k < |accepted|
      ensures KeyOf(written[k]) in z'.manifest && z'.manifest[KeyOf(written[k])] == written[k]
      ensures written[k].blobId in z'.blobs && written[k].byteRange.start < written[k].byteRange.end
      ensures Covered(z', written[k]) <==> Fits(env, z, accepted, k)
    {
      WrittenRow(env, z, accepted, now, put, z', written, k);
      WrittenRowCoveredIff(env, z, accepted, now, put, z', written, k);
    }
    forall key | key in z'.manifest && key !in z.manifest
      ensures exists k :: 0 <= k < |accepted| && z'.manifest[key] == written[k]
    {
      InsertAddsNoOther(z.manifest, written, key);
    }
    OldRowsStay(z, z');
  }

  lemma OldRowsStay(z: Zone8, z': Zone8)
    requires RowsHaveBlobs(z) && Grows(z, z')
    ensures forall key :: key in z.manifest ==>
              && key in z'.manifest && z'.manifest[key].blobId in z'.blobs
              && (Covered(z', z'.manifest[key]) <==> Covered(z, z.manifest[key]))
  {
  }

  lemma StepRowsCoveredIff(env: Env, w: World, e: Event)
    requires RowsHaveBlobs(w.zone8)
    ensures RowsHaveBlobs(Step(env, w, e).zone8)
    ensures RowsCovered(Step(env, w, e).zone8) <==> RowsCovered(w.zone8) && WritesFit(env, w, e)
  {
    StepIsOneBatch(env, w, e);
    StepGrows(env, w, e);
    if !e.Erase? {
      var items, z' := Submits(env, w, e), Step(env, w, e).zone8;
      var outcome := Answer(env, w, e);
      BatchWritesIff(env, w.zone8, items, e.now, e.put, e.manifestUp);
      if outcome.Done? && outcome.written != [] {
        ConsolidatedWrote(env, w.zone8, items, e.now, e.put, e.manifestUp);
        WriteRowsCoveredIff(env, w.zone8, Accepted(items), e.now, e.put, z', outcome.written);
      } else {
        OldRowsStay(w.zone8, z');
      }
    }
  }

  /** In any run, torn writes and collisions included, every manifest row points inside a stored blob if
      and only if every batch that wrote rows found its blob absent or long enough. */
  lemma {:induction false} RowsPointInsideBlobsIff(env: Env, es: seq<Event>)
    ensures var z := Run(env, EMPTY, es).zone8;
            RowsHaveBlobs(z) && (RowsCovered(z) <==> EveryWriteFits(env, es))
  {
    if es != [] {
      RowsPointInsideBlobsIff(env, es[..|es| - 1]);
      StepRowsCoveredIff(env, Run(env, EMPTY, es[..|es| - 1]), es[|es| - 1]);
    }
  }

  /** In every state reached without a torn write, every manifest row points inside a stored blob. */
  lemma RowsPointInsideBlobs(env: Env, es: seq<Event>, tenantId: string, itemId: string)
    requires NoTornWrite(es) && CollisionFree(env.hash, Payloads(env, EMPTY, es))
    ensures var z := Run(env, EMPTY, es).zone8;
            (tenantId, itemId) in z.manifest ==> Covered(z, z.manifest[(tenantId, itemId)])
  {
    RunIsWhole(env, es);
  }

  /** A row that is covered reads the same after any further run. */
  lemma ReadsStay(env: Env, w: World, es: seq<Event>, tenantId: string, itemId: string)
    requires ReadBlobRange(w.zone8, tenantId, itemId).Read?
    ensures ReadBlobRange(Run(env, w, es).zone8, tenantId, itemId) == ReadBlobRange(w.zone8, tenantId, itemId)
  {
    RunGrows(env, w, es);
  }

  /** Over any run, torn writes included: an item that an event wrote reads back as exactly what was
      submitted, whatever happens afterwards, if and only if the store had room for it at the time. */
  lemma ArchivedItemReadsBackIff(env: Env, before: seq<Event>, e: Event, after: seq<Event>, k: nat)
    requires var w := Run(env, EMPTY, before);
             && Answer(env, w, e).Done? && k < |Answer(env, w, e).written|
             && CollisionFree(env.hash, Payloads(env, EMPTY, before) + {Merged(Accepted(Submits(env, w, e)))})
    ensures var w := Run(env, EMPTY, before);
            var accepted := Accepted(Submits(env, w, e));
            var z := Run(env, Step(env, w, e), after).zone8;
            && k < |accepted|
            && (ReadBlobRange(z, accepted[k].tenantId, accepted[k].itemId) == Read(accepted[k].payload)
                <==> Fits(env, w.zone8, accepted, k))
  {
    var w := Run(env, EMPTY, before);
    var items := Submits(env, w, e);
    RunBlobsFrom(env, before);
    StepIsOneBatch(env, w, e);
    ReadsBackIffFits(env, w.zone8, items, e.now, e.put, e.manifestUp, Payloads(env, EMPTY, before), k);
    ReadsStay(env, Step(env, w, e), after, Accepted(items)[k].tenantId, Accepted(items)[k].itemId);
  }

  /** In a store no write has torn there is always room. */
  lemma WholeFits(env: Env, z: Zone8, accepted: seq<ArchiveBatchItem>, payloads: set<Bytes>, k: nat)
    requires Whole(env, z, payloads) && CollisionFree(env.hash, payloads + {Merged(accepted)})
    requires k < |accepted| && forall j :: k < j < |accepted| ==> accepted[j].itemId != accepted[k].itemId
    ensures Fits(env, z, accepted, k)
  {
    MergeSlices(accepted, k);
  }

  /** So over any run whose writes are never torn, every item that a batch wrote reads back as exactly its
      payload, whatever happens afterwards. */
  lemma ArchivedItemReadsBack(env: Env, before: seq<Event>, e: Event, after: seq<Event>, k: nat)
    requires NoTornWrite(before)
    requires var w := Run(env, EMPTY, before);
             && Answer(env, w, e).Done? && k < |Answer(env, w, e).written|
             && CollisionFree(env.hash, Payloads(env, EMPTY, before) + {Merged(Accepted(Submits(env, w, e)))})
    ensures var w := Run(env, EMPTY, before);
            var accepted := Accepted(Submits(env, w, e));
            var z := Run(env, Step(env, w, e), after).zone8;
            k < |accepted| && ReadBlobRange(z, accepted[k].tenantId, accepted[k].itemId) == Read(accepted[k].payload)
  {
    var w := Run(env, EMPTY, before);
    var items := Submits(env, w, e);
    RunIsWhole(env, before);
    BatchWritesIff(env, w.zone8, items, e.now, e.put, e.manifestUp);
    WholeFits(env, w.zone8, Accepted(items), Payloads(env, EMPTY, before), k);
    ArchivedItemReadsBackIff(env, before, e, after, k);
  }

  /** Every row names a tenant, an item and, if any, a subject, and has at least one byte. */
  ghost predicate RowsAreNamed(z: Zone8) {
    forall key :: key in z.manifest ==>
      var e := z.manifest[key];
      && key == (e.tenantId, e.itemId) && !Blank(e.tenantId) && !Blank(e.itemId)
      && (e.subjectId.Some? ==> !Blank(e.subjectId.value)) && e.byteRange.start < e.byteRange.end
  }

  lemma BatchKeepsNamed(env: Env, z: Zone8, items: seq<ArchiveBatchItem>, now: real, put: Put, manifestUp: bool)
    requires RowsAreNamed(z)
    ensures RowsAreNamed(Consolidated(env, z, items, now, put, manifestUp).0)
  {
    var (z', outcome) := Consolidated(env, z, items, now, put, manifestUp);
    BatchWritesIff(env, z, items, now, put, manifestUp);
    if outcome.Done? && outcome.written != [] {
      ConsolidatedWrote(env, z, items, now, put, manifestUp);
      forall key | key in z'.manifest && key !in z.manifest
        ensures var e := z'.manifest[key];
                && key == (e.tenantId, e.itemId) && !Blank(e.tenantId) && !Blank(e.itemId)
                && (e.subjectId.Some? ==> !Blank(e.subjectId.value)) && e.byteRange.start < e.byteRange.end
      {
        InsertAddsNoOther(z.manifest, outcome.written, key);
        var k :| 0 <= k < |outcome.written| && KeyOf(outcome.written[k]) == key;
        WrittenRow(env, z, Accepted(items), now, put, z', outcome.written, k);
        WrittenIsNamed(Accepted(items), k);
      }
      forall key | key in z.manifest ensures key in z'.manifest && z'.manifest[key] == z.manifest[key] {
        ConsolidationGrows(env, z, items, now, put, manifestUp);
      }
    }
  }

  lemma WrittenIsNamed(accepted: seq<ArchiveBatchItem>, k: nat)
    requires k < |accepted|
    ensures !Blank(accepted[k].tenantId) && !Blank(accepted[k].itemId)
    ensures accepted[k].subjectId.Some? ==> !Blank(accepted[k].subjectId.value)
  {
  }

  /** In every reachable store every row is named; and a read fails exactly for a blank argument or an item
      without a row, with the answer that says so. */
  lemma {:induction false} ReadFailsIff(env: Env, es: seq<Event>, tenantId: string, itemId: string)
    ensures var z := Run(env, EMPTY, es).zone8;
            var result := ReadBlobRange(z, tenantId, itemId);
            && RowsAreNamed(z)
            && (if Blank(tenantId) || Blank(itemId) then result == Failed(BlankArgument)
                else if (tenantId, itemId) !in z.manifest then result == Failed(NeverArchived)
                else result.Read?)
  {
    RunIsNamed(env, es);
    RowsPointInsideBlobsIff(env, es);
  }

  lemma {:induction false} RunIsNamed(env: Env, es: seq<Event>)
    ensures RowsAreNamed(Run(env, EMPTY, es).zone8)
  {
    if es != [] {
      var init, e := es[..|es| - 1], es[|es| - 1];
      var w := Run(env, EMPTY, init);
      RunIsNamed(env, init);
      if !e.Erase? {
        StepIsOneBatch(env, w, e);
        BatchKeepsNamed(env, w.zone8, Submits(env, w, e), e.now, e.put, e.manifestUp);
      }
    }
  }

  // ---------------------------------------------------------------- shredding

  /** Ideal sealing, bound to its key and its associated data. */
  ghost predicate Lawful(cipher: Cipher) {
    && (forall key, nonce, payload, aad ::
          cipher.open(key, cipher.seal(key, nonce, payload, aad), aad) == Some(payload))
    && (forall key, nonce, payload, aad, key', aad' :: (key', aad') != (key, aad) ==>
          cipher.open(key', cipher.seal(key, nonce, payload, aad), aad') == None)
  }

  /** Live keys are all different, and all were generated. */
  ghost predicate KeyInv(w: World) {
    && (forall x :: x in w.keys ==> w.keys[x] < w.minted)
    && (forall x, y :: x in w.keys && y in w.keys && w.keys[x] == w.keys[y] ==> x == y)
  }

  ghost predicate Destroyed(w: World, key: nat) {
    key < w.minted && forall x :: x in w.keys ==> w.keys[x] != key
  }

  ghost predicate Holds(w: World, owner: (string, string), key: nat) {
    owner in w.keys && w.keys[owner] == key
  }

  /** Handing out a key keeps live keys different, revives no destroyed key, and moves no held one. */
  lemma KeyMinted(w: World, owner: (string, string), key: nat, tenantId: string, subjectId: string)
    requires KeyInv(w)
    ensures KeyInv(GetOrCreateKey(w, tenantId, subjectId).0)
    ensures Destroyed(w, key) ==> Destroyed(GetOrCreateKey(w, tenantId, subjectId).0, key)
    ensures Holds(w, owner, key) ==> Holds(GetOrCreateKey(w, tenantId, subjectId).0, owner, key)
  {
  }

  lemma KeyErased(w: World, owner: (string, string), key: nat, tenantId: string, subjectId: string)
    requires KeyInv(w)
    ensures KeyInv(SubjectErased(w, tenantId, subjectId).0)
    ensures Destroyed(w, key) ==> Destroyed(SubjectErased(w, tenantId, subjectId).0, key)
    ensures Holds(w, owner, key) && !Blank(owner.0) && !Blank(owner.1) ==>
      if owner == (tenantId, subjectId) then Destroyed(SubjectErased(w, tenantId, subjectId).0, key)
      else Holds(SubjectErased(w, tenantId, subjectId).0, owner, key)
  {
  }

  lemma StepKeys(env: Env, w: World, e: Event, owner: (string, string), key: nat)
    requires KeyInv(w)
    ensures KeyInv(Step(env, w, e))
    ensures Destroyed(w, key) ==> Destroyed(Step(env, w, e), key)
    ensures Holds(w, owner, key) && !Blank(owner.0) && !Blank(owner.1) ==>
      if e == Erase(owner.0, owner.1) then Destroyed(Step(env, w, e), key) else Holds(Step(env, w, e), owner, key)
  {
    match e
    case Batch(_, _, _, _) =>
    case Keyed(item, subjectId, _, _, _, _) => KeyMinted(w, owner, key, item.tenantId, subjectId);
    case Erase(tenantId, subjectId) => KeyErased(w, owner, key, tenantId, subjectId);
  }

  lemma {:induction false} RunKeys(env: Env, w: World, es: seq<Event>, owner: (string, string), key: nat)
    requires KeyInv(w) && Holds(w, owner, key) && !Blank(owner.0) && !Blank(owner.1)
    ensures KeyInv(Run(env, w, es))
    ensures if Erase(owner.0, owner.1) in es then Destroyed(Run(env, w, es), key) else Holds(Run(env, w, es), owner, key)
  {
    if es != [] {
      RunKeys(env, w, es[..|es| - 1], owner, key);
      StepKeys(env, Run(env, w, es[..|es| - 1]), es[|es| - 1], owner, key);
    }
  }

  lemma {:induction false} ReachableKeys(env: Env, es: seq<Event>)
    ensures KeyInv(Run(env, EMPTY, es))
  {
    if es != [] {
      ReachableKeys(env, es[..|es| - 1]);
      StepKeys(env, Run(env, EMPTY, es[..|es| - 1]), es[|es| - 1], ("", ""), 0);
    }
  }

  lemma SingleMerges(item: ArchiveBatchItem)
    requires AllowedSource(item.sourceZone)
    ensures Accepted([item]) == [item] && Merged([item]) == item.payload
  {
    assert [item][..0] == [];
  }

  /** A keyed archive that wrote its item: one batch of the sealed item, its key held, its id indexed. */
  lemma KeyedStep(env: Env, w: World, e: Event)
    requires e.Keyed?
    requires var outcome := ArchivedForSubject(env, w, e.item, e.subjectId, e.nonce, e.now, e.put, e.manifestUp).1;
             outcome.Done? && outcome.written != []
    ensures var w' := Step(env, w, e);
            var owner := (e.item.tenantId, e.subjectId);
            && !Blank(e.subjectId) && owner in w'.keys
            && Submits(env, w, e) == [SealedItem(env, e.item, e.subjectId, w'.keys[owner], e.nonce)]
            && Consolidated(env, w.zone8, Submits(env, w, e), e.now, e.put, e.manifestUp)
               == (w'.zone8, ArchivedForSubject(env, w, e.item, e.subjectId, e.nonce, e.now, e.put, e.manifestUp).1)
            && owner in w'.index && e.item.itemId in w'.index[owner]
  {
  }

  /** The event seals and writes its item, in a store that has room for it. */
  ghost predicate ArchivesKeyed(env: Env, before: seq<Event>, e: Event) {
    var w := Run(env, EMPTY, before);
    && e.Keyed?
    && Answer(env, w, e).Done? && Answer(env, w, e).written != []
    && Accepted(Submits(env, w, e)) != [] && Fits(env, w.zone8, Accepted(Submits(env, w, e)), 0)
    && CollisionFree(env.hash, Payloads(env, EMPTY, before) + {Merged(Accepted(Submits(env, w, e)))})
  }

  lemma KeyedSubmitsSealed(env: Env, w: World, e: Event)
    requires e.Keyed? && Answer(env, w, e).Done? && Answer(env, w, e).written != []
    ensures var owner := (e.item.tenantId, e.subjectId);
            && !Blank(e.subjectId) && owner in Step(env, w, e).keys
            && Accepted(Submits(env, w, e)) == [SealedItem(env, e.item, e.subjectId, Step(env, w, e).keys[owner], e.nonce)]
  {
    var items := Submits(env, w, e);
    BatchWritesIff(env, w.zone8, items, e.now, e.put, e.manifestUp);
    assert items[..0] == [];
  }

  /** From then on the sealed bytes stay readable, and the key is held until the subject is erased. */
  lemma KeyedStays(env: Env, before: seq<Event>, e: Event, after: seq<Event>) returns (key: nat)
    requires ArchivesKeyed(env, before, e)
    ensures var w := Run(env, Step(env, Run(env, EMPTY, before), e), after);
            var owner := (e.item.tenantId, e.subjectId);
            && !Blank(e.subjectId) && KeyInv(w)
            && ReadBlobRange(w.zone8, e.item.tenantId, e.item.itemId)
               == Read(SealedItem(env, e.item, e.subjectId, key, e.nonce).payload)
            && if Erase(e.item.tenantId, e.subjectId) in after then Destroyed(w, key) else Holds(w, owner, key)
  {
    var w := Run(env, EMPTY, before);
    var owner := (e.item.tenantId, e.subjectId);
    ReachableKeys(env, before);
    KeyedSubmitsSealed(env, w, e);
    ArchivedItemReadsBackIff(env, before, e, after, 0);
    StepKeys(env, w, e, owner, 0);
    var w' := Step(env, w, e);
    key := w'.keys[owner];
    RunKeys(env, w', after, owner, key);
  }

  lemma HeldKeyReads(env: Env, w: World, item: ArchiveBatchItem, subjectId: string, key: nat, nonce: nat)
    requires Lawful(env.cipher) && !Blank(subjectId) && Holds(w, (item.tenantId, subjectId), key)
    requires ReadBlobRange(w.zone8, item.tenantId, item.itemId) == Read(SealedItem(env, item, subjectId, key, nonce).payload)
    ensures ReadForSubject(env, w, item.tenantId, item.itemId, subjectId) == Read(item.payload)
  {
  }

  lemma OtherKeyFails(env: Env, w: World, item: ArchiveBatchItem, subjectId: string, key: nat, nonce: nat, reader: string)
    requires Lawful(env.cipher) && !Blank(subjectId)
    requires (item.tenantId, reader) in w.keys ==> w.keys[(item.tenantId, reader)] != key
    requires ReadBlobRange(w.zone8, item.tenantId, item.itemId) == Read(SealedItem(env, item, subjectId, key, nonce).payload)
    ensures ReadForSubject(env, w, item.tenantId, item.itemId, reader)
         == Failed(if (item.tenantId, reader) in w.keys then SealBroken else NoKey)
  {
    var aad := AssociatedData(item.tenantId, item.itemId);
    if (item.tenantId, reader) in w.keys {
      var other := w.keys[(item.tenantId, reader)];
      assert env.cipher.open(other, env.cipher.seal(key, nonce, item.payload, aad), aad) == None by {
        assert (other, aad) != (key, aad);
      }
    }
  }

  /** An item archived for a subject reads back as exactly its payload until that subject is erased;
      after that it never reads again, not even under a new key of the same subject. */
  lemma KeyedItemReadsUntilErased(env: Env, before: seq<Event>, e: Event, after: seq<Event>)
    requires Lawful(env.cipher) && ArchivesKeyed(env, before, e)
    ensures var w := Run(env, Step(env, Run(env, EMPTY, before), e), after);
            var result := ReadForSubject(env, w, e.item.tenantId, e.item.itemId, e.subjectId);
            result == if Erase(e.item.tenantId, e.subjectId) !in after then Read(e.item.payload)
                      else Failed(if (e.item.tenantId, e.subjectId) in w.keys then SealBroken else NoKey)
  {
    var key := KeyedStays(env, before, e, after);
    var w := Run(env, Step(env, Run(env, EMPTY, before), e), after);
    if Erase(e.item.tenantId, e.subjectId) in after {
      OtherKeyFails(env, w, e.item, e.subjectId, key, e.nonce, e.subjectId);
    } else {
      HeldKeyReads(env, w, e.item, e.subjectId, key, e.nonce);
    }
  }

  /** It never opens for another subject of its tenant. */
  lemma OnlyItsSubjectOpens(env: Env, before: seq<Event>, e: Event, after: seq<Event>, reader: string)
    requires Lawful(env.cipher) && ArchivesKeyed(env, before, e) && reader != e.subjectId
    ensures var w := Run(env, Step(env, Run(env, EMPTY, before), e), after);
            ReadForSubject(env, w, e.item.tenantId, e.item.itemId, reader)
            == Failed(if (e.item.tenantId, reader) in w.keys then SealBroken else NoKey)
  {
    var key := KeyedStays(env, before, e, after);
    var w := Run(env, Step(env, Run(env, EMPTY, before), e), after);
    OtherKeyFails(env, w, e.item, e.subjectId, key, e.nonce, reader);
  }

  lemma StepIndex(env: Env, w: World, e: Event, owner: (string, string), itemId: string)
    requires owner in w.index && itemId in w.index[owner]
    ensures owner in Step(env, w, e).index && itemId in Step(env, w, e).index[owner]
  {
  }

  lemma {:induction false} RunIndex(env: Env, w: World, es: seq<Event>, owner: (string, string), itemId: string)
    requires owner in w.index && itemId in w.index[owner]
    ensures owner in Run(env, w, es).index && itemId in Run(env, w, es).index[owner]
  {
    if es != [] {
      RunIndex(env, w, es[..|es| - 1], owner, itemId);
      StepIndex(env, Run(env, w, es[..|es| - 1]), es[|es| - 1], owner, itemId);
    }
  }

  /** The erasure's report names every item ever archived under the subject, once or erased before. */
  lemma ErasureReportsEveryItem(env: Env, w: World, e: Event, after: seq<Event>)
    requires e.Keyed?
    requires var outcome := ArchivedForSubject(env, w, e.item, e.subjectId, e.nonce, e.now, e.put, e.manifestUp).1;
             outcome.Done? && outcome.written != []
    ensures var report := SubjectErased(Run(env, Step(env, w, e), after), e.item.tenantId, e.subjectId).1;
            report.Some? && e.item.itemId in report.value
  {
    KeyedStep(env, w, e);
    RunIndex(env, Step(env, w, e), after, (e.item.tenantId, e.subjectId), e.item.itemId);
  }

  /** The associated data does not tell (tenant, item) pairs apart on its own; within a tenant it does,
      and across tenants the keys differ. */
  lemma SealOpensOnlyForItsOwner(env: Env, w: World, a: (string, string), b: (string, string), itemA: string, itemB: string,
                                 nonce: nat, payload: Bytes)
    requires Lawful(env.cipher) && KeyInv(w) && a in w.keys && b in w.keys
    ensures AssociatedData("a:b", "c") == AssociatedData("a", "b:c")
    ensures var sealed := env.cipher.seal(w.keys[a], nonce, payload, AssociatedData(a.0, itemA));
            env.cipher.open(w.keys[b], sealed, AssociatedData(b.0, itemB)).Some? <==> a == b && itemA == itemB
  {
    assert "a:b" + ":" + "c" == "a" + ":" + "b:c";
    var dataA, dataB := AssociatedData(a.0, itemA), AssociatedData(b.0, itemB);
    if a == b && dataA == dataB {
      assert itemA == dataA[|a.0| + 1..] == dataB[|b.0| + 1..] == itemB;
    }
    var sealed := env.cipher.seal(w.keys[a], nonce, payload, dataA);
    if (w.keys[b], dataB) == (w.keys[a], dataA) {
      assert env.cipher.open(w.keys[b], sealed, dataB) == Some(payload);
    } else {
      assert env.cipher.open(w.keys[b], sealed, dataB) == None;
    }
  }

  // ---------------------------------------------------------------- a torn write

  lemma SingleBatch(env: Env, z: Zone8, item: ArchiveBatchItem, now: real, put: Put)
    requires env.provisioned.None? && AllowedSource(item.sourceZone)
    ensures Consolidated(env, z, [item], now, put, true) == WriteBatch(env, z, [item], [], now, put, true)
    ensures Ids([item]) == [item.itemId] && Merged([item]) == item.payload
    ensures Entries([item], env.hash(item.payload), now)
         == [Entry(item, env.hash(item.payload), ByteRange(0, |item.payload|), now)]
  {
    SingleMerges(item);
    assert [item][..0] == [];
    assert Rejected([item]) == [];
  }

  lemma SingleInsert(e: ManifestEntry)
    ensures InsertBatch(map[], [e]) == Some(map[KeyOf(e) := e])
  {
    assert [e][..0] == [];
  }

  /** The local store counts an existing file as written. A write that failed half way leaves a short
      file behind, the retry succeeds without writing, and the row points past the end of the blob. */
  lemma TornBlobIsKept(env: Env, item: ArchiveBatchItem)
    requires env.provisioned.None? && AllowedSource(item.sourceZone) && |item.payload| > 1
    ensures var torn := Consolidated(env, Zone8(map[], map[]), [item], 0.0, Torn(1), true);
            var retried := Consolidated(env, torn.0, [item], 1.0, Stored, true);
            && torn.1 == Done([], [item.itemId], [])
            && retried.1.Done? && WrittenIds(retried.1.written) == [item.itemId]
            && !Covered(retried.0, retried.1.written[0])
            && ReadBlobRange(retried.0, item.tenantId, item.itemId) == Read(item.payload[..1])
  {
    var blobId := env.hash(item.payload);
    var z := Zone8(map[blobId := item.payload[..1]], map[]);
    var e := Entry(item, blobId, ByteRange(0, |item.payload|), 1.0);
    SingleBatch(env, Zone8(map[], map[]), item, 0.0, Torn(1));
    assert PutIfAbsent(Zone8(map[], map[]), blobId, item.payload, Torn(1)) == (z, false);
    SingleBatch(env, z, item, 1.0, Stored);
    assert PutIfAbsent(z, blobId, item.payload, Stored) == (z, true);
    SingleInsert(e);
    assert Consolidated(env, z, [item], 1.0, Stored, true) == (z.(manifest := map[KeyOf(e) := e]), Done([e], [], []));
    assert Slice(z.blobs[blobId], e.byteRange) == item.payload[..1];
  }

  // ---------------------------------------------------------------- sealing is possible

  ghost function Digits(n: nat): Bytes {
    if n == 0 then [1] else [0] + Digits(n - 1)
  }

  lemma {:induction false} DigitsDecode(m: nat, n: nat, x: Bytes, y: Bytes)
    requires Digits(m) + x == Digits(n) + y
    ensures m == n && x == y
  {
    assert (Digits(m) + x)[0] == (Digits(n) + y)[0];
    if m == 0 {
      assert x == (Digits(m) + x)[1..] == (Digits(n) + y)[1..] == y;
    } else {
      assert Digits(m - 1) + x == (Digits(m) + x)[1..] == (Digits(n) + y)[1..] == Digits(n - 1) + y;
      DigitsDecode(m - 1, n - 1, x, y);
    }
  }

  ghost function Envelope(key: nat, payload: Bytes, aad: string): SealedBytes {
    Digits(key) + (Digits(|Utf8(aad)|) + (Utf8(aad) + payload))
  }

  lemma EnvelopeDecodes(key: nat, payload: Bytes, aad: string, key': nat, payload': Bytes, aad': string)
    requires Envelope(key, payload, aad) == Envelope(key', payload', aad')
    ensures key == key' && payload == payload' && aad == aad'
  {
    var head, head' := Utf8(aad), Utf8(aad');
    var tail, tail' := head + payload, head' + payload';
    DigitsDecode(key, key', Digits(|head|) + tail, Digits(|head'|) + tail');
    DigitsDecode(|head|, |head'|, tail, tail');
    assert head == tail[..|head|] == tail'[..|head|] == head';
    assert payload == tail[|head|..] == tail'[|head|..] == payload';
    Utf8Reads(aad, aad');
  }

  ghost function OpenEnvelope(key: nat, sealed: Bytes, aad: string): Option<Bytes> {
    if exists payload :: sealed == Envelope(key, payload, aad)
    then var payload :| sealed == Envelope(key, payload, aad); Some(payload)
    else None
  }

  /** The law asks for nothing impossible: some cipher over bytes obeys it. */
  lemma SomeCipherIsLawful() returns (cipher: Cipher)
    ensures Lawful(cipher)
  {
    cipher := Cipher((key, nonce, payload, aad) => Envelope(key, payload, aad), OpenEnvelope);
    forall key, nonce: nat, payload, aad
      ensures cipher.open(key, cipher.seal(key, nonce, payload, aad), aad) == Some(payload)
    {
      var sealed := Envelope(key, payload, aad);
      var found :| sealed == Envelope(key, found, aad) && OpenEnvelope(key, sealed, aad) == Some(found);
      EnvelopeDecodes(key, payload, aad, key, found, aad);
    }
    forall key, nonce: nat, payload, aad, key', aad' | (key', aad') != (key, aad)
      ensures cipher.open(key', cipher.seal(key, nonce, payload, aad), aad') == None
    {
      var sealed := Envelope(key, payload, aad);
      if found :| sealed == Envelope(key', found, aad') {
        EnvelopeDecodes(key, payload, aad, key', found, aad');
      }
    }
  }

  // ---------------------------------------------------------------- the stores, in place

  lemma PrefixStep<T>(s: seq<T>, i: nat)
    requires i < |s|
    ensures s[..i + 1] != [] && s[..i + 1][..i] == s[..i] && s[..i + 1][i] == s[i]
  {
  }

  /** One file per blob. */
  class LocalObjectStore {
    var blobs: map<string, Bytes>

    constructor ()
      ensures blobs == map[]
    {
      blobs := map[];
    }

    method PutBlobIfAbsent(blobId: string, payload: Bytes, put: Put) returns (ok: bool)
      modifies this
      ensures (blobs, ok) == BlobPut(old(blobs), blobId, payload, put)
    {
      if put.Unreachable? {
        return false;
      }
      if blobId in blobs {
        return true;
      }
      blobs := blobs[blobId := if put.Torn? && put.kept < |payload| then payload[..put.kept] else payload];
      ok := put.Stored?;
    }
  }

  /** One row per (tenant, item); every batch is one transaction. */
  class ManifestRepository {
    var rows: map<(string, string), ManifestEntry>

    constructor ()
      ensures rows == map[]
    {
      rows := map[];
    }

    method InsertRows(entries: seq<ManifestEntry>, up: bool) returns (ok: bool)
      modifies this
      ensures ok == (up && InsertBatch(old(rows), entries).Some?)
      ensures rows == if ok then InsertBatch(old(rows), entries).value else old(rows)
    {
      if !up {
        return false;
      }
      var pending := rows;
      assert entries[..0] == [];
      for i := 0 to |entries|
        invariant InsertBatch(rows, entries[..i]) == Some(pending)
        invariant rows == old(rows)
      {
        PrefixStep(entries, i);
        if KeyOf(entries[i]) in pending {
          StaysRefused(rows, entries, i + 1);
          return false;
        }
        pending := pending[KeyOf(entries[i]) := entries[i]];
      }
      assert entries[..|entries|] == entries;
      rows := pending;
      ok := true;
    }
  }

  lemma StaysRefused(manifest: map<(string, string), ManifestEntry>, entries: seq<ManifestEntry>, i: nat)
    requires i <= |entries| && InsertBatch(manifest, entries[..i]).None?
    ensures InsertBatch(manifest, entries).None?
    decreases |entries| - i
  {
    if i == |entries| {
      assert entries[..i] == entries;
    } else {
      PrefixStep(entries, i);
      StaysRefused(manifest, entries, i + 1);
    }
  }

  class Zone8ConsolidationStore {
    const env: Env
    const objectStore: LocalObjectStore
    const manifest: ManifestRepository

    function Now(): Zone8
      reads objectStore, manifest
    {
      Zone8(objectStore.blobs, manifest.rows)
    }

    constructor (env: Env, objectStore: LocalObjectStore, manifest: ManifestRepository)
      ensures this.env == env && this.objectStore == objectStore && this.manifest == manifest
    {
      this.env, this.objectStore, this.manifest := env, objectStore, manifest;
    }

    method ConsolidateBatch(items: seq<ArchiveBatchItem>, now: real, put: Put, manifestUp: bool) returns (outcome: Outcome)
      modifies objectStore, manifest
      ensures (Now(), outcome) == Consolidated(env, old(Now()), items, now, put, manifestUp)
    {
      if items == [] {
        return Done([], [], []);
      }
      if exists k :: 0 <= k < |items| && items[k].tenantId != items[0].tenantId {
        return Raised(CrossTenant);
      }
      if env.provisioned.Some? && items[0].tenantId !in env.provisioned.value {
        return Raised(Unprovisioned);
      }
      var accepted, rejected := SplitBySource(items);
      assert Refusal(env, items) == None;
      if accepted == [] {
        return Done([], [], rejected);
      }
      var merged, ranges := MergePayloads(accepted);
      var blobId := env.hash(merged);
      var stored := objectStore.PutBlobIfAbsent(blobId, merged, put);
      if !stored {
        return Done([], Ids(accepted), rejected);
      }
      var entries := seq(|accepted|, (k: int) requires 0 <= k < |accepted| =>
        Entry(accepted[k], blobId, ranges[accepted[k].itemId], now));
      assert entries == Entries(accepted, blobId, now);
      var inserted := manifest.InsertRows(entries, manifestUp);
      outcome := if inserted then Done(entries, [], rejected) else Raised(ManifestFailed);
    }

    method SplitBySource(items: seq<ArchiveBatchItem>) returns (accepted: seq<ArchiveBatchItem>, rejected: seq<string>)
      ensures accepted == Accepted(items) && rejected == Rejected(items)
    {
      accepted, rejected := [], [];
      assert items[..0] == [];
      for i := 0 to |items|
        invariant accepted == Accepted(items[..i]) && rejected == Rejected(items[..i])
      {
        PrefixStep(items, i);
        if AllowedSource(items[i].sourceZone) {
          accepted := accepted + [items[i]];
        } else {
          rejected := rejected + [items[i].itemId];
        }
      }
      assert items[..|items|] == items;
    }

    method MergePayloads(items: seq<ArchiveBatchItem>) returns (merged: Bytes, ranges: map<string, ByteRange>)
      ensures merged == Merged(items) && ranges == Ranges(items)
    {
      merged, ranges := [], map[];
      assert items[..0] == [];
      for i := 0 to |items|
        invariant merged == Merged(items[..i]) && ranges == Ranges(items[..i])
      {
        PrefixStep(items, i);
        var start := |merged|;
        merged := merged + items[i].payload;
        ranges := ranges[items[i].itemId := ByteRange(start, |merged|)];
      }
      assert items[..|items|] == items;
    }

    method ReadRange(tenantId: string, itemId: string) returns (result: Result)
      ensures result == ReadBlobRange(Now(), tenantId, itemId)
    {
      if Blank(tenantId) || Blank(itemId) {
        return Failed(BlankArgument);
      }
      if (tenantId, itemId) !in manifest.rows {
        return Failed(NeverArchived);
      }
      var e := manifest.rows[(tenantId, itemId)];
      if e.blobId !in objectStore.blobs {
        return Failed(BlobMissing);
      }
      result := Read(Slice(objectStore.blobs[e.blobId], e.byteRange));
    }
  }

  class SubjectKeyStore {
    var keys: map<(string, string), nat>
    var minted: nat

    constructor ()
      ensures keys == map[] && minted == 0
    {
      keys, minted := map[], 0;
    }

    method GetOrCreate(tenantId: string, subjectId: string) returns (key: nat)
      modifies this
      ensures (keys, minted, key) == KeyFor(old(keys), old(minted), (tenantId, subjectId))
    {
      if (tenantId, subjectId) !in keys {
        keys := keys[(tenantId, subjectId) := minted];
        minted := minted + 1;
      }
      key := keys[(tenantId, subjectId)];
    }

    method Destroy(tenantId: string, subjectId: string) returns (existed: bool)
      modifies this
      ensures keys == old(keys) - {(tenantId, subjectId)} && minted == old(minted)
      ensures existed <==> (tenantId, subjectId) in old(keys)
    {
      existed := (tenantId, subjectId) in keys;
      keys := keys - {(tenantId, subjectId)};
    }
  }

  class SubjectIndex {
    var itemsBySubject: map<(string, string), seq<string>>

    constructor ()
      ensures itemsBySubject == map[]
    {
      itemsBySubject := map[];
    }

    method RecordItem(tenantId: string, subjectId: string, itemId: string)
      modifies this
      ensures itemsBySubject == Indexed(old(itemsBySubject), (tenantId, subjectId), itemId)
    {
      var ids := if (tenantId, subjectId) in itemsBySubject then itemsBySubject[(tenantId, subjectId)] else [];
      if itemId !in ids {
        ids := ids + [itemId];
      }
      itemsBySubject := itemsBySubject[(tenantId, subjectId) := ids];
    }
  }

  class SubjectKeyedArchiver {
    const store: Zone8ConsolidationStore
    const keyStore: SubjectKeyStore
    const subjectIndex: SubjectIndex

    function Now(): World
      reads store.objectStore, store.manifest, keyStore, subjectIndex
    {
      World(store.Now(), keyStore.keys, keyStore.minted, subjectIndex.itemsBySubject)
    }

    constructor (store: Zone8ConsolidationStore, keyStore: SubjectKeyStore, subjectIndex: SubjectIndex)
      ensures this.store == store && this.keyStore == keyStore && this.subjectIndex == subjectIndex
    {
      this.store, this.keyStore, this.subjectIndex := store, keyStore, subjectIndex;
    }

    method ArchiveForSubject(item: ArchiveBatchItem, subjectId: string, nonce: nat, now: real, put: Put, manifestUp: bool)
      returns (outcome: Outcome)
      modifies store.objectStore, store.manifest, keyStore, subjectIndex
      ensures (Now(), outcome)
           == ArchivedForSubject(store.env, old(Now()), item, subjectId, nonce, now, put, manifestUp)
    {
      if Blank(subjectId) {
        return Raised(BlankArgument);
      }
      var key := keyStore.GetOrCreate(item.tenantId, subjectId);
      assert (Now(), key) == GetOrCreateKey(old(Now()), item.tenantId, subjectId);
      ghost var keyed := Now();
      var sealed := SealedItem(store.env, item, subjectId, key, nonce);
      outcome := store.ConsolidateBatch([sealed], now, put, manifestUp);
      assert Now() == keyed.(zone8 := store.Now());
      ghost var zone8 := store.Now();
      if outcome.Done? && outcome.written != [] {
        subjectIndex.RecordItem(item.tenantId, subjectId, item.itemId);
      }
      assert store.Now() == zone8;
    }

    method ReadSubjectItem(tenantId: string, itemId: string, subjectId: string) returns (result: Result)
      ensures result == ReadForSubject(store.env, Now(), tenantId, itemId, subjectId)
    {
      if (tenantId, subjectId) !in keyStore.keys {
        return Failed(NoKey);
      }
      var sealed := store.ReadRange(tenantId, itemId);
      if sealed.Failed? {
        return sealed;
      }
      var bytes := store.env.cipher.open(keyStore.keys[(tenantId, subjectId)], sealed.bytes,
                                         AssociatedData(tenantId, itemId));
      result := if bytes.None? then Failed(SealBroken) else Read(bytes.value);
    }

    method EraseSubject(tenantId: string, subjectId: string) returns (erased: Option<seq<string>>)
      modifies keyStore
      ensures (Now(), erased) == SubjectErased(old(Now()), tenantId, subjectId)
    {
      if Blank(tenantId) || Blank(subjectId) {
        return None;
      }
      var items := if (tenantId, subjectId) in subjectIndex.itemsBySubject
                   then subjectIndex.itemsBySubject[(tenantId, subjectId)] else [];
      var existed := keyStore.Destroy(tenantId, subjectId);
      erased := Some(items);
    }
  }
}
