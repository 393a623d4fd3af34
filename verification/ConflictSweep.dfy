/** The conflict-detection sweep in front of the append-only provenance store: a write that does not name
    the item's latest active record as its predecessor is stored disputed, behind a disputed correction of
    the record it contradicts. */
module ConflictSweep {
  import opened Options
  import opened ProvenanceChain
  import opened Sequences
  import opened SourceTypes
  import opened Text

  type Record = ProvenanceRecord

  const SWEEP_ACTOR := "conflict-detection-sweep"

  /** The hash, and the order in which the store returns an item's records. */
  datatype Env = Env(hash: Bytes -> string, order: seq<Record> -> seq<Record>)

  datatype Outcome = Stored | RaisedError

  // ---------------------------------------------------------------- the decision

  function LatestActive(records: seq<Record>): Option<Record> {
    if records == [] then None
    else if !records[|records| - 1].invalidationFlag then Some(records[|records| - 1])
    else LatestActive(records[..|records| - 1])
  }

  /** The id of the record that an unacknowledged claim contradicts. */
  function DetectConflict(existing: seq<Record>, claimedPrev: Option<string>): Option<string> {
    match LatestActive(existing)
    case None => None
    case Some(active) => if claimedPrev == Some(active.provenanceId) then None else Some(active.provenanceId)
  }

  /** `latest_active_record`, by its backwards search. */
  method LatestActiveRecord(records: seq<Record>) returns (active: Option<Record>)
    ensures active == LatestActive(records)
    ensures active.None? <==> forall r :: r in records ==> r.invalidationFlag
    ensures active.Some? ==>
      exists k :: 0 <= k < |records| && records[k] == active.value && !active.value.invalidationFlag
        && forall j :: k < j < |records| ==> records[j].invalidationFlag
  {
    var i := |records|;
    assert records[..i] == records;
    while i > 0
      invariant 0 <= i <= |records|
      invariant LatestActive(records) == LatestActive(records[..i])
      invariant forall j :: i <= j < |records| ==> records[j].invalidationFlag
    {
      i := i - 1;
      assert records[..i + 1][..i] == records[..i];
      if !records[i].invalidationFlag {
        return Some(records[i]);
      }
    }
    active := None;
  }

  // ---------------------------------------------------------------- the store

  predicate Concerns(r: Record, tenantId: string, itemId: string) {
    r.tenantId == tenantId && r.itemId == itemId
  }

  function ItemRows(rows: seq<Record>, tenantId: string, itemId: string): seq<Record> {
    if rows == [] then []
    else
      ItemRows(rows[..|rows| - 1], tenantId, itemId)
      + (if Concerns(rows[|rows| - 1], tenantId, itemId) then [rows[|rows| - 1]] else [])
  }

  function Existing(env: Env, rows: seq<Record>, tenantId: string, itemId: string): seq<Record> {
    env.order(ItemRows(rows, tenantId, itemId))
  }

  /** The primary key and the unique hash. */
  predicate Insertable(rows: seq<Record>, r: Record) {
    forall k :: 0 <= k < |rows| ==>
      !(rows[k].tenantId == r.tenantId && rows[k].provenanceId == r.provenanceId) && rows[k].recordHash != r.recordHash
  }

  function Insert(rows: seq<Record>, r: Record, up: bool): (seq<Record>, Outcome) {
    if up && Insertable(rows, r) then (rows + [r], Stored) else (rows, RaisedError)
  }

  // ---------------------------------------------------------------- the sweep

  function FirstWithId(records: seq<Record>, id: string): Option<Record> {
    if records == [] then None
    else if records[0].provenanceId == id then Some(records[0])
    else FirstWithId(records[1..], id)
  }

  /** The disputed correction of the record that was contradicted, chained from it by id and hash. */
  function Correction(disputed: Record, incomingId: string, freshId: string, now: string): Draft {
    Draft(disputed.tenantId, freshId, disputed.itemId, disputed.sourceZone, disputed.sourceType, now, SWEEP_ACTOR,
          "flagged disputed (FR-013): unchained write " + incomingId, disputed.retrievalContextHash, disputed.sourceRefs,
          Some(disputed.provenanceId), Some(disputed.recordHash), Disputed, false, false, 0, [])
  }

  /** The incoming record created again as disputed. */
  function Downgrade(r: Record): Draft
    requires r.updateHistory != []
  {
    Draft(r.tenantId, r.provenanceId, r.itemId, r.sourceZone, r.sourceType, r.writeTimestamp, r.updateHistory[0].actor,
          r.updateHistory[0].change, r.retrievalContextHash, r.sourceRefs, r.updateHistory[0].prevProvenanceId,
          r.prevHash, Disputed, r.invalidationFlag, false, 0, [])
  }

  /** The correction first, then the claim; either may fail to be created or inserted. */
  function InsertPair(rows: seq<Record>, correction: Option<Record>, downgraded: Option<Record>, firstUp: bool,
                      secondUp: bool): (seq<Record>, Outcome)
  {
    match correction
    case None => (rows, RaisedError)
    case Some(c) =>
      var (corrected, first) := Insert(rows, c, firstUp);
      if first.RaisedError? then (corrected, RaisedError)
      else
        match downgraded
        case None => (corrected, RaisedError)
        case Some(d) => Insert(corrected, d, secondUp)
  }

  function StoreDisputed(env: Env, rows: seq<Record>, disputed: Record, record: Record, now: string, freshId: string,
                         firstUp: bool, secondUp: bool): (seq<Record>, Outcome)
    requires record.updateHistory != []
  {
    InsertPair(rows, Create(env.hash, Correction(disputed, record.provenanceId, freshId, now)),
               Create(env.hash, Downgrade(record)), firstUp, secondUp)
  }

  /** The record that `record` contradicts, if any. */
  function Contradicted(env: Env, rows: seq<Record>, record: Record): Option<Record>
    requires record.updateHistory != []
  {
    var existing := Existing(env, rows, record.tenantId, record.itemId);
    match DetectConflict(existing, record.updateHistory[0].prevProvenanceId)
    case None => None
    case Some(id) => FirstWithId(existing, id)
  }

  function Append(env: Env, rows: seq<Record>, record: Record, now: string, freshId: string, firstUp: bool, secondUp: bool)
    : (seq<Record>, Outcome)
    requires record.updateHistory != []
  {
    match Contradicted(env, rows, record)
    case None => Insert(rows, record, firstUp)
    case Some(disputed) => StoreDisputed(env, rows, disputed, record, now, freshId, firstUp, secondUp)
  }

  // ---------------------------------------------------------------- one append

  ghost predicate UniqueIds(rows: seq<Record>) {
    forall j, k :: 0 <= j < k < |rows| ==>
      !(rows[j].tenantId == rows[k].tenantId && rows[j].provenanceId == rows[k].provenanceId)
  }

  /** The store returns an item's records, in whatever order. */
  ghost predicate ReturnsItsRows(env: Env) {
    forall s, r :: r in env.order(s) <==> r in s
  }

  lemma {:induction false} ItemRowsAre(rows: seq<Record>, tenantId: string, itemId: string)
    ensures forall r :: r in ItemRows(rows, tenantId, itemId) <==> r in rows && Concerns(r, tenantId, itemId)
  {
    if rows != [] {
      var init, last := rows[..|rows| - 1], rows[|rows| - 1];
      ItemRowsAre(init, tenantId, itemId);
      assert rows == init + [last];
    }
  }

  lemma {:induction false} LatestActiveIsActive(records: seq<Record>)
    requires LatestActive(records).Some?
    ensures LatestActive(records).value in records && !LatestActive(records).value.invalidationFlag
  {
    if records[|records| - 1].invalidationFlag {
      LatestActiveIsActive(records[..|records| - 1]);
    }
  }

  lemma {:induction false} FirstWithIdFinds(records: seq<Record>, r: Record)
    requires r in records
    ensures FirstWithId(records, r.provenanceId).Some?
    ensures FirstWithId(records, r.provenanceId).value in records
         && FirstWithId(records, r.provenanceId).value.provenanceId == r.provenanceId
  {
    if records[0].provenanceId != r.provenanceId {
      assert r in records[1..] by {
        var k :| 0 <= k < |records| && records[k] == r;
        assert records[1..][k - 1] == r;
      }
      FirstWithIdFinds(records[1..], r);
    }
  }

  /** A write is contradicted exactly by the item's latest active record when it does not name it. */
  lemma ContradictsTheLatestActive(env: Env, rows: seq<Record>, record: Record)
    requires ReturnsItsRows(env) && UniqueIds(rows) && record.updateHistory != []
    ensures var active := LatestActive(Existing(env, rows, record.tenantId, record.itemId));
            Contradicted(env, rows, record)
            == if active.Some? && record.updateHistory[0].prevProvenanceId != Some(active.value.provenanceId)
               then active else None
    ensures Contradicted(env, rows, record).Some? ==>
      Contradicted(env, rows, record).value in rows
      && Concerns(Contradicted(env, rows, record).value, record.tenantId, record.itemId)
      && !Contradicted(env, rows, record).value.invalidationFlag
  {
    var existing := Existing(env, rows, record.tenantId, record.itemId);
    ItemRowsAre(rows, record.tenantId, record.itemId);
    if LatestActive(existing).Some? {
      var active := LatestActive(existing).value;
      LatestActiveIsActive(existing);
      FirstWithIdFinds(existing, active);
      var found := FirstWithId(existing, active.provenanceId).value;
      SameRow(rows, active, found);
    }
  }

  lemma SameRow(rows: seq<Record>, a: Record, b: Record)
    requires UniqueIds(rows) && a in rows && b in rows && a.tenantId == b.tenantId && a.provenanceId == b.provenanceId
    ensures a == b
  {
    var j :| 0 <= j < |rows| && rows[j] == a;
    var k :| 0 <= k < |rows| && rows[k] == b;
  }

  lemma {:induction false} LatestInOrder(rows: seq<Record>, tenantId: string, itemId: string, i: nat)
    requires i < |rows| && rows[i].tenantId == tenantId && rows[i].itemId == itemId && !rows[i].invalidationFlag
    requires forall j :: i < j < |rows| ==> !(rows[j].tenantId == tenantId && rows[j].itemId == itemId && !rows[j].invalidationFlag)
    ensures LatestActive(ItemRows(rows, tenantId, itemId)) == Some(rows[i])
  {
    var init, last := rows[..|rows| - 1], rows[|rows| - 1];
    var items := ItemRows(init, tenantId, itemId);
    if i < |rows| - 1 {
      LatestInOrder(init, tenantId, itemId, i);
      if Concerns(last, tenantId, itemId) {
        assert (items + [last])[..|items|] == items;
      } else {
        assert items + [] == items;
      }
    }
  }

  lemma {:induction false} NoneActive(rows: seq<Record>, tenantId: string, itemId: string)
    requires forall j :: 0 <= j < |rows| ==> !(rows[j].tenantId == tenantId && rows[j].itemId == itemId && !rows[j].invalidationFlag)
    ensures LatestActive(ItemRows(rows, tenantId, itemId)).None?
  {
    if rows != [] {
      var init, last := rows[..|rows| - 1], rows[|rows| - 1];
      var items := ItemRows(init, tenantId, itemId);
      NoneActive(init, tenantId, itemId);
      if Concerns(last, tenantId, itemId) {
        assert (items + [last])[..|items|] == items;
      } else {
        assert items + [] == items;
      }
    }
  }

  /** Read in the order they were written: a claim contradicts the last stored record of its own tenant and item
      that is not invalidated, exactly if there is one and the claim does not name it as its predecessor. */
  lemma ContradictsTheLastWritten(env: Env, rows: seq<Record>, record: Record)
    requires UniqueIds(rows) && record.updateHistory != [] && forall s :: env.order(s) == s
    ensures forall i :: 0 <= i < |rows| && rows[i].tenantId == record.tenantId && rows[i].itemId == record.itemId
                        && !rows[i].invalidationFlag
                        && (forall j :: i < j < |rows| ==>
                              !(rows[j].tenantId == record.tenantId && rows[j].itemId == record.itemId && !rows[j].invalidationFlag))
              ==> Contradicted(env, rows, record)
                  == if record.updateHistory[0].prevProvenanceId == Some(rows[i].provenanceId) then None else Some(rows[i])
    ensures (forall i :: 0 <= i < |rows| ==>
               !(rows[i].tenantId == record.tenantId && rows[i].itemId == record.itemId && !rows[i].invalidationFlag))
            ==> Contradicted(env, rows, record).None?
  {
    ContradictsTheLatestActive(env, rows, record);
    forall i | 0 <= i < |rows| && rows[i].tenantId == record.tenantId && rows[i].itemId == record.itemId
               && !rows[i].invalidationFlag
               && forall j :: i < j < |rows| ==>
                    !(rows[j].tenantId == record.tenantId && rows[j].itemId == record.itemId && !rows[j].invalidationFlag)
      ensures LatestActive(ItemRows(rows, record.tenantId, record.itemId)) == Some(rows[i])
    {
      LatestInOrder(rows, record.tenantId, record.itemId, i);
    }
    if forall i :: 0 <= i < |rows| ==>
         !(rows[i].tenantId == record.tenantId && rows[i].itemId == record.itemId && !rows[i].invalidationFlag) {
      NoneActive(rows, record.tenantId, record.itemId);
    }
  }

  /** So the decision rests on a field that no hash covers: with another update history, and the same hash,
      the same record is contradicted or not exactly as that history's first entry says. */
  lemma UnhashedFieldDecidesConflict(env: Env, rows: seq<Record>, record: Record, history: seq<UpdateEntry>)
    requires ReturnsItsRows(env) && UniqueIds(rows) && history != []
    ensures var rewritten := record.(updateHistory := history);
            var active := LatestActive(Existing(env, rows, record.tenantId, record.itemId));
            && RecordHash(env.hash)(rewritten) == RecordHash(env.hash)(record)
            && (Contradicted(env, rows, rewritten).Some?
                <==> active.Some? && history[0].prevProvenanceId != Some(active.value.provenanceId))
  {
    var rewritten := record.(updateHistory := history);
    assert HashedFields(rewritten) == HashedFields(record);
    assert RecordBytes()(rewritten) == RecordBytes()(record);
    ContradictsTheLatestActive(env, rows, rewritten);
  }

  /** What the two records of a stored conflict are: a correction that repeats the contradicted record's content,
      made by the sweep now, disputed, not invalidated, and chained to it by id and hash; and the claim as it
      came, but disputed, with its history cut to its first entry. Both have the confidence of a fresh dispute. */
  ghost predicate DisputedPair(env: Env, disputed: Record, record: Record, now: string, freshId: string,
                               correction: Record, downgraded: Record)
    requires record.updateHistory != []
  {
    && correction.tenantId == disputed.tenantId && correction.provenanceId == freshId
    && correction.itemId == disputed.itemId && correction.sourceZone == disputed.sourceZone
    && correction.sourceType == disputed.sourceType && correction.sourceRefs == disputed.sourceRefs
    && correction.writeTimestamp == now && correction.retrievalContextHash == disputed.retrievalContextHash
    && correction.conflictStatus == Disputed && !correction.invalidationFlag
    && |correction.updateHistory| == 1 && correction.updateHistory[0].ts == now
    && correction.updateHistory[0].actor == "conflict-detection-sweep"
    && correction.updateHistory[0].prevProvenanceId == Some(disputed.provenanceId)
    && correction.prevHash == Some(disputed.recordHash)
    && correction.recordHash == RecordHash(env.hash)(correction)
    && Some(correction.confidence) == ComputeConfidence(disputed.sourceType, Disputed, false, 0, [])
    && downgraded == record.(conflictStatus := Disputed, confidence := downgraded.confidence,
                             recordHash := RecordHash(env.hash)(downgraded),
                             updateHistory := [record.updateHistory[0].(ts := record.writeTimestamp)])
    && Some(downgraded.confidence) == ComputeConfidence(record.sourceType, Disputed, false, 0, [])
  }

  /** Whether the incoming claim is stored as a disputed pair, told from the inputs. */
  ghost predicate ConflictIsStored(env: Env, rows: seq<Record>, disputed: Record, record: Record, now: string,
                                   freshId: string, firstUp: bool, secondUp: bool)
    requires record.updateHistory != []
  {
    var correction := Create(env.hash, Correction(disputed, record.provenanceId, freshId, now));
    var downgraded := Create(env.hash, Downgrade(record));
    && correction.Some? && downgraded.Some? && firstUp && secondUp
    && Insertable(rows, correction.value) && Insertable(rows + [correction.value], downgraded.value)
  }

  lemma DraftsAreDisputed(env: Env, disputed: Record, record: Record, now: string, freshId: string)
    requires record.updateHistory != []
    requires Create(env.hash, Correction(disputed, record.provenanceId, freshId, now)).Some?
    requires Create(env.hash, Downgrade(record)).Some?
    ensures DisputedPair(env, disputed, record, now, freshId,
                         Create(env.hash, Correction(disputed, record.provenanceId, freshId, now)).value,
                         Create(env.hash, Downgrade(record)).value)
  {
    CreatedHashHolds(env.hash, Correction(disputed, record.provenanceId, freshId, now));
    CreatedHashHolds(env.hash, Downgrade(record));
  }

  /** What inserting the pair does, whatever the two records are. */
  lemma PairAdds(rows: seq<Record>, correction: Option<Record>, downgraded: Option<Record>, firstUp: bool, secondUp: bool)
    ensures var (rows', outcome) := InsertPair(rows, correction, downgraded, firstUp, secondUp);
            && (outcome.Stored? <==>
                  && correction.Some? && downgraded.Some? && firstUp && secondUp
                  && Insertable(rows, correction.value) && Insertable(rows + [correction.value], downgraded.value))
            && (outcome.Stored? ==> rows' == rows + [correction.value, downgraded.value])
            && (outcome.RaisedError? ==> rows' == rows || (correction.Some? && rows' == rows + [correction.value]))
  {
  }

  lemma PairIsDisputed(rows: seq<Record>, correction: Option<Record>, downgraded: Option<Record>, firstUp: bool, secondUp: bool)
    requires correction.Some? ==> correction.value.conflictStatus == Disputed
    requires downgraded.Some? ==> downgraded.value.conflictStatus == Disputed
    ensures var rows' := InsertPair(rows, correction, downgraded, firstUp, secondUp).0;
            && rows <= rows' && |rows'| <= |rows| + 2
            && forall k :: |rows| <= k < |rows'| ==> rows'[k].conflictStatus == Disputed
  {
    PairAdds(rows, correction, downgraded, firstUp, secondUp);
  }

  lemma AppendInsertsPair(env: Env, rows: seq<Record>, record: Record, disputed: Record, now: string, freshId: string,
                          firstUp: bool, secondUp: bool)
    requires record.updateHistory != [] && Contradicted(env, rows, record) == Some(disputed)
    ensures Append(env, rows, record, now, freshId, firstUp, secondUp)
         == InsertPair(rows, Create(env.hash, Correction(disputed, record.provenanceId, freshId, now)),
                       Create(env.hash, Downgrade(record)), firstUp, secondUp)
  {
  }

  /** An unacknowledged claim adds only disputed records, at most two, and touches nothing stored before. */
  lemma ConflictAddsOnlyDisputed(env: Env, rows: seq<Record>, record: Record, now: string, freshId: string,
                                 firstUp: bool, secondUp: bool)
    requires record.updateHistory != [] && Contradicted(env, rows, record).Some?
    ensures var rows' := Append(env, rows, record, now, freshId, firstUp, secondUp).0;
            && rows <= rows' && |rows'| <= |rows| + 2
            && forall k :: |rows| <= k < |rows'| ==> rows'[k].conflictStatus == Disputed
  {
    var disputed := Contradicted(env, rows, record).value;
    var correction := Create(env.hash, Correction(disputed, record.provenanceId, freshId, now));
    var downgraded := Create(env.hash, Downgrade(record));
    AppendInsertsPair(env, rows, record, disputed, now, freshId, firstUp, secondUp);
    if correction.Some? {
      CreatedIsDisputed(env.hash, Correction(disputed, record.provenanceId, freshId, now));
    }
    if downgraded.Some? {
      CreatedIsDisputed(env.hash, Downgrade(record));
    }
    PairIsDisputed(rows, correction, downgraded, firstUp, secondUp);
  }

  /** It is stored exactly when both disputed records can be created and inserted; and then it adds exactly
      two: a correction chained by id and hash to the record it contradicts, and the claim itself. */
  lemma ConflictAddsTwoDisputed(env: Env, rows: seq<Record>, record: Record, now: string, freshId: string,
                                firstUp: bool, secondUp: bool)
    requires record.updateHistory != [] && Contradicted(env, rows, record).Some?
    ensures var disputed := Contradicted(env, rows, record).value;
            var (rows', outcome) := Append(env, rows, record, now, freshId, firstUp, secondUp);
            && (outcome.Stored? <==> ConflictIsStored(env, rows, disputed, record, now, freshId, firstUp, secondUp))
            && (outcome.Stored? ==> |rows'| == |rows| + 2 && rows'[..|rows|] == rows
                                    && DisputedPair(env, disputed, record, now, freshId, rows'[|rows|], rows'[|rows| + 1]))
  {
    var disputed := Contradicted(env, rows, record).value;
    var correction := Create(env.hash, Correction(disputed, record.provenanceId, freshId, now));
    var downgraded := Create(env.hash, Downgrade(record));
    AppendInsertsPair(env, rows, record, disputed, now, freshId, firstUp, secondUp);
    PairAdds(rows, correction, downgraded, firstUp, secondUp);
    if correction.Some? && downgraded.Some? {
      DraftsAreDisputed(env, disputed, record, now, freshId);
    }
  }

  lemma CreatedIsDisputed(hash: Bytes -> string, d: Draft)
    requires d.conflictStatus == Disputed && Create(hash, d).Some?
    ensures Create(hash, d).value.conflictStatus == Disputed
  {
  }

  // ---------------------------------------------------------------- runs of appends

  datatype Call = Call(record: Record, now: string, freshId: string, firstUp: bool, secondUp: bool)

  ghost predicate WellFormed(calls: seq<Call>) {
    forall k :: 0 <= k < |calls| ==> calls[k].record.updateHistory != []
  }

  function After(env: Env, calls: seq<Call>): seq<Record>
    requires forall k :: 0 <= k < |calls| ==> calls[k].record.updateHistory != []
  {
    if calls == [] then []
    else
      var c := calls[|calls| - 1];
      Append(env, After(env, calls[..|calls| - 1]), c.record, c.now, c.freshId, c.firstUp, c.secondUp).0
  }

  /** At position `k` the record was the first active one for its item, or named the then-latest active
      one as its predecessor. */
  ghost predicate Acknowledged(env: Env, rows: seq<Record>, k: nat)
    requires k < |rows|
  {
    && rows[k].updateHistory != []
    && var active := LatestActive(Existing(env, rows[..k], rows[k].tenantId, rows[k].itemId));
       active.Some? ==> rows[k].updateHistory[0].prevProvenanceId == Some(active.value.provenanceId)
  }

  ghost predicate Inv(env: Env, rows: seq<Record>) {
    && UniqueIds(rows)
    && forall k :: 0 <= k < |rows| && rows[k].conflictStatus != Disputed ==> Acknowledged(env, rows, k)
  }

  lemma InsertKeepsUnique(rows: seq<Record>, r: Record, up: bool)
    requires UniqueIds(rows)
    ensures UniqueIds(Insert(rows, r, up).0)
  {
  }

  lemma AcknowledgedStays(env: Env, rows: seq<Record>, more: seq<Record>, k: nat)
    requires k < |rows| && rows <= more && Acknowledged(env, rows, k)
    ensures Acknowledged(env, more, k)
  {
    assert more[..k] == rows[..k] && more[k] == rows[k];
  }

  lemma PairOnlyExtends(rows: seq<Record>, correction: Option<Record>, downgraded: Option<Record>, firstUp: bool, secondUp: bool)
    ensures rows <= InsertPair(rows, correction, downgraded, firstUp, secondUp).0
  {
  }

  lemma AppendOnlyExtends(env: Env, rows: seq<Record>, c: Call)
    requires c.record.updateHistory != []
    ensures rows <= Append(env, rows, c.record, c.now, c.freshId, c.firstUp, c.secondUp).0
  {
    match Contradicted(env, rows, c.record)
    case None =>
    case Some(disputed) =>
      PairOnlyExtends(rows, Create(env.hash, Correction(disputed, c.record.provenanceId, c.freshId, c.now)),
                      Create(env.hash, Downgrade(c.record)), c.firstUp, c.secondUp);
  }

  lemma PairKeepsUnique(rows: seq<Record>, correction: Option<Record>, downgraded: Option<Record>, firstUp: bool, secondUp: bool)
    requires UniqueIds(rows)
    ensures UniqueIds(InsertPair(rows, correction, downgraded, firstUp, secondUp).0)
  {
    if correction.Some? {
      InsertKeepsUnique(rows, correction.value, firstUp);
      if downgraded.Some? {
        InsertKeepsUnique(Insert(rows, correction.value, firstUp).0, downgraded.value, secondUp);
      }
    }
  }

  lemma AppendKeepsUnique(env: Env, rows: seq<Record>, c: Call)
    requires c.record.updateHistory != [] && UniqueIds(rows)
    ensures UniqueIds(Append(env, rows, c.record, c.now, c.freshId, c.firstUp, c.secondUp).0)
  {
    match Contradicted(env, rows, c.record)
    case None => InsertKeepsUnique(rows, c.record, c.firstUp);
    case Some(disputed) =>
      PairKeepsUnique(rows, Create(env.hash, Correction(disputed, c.record.provenanceId, c.freshId, c.now)),
                      Create(env.hash, Downgrade(c.record)), c.firstUp, c.secondUp);
  }

  lemma AppendKeeps(env: Env, rows: seq<Record>, c: Call)
    requires ReturnsItsRows(env) && Inv(env, rows) && c.record.updateHistory != []
    ensures Inv(env, Append(env, rows, c.record, c.now, c.freshId, c.firstUp, c.secondUp).0)
  {
    var rows' := Append(env, rows, c.record, c.now, c.freshId, c.firstUp, c.secondUp).0;
    AppendKeepsUnique(env, rows, c);
    AppendOnlyExtends(env, rows, c);
    ContradictsTheLatestActive(env, rows, c.record);
    if Contradicted(env, rows, c.record).Some? {
      ConflictAddsOnlyDisputed(env, rows, c.record, c.now, c.freshId, c.firstUp, c.secondUp);
    }
    forall k | 0 <= k < |rows'| && rows'[k].conflictStatus != Disputed ensures Acknowledged(env, rows', k) {
      if k < |rows| {
        assert rows'[k] == rows[k];
        AcknowledgedStays(env, rows, rows', k);
      } else {
        assert rows' == rows + [c.record] && rows'[..k] == rows;
      }
    }
  }

  /** Over any run of appends every stored record that is not marked disputed was the first active one of
      its item, or named the then-latest active record of its item as its predecessor. */
  lemma {:induction false} UndisputedWereAcknowledged(env: Env, calls: seq<Call>)
    requires ReturnsItsRows(env) && WellFormed(calls)
    ensures Inv(env, After(env, calls))
  {
    if calls != [] {
      var init := calls[..|calls| - 1];
      UndisputedWereAcknowledged(env, init);
      AppendKeeps(env, After(env, init), calls[|calls| - 1]);
    }
  }

  /** Stored history only ever grows at its end. */
  lemma {:induction false} HistoryOnlyGrows(env: Env, calls: seq<Call>, n: nat)
    requires WellFormed(calls) && n <= |calls|
    ensures After(env, calls[..n]) <= After(env, calls)
    decreases |calls|
  {
    if n == |calls| {
      assert calls[..n] == calls;
    } else {
      var init := calls[..|calls| - 1];
      HistoryOnlyGrows(env, init, n);
      assert init[..n] == calls[..n];
      AppendOnlyExtends(env, After(env, init), calls[|calls| - 1]);
    }
  }

  // ---------------------------------------------------------------- when a conflict can be stored

  predicate EntriesNamed(r: Record) {
    r.updateHistory != [] && !Blank(r.updateHistory[0].actor) && !Blank(r.updateHistory[0].change)
  }

  lemma StartsNonBlank(prefix: string, rest: string)
    requires prefix != [] && !Whitespace(prefix[0])
    ensures !Blank(prefix + rest)
  {
    assert (prefix + rest)[0] == prefix[0];
  }

  /** The two disputed records can be created exactly when neither fact is a summary: a summary's
      confidence needs its sources' confidences, and the sweep passes none. */
  lemma SummariesCannotBeDisputed(env: Env, disputed: Record, record: Record, now: string, freshId: string)
    requires Valid(disputed) && Valid(record) && EntriesNamed(record) && !Blank(freshId)
    requires forall b :: IsHexSha256(env.hash(b))
    ensures Create(env.hash, Correction(disputed, record.provenanceId, freshId, now)).Some?
       <==> !disputed.sourceType.SummarizedFromN?
    ensures Create(env.hash, Downgrade(record)).Some? <==> !record.sourceType.SummarizedFromN?
  {
    CorrectionIsNamed(disputed, record.provenanceId, freshId, now);
    DraftExists(env.hash, Correction(disputed, record.provenanceId, freshId, now));
    DraftExists(env.hash, Downgrade(record));
  }

  lemma CorrectionIsNamed(disputed: Record, incomingId: string, freshId: string, now: string)
    requires Valid(disputed) && !Blank(freshId)
    ensures WellNamed(Correction(disputed, incomingId, freshId, now))
  {
    StartsNonBlank("flagged disputed (FR-013): unchained write ", incomingId);
    StartsNonBlank("conflict-detection-sweep", "");
    assert "conflict-detection-sweep" + "" == SWEEP_ACTOR;
  }

  lemma DraftExists(hash: Bytes -> string, d: Draft)
    requires WellNamed(d) && d.compressionGeneration == 0 && d.sourceConfidences == []
    requires forall b :: IsHexSha256(hash(b))
    ensures Create(hash, d).Some? <==> !d.sourceType.SummarizedFromN?
  {
    CreatedIff(hash, d);
  }

  /** If only the claim is a summary, the correction of the true record is stored and the claim is lost. */
  lemma SummaryClaimIsLost(env: Env, rows: seq<Record>, record: Record, now: string, freshId: string)
    requires Valid(record) && EntriesNamed(record) && record.sourceType.SummarizedFromN? && !Blank(freshId)
    requires forall b :: IsHexSha256(env.hash(b))
    requires Contradicted(env, rows, record).Some? && Valid(Contradicted(env, rows, record).value)
    requires !Contradicted(env, rows, record).value.sourceType.SummarizedFromN?
    requires Create(env.hash, Correction(Contradicted(env, rows, record).value, record.provenanceId, freshId, now)).Some?
    requires Insertable(rows, Create(env.hash, Correction(Contradicted(env, rows, record).value, record.provenanceId, freshId, now)).value)
    ensures var (rows', outcome) := Append(env, rows, record, now, freshId, true, true);
            && outcome.RaisedError? && |rows'| == |rows| + 1
            && rows'[|rows|].conflictStatus == Disputed && rows'[|rows|].provenanceId == freshId
  {
    var disputed := Contradicted(env, rows, record).value;
    SummariesCannotBeDisputed(env, disputed, record, now, freshId);
    assert Create(env.hash, Downgrade(record)).None?;
  }

  // ---------------------------------------------------------------- whether a dispute lowers confidence

  /** The most compressions a fact can have had for its dispute to cost it confidence. */
  function CompressionLimit(t: SourceType, failedFaithfulness: bool): nat {
    match t
    case UserStated => if failedFaithfulness then 1 else 3
    case ToolOutput => if failedFaithfulness then 1 else 3
    case Imported => if failedFaithfulness then 1 else 4
    case SystemDerived => if failedFaithfulness then 2 else 5
    case LlmInferred => if failedFaithfulness then 2 else 6
    case SummarizedFromN => 0
  }

  lemma {:induction false} DiscountFalls(x: real, m: nat, n: nat)
    requires 0.0 <= x && m <= n
    ensures 0.0 <= Discounted(x, n) <= Discounted(x, m)
    decreases n
  {
    if m < n {
      DiscountFalls(x, m, n - 1);
    } else if n > 0 {
      DiscountFalls(x, n - 1, n - 1);
    }
  }

  /** The first eight powers. */
  lemma DiscountSteps(x: real)
    ensures Discounted(x, 0) == x && Discounted(x, 1) == 0.9 * x && Discounted(x, 2) == 0.81 * x
    ensures Discounted(x, 3) == 0.729 * x && Discounted(x, 4) == 0.6561 * x && Discounted(x, 5) == 0.59049 * x
    ensures Discounted(x, 6) == 0.531441 * x && Discounted(x, 7) == 0.4782969 * x
  {
    assert Discounted(x, 1) == Discounted(x, 0) * 0.9;
    assert Discounted(x, 2) == Discounted(x, 1) * 0.9;
    assert Discounted(x, 3) == Discounted(x, 2) * 0.9;
    assert Discounted(x, 4) == Discounted(x, 3) * 0.9;
    assert Discounted(x, 5) == Discounted(x, 4) * 0.9;
    assert Discounted(x, 6) == Discounted(x, 5) * 0.9;
    assert Discounted(x, 7) == Discounted(x, 6) * 0.9;
  }

  lemma LimitIsWhereDiscountPasses(t: SourceType, failed: bool, generation: nat)
    requires !t.SummarizedFromN?
    ensures var base := BaseConfidence(t, []).value;
            Discounted(base + (if failed then -0.2 else 0.0), generation) >= base + -0.3 <==> generation <= CompressionLimit(t, failed)
  {
    var base := BaseConfidence(t, []).value;
    var x := base + (if failed then -0.2 else 0.0);
    var limit := CompressionLimit(t, failed);
    DiscountSteps(x);
    if generation <= limit {
      DiscountFalls(x, generation, limit);
    } else {
      DiscountFalls(x, limit + 1, generation);
    }
  }

  /** The incoming confidence is no lower than the one a dispute computes afresh, exactly up to a number of
      compressions; for a claim that came in disputed already, only if it was neither compressed nor failed. */
  lemma DisputeLowersIffFewCompressions(t: SourceType, status: ConflictStatus, failed: bool, generation: nat)
    requires !t.SummarizedFromN?
    ensures ComputeConfidence(t, Disputed, false, 0, []).value <= ComputeConfidence(t, status, failed, generation, []).value
       <==> if status.Disputed? then generation == 0 && !failed else generation <= CompressionLimit(t, failed)
  {
    var base := BaseConfidence(t, []).value;
    var x := base + (if status.Disputed? then -0.3 else 0.0) + (if failed then -0.2 else 0.0);
    DiscountSteps(x);
    if status.Disputed? {
      ConfidenceOnlyFalls(t, Disputed, false, 0, Disputed, failed, generation, []);
      if generation > 0 {
        DisputedDiscountFalls(x, base + -0.3, generation);
      }
    } else {
      LimitIsWhereDiscountPasses(t, failed, generation);
      DiscountFalls(x, 0, generation);
    }
  }

  lemma {:induction false} DisputedDiscountFalls(x: real, y: real, generation: nat)
    requires x <= y && 0.0 < y && generation > 0
    ensures Discounted(x, generation) < y
  {
    assert Discounted(x, generation) == Discounted(x, generation - 1) * 0.9;
    if generation > 1 {
      DisputedDiscountFalls(x, y, generation - 1);
    }
  }

  /** Storing an unacknowledged claim as disputed computes its confidence afresh, without its compressions and
      its failed faithfulness check. So what is stored is no higher than what the claim came with exactly up to
      a number of compressions. */
  lemma StoredConfidenceFallsIff(hash: Bytes -> string, d: Draft)
    requires Create(hash, d).Some? && Create(hash, Downgrade(Create(hash, d).value)).Some?
    requires !d.sourceType.SummarizedFromN? && d.compressionGeneration >= 0
    ensures Create(hash, Downgrade(Create(hash, d).value)).value.confidence <= Create(hash, d).value.confidence
       <==> if d.conflictStatus.Disputed? then d.compressionGeneration == 0 && !d.failedFaithfulness
            else d.compressionGeneration <= CompressionLimit(d.sourceType, d.failedFaithfulness)
  {
    var record := Create(hash, d).value;
    CreatedHashHolds(hash, d);
    CreatedHashHolds(hash, Downgrade(record));
    OnlySummariesAskSources(d.sourceType, d.sourceConfidences);
    DisputeLowersIffFewCompressions(d.sourceType, d.conflictStatus, d.failedFaithfulness, d.compressionGeneration);
  }

  lemma OnlySummariesAskSources(t: SourceType, sources: seq<real>)
    requires !t.SummarizedFromN?
    ensures BaseConfidence(t, sources) == BaseConfidence(t, [])
  {
  }

  // ---------------------------------------------------------------- what a conflict does to the chain

  lemma ItemRowsAppend(rows: seq<Record>, r: Record, tenantId: string, itemId: string)
    ensures ItemRows(rows + [r], tenantId, itemId)
         == ItemRows(rows, tenantId, itemId) + (if Concerns(r, tenantId, itemId) then [r] else [])
  {
    assert (rows + [r])[..|rows|] == rows;
  }

  lemma ItemRowsOfPair(rows: seq<Record>, c: Record, d: Record, tenantId: string, itemId: string)
    requires Concerns(c, tenantId, itemId) && Concerns(d, tenantId, itemId)
    ensures ItemRows(rows + [c, d], tenantId, itemId) == ItemRows(rows, tenantId, itemId) + [c] + [d]
  {
    assert rows + [c, d] == (rows + [c]) + [d];
    ItemRowsAppend(rows, c, tenantId, itemId);
    ItemRowsAppend(rows + [c], d, tenantId, itemId);
  }

  lemma {:induction false} PairExtendsIff(digest: Record -> string, records: seq<Record>, c: Record, d: Record)
    requires Chained(digest, records) && records != [] && c.recordHash == digest(c) && d.recordHash == digest(d)
    ensures Chained(digest, records + [c] + [d])
       <==> c.prevHash == Some(records[|records| - 1].recordHash) && d.prevHash == Some(c.recordHash)
  {
    ExtendsIff(digest, records, c);
    if Chained(digest, records + [c]) {
      ExtendsIff(digest, records + [c], d);
    } else {
      BrokenStaysBroken(digest, records + [c], d);
    }
  }

  lemma BrokenStaysBroken(digest: Record -> string, records: seq<Record>, r: Record)
    requires !Chained(digest, records)
    ensures !Chained(digest, records + [r])
  {
    var k :| 0 <= k < |records| && !LinkHolds(digest, records, k);
    assert !LinkHolds(digest, records + [r], k);
  }

  /** After a conflict is stored, an item's lineage that verified before, in the order it was written, still
      verifies exactly if the contradicted record was its last and the claim already carried the hash of the
      correction that the sweep was only going to write. */
  lemma ConflictKeepsChainIff(env: Env, rows: seq<Record>, record: Record, now: string, freshId: string)
    requires ReturnsItsRows(env) && UniqueIds(rows) && record.updateHistory != []
    requires Contradicted(env, rows, record).Some?
    requires ConflictIsStored(env, rows, Contradicted(env, rows, record).value, record, now, freshId, true, true)
    requires Chained(RecordHash(env.hash), ItemRows(rows, record.tenantId, record.itemId))
    ensures var lineage := ItemRows(rows, record.tenantId, record.itemId);
            var disputed := Contradicted(env, rows, record).value;
            var rows' := Append(env, rows, record, now, freshId, true, true).0;
            && lineage != []
            && (Chained(RecordHash(env.hash), ItemRows(rows', record.tenantId, record.itemId))
                <==> && disputed.recordHash == lineage[|lineage| - 1].recordHash
                     && record.prevHash
                        == Some(Create(env.hash, Correction(disputed, record.provenanceId, freshId, now)).value.recordHash))
  {
    var lineage := ItemRows(rows, record.tenantId, record.itemId);
    var disputed := Contradicted(env, rows, record).value;
    var correction := Create(env.hash, Correction(disputed, record.provenanceId, freshId, now)).value;
    var downgraded := Create(env.hash, Downgrade(record)).value;
    ContradictsTheLatestActive(env, rows, record);
    ItemRowsAre(rows, record.tenantId, record.itemId);
    assert disputed in lineage;
    DraftsAreDisputed(env, disputed, record, now, freshId);
    AppendInsertsPair(env, rows, record, disputed, now, freshId, true, true);
    PairAdds(rows, Some(correction), Some(downgraded), true, true);
    PairedLineageIff(RecordHash(env.hash), rows, record.tenantId, record.itemId, correction, downgraded);
  }

  lemma PairedLineageIff(digest: Record -> string, rows: seq<Record>, tenantId: string, itemId: string, c: Record, d: Record)
    requires Concerns(c, tenantId, itemId) && Concerns(d, tenantId, itemId)
    requires ItemRows(rows, tenantId, itemId) != [] && Chained(digest, ItemRows(rows, tenantId, itemId))
    requires c.recordHash == digest(c) && d.recordHash == digest(d)
    ensures var lineage := ItemRows(rows, tenantId, itemId);
            Chained(digest, ItemRows(rows + [c, d], tenantId, itemId))
            <==> c.prevHash == Some(lineage[|lineage| - 1].recordHash) && d.prevHash == Some(c.recordHash)
  {
    ItemRowsOfPair(rows, c, d, tenantId, itemId);
    PairExtendsIff(digest, ItemRows(rows, tenantId, itemId), c, d);
  }

  /** So a claim that names no predecessor, or any record stored so far, always breaks the lineage. */
  lemma ConflictBreaksChain(env: Env, rows: seq<Record>, record: Record, now: string, freshId: string)
    requires ReturnsItsRows(env) && UniqueIds(rows) && record.updateHistory != []
    requires Contradicted(env, rows, record).Some?
    requires ConflictIsStored(env, rows, Contradicted(env, rows, record).value, record, now, freshId, true, true)
    requires Chained(RecordHash(env.hash), ItemRows(rows, record.tenantId, record.itemId))
    requires record.prevHash.None? || exists k :: 0 <= k < |rows| && record.prevHash == Some(rows[k].recordHash)
    ensures !Chained(RecordHash(env.hash),
                     ItemRows(Append(env, rows, record, now, freshId, true, true).0, record.tenantId, record.itemId))
  {
    ConflictKeepsChainIff(env, rows, record, now, freshId);
    var disputed := Contradicted(env, rows, record).value;
    assert Insertable(rows, Create(env.hash, Correction(disputed, record.provenanceId, freshId, now)).value);
  }

  // ---------------------------------------------------------------- the repository, in place

  class ProvenanceTable {
    const order: seq<Record> -> seq<Record>
    var rows: seq<Record>

    constructor (order: seq<Record> -> seq<Record>)
      ensures this.order == order && rows == []
    {
      this.order := order;
      rows := [];
    }

    method AppendRow(record: Record, up: bool) returns (outcome: Outcome)
      modifies this
      ensures (rows, outcome) == Insert(old(rows), record, up)
    {
      if !up || !Insertable(rows, record) {
        return RaisedError;
      }
      rows := rows + [record];
      outcome := Stored;
    }
  }

  class ConflictDetectingProvenanceRepository {
    const hash: Bytes -> string
    const wrapped: ProvenanceTable

    function Environment(): Env {
      Env(hash, wrapped.order)
    }

    constructor (hash: Bytes -> string, wrapped: ProvenanceTable)
      ensures this.hash == hash && this.wrapped == wrapped
    {
      this.hash, this.wrapped := hash, wrapped;
    }

    method AppendRecord(record: Record, now: string, freshId: string, firstUp: bool, secondUp: bool) returns (outcome: Outcome)
      requires record.updateHistory != []
      modifies wrapped
      ensures (wrapped.rows, outcome) == Append(Environment(), old(wrapped.rows), record, now, freshId, firstUp, secondUp)
    {
      var existing := wrapped.order(ItemRows(wrapped.rows, record.tenantId, record.itemId));
      var active := LatestActiveRecord(existing);
      var claimed := record.updateHistory[0].prevProvenanceId;
      if active.None? || claimed == Some(active.value.provenanceId) {
        outcome := wrapped.AppendRow(record, firstUp);
        return;
      }
      var disputed := FirstWithId(existing, active.value.provenanceId);
      if disputed.None? {
        outcome := wrapped.AppendRow(record, firstUp);
        return;
      }
      outcome := AppendPair(Create(hash, Correction(disputed.value, record.provenanceId, freshId, now)),
                            Create(hash, Downgrade(record)), firstUp, secondUp);
    }

    method AppendPair(correction: Option<Record>, downgraded: Option<Record>, firstUp: bool, secondUp: bool)
      returns (outcome: Outcome)
      modifies wrapped
      ensures (wrapped.rows, outcome) == InsertPair(old(wrapped.rows), correction, downgraded, firstUp, secondUp)
    {
      if correction.None? {
        return RaisedError;
      }
      outcome := wrapped.AppendRow(correction.value, firstUp);
      if outcome.RaisedError? {
        return;
      }
      if downgraded.None? {
        return RaisedError;
      }
      outcome := wrapped.AppendRow(downgraded.value, secondUp);
    }
  }
}
