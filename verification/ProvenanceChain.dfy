/** Provenance records: computed confidence, a hash over every identifying field, and the chain of hashes
    that makes a lineage tamper-evident. */
module ProvenanceChain {
  import opened Encodings
  import opened Options
  import opened SourceTypes
  import opened Text
  import opened Zones

  datatype ConflictStatus = NoConflict | Disputed | ResolvedSuperseded | ResolvedConfirmed

  /** Timestamps are their ISO 8601 text, which is what is hashed. */
  datatype UpdateEntry = UpdateEntry(ts: string, actor: string, change: string, prevProvenanceId: Option<string>)

  datatype ProvenanceRecord = ProvenanceRecord(
    tenantId: string, provenanceId: string, itemId: string, sourceZone: Zone, sourceType: SourceType,
    sourceRefs: seq<string>, writeTimestamp: string, updateHistory: seq<UpdateEntry>, retrievalContextHash: string,
    conflictStatus: ConflictStatus, invalidationFlag: bool, confidence: real, prevHash: Option<string>,
    recordHash: string)

  function ZoneName(z: Zone): string {
    match z
    case Working => "working"
    case Episodic => "episodic"
    case Semantic => "semantic"
    case Procedural => "procedural"
    case Entity => "entity"
    case RetrievalIndex => "retrieval_index"
    case Provenance => "provenance"
    case Consolidation => "consolidation"
  }

  function ConflictName(c: ConflictStatus): string {
    match c
    case NoConflict => "none"
    case Disputed => "disputed"
    case ResolvedSuperseded => "resolved_superseded"
    case ResolvedConfirmed => "resolved_confirmed"
  }

  // ---------------------------------------------------------------- confidence

  function BaseConfidence(t: SourceType, sourceConfidences: seq<real>): Option<real> {
    match t
    case UserStated => Some(1.0)
    case ToolOutput => Some(0.9)
    case Imported => Some(0.8)
    case SystemDerived => Some(0.7)
    case LlmInferred => Some(0.6)
    case SummarizedFromN =>
      if sourceConfidences == [] then None
      else Some(0.6 * (Total(sourceConfidences) / (|sourceConfidences| as real)))
  }

  function Total(s: seq<real>): real {
    if s == [] then 0.0 else Total(s[..|s| - 1]) + s[|s| - 1]
  }

  /** The sum: of nothing 0, of one value that value, and of two lists their sums together. */
  lemma {:induction false} TotalAdds(a: seq<real>, b: seq<real>, x: real)
    ensures Total([]) == 0.0 && Total([x]) == x && Total(a + b) == Total(a) + Total(b)
  {
    assert [x][..0] == [];
    if b == [] {
      assert a + b == a;
    } else {
      TotalAdds(a, b[..|b| - 1], x);
      assert (a + b)[..|a + b| - 1] == a + b[..|b| - 1];
    }
  }

  /** Times 0.9 per compression. */
  function Discounted(x: real, generation: nat): real {
    if generation == 0 then x else Discounted(x, generation - 1) * 0.9
  }

  function Clamp01(x: real): real {
    if x < 0.0 then 0.0 else if x > 1.0 then 1.0 else x
  }

  /** None for the two inputs that are refused. */
  function ComputeConfidence(t: SourceType, status: ConflictStatus, failedFaithfulness: bool, generation: int,
                             sourceConfidences: seq<real>): Option<real>
  {
    if generation < 0 then None
    else
      match BaseConfidence(t, sourceConfidences)
      case None => None
      case Some(base) =>
        var modified := base + (if status.Disputed? then -0.3 else 0.0) + (if failedFaithfulness then -0.2 else 0.0);
        Some(Clamp01(Discounted(modified, generation)))
  }

  lemma {:induction false} DiscountKeepsOrder(x: real, y: real, generation: nat)
    requires x <= y
    ensures Discounted(x, generation) <= Discounted(y, generation)
  {
    if generation > 0 {
      DiscountKeepsOrder(x, y, generation - 1);
    }
  }

  /** Confidence is a fraction, whatever it is computed from. */
  lemma ConfidenceIsFraction(t: SourceType, status: ConflictStatus, failed: bool, generation: int, sources: seq<real>)
    ensures var c := ComputeConfidence(t, status, failed, generation, sources);
            && (c.None? <==> generation < 0 || (t.SummarizedFromN? && sources == []))
            && (c.Some? ==> 0.0 <= c.value <= 1.0)
  {
  }

  function Power(x: real, n: nat): real {
    if n == 0 then 1.0 else Power(x, n - 1) * x
  }

  ghost function AfterCompressions(x: real, generation: nat): real {
    x * Power(0.9, generation)
  }

  lemma {:induction false} DiscountedIsPower(x: real, generation: nat)
    ensures Discounted(x, generation) == AfterCompressions(x, generation)
  {
    if generation > 0 {
      DiscountedIsPower(x, generation - 1);
    }
  }

  /** What a source is worth before compression: a user's statement 1, a tool's output 0.9, an import 0.8, a
      derivation 0.7, an inference 0.6, a summary 0.6 of its sources' average; less 0.3 for a dispute and 0.2
      for a failed check. */
  ghost function Worth(t: SourceType, status: ConflictStatus, failed: bool, sources: seq<real>): real
    requires !(t.SummarizedFromN? && sources == [])
  {
    (match t
     case UserStated => 1.0
     case ToolOutput => 0.9
     case Imported => 0.8
     case SystemDerived => 0.7
     case LlmInferred => 0.6
     case SummarizedFromN => 0.6 * (Total(sources) / (|sources| as real)))
    - (if status == Disputed then 0.3 else 0.0) - (if failed then 0.2 else 0.0)
  }

  lemma WorthIsDiscounted(t: SourceType, status: ConflictStatus, failed: bool, generation: nat, sources: seq<real>)
    requires !(t.SummarizedFromN? && sources == [])
    ensures ComputeConfidence(t, status, failed, generation, sources)
         == Some(Clamp01(Discounted(Worth(t, status, failed, sources), generation)))
  {
  }

  /** In closed form: each compression leaves nine tenths of that, and the result is cut to [0, 1]. */
  lemma ConfidenceIs(t: SourceType, status: ConflictStatus, failed: bool, generation: nat, sources: seq<real>)
    requires !(t.SummarizedFromN? && sources == [])
    ensures var x := AfterCompressions(Worth(t, status, failed, sources), generation);
            ComputeConfidence(t, status, failed, generation, sources) == Some(if x < 0.0 then 0.0 else if x > 1.0 then 1.0 else x)
  {
    WorthIsDiscounted(t, status, failed, generation, sources);
    DiscountedIsPower(Worth(t, status, failed, sources), generation);
  }

  /** A dispute never raises it. */
  lemma DisputeNeverRaises(t: SourceType, status: ConflictStatus, failed: bool, generation: nat, sources: seq<real>)
    requires BaseConfidence(t, sources).Some?
    ensures ComputeConfidence(t, Disputed, failed, generation, sources).value
         <= ComputeConfidence(t, status, failed, generation, sources).value
  {
    var base, f := BaseConfidence(t, sources).value, if failed then -0.2 else 0.0;
    DiscountKeepsOrder(base + -0.3 + f, base + (if status.Disputed? then -0.3 else 0.0) + f, generation);
  }

  /** A failed faithfulness check never raises it. */
  lemma FailedCheckNeverRaises(t: SourceType, status: ConflictStatus, failed: bool, generation: nat, sources: seq<real>)
    requires BaseConfidence(t, sources).Some?
    ensures ComputeConfidence(t, status, true, generation, sources).value
         <= ComputeConfidence(t, status, failed, generation, sources).value
  {
    var base, d := BaseConfidence(t, sources).value, if status.Disputed? then -0.3 else 0.0;
    DiscountKeepsOrder(base + d + -0.2, base + d + (if failed then -0.2 else 0.0), generation);
  }

  /** Another compression never raises it, for all that the modified base may be negative. */
  lemma CompressionNeverRaises(t: SourceType, status: ConflictStatus, failed: bool, generation: nat, sources: seq<real>)
    requires BaseConfidence(t, sources).Some?
    ensures ComputeConfidence(t, status, failed, generation + 1, sources).value
         <= ComputeConfidence(t, status, failed, generation, sources).value
  {
    var x := BaseConfidence(t, sources).value + (if status.Disputed? then -0.3 else 0.0) + (if failed then -0.2 else 0.0);
    assert Discounted(x, generation + 1) == Discounted(x, generation) * 0.9;
  }

  /** So confidence falls with each of the three: a dispute, a failed check, and every further compression. */
  lemma {:induction false} ConfidenceOnlyFalls(
    t: SourceType, status: ConflictStatus, failed: bool, generation: nat, status': ConflictStatus, failed': bool,
    generation': nat, sources: seq<real>)
    requires BaseConfidence(t, sources).Some?
    requires (status.Disputed? ==> status'.Disputed?) && (failed ==> failed') && generation <= generation'
    ensures ComputeConfidence(t, status', failed', generation', sources).value
         <= ComputeConfidence(t, status, failed, generation, sources).value
    decreases generation'
  {
    if generation < generation' {
      ConfidenceOnlyFalls(t, status, failed, generation, status', failed', generation' - 1, sources);
      CompressionNeverRaises(t, status', failed', generation' - 1, sources);
    } else {
      if status'.Disputed? {
        DisputeNeverRaises(t, status, failed', generation, sources);
      }
      if failed' {
        FailedCheckNeverRaises(t, status, failed, generation, sources);
      }
    }
  }

  // ---------------------------------------------------------------- the hash

  const TEN_DECIMALS := 1_0000000000

  /** `round` half to even of a fraction at ten decimals, in units of the tenth decimal. */
  function Tenths(x: real): nat
    requires 0.0 <= x
  {
    var scaled := x * (TEN_DECIMALS as real);
    var low := scaled.Floor;
    var rest := scaled - low as real;
    if rest > 0.5 || (rest == 0.5 && low % 2 == 1) then low + 1 else low
  }

  /** The nearest multiple of the tenth decimal, and of two equally near ones the even one. */
  lemma TenthsIsNearest(x: real)
    requires 0.0 <= x
    ensures var error := Tenths(x) as real - x * 10000000000.0;
            && -0.5 <= error <= 0.5
            && (error == 0.5 || error == -0.5 ==> Tenths(x) % 2 == 0)
  {
  }

  /** A number formatted with ten decimals. */
  function FixedTen(x: real): string {
    if x < 0.0 then "-" + FixedMagnitude(-x) else FixedMagnitude(x)
  }

  function FixedMagnitude(x: real): string
    requires 0.0 <= x
  {
    Decimal(Tenths(x) / TEN_DECIMALS) + "." + ZeroPad(Decimal(Tenths(x) % TEN_DECIMALS), 10)
  }

  predicate Valid(r: ProvenanceRecord) {
    && !Blank(r.tenantId) && !Blank(r.provenanceId) && !Blank(r.itemId)
    && 0.0 <= r.confidence <= 1.0 && r.updateHistory != []
    && IsHexSha256(r.recordHash) && IsHexSha256(r.retrievalContextHash)
    && (r.prevHash.Some? ==> IsHexSha256(r.prevHash.value))
  }

  function PrevText(prevHash: Option<string>): string {
    match prevHash
    case None => ""
    case Some(h) => h
  }

  function HashedFields(r: ProvenanceRecord): seq<string> {
    [r.tenantId, r.provenanceId, r.itemId, ZoneName(r.sourceZone), SourceTypeName(r.sourceType), Decimal(|r.sourceRefs|)]
    + (r.sourceRefs
       + [r.writeTimestamp, r.retrievalContextHash, ConflictName(r.conflictStatus),
          if r.invalidationFlag then "1" else "0", FixedTen(r.confidence), PrevText(r.prevHash)])
  }

  function RecordBytes(): ProvenanceRecord -> Bytes {
    (r: ProvenanceRecord) => Canonical(HashedFields(r))
  }

  /** `compute_record_hash`, given the hash of byte strings. */
  function RecordHash(hash: Bytes -> string): ProvenanceRecord -> string {
    (r: ProvenanceRecord) => hash(RecordBytes()(r))
  }

  /** Everything a record's hash covers. */
  ghost predicate SameHashedContent(a: ProvenanceRecord, b: ProvenanceRecord)
    requires 0.0 <= a.confidence && 0.0 <= b.confidence
  {
    && a.tenantId == b.tenantId && a.provenanceId == b.provenanceId && a.itemId == b.itemId
    && a.sourceZone == b.sourceZone && a.sourceType == b.sourceType && a.sourceRefs == b.sourceRefs
    && a.writeTimestamp == b.writeTimestamp && a.retrievalContextHash == b.retrievalContextHash
    && a.conflictStatus == b.conflictStatus && a.invalidationFlag == b.invalidationFlag
    && Tenths(a.confidence) == Tenths(b.confidence) && a.prevHash == b.prevHash
  }

  lemma FixedTenReads(x: real, y: real)
    requires 0.0 <= x && 0.0 <= y && FixedTen(x) == FixedTen(y)
    ensures Tenths(x) == Tenths(y)
  {
    var m, n := Tenths(x), Tenths(y);
    DecimalReads(m / TEN_DECIMALS);
    DecimalReads(n / TEN_DECIMALS);
    NoSeparator(Decimal(m / TEN_DECIMALS), '.');
    NoSeparator(Decimal(n / TEN_DECIMALS), '.');
    var p, q := ZeroPad(Decimal(m % TEN_DECIMALS), 10), ZeroPad(Decimal(n % TEN_DECIMALS), 10);
    SplitsAtSeparator(Decimal(m / TEN_DECIMALS), p, Decimal(n / TEN_DECIMALS), q, '.');
    DecimalReads(m % TEN_DECIMALS);
    DecimalReads(n % TEN_DECIMALS);
    PaddingReads(Decimal(m % TEN_DECIMALS), 10);
    PaddingReads(Decimal(n % TEN_DECIMALS), 10);
  }

  lemma ZoneNamesDiffer(a: Zone, b: Zone)
    requires ZoneName(a) == ZoneName(b)
    ensures a == b
  {
    assert ZoneName(a)[0] == ZoneName(b)[0] && ZoneName(a)[1] == ZoneName(b)[1] && |ZoneName(a)| == |ZoneName(b)|;
  }

  lemma SourceTypeNamesDiffer(a: SourceType, b: SourceType)
    requires SourceTypeName(a) == SourceTypeName(b)
    ensures a == b
  {
    assert SourceTypeName(a)[0] == SourceTypeName(b)[0] && SourceTypeName(a)[1] == SourceTypeName(b)[1];
  }

  lemma ConflictNamesDiffer(a: ConflictStatus, b: ConflictStatus)
    requires ConflictName(a) == ConflictName(b)
    ensures a == b
  {
    assert ConflictName(a)[0] == ConflictName(b)[0] && |ConflictName(a)| == |ConflictName(b)|;
  }

  lemma MiddleOfThree(head: seq<string>, mid: seq<string>, tail: seq<string>, head': seq<string>, mid': seq<string>, tail': seq<string>)
    requires head + (mid + tail) == head' + (mid' + tail') && |head| == |head'| && |tail| == |tail'|
    ensures head == head' && mid == mid' && tail == tail'
  {
    var whole, whole' := head + (mid + tail), head' + (mid' + tail');
    assert head == whole[..|head|] && head' == whole'[..|head|];
    assert mid + tail == whole[|head|..] == whole'[|head|..] == mid' + tail';
    assert mid == (mid + tail)[..|mid|] && mid' == (mid' + tail')[..|mid|];
    assert tail == (mid + tail)[|mid|..] && tail' == (mid' + tail')[|mid|..];
  }

  /** The hashed fields determine everything they are meant to cover. */
  lemma FieldsDetermineContent(a: ProvenanceRecord, b: ProvenanceRecord)
    requires Valid(a) && Valid(b) && HashedFields(a) == HashedFields(b)
    ensures SameHashedContent(a, b)
  {
    var headA := [a.tenantId, a.provenanceId, a.itemId, ZoneName(a.sourceZone), SourceTypeName(a.sourceType), Decimal(|a.sourceRefs|)];
    var headB := [b.tenantId, b.provenanceId, b.itemId, ZoneName(b.sourceZone), SourceTypeName(b.sourceType), Decimal(|b.sourceRefs|)];
    var tailA := [a.writeTimestamp, a.retrievalContextHash, ConflictName(a.conflictStatus),
                  if a.invalidationFlag then "1" else "0", FixedTen(a.confidence), PrevText(a.prevHash)];
    var tailB := [b.writeTimestamp, b.retrievalContextHash, ConflictName(b.conflictStatus),
                  if b.invalidationFlag then "1" else "0", FixedTen(b.confidence), PrevText(b.prevHash)];
    MiddleOfThree(headA, a.sourceRefs, tailA, headB, b.sourceRefs, tailB);
    assert headA[0] == headB[0] && headA[1] == headB[1] && headA[2] == headB[2] && headA[3] == headB[3] && headA[4] == headB[4];
    assert tailA[0] == tailB[0] && tailA[1] == tailB[1] && tailA[2] == tailB[2] && tailA[3] == tailB[3]
        && tailA[4] == tailB[4] && tailA[5] == tailB[5];
    ZoneNamesDiffer(a.sourceZone, b.sourceZone);
    SourceTypeNamesDiffer(a.sourceType, b.sourceType);
    ConflictNamesDiffer(a.conflictStatus, b.conflictStatus);
    assert "1" != "0" by { assert "1"[0] != "0"[0]; }
    FixedTenReads(a.confidence, b.confidence);
  }

  // ---------------------------------------------------------------- the chain

  /** Record `k` hashes to what it says, and names its predecessor's hash. */
  ghost predicate LinkHolds(digest: ProvenanceRecord -> string, records: seq<ProvenanceRecord>, k: nat)
    requires k < |records|
  {
    && records[k].recordHash == digest(records[k])
    && (k > 0 ==> records[k].prevHash == Some(records[k - 1].recordHash))
  }

  ghost predicate Chained(digest: ProvenanceRecord -> string, records: seq<ProvenanceRecord>) {
    forall k :: 0 <= k < |records| ==> LinkHolds(digest, records, k)
  }

  method VerifyChain(hash: Bytes -> string, records: seq<ProvenanceRecord>) returns (ok: bool)
    ensures ok <==> Chained(RecordHash(hash), records)
  {
    var digest := RecordHash(hash);
    var expectedPrev := if records == [] then None else records[0].prevHash;
    for i := 0 to |records|
      invariant expectedPrev == if i > 0 then Some(records[i - 1].recordHash) else if records == [] then None else records[0].prevHash
      invariant forall k :: 0 <= k < i ==> LinkHolds(digest, records, k)
    {
      if records[i].prevHash != expectedPrev || digest(records[i]) != records[i].recordHash {
        assert !LinkHolds(digest, records, i);
        return false;
      }
      expectedPrev := Some(records[i].recordHash);
    }
    ok := true;
  }

  // ---------------------------------------------------------------- tamper evidence

  /** Two different byte strings hashed for the two lineages, with one hash. */
  ghost predicate Collide(hash: Bytes -> string, bytesOf: ProvenanceRecord -> Bytes,
                          a: seq<ProvenanceRecord>, b: seq<ProvenanceRecord>)
  {
    exists j, k :: 0 <= j < |a| && 0 <= k < |b| && bytesOf(a[j]) != bytesOf(b[k]) && hash(bytesOf(a[j])) == hash(bytesOf(b[k]))
  }

  /** Equal bytes carry the same previous hash. */
  ghost predicate BytesFixPrev(bytesOf: ProvenanceRecord -> Bytes, a: seq<ProvenanceRecord>, b: seq<ProvenanceRecord>) {
    forall j, k :: 0 <= j < |a| && 0 <= k < |b| && bytesOf(a[j]) == bytesOf(b[k]) ==> a[j].prevHash == b[k].prevHash
  }

  ghost predicate SameBytes(bytesOf: ProvenanceRecord -> Bytes, a: seq<ProvenanceRecord>, b: seq<ProvenanceRecord>) {
    |a| == |b| && forall k :: 0 <= k < |a| ==> bytesOf(a[k]) == bytesOf(b[k])
  }

  lemma ChainedPrefix(digest: ProvenanceRecord -> string, records: seq<ProvenanceRecord>)
    requires records != [] && Chained(digest, records)
    ensures Chained(digest, records[..|records| - 1])
  {
    var init := records[..|records| - 1];
    forall k | 0 <= k < |init| ensures LinkHolds(digest, init, k) {
      assert LinkHolds(digest, records, k);
    }
  }

  lemma CollidesInPrefix(hash: Bytes -> string, bytesOf: ProvenanceRecord -> Bytes,
                         a: seq<ProvenanceRecord>, b: seq<ProvenanceRecord>)
    requires a != [] && b != [] && Collide(hash, bytesOf, a[..|a| - 1], b[..|b| - 1])
    ensures Collide(hash, bytesOf, a, b)
  {
    var a', b' := a[..|a| - 1], b[..|b| - 1];
    var j, k :| 0 <= j < |a'| && 0 <= k < |b'| && bytesOf(a'[j]) != bytesOf(b'[k]) && hash(bytesOf(a'[j])) == hash(bytesOf(b'[k]));
    assert a'[j] == a[j] && b'[k] == b[k];
  }

  /** Stepping back from equal last hashes, whatever the bytes hashed are, as long as they fix the link. */
  lemma {:induction false} LastHashFixesBytes(hash: Bytes -> string, bytesOf: ProvenanceRecord -> Bytes, digest: ProvenanceRecord -> string,
                                              a: seq<ProvenanceRecord>, b: seq<ProvenanceRecord>)
    requires forall r :: digest(r) == hash(bytesOf(r))
    requires a != [] && b != [] && Chained(digest, a) && Chained(digest, b) && BytesFixPrev(bytesOf, a, b)
    requires a[0].prevHash.None? && b[0].prevHash.None? && a[|a| - 1].recordHash == b[|b| - 1].recordHash
    ensures SameBytes(bytesOf, a, b) || Collide(hash, bytesOf, a, b)
  {
    var m, n := |a| - 1, |b| - 1;
    assert LinkHolds(digest, a, m) && LinkHolds(digest, b, n);
    assert bytesOf(a[m]) == bytesOf(b[n]) ==> a[m].prevHash == b[n].prevHash;
    if bytesOf(a[m]) == bytesOf(b[n]) && m > 0 && n > 0 {
      ChainedPrefix(digest, a);
      ChainedPrefix(digest, b);
      LastHashFixesBytes(hash, bytesOf, digest, a[..m], b[..n]);
      if Collide(hash, bytesOf, a[..m], b[..n]) {
        CollidesInPrefix(hash, bytesOf, a, b);
      } else {
        forall k | 0 <= k < |a| ensures bytesOf(a[k]) == bytesOf(b[k]) {
          assert k < m ==> bytesOf(a[..m][k]) == bytesOf(b[..n][k]);
        }
      }
    }
  }

  lemma BytesFixContent(a: ProvenanceRecord, b: ProvenanceRecord)
    requires Valid(a) && Valid(b) && RecordBytes()(a) == RecordBytes()(b)
    ensures SameHashedContent(a, b)
  {
    CanonicalIsInjective(HashedFields(a), HashedFields(b));
    FieldsDetermineContent(a, b);
  }

  ghost predicate AllValid(records: seq<ProvenanceRecord>) {
    forall k :: 0 <= k < |records| ==> Valid(records[k])
  }

  ghost predicate SameLineage(a: seq<ProvenanceRecord>, b: seq<ProvenanceRecord>)
    requires AllValid(a) && AllValid(b)
  {
    |a| == |b| && forall k :: 0 <= k < |a| ==> SameHashedContent(a[k], b[k])
  }

  lemma EqualBytes(a: seq<ProvenanceRecord>, b: seq<ProvenanceRecord>)
    requires AllValid(a) && AllValid(b)
    ensures BytesFixPrev(RecordBytes(), a, b)
    ensures SameBytes(RecordBytes(), a, b) ==> SameLineage(a, b)
  {
    forall j, k | 0 <= j < |a| && 0 <= k < |b| && RecordBytes()(a[j]) == RecordBytes()(b[k])
      ensures a[j].prevHash == b[k].prevHash && SameHashedContent(a[j], b[k])
    {
      BytesFixContent(a[j], b[k]);
    }
  }

  /** Tamper evidence: two verified lineages that start a chain and end in the same hash have the same
      length and agree on every hashed field of every record, unless they exhibit a hash collision. */
  lemma LastHashFixesLineage(hash: Bytes -> string, a: seq<ProvenanceRecord>, b: seq<ProvenanceRecord>)
    requires a != [] && b != [] && AllValid(a) && AllValid(b)
    requires Chained(RecordHash(hash), a) && Chained(RecordHash(hash), b)
    requires a[0].prevHash.None? && b[0].prevHash.None?
    requires a[|a| - 1].recordHash == b[|b| - 1].recordHash
    ensures SameLineage(a, b) || Collide(hash, RecordBytes(), a, b)
  {
    EqualBytes(a, b);
    LastHashFixesBytes(hash, RecordBytes(), RecordHash(hash), a, b);
  }

  // ---------------------------------------------------------------- rewriting stored records

  /** Every stored hash is left as it was. */
  ghost predicate SameStoredHashes(a: seq<ProvenanceRecord>, b: seq<ProvenanceRecord>) {
    |a| == |b| && forall k :: 0 <= k < |a| ==> a[k].recordHash == b[k].recordHash
  }

  lemma ContentFixesFields(a: ProvenanceRecord, b: ProvenanceRecord)
    requires 0.0 <= a.confidence && 0.0 <= b.confidence && SameHashedContent(a, b)
    ensures HashedFields(a) == HashedFields(b)
  {
  }

  lemma RewrittenLinkHolds(hash: Bytes -> string, a: seq<ProvenanceRecord>, b: seq<ProvenanceRecord>, k: nat)
    requires SameStoredHashes(a, b) && k < |a| && LinkHolds(RecordHash(hash), a, k)
    requires HashedFields(a[k]) == HashedFields(b[k]) && a[k].prevHash == b[k].prevHash
    ensures LinkHolds(RecordHash(hash), b, k)
  {
    assert RecordBytes()(a[k]) == RecordBytes()(b[k]);
  }

  /** Records rewritten in place, their stored hashes kept, still verify exactly if every hashed field of every
      record is what it was, unless the rewriting exhibits a collision. */
  lemma RewriteVerifiesIff(hash: Bytes -> string, a: seq<ProvenanceRecord>, b: seq<ProvenanceRecord>)
    requires AllValid(a) && AllValid(b) && Chained(RecordHash(hash), a) && SameStoredHashes(a, b)
    requires !Collide(hash, RecordBytes(), a, b)
    ensures Chained(RecordHash(hash), b) <==> SameLineage(a, b)
  {
    if SameLineage(a, b) {
      forall k | 0 <= k < |b| ensures LinkHolds(RecordHash(hash), b, k) {
        assert LinkHolds(RecordHash(hash), a, k);
        ContentFixesFields(a[k], b[k]);
        RewrittenLinkHolds(hash, a, b, k);
      }
    }
    if Chained(RecordHash(hash), b) {
      forall k | 0 <= k < |a| ensures SameHashedContent(a[k], b[k]) {
        assert LinkHolds(RecordHash(hash), a, k) && LinkHolds(RecordHash(hash), b, k);
        assert hash(RecordBytes()(a[k])) == hash(RecordBytes()(b[k]));
        BytesFixContent(a[k], b[k]);
      }
    }
  }

  /** The update history is not hashed: whatever it is rewritten to, who wrote it, what changed and which
      record it corrects, verification does not notice, whatever the hash. */
  lemma RewrittenHistoriesVerify(hash: Bytes -> string, a: seq<ProvenanceRecord>, b: seq<ProvenanceRecord>)
    requires |a| == |b| && forall k :: 0 <= k < |a| ==> b[k] == a[k].(updateHistory := b[k].updateHistory)
    ensures Chained(RecordHash(hash), b) <==> Chained(RecordHash(hash), a)
  {
    forall k | 0 <= k < |a| ensures LinkHolds(RecordHash(hash), b, k) <==> LinkHolds(RecordHash(hash), a, k) {
      assert HashedFields(b[k]) == HashedFields(a[k]);
      if LinkHolds(RecordHash(hash), a, k) {
        RewrittenLinkHolds(hash, a, b, k);
      }
      if LinkHolds(RecordHash(hash), b, k) {
        RewrittenLinkHolds(hash, b, a, k);
      }
    }
  }

  // ---------------------------------------------------------------- creating records

  datatype Draft = Draft(
    tenantId: string, provenanceId: string, itemId: string, sourceZone: Zone, sourceType: SourceType,
    writeTimestamp: string, actor: string, change: string, retrievalContextHash: string, sourceRefs: seq<string>,
    prevProvenanceId: Option<string>, prevHash: Option<string>, conflictStatus: ConflictStatus, invalidationFlag: bool,
    failedFaithfulness: bool, compressionGeneration: int, sourceConfidences: seq<real>)

  function RecordOf(hash: Bytes -> string, d: Draft, confidence: real): ProvenanceRecord {
    var unhashed := ProvenanceRecord(
      d.tenantId, d.provenanceId, d.itemId, d.sourceZone, d.sourceType, d.sourceRefs, d.writeTimestamp,
      [UpdateEntry(d.writeTimestamp, d.actor, d.change, d.prevProvenanceId)], d.retrievalContextHash,
      d.conflictStatus, d.invalidationFlag, confidence, d.prevHash, "");
    unhashed.(recordHash := RecordHash(hash)(unhashed))
  }

  /** `ProvenanceRecord.create`: the confidence is computed and the hash derived; None where it raises. */
  function Create(hash: Bytes -> string, d: Draft): Option<ProvenanceRecord> {
    match ComputeConfidence(d.sourceType, d.conflictStatus, d.failedFaithfulness, d.compressionGeneration, d.sourceConfidences)
    case None => None
    case Some(confidence) =>
      if Blank(d.actor) || Blank(d.change) then None
      else
        var record := RecordOf(hash, d, confidence);
        if Valid(record) then Some(record) else None
  }

  /** Everything that construction asks of the fields themselves. */
  predicate WellNamed(d: Draft) {
    && !Blank(d.actor) && !Blank(d.change) && !Blank(d.tenantId) && !Blank(d.provenanceId) && !Blank(d.itemId)
    && IsHexSha256(d.retrievalContextHash) && (d.prevHash.Some? ==> IsHexSha256(d.prevHash.value))
  }

  /** Creation succeeds exactly for well-named fields whose confidence can be computed. */
  lemma CreatedIff(hash: Bytes -> string, d: Draft)
    requires forall b :: IsHexSha256(hash(b))
    ensures Create(hash, d).Some? <==>
      WellNamed(d) && ComputeConfidence(d.sourceType, d.conflictStatus, d.failedFaithfulness, d.compressionGeneration,
                                        d.sourceConfidences).Some?
  {
    var confidence := ComputeConfidence(d.sourceType, d.conflictStatus, d.failedFaithfulness, d.compressionGeneration,
                                        d.sourceConfidences);
    ConfidenceIsFraction(d.sourceType, d.conflictStatus, d.failedFaithfulness, d.compressionGeneration, d.sourceConfidences);
    if confidence.Some? {
      RecordHashIsHex(hash, d, confidence.value);
    }
  }

  lemma RecordHashIsHex(hash: Bytes -> string, d: Draft, confidence: real)
    requires forall b :: IsHexSha256(hash(b))
    ensures IsHexSha256(RecordOf(hash, d, confidence).recordHash)
  {
    var unhashed := RecordOf(hash, d, confidence).(recordHash := "");
    assert RecordOf(hash, d, confidence).recordHash == hash(RecordBytes()(unhashed));
  }

  lemma CreatedHashHolds(hash: Bytes -> string, d: Draft)
    requires Create(hash, d).Some?
    ensures var r := Create(hash, d).value;
            && Valid(r) && r.recordHash == RecordHash(hash)(r) && r.prevHash == d.prevHash
            && Some(r.confidence) == ComputeConfidence(d.sourceType, d.conflictStatus, d.failedFaithfulness,
                                                       d.compressionGeneration, d.sourceConfidences)
  {
    var r := Create(hash, d).value;
    var unhashed := r.(recordHash := "");
    assert HashedFields(unhashed) == HashedFields(r);
    assert RecordBytes()(unhashed) == RecordBytes()(r);
    assert r.recordHash == RecordHash(hash)(unhashed);
  }

  lemma ExtendsIff(digest: ProvenanceRecord -> string, records: seq<ProvenanceRecord>, r: ProvenanceRecord)
    requires Chained(digest, records) && r.recordHash == digest(r)
    ensures Chained(digest, records + [r]) <==> records == [] || r.prevHash == Some(records[|records| - 1].recordHash)
  {
    var all := records + [r];
    forall k | 0 <= k < |records| ensures LinkHolds(digest, all, k) {
      assert LinkHolds(digest, records, k);
    }
    if Chained(digest, all) {
      assert LinkHolds(digest, all, |records|);
    }
  }

  /** A record created with the last record's hash extends a verified lineage; with any other it breaks it. */
  lemma CreatedRecordExtendsChain(hash: Bytes -> string, records: seq<ProvenanceRecord>, d: Draft)
    requires Chained(RecordHash(hash), records) && Create(hash, d).Some?
    ensures Chained(RecordHash(hash), records + [Create(hash, d).value])
       <==> records == [] || d.prevHash == Some(records[|records| - 1].recordHash)
  {
    CreatedHashHolds(hash, d);
    ExtendsIff(RecordHash(hash), records, Create(hash, d).value);
  }
}
