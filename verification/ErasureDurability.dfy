/** Crash-recoverable crypto-shredding: a write-ahead marker, the key's destruction, a finalize
    transaction, and the recovery sweep that resumes from wherever the process died.

    `Stores` is everything durable. Each operation is first given as a function that spends one
    unit of `budget` per durable effect and dies when the budget runs out, so "for every budget"
    means "for every crash point". The class below it performs the same effects in place. */
module ErasureDurability {
  import opened Sequences
  import opened Text

  const MAX_DESTROY_RETRIES := 2
  const PROVENANCE_PREFIX := "zone8-erasure-"

  type Key = nat
  datatype Subject = Subject(tenantId: string, subjectId: string)

  datatype Status = Pending | DestroyConfirmed | Finalized | Failed

  datatype Marker = Marker(markerId: string, subject: Subject, itemIds: seq<string>,
                           status: Status, createdAt: int, retryCount: nat)

  datatype ProvenanceRow = ProvenanceRow(tenantId: string, provenanceId: string, itemId: string,
                                         writeTimestamp: int, erasedItems: nat)

  datatype Stores = Stores(
    keys: map<Subject, Key>,
    subjectIndex: map<Subject, seq<string>>,
    markers: map<string, Marker>,
    markerOrder: seq<string>,
    provenance: seq<ProvenanceRow>,
    bookkeeping: map<Subject, set<string>>)

  /** What one `destroy_key` call does: a normal return means the key is gone. */
  datatype DestroyOutcome = Destroyed | RaisedKeyKept | RaisedKeyGone

  /** How the ports behave: per marker and attempt, or per marker. */
  datatype Environment = Environment(
    destroy: (string, nat) -> DestroyOutcome,
    queryFails: string -> bool,
    requeryFails: (string, nat) -> bool,
    commitFails: string -> bool)

  datatype Control = Alive(budget: nat) | Crashed | Raised
  datatype Run = Run(stores: Stores, control: Control)

  // ---------------------------------------------------------------- durable effects

  /** The marker store's `append`: insert, or replace in place. */
  function Append(s: Stores, m: Marker): Stores {
    s.(markers := s.markers[m.markerId := m],
       markerOrder := if m.markerId in s.markers then s.markerOrder else s.markerOrder + [m.markerId])
  }

  function AfterDestroy(s: Stores, subject: Subject, outcome: DestroyOutcome): Stores {
    if outcome.RaisedKeyKept? then s else s.(keys := s.keys - {subject})
  }

  function RowFor(m: Marker): ProvenanceRow {
    ProvenanceRow(m.subject.tenantId, PROVENANCE_PREFIX + m.markerId, "subject:" + m.subject.subjectId,
                  m.createdAt, |m.itemIds|)
  }

  /** The table's primary key. */
  predicate SameKey(a: ProvenanceRow, b: ProvenanceRow) {
    a.tenantId == b.tenantId && a.provenanceId == b.provenanceId
  }

  predicate HasRow(table: seq<ProvenanceRow>, row: ProvenanceRow) {
    exists i :: 0 <= i < |table| && SameKey(table[i], row)
  }

  /** Whether `_finalize` commits: no duplicate key and no other failure. */
  predicate Commits(s: Stores, m: Marker, env: Environment) {
    !HasRow(s.provenance, RowFor(m)) && !env.commitFails(m.markerId)
  }

  /** The finalize transaction: one provenance row in, the subject's zone8 index rows out. */
  function AfterCommit(s: Stores, m: Marker): Stores {
    s.(provenance := s.provenance + [RowFor(m)], bookkeeping := s.bookkeeping - {m.subject})
  }

  /** One durable effect, or death just before it. */
  function Effect(r: Run, after: Stores): Run
    requires r.control.Alive?
  {
    if r.control.budget == 0 then r.(control := Crashed) else Run(after, Alive(r.control.budget - 1))
  }

  // ---------------------------------------------------------------- erase_subject

  datatype Request = Request(subject: Subject, markerId: string, now: int)

  function ItemsOf(s: Stores, subject: Subject): seq<string> {
    if subject in s.subjectIndex then s.subjectIndex[subject] else []
  }

  function NewMarker(s: Stores, q: Request): Marker {
    Marker(q.markerId, q.subject, ItemsOf(s, q.subject), Pending, q.now, 0)
  }

  function Erase(s: Stores, q: Request, env: Environment, budget: nat): Run {
    if Blank(q.subject.tenantId) || Blank(q.subject.subjectId) then Run(s, Raised) else
    var m := NewMarker(s, q);
    var r1 := Effect(Run(s, Alive(budget)), Append(s, m));
    if !r1.control.Alive? then r1 else
    var outcome := env.destroy(q.markerId, 0);
    var r2 := Effect(r1, AfterDestroy(r1.stores, q.subject, outcome));
    if !r2.control.Alive? then r2 else
    if !outcome.Destroyed? then r2.(control := Raised) else
    var confirmed := m.(status := DestroyConfirmed);
    var r3 := Effect(r2, Append(r2.stores, confirmed));
    if !r3.control.Alive? then r3 else
    if !Commits(r3.stores, confirmed, env) then r3.(control := Raised) else CommitAndMark(r3, confirmed)
  }

  /** A finalize that goes through, and the marker's last write. */
  function CommitAndMark(r: Run, m: Marker): Run
    requires r.control.Alive?
  {
    var r1 := Effect(r, AfterCommit(r.stores, m));
    if !r1.control.Alive? then r1 else Effect(r1, Append(r1.stores, m.(status := Finalized)))
  }

  // ---------------------------------------------------------------- recover_pending_erasures

  predicate Unfinalized(m: Marker) {
    m.status.Pending? || m.status.DestroyConfirmed?
  }

  function ListUnfinalized(s: Stores, order: seq<string>): seq<Marker> {
    if order == [] then []
    else
      var rest := ListUnfinalized(s, order[..|order| - 1]);
      var id := order[|order| - 1];
      if id in s.markers && Unfinalized(s.markers[id]) then rest + [s.markers[id]] else rest
  }

  /** Any finalize error is taken to mean "already applied". */
  function FinalizeOnly(r: Run, m: Marker, env: Environment): Run
    requires r.control.Alive?
  {
    if Commits(r.stores, m, env) then CommitAndMark(r, m)
    else Effect(r, Append(r.stores, m.(status := Finalized)))
  }

  function ConfirmAndFinalize(r: Run, m: Marker, retries: nat, env: Environment): Run
    requires r.control.Alive?
  {
    var confirmed := m.(status := DestroyConfirmed, retryCount := retries);
    var r1 := Effect(r, Append(r.stores, confirmed));
    if !r1.control.Alive? then r1 else FinalizeOnly(r1, confirmed, env)
  }

  /** The bounded retry loop, entered with `retries` attempts already made. */
  function Retry(r: Run, m: Marker, retries: nat, env: Environment): Run
    requires r.control.Alive?
    decreases MAX_DESTROY_RETRIES - retries, 1
  {
    if retries >= MAX_DESTROY_RETRIES then
      Effect(r, Append(r.stores, m.(status := Failed, retryCount := retries)))
    else
      AfterAttempt(Effect(r, AfterDestroy(r.stores, m.subject, env.destroy(m.markerId, retries))), m, retries, env)
  }

  function AfterAttempt(r: Run, m: Marker, retries: nat, env: Environment): Run
    requires retries < MAX_DESTROY_RETRIES
    decreases MAX_DESTROY_RETRIES - retries, 0
  {
    if !r.control.Alive? then r else
    if env.requeryFails(m.markerId, retries) then r.(control := Raised) else
    if m.subject !in r.stores.keys then ConfirmAndFinalize(r, m, retries + 1, env) else
    var r' := Effect(r, Append(r.stores, m.(status := Pending, retryCount := retries + 1)));
    if !r'.control.Alive? then r' else Retry(r', m, retries + 1, env)
  }

  function Process(r: Run, m: Marker, env: Environment): Run
    requires r.control.Alive?
  {
    match m.status
    case DestroyConfirmed => FinalizeOnly(r, m, env)
    case Pending =>
      if env.queryFails(m.markerId) then r
      else if m.subject !in r.stores.keys then ConfirmAndFinalize(r, m, m.retryCount, env)
      else Retry(r, m, m.retryCount, env)
    case _ => r
  }

  function SweepOver(r: Run, work: seq<Marker>, env: Environment): Run {
    if work == [] then r
    else
      var before := SweepOver(r, work[..|work| - 1], env);
      if before.control.Alive? then Process(before, work[|work| - 1], env) else before
  }

  function Sweep(s: Stores, env: Environment, budget: nat): Run {
    SweepOver(Run(s, Alive(budget)), ListUnfinalized(s, s.markerOrder), env)
  }

  // ---------------------------------------------------------------- the invariant

  predicate KeyGone(status: Status) {
    status.DestroyConfirmed? || status.Finalized?
  }

  ghost predicate UniqueKeys(table: seq<ProvenanceRow>) {
    forall i, j :: 0 <= i < j < |table| ==> !SameKey(table[i], table[j])
  }

  /** A row stored under an erasure id is the row of a marker whose key was confirmed gone. */
  ghost predicate RowsMatch(s: Stores) {
    forall i, id :: 0 <= i < |s.provenance| && s.provenance[i].provenanceId == PROVENANCE_PREFIX + id ==>
      && id in s.markers
      && s.provenance[i] == RowFor(s.markers[id])
      && KeyGone(s.markers[id].status)
  }

  ghost predicate MarkersOk(s: Stores) {
    forall id :: id in s.markers ==>
      var m := s.markers[id];
      && m.markerId == id
      && m.retryCount <= MAX_DESTROY_RETRIES
      && (m.status.Failed? ==> m.retryCount == MAX_DESTROY_RETRIES)
  }

  ghost predicate OrderOk(s: Stores) {
    NoDuplicates(s.markerOrder) && forall id :: id in s.markerOrder <==> id in s.markers
  }

  ghost predicate Inv(s: Stores) {
    match s
    case Stores(_, _, _, _, provenance, _) => OrderOk(s) && MarkersOk(s) && UniqueKeys(provenance) && RowsMatch(s)
  }

  /** No finalized marker has lost its provenance row. */
  ghost predicate NoRowLost(s: Stores) {
    forall id :: id in s.markers && s.markers[id].status.Finalized? ==>
      HasRow(s.provenance, RowFor(s.markers[id]))
  }

  ghost predicate Reliable(env: Environment) {
    forall id :: !env.commitFails(id)
  }

  ghost predicate SameErasure(a: Marker, b: Marker) {
    a.markerId == b.markerId && a.subject == b.subject && a.itemIds == b.itemIds && a.createdAt == b.createdAt
  }

  /** The lifecycle never moves back, and never leaves a final status. */
  predicate Forward(from: Status, to: Status) {
    from == to || from.Pending? || (from.DestroyConfirmed? && to.Finalized?)
  }

  /** What any durable effect of one marker's job may change. */
  ghost predicate JobStep(s: Stores, s': Stores, m: Marker) {
    && s'.subjectIndex == s.subjectIndex
    && s'.markers.Keys == s.markers.Keys && s'.markerOrder == s.markerOrder
    && (forall id :: id in s.markers && id != m.markerId ==> s'.markers[id] == s.markers[id])
    && (s'.keys == s.keys || s'.keys == s.keys - {m.subject})
    && s.provenance <= s'.provenance
    && (forall i :: |s.provenance| <= i < |s'.provenance| ==>
          s'.provenance[i].provenanceId == PROVENANCE_PREFIX + m.markerId)
    && m.markerId in s.markers
    && SameErasure(s'.markers[m.markerId], s.markers[m.markerId])
    && Forward(s.markers[m.markerId].status, s'.markers[m.markerId].status)
    && (KeyGone(s.markers[m.markerId].status) ==> s'.keys == s.keys)
    && (KeyGone(s'.markers[m.markerId].status) ==> KeyGone(s.markers[m.markerId].status) || m.subject !in s'.keys)
  }

  // ---------------------------------------------------------------- effects keep the invariant

  lemma PrefixInjective(a: string, b: string)
    requires PROVENANCE_PREFIX + a == PROVENANCE_PREFIX + b
    ensures a == b
  {
    assert (PROVENANCE_PREFIX + a)[|PROVENANCE_PREFIX|..] == a;
    assert (PROVENANCE_PREFIX + b)[|PROVENANCE_PREFIX|..] == b;
  }

  lemma NewMarkerKeeps(s: Stores, m: Marker)
    requires Inv(s) && m.markerId !in s.markers && m.status.Pending? && m.retryCount == 0
    ensures Inv(Append(s, m))
    ensures NoRowLost(s) ==> NoRowLost(Append(s, m))
  {
  }

  lemma ReplaceKeeps(s: Stores, m: Marker)
    requires Inv(s) && m.markerId in s.markers && SameErasure(m, s.markers[m.markerId])
    requires m.retryCount <= MAX_DESTROY_RETRIES && (m.status.Failed? ==> m.retryCount == MAX_DESTROY_RETRIES)
    requires KeyGone(m.status) ==> KeyGone(s.markers[m.markerId].status) || m.subject !in s.keys
    requires Forward(s.markers[m.markerId].status, m.status)
    ensures Inv(Append(s, m)) && JobStep(s, Append(s, m), m)
    ensures NoRowLost(s) && (m.status.Finalized? ==> HasRow(s.provenance, RowFor(m))) ==> NoRowLost(Append(s, m))
  {
  }

  lemma DestroyKeeps(s: Stores, m: Marker, outcome: DestroyOutcome)
    requires Inv(s) && m.markerId in s.markers && SameErasure(m, s.markers[m.markerId])
    requires s.markers[m.markerId].status.Pending?
    ensures Inv(AfterDestroy(s, m.subject, outcome)) && JobStep(s, AfterDestroy(s, m.subject, outcome), m)
    ensures NoRowLost(s) ==> NoRowLost(AfterDestroy(s, m.subject, outcome))
  {
  }

  lemma CommitKeeps(s: Stores, m: Marker)
    requires Inv(s) && m.markerId in s.markers && SameErasure(m, s.markers[m.markerId])
    requires s.markers[m.markerId].status.DestroyConfirmed?
    requires !HasRow(s.provenance, RowFor(m))
    ensures Inv(AfterCommit(s, m)) && JobStep(s, AfterCommit(s, m), m)
    ensures HasRow(AfterCommit(s, m).provenance, RowFor(m))
    ensures NoRowLost(s) ==> NoRowLost(AfterCommit(s, m))
  {
    var s' := AfterCommit(s, m);
    forall i, id | 0 <= i < |s'.provenance| && s'.provenance[i].provenanceId == PROVENANCE_PREFIX + id
      ensures id in s'.markers && s'.provenance[i] == RowFor(s'.markers[id]) && KeyGone(s'.markers[id].status)
    {
      if i == |s.provenance| {
        PrefixInjective(id, m.markerId);
      }
    }
    assert SameKey(s'.provenance[|s.provenance|], RowFor(m));
    HasRowGrows(s.provenance, [RowFor(m)]);
  }

  lemma HasRowGrows(table: seq<ProvenanceRow>, more: seq<ProvenanceRow>)
    ensures forall row :: HasRow(table, row) ==> HasRow(table + more, row)
  {
    forall row | HasRow(table, row) ensures HasRow(table + more, row) {
      var i :| 0 <= i < |table| && SameKey(table[i], row);
      assert SameKey((table + more)[i], row);
    }
  }

  // ---------------------------------------------------------------- one marker's job

  lemma JobStepTrans(s: Stores, s1: Stores, s2: Stores, m: Marker, m': Marker)
    requires JobStep(s, s1, m) && JobStep(s1, s2, m') && m'.markerId == m.markerId && m'.subject == m.subject
    ensures JobStep(s, s2, m)
  {
  }

  /** `m` is the stored marker, up to what a job may have rewritten in it. */
  ghost predicate Stored(s: Stores, m: Marker) {
    m.markerId in s.markers && SameErasure(m, s.markers[m.markerId]) && m.retryCount <= MAX_DESTROY_RETRIES
  }

  /** What a run of one job guarantees wherever it stops. */
  ghost predicate JobKeeps(r: Run, r': Run, m: Marker, env: Environment) {
    match r'
    case Run(stores, _) =>
      && Inv(stores) && JobStep(r.stores, stores, m)
      && (NoRowLost(r.stores) && Reliable(env) ==> NoRowLost(stores))
  }

  /** The job ran to its end and left the marker finalized; its row is there exactly when it was
      there already or the commit went through. */
  ghost predicate EndsFinalized(r: Run, r': Run, m: Marker, env: Environment) {
    && m.markerId in r'.stores.markers && r'.stores.markers[m.markerId].status.Finalized?
    && (HasRow(r'.stores.provenance, RowFor(m)) <==>
          HasRow(r.stores.provenance, RowFor(m)) || !env.commitFails(m.markerId))
  }

  lemma CommitAndMarkJob(r: Run, m: Marker)
    requires r.control.Alive? && Inv(r.stores) && Stored(r.stores, m)
    requires r.stores.markers[m.markerId].status.DestroyConfirmed? && !HasRow(r.stores.provenance, RowFor(m))
    ensures var r' := CommitAndMark(r, m);
            && Inv(r'.stores) && JobStep(r.stores, r'.stores, m)
            && (NoRowLost(r.stores) ==> NoRowLost(r'.stores))
            && !r'.control.Raised?
            && (r'.control.Alive? ==>
                  && r'.stores.markers[m.markerId].status.Finalized?
                  && HasRow(r'.stores.provenance, RowFor(m)))
  {
    var done := m.(status := Finalized);
    CommitKeeps(r.stores, m);
    if r.control.budget > 0 {
      ReplaceKeeps(AfterCommit(r.stores, m), done);
      if r.control.budget > 1 {
        JobStepTrans(r.stores, AfterCommit(r.stores, m), Append(AfterCommit(r.stores, m), done), m, done);
      }
    }
  }

  lemma SwallowedJob(r: Run, m: Marker, env: Environment)
    requires r.control.Alive? && Inv(r.stores) && Stored(r.stores, m) && !Commits(r.stores, m, env)
    requires r.stores.markers[m.markerId].status.DestroyConfirmed?
    ensures var r' := Effect(r, Append(r.stores, m.(status := Finalized)));
            JobKeeps(r, r', m, env) && (r'.control.Alive? ==> EndsFinalized(r, r', m, env))
  {
    ReplaceKeeps(r.stores, m.(status := Finalized));
  }

  lemma FinalizeOnlyJob(r: Run, m: Marker, env: Environment)
    requires r.control.Alive? && Inv(r.stores) && Stored(r.stores, m)
    requires r.stores.markers[m.markerId].status.DestroyConfirmed?
    ensures var r' := FinalizeOnly(r, m, env);
            && JobKeeps(r, r', m, env)
            && !r'.control.Raised?
            && (r'.control.Alive? ==> EndsFinalized(r, r', m, env))
  {
    if Commits(r.stores, m, env) {
      CommitAndMarkJob(r, m);
    } else {
      SwallowedJob(r, m, env);
    }
  }

  lemma ConfirmJob(r: Run, m: Marker, retries: nat, env: Environment)
    requires r.control.Alive? && Inv(r.stores) && Stored(r.stores, m) && retries <= MAX_DESTROY_RETRIES
    requires r.stores.markers[m.markerId].status.Pending? && m.subject !in r.stores.keys
    ensures var r' := ConfirmAndFinalize(r, m, retries, env);
            && JobKeeps(r, r', m, env)
            && !r'.control.Raised?
            && (r'.control.Alive? ==> EndsFinalized(r, r', m, env))
  {
    var confirmed := m.(status := DestroyConfirmed, retryCount := retries);
    ReplaceKeeps(r.stores, confirmed);
    if r.control.budget > 0 {
      var r1 := Effect(r, Append(r.stores, confirmed));
      FinalizeOnlyJob(r1, confirmed, env);
      JobStepTrans(r.stores, r1.stores, FinalizeOnly(r1, confirmed, env).stores, m, confirmed);
    }
  }

  /** Every destroy attempt the policy still allows raises and leaves the key. */
  ghost predicate AllAttemptsKeepKey(m: Marker, retries: nat, env: Environment) {
    forall n: nat :: retries <= n < MAX_DESTROY_RETRIES ==> env.destroy(m.markerId, n).RaisedKeyKept?
  }

  /** The job ran to its end and gave up: the key is still there and every attempt was made. */
  ghost predicate EndsFailed(r': Run, m: Marker) {
    && m.markerId in r'.stores.markers && r'.stores.markers[m.markerId].status.Failed?
    && r'.stores.markers[m.markerId].retryCount == MAX_DESTROY_RETRIES
    && m.subject in r'.stores.keys
  }

  lemma JobKeepsTrans(r: Run, r1: Run, r2: Run, m: Marker, m': Marker, env: Environment)
    requires JobKeeps(r, r1, m, env) && JobKeeps(r1, r2, m', env)
    requires m'.markerId == m.markerId && m'.subject == m.subject
    ensures JobKeeps(r, r2, m, env)
  {
    JobStepTrans(r.stores, r1.stores, r2.stores, m, m');
  }

  lemma JobKeepsStill(r: Run, m: Marker, env: Environment)
    requires Inv(r.stores) && Stored(r.stores, m)
    ensures forall c :: JobKeeps(r, r.(control := c), m, env)
  {
  }

  lemma DestroyAttempt(r: Run, m: Marker, outcome: DestroyOutcome, env: Environment)
    requires r.control.Alive? && Inv(r.stores) && Stored(r.stores, m)
    requires r.stores.markers[m.markerId].status.Pending?
    ensures JobKeeps(r, Effect(r, AfterDestroy(r.stores, m.subject, outcome)), m, env)
  {
    DestroyKeeps(r.stores, m, outcome);
  }

  lemma RecordAttempt(r: Run, m: Marker, retries: nat, env: Environment)
    requires r.control.Alive? && Inv(r.stores) && Stored(r.stores, m) && retries <= MAX_DESTROY_RETRIES
    requires r.stores.markers[m.markerId].status.Pending?
    ensures var again := m.(status := Pending, retryCount := retries);
            var r' := Effect(r, Append(r.stores, again));
            && JobKeeps(r, r', m, env)
            && r'.stores.keys == r.stores.keys && r'.stores.provenance == r.stores.provenance
            && Stored(r'.stores, m) && r'.stores.markers[m.markerId].status.Pending?
  {
    ReplaceKeeps(r.stores, m.(status := Pending, retryCount := retries));
  }

  lemma {:induction false} RetryJob(r: Run, m: Marker, retries: nat, env: Environment)
    requires r.control.Alive? && Inv(r.stores) && Stored(r.stores, m) && retries <= MAX_DESTROY_RETRIES
    requires r.stores.markers[m.markerId].status.Pending? && m.status.Pending? && m.subject in r.stores.keys
    ensures JobKeeps(r, Retry(r, m, retries, env), m, env)
    ensures RetryEnds(r, Retry(r, m, retries, env), m, retries, env)
    decreases MAX_DESTROY_RETRIES - retries, 4
  {
    if retries >= MAX_DESTROY_RETRIES {
      ReplaceKeeps(r.stores, m.(status := Failed, retryCount := retries));
    } else {
      var outcome := env.destroy(m.markerId, retries);
      var r1 := Effect(r, AfterDestroy(r.stores, m.subject, outcome));
      DestroyAttempt(r, m, outcome, env);
      AfterAttemptJob(r1, m, retries, env);
      JobKeepsTrans(r, r1, AfterAttempt(r1, m, retries, env), m, m, env);
    }
  }

  lemma {:induction false} AfterAttemptJob(r: Run, m: Marker, retries: nat, env: Environment)
    requires Inv(r.stores) && Stored(r.stores, m) && retries < MAX_DESTROY_RETRIES
    requires r.stores.markers[m.markerId].status.Pending? && m.status.Pending?
    requires r.control.Alive? && env.destroy(m.markerId, retries).RaisedKeyKept? ==> m.subject in r.stores.keys
    requires r.control.Alive? && !env.destroy(m.markerId, retries).RaisedKeyKept? ==> m.subject !in r.stores.keys
    requires !r.control.Raised?
    ensures JobKeeps(r, AfterAttempt(r, m, retries, env), m, env)
    ensures RetryEnds(r, AfterAttempt(r, m, retries, env), m, retries, env)
    decreases MAX_DESTROY_RETRIES - retries, 3
  {
    if !r.control.Alive? || env.requeryFails(m.markerId, retries) {
      AttemptStops(r, m, retries, env);
    } else if m.subject !in r.stores.keys {
      AttemptConfirms(r, m, retries, env);
    } else {
      AttemptRepeats(r, m, retries, env);
    }
  }

  lemma AttemptStops(r: Run, m: Marker, retries: nat, env: Environment)
    requires Inv(r.stores) && Stored(r.stores, m) && retries < MAX_DESTROY_RETRIES && !r.control.Raised?
    requires r.stores.markers[m.markerId].status.Pending?
    requires !r.control.Alive? || env.requeryFails(m.markerId, retries)
    ensures JobKeeps(r, AfterAttempt(r, m, retries, env), m, env)
    ensures RetryEnds(r, AfterAttempt(r, m, retries, env), m, retries, env)
  {
    JobKeepsStill(r, m, env);
  }

  lemma AttemptConfirms(r: Run, m: Marker, retries: nat, env: Environment)
    requires r.control.Alive? && Inv(r.stores) && Stored(r.stores, m) && retries < MAX_DESTROY_RETRIES
    requires r.stores.markers[m.markerId].status.Pending? && m.status.Pending? && m.subject !in r.stores.keys
    requires !env.destroy(m.markerId, retries).RaisedKeyKept? && !env.requeryFails(m.markerId, retries)
    ensures JobKeeps(r, AfterAttempt(r, m, retries, env), m, env)
    ensures RetryEnds(r, AfterAttempt(r, m, retries, env), m, retries, env)
  {
    ConfirmJob(r, m, retries + 1, env);
    assert AfterAttempt(r, m, retries, env) == ConfirmAndFinalize(r, m, retries + 1, env);
  }

  lemma {:induction false} AttemptRepeats(r: Run, m: Marker, retries: nat, env: Environment)
    requires r.control.Alive? && Inv(r.stores) && Stored(r.stores, m) && retries < MAX_DESTROY_RETRIES
    requires r.stores.markers[m.markerId].status.Pending? && m.status.Pending? && m.subject in r.stores.keys
    requires env.destroy(m.markerId, retries).RaisedKeyKept? && !env.requeryFails(m.markerId, retries)
    ensures JobKeeps(r, AfterAttempt(r, m, retries, env), m, env)
    ensures RetryEnds(r, AfterAttempt(r, m, retries, env), m, retries, env)
    decreases MAX_DESTROY_RETRIES - retries, 2
  {
    var r', end := AttemptLeads(r, m, retries, env);
    RepeatedAttempt(r, r', end, m, retries, env);
  }

  lemma AttemptLeads(r: Run, m: Marker, retries: nat, env: Environment) returns (r': Run, end: Run)
    requires r.control.Alive? && Inv(r.stores) && Stored(r.stores, m) && retries < MAX_DESTROY_RETRIES
    requires r.stores.markers[m.markerId].status.Pending? && m.subject in r.stores.keys
    requires !env.requeryFails(m.markerId, retries)
    ensures AfterAttempt(r, m, retries, env) == end
    ensures !r'.control.Raised? && Inv(r'.stores) && Stored(r'.stores, m)
    ensures r'.stores.markers[m.markerId].status.Pending? && m.subject in r'.stores.keys
    ensures JobKeeps(r, r', m, env) && r'.stores.provenance == r.stores.provenance
    ensures end == if r'.control.Alive? then Retry(r', m, retries + 1, env) else r'
  {
    RecordAttempt(r, m, retries + 1, env);
    AttemptUnfolds(r, m, retries, env);
    r' := Effect(r, Append(r.stores, m.(status := Pending, retryCount := retries + 1)));
    end := AfterAttempt(r, m, retries, env);
  }

  lemma {:induction false} RepeatedAttempt(r: Run, r': Run, end: Run, m: Marker, retries: nat, env: Environment)
    requires !r'.control.Raised? && Inv(r'.stores) && Stored(r'.stores, m) && retries < MAX_DESTROY_RETRIES
    requires r'.stores.markers[m.markerId].status.Pending? && m.status.Pending? && m.subject in r'.stores.keys
    requires env.destroy(m.markerId, retries).RaisedKeyKept?
    requires JobKeeps(r, r', m, env) && r'.stores.provenance == r.stores.provenance
    requires end == if r'.control.Alive? then Retry(r', m, retries + 1, env) else r'
    ensures JobKeeps(r, end, m, env) && RetryEnds(r, end, m, retries, env)
    decreases MAX_DESTROY_RETRIES - retries, 1
  {
    if r'.control.Alive? {
      KeptAttemptJob(r, r', m, retries, env);
    } else {
      AttemptDies(r, r', m, retries, env);
    }
  }

  lemma AttemptDies(r: Run, r': Run, m: Marker, retries: nat, env: Environment)
    requires r'.control.Crashed?
    ensures RetryEnds(r, r', m, retries, env)
  {
  }

  lemma RetryUnfolds(r: Run, m: Marker, retries: nat, env: Environment)
    requires r.control.Alive?
    ensures Retry(r, m, retries, env)
         == if retries >= MAX_DESTROY_RETRIES then Effect(r, Append(r.stores, m.(status := Failed, retryCount := retries)))
            else AfterAttempt(Effect(r, AfterDestroy(r.stores, m.subject, env.destroy(m.markerId, retries))), m, retries, env)
  {
  }

  lemma AttemptUnfolds(r: Run, m: Marker, retries: nat, env: Environment)
    requires r.control.Alive? && retries < MAX_DESTROY_RETRIES
    requires m.subject in r.stores.keys && !env.requeryFails(m.markerId, retries)
    ensures var r' := Effect(r, Append(r.stores, m.(status := Pending, retryCount := retries + 1)));
            AfterAttempt(r, m, retries, env) == if r'.control.Alive? then Retry(r', m, retries + 1, env) else r'
  {
  }

  lemma {:induction false} KeptAttemptJob(r: Run, r': Run, m: Marker, retries: nat, env: Environment)
    requires r'.control.Alive? && Inv(r'.stores) && Stored(r'.stores, m) && retries < MAX_DESTROY_RETRIES
    requires r'.stores.markers[m.markerId].status.Pending? && m.status.Pending? && m.subject in r'.stores.keys
    requires env.destroy(m.markerId, retries).RaisedKeyKept?
    requires JobKeeps(r, r', m, env) && r'.stores.provenance == r.stores.provenance
    ensures JobKeeps(r, Retry(r', m, retries + 1, env), m, env)
    ensures RetryEnds(r, Retry(r', m, retries + 1, env), m, retries, env)
    decreases MAX_DESTROY_RETRIES - retries, 0
  {
    RetryJob(r', m, retries + 1, env);
    AfterKeptAttempt(r, r', Retry(r', m, retries + 1, env), m, retries, env);
  }

  lemma AfterKeptAttempt(r: Run, r': Run, end: Run, m: Marker, retries: nat, env: Environment)
    requires r'.stores.provenance == r.stores.provenance && env.destroy(m.markerId, retries).RaisedKeyKept?
    requires JobKeeps(r, r', m, env) && JobKeeps(r', end, m, env) && RetryEnds(r', end, m, retries + 1, env)
    ensures JobKeeps(r, end, m, env) && RetryEnds(r, end, m, retries, env)
  {
    JobKeepsTrans(r, r', end, m, m, env);
  }

  /** Retrying ends with the marker finalized unless every attempt left the key. */
  ghost predicate RetryEnds(r: Run, r': Run, m: Marker, retries: nat, env: Environment) {
    match r'.control
    case Crashed => true
    case Raised => exists n: nat :: env.requeryFails(m.markerId, n)
    case Alive(_) =>
      if AllAttemptsKeepKey(m, retries, env) then EndsFailed(r', m) else EndsFinalized(r, r', m, env)
  }

  /** The only way a reachable key store lets a job fail. */
  ghost predicate MustFail(before: Stores, m: Marker, env: Environment) {
    m.status.Pending? && m.subject in before.keys && AllAttemptsKeepKey(m, m.retryCount, env)
  }

  ghost predicate Reachable(env: Environment) {
    (forall id :: !env.queryFails(id)) && (forall id, n: nat :: !env.requeryFails(id, n))
  }

  lemma ProcessJob(r: Run, m: Marker, env: Environment)
    requires r.control.Alive? && Inv(r.stores) && m.markerId in r.stores.markers
    requires r.stores.markers[m.markerId] == m && Unfinalized(m)
    ensures var r' := Process(r, m, env);
            && JobKeeps(r, r', m, env)
            && (Reachable(env) ==> !r'.control.Raised?)
            && (Reachable(env) && r'.control.Alive? ==>
                  if MustFail(r.stores, m, env) then EndsFailed(r', m) else EndsFinalized(r, r', m, env))
  {
    match m.status
    case DestroyConfirmed => FinalizeOnlyJob(r, m, env);
    case Pending =>
      if !env.queryFails(m.markerId) {
        if m.subject !in r.stores.keys {
          ConfirmJob(r, m, m.retryCount, env);
        } else {
          RetryJob(r, m, m.retryCount, env);
        }
      }
  }

  // ---------------------------------------------------------------- whole operations

  function StatusAt(k: nat): Status {
    if k <= 2 then Pending else if k <= 4 then DestroyConfirmed else Finalized
  }

  /** The durable states an erasure passes through: nothing, its marker, the key gone, that confirmed, the
      commit, the marker finalized. */
  function Stage(s: Stores, q: Request, k: nat): Stores {
    if k == 0 then s
    else
      var m := NewMarker(s, q);
      Append(s, m.(status := StatusAt(k))).(
        keys := if k <= 1 then s.keys else s.keys - {q.subject},
        provenance := if k <= 3 then s.provenance else s.provenance + [RowFor(m)],
        bookkeeping := if k <= 3 then s.bookkeeping else s.bookkeeping - {q.subject})
  }

  /** What an erasure that is never disturbed leaves behind. */
  function Undisturbed(s: Stores, q: Request): Stores {
    Stage(s, q, 5)
  }

  lemma AppendTwice(s: Stores, m: Marker, m': Marker)
    requires m'.markerId == m.markerId
    ensures Append(Append(s, m), m') == Append(s, m')
  {
    assert s.markers[m.markerId := m][m.markerId := m'] == s.markers[m.markerId := m'];
  }

  lemma AppendCommutes(s: Stores, m: Marker, keys: map<Subject, Key>, table: seq<ProvenanceRow>,
                       bookkeeping: map<Subject, set<string>>)
    ensures Append(s.(keys := keys, provenance := table, bookkeeping := bookkeeping), m)
         == Append(s, m).(keys := keys, provenance := table, bookkeeping := bookkeeping)
  {
  }

  /** Each stage is the one before it and one durable effect. */
  lemma StageFollows(s: Stores, q: Request, k: nat)
    requires 1 <= k <= 5
    ensures var m, before := NewMarker(s, q), Stage(s, q, k - 1);
            Stage(s, q, k)
            == if k == 1 then Append(before, m)
               else if k == 2 then AfterDestroy(before, q.subject, Destroyed)
               else if k == 4 then AfterCommit(before, m)
               else Append(before, m.(status := StatusAt(k)))
  {
    var m, before := NewMarker(s, q), Stage(s, q, k - 1);
    if k == 3 || k == 5 {
      AppendTwice(s, m.(status := StatusAt(k - 1)), m.(status := StatusAt(k)));
      AppendCommutes(Append(s, m.(status := StatusAt(k - 1))), m.(status := StatusAt(k)), before.keys,
                     before.provenance, before.bookkeeping);
    }
  }

  predicate Named(q: Request) {
    !Blank(q.subject.tenantId) && !Blank(q.subject.subjectId)
  }

  /** Where the erasure stops: at a death, or at the port that raises. */
  ghost function StageReached(q: Request, env: Environment, budget: nat): nat {
    if !Named(q) then 0
    else if budget <= 1 then budget
    else if env.destroy(q.markerId, 0).RaisedKeyKept? then 1
    else if budget == 2 || env.destroy(q.markerId, 0).RaisedKeyGone? then 2
    else if budget == 3 || env.commitFails(q.markerId) then 3
    else if budget == 4 then 4 else 5
  }

  lemma EraseStopsAtAStage(s: Stores, q: Request, env: Environment, budget: nat)
    requires !HasRow(s.provenance, RowFor(NewMarker(s, q)))
    ensures Erase(s, q, env, budget).stores == Stage(s, q, StageReached(q, env, budget))
  {
    if Named(q) && budget > 0 {
      StageFollows(s, q, 1);
      StageFollows(s, q, 2);
      if budget > 1 && env.destroy(q.markerId, 0).Destroyed? {
        EraseConfirms(s, q, env, budget);
      }
    }
  }

  /** From the destroyed key on. */
  lemma EraseConfirms(s: Stores, q: Request, env: Environment, budget: nat)
    requires Named(q) && budget >= 2 && env.destroy(q.markerId, 0).Destroyed?
    requires !HasRow(s.provenance, RowFor(NewMarker(s, q)))
    requires Append(s, NewMarker(s, q)) == Stage(s, q, 1)
    requires AfterDestroy(Stage(s, q, 1), q.subject, Destroyed) == Stage(s, q, 2)
    ensures Erase(s, q, env, budget).stores == Stage(s, q, StageReached(q, env, budget))
  {
    var confirmed := NewMarker(s, q).(status := DestroyConfirmed);
    StageFollows(s, q, 3);
    if budget > 2 {
      var r3 := Run(Stage(s, q, 3), Alive(budget - 3));
      assert r3.stores.provenance == s.provenance && RowFor(confirmed) == RowFor(NewMarker(s, q));
      if !env.commitFails(q.markerId) {
        assert Erase(s, q, env, budget) == CommitAndMark(r3, confirmed);
        EraseCommits(s, q, r3, confirmed);
      }
    }
  }

  lemma EraseCommits(s: Stores, q: Request, r3: Run, confirmed: Marker)
    requires r3.control.Alive? && r3.stores == Stage(s, q, 3)
    requires confirmed == NewMarker(s, q).(status := DestroyConfirmed)
    ensures var budget := r3.control.budget;
            CommitAndMark(r3, confirmed).stores == Stage(s, q, if budget == 0 then 3 else if budget == 1 then 4 else 5)
  {
    StageFollows(s, q, 4);
    StageFollows(s, q, 5);
    assert AfterCommit(r3.stores, confirmed) == AfterCommit(r3.stores, NewMarker(s, q));
  }

  ghost predicate StageSound(s: Stores, q: Request, k: nat) {
    Inv(Stage(s, q, k)) && (NoRowLost(s) ==> NoRowLost(Stage(s, q, k)))
  }

  /** Every stage is sound. */
  lemma {:induction false} StageKeeps(s: Stores, q: Request, k: nat)
    requires Inv(s) && q.markerId !in s.markers && k <= 5
    ensures StageSound(s, q, k)
  {
    if k > 0 {
      StageKeeps(s, q, k - 1);
      if k <= 3 {
        OpenStageKeeps(s, q, k);
      } else {
        CommittedStageKeeps(s, q, k);
      }
    }
  }

  lemma OpenStageKeeps(s: Stores, q: Request, k: nat)
    requires Inv(s) && q.markerId !in s.markers && 1 <= k <= 3 && StageSound(s, q, k - 1)
    ensures StageSound(s, q, k)
  {
    var m := NewMarker(s, q);
    StageFollows(s, q, k);
    if k == 1 {
      NewMarkerKeeps(s, m);
    } else if k == 2 {
      DestroyKeeps(Stage(s, q, 1), m, Destroyed);
    } else {
      ReplaceKeeps(Stage(s, q, 2), m.(status := DestroyConfirmed));
    }
  }

  lemma CommittedStageKeeps(s: Stores, q: Request, k: nat)
    requires Inv(s) && q.markerId !in s.markers && 4 <= k <= 5 && StageSound(s, q, k - 1)
    ensures StageSound(s, q, k)
  {
    var m := NewMarker(s, q);
    NoRowYet(s, q);
    StageFollows(s, q, k);
    if k == 4 {
      CommitKeeps(Stage(s, q, 3), m);
    } else {
      CommitAddsRow(Stage(s, q, 3), m);
      StageFollows(s, q, 4);
      ReplaceKeeps(Stage(s, q, 4), m.(status := Finalized));
    }
  }

  lemma CommitAddsRow(s: Stores, m: Marker)
    ensures HasRow(AfterCommit(s, m).provenance, RowFor(m))
  {
    assert SameKey(AfterCommit(s, m).provenance[|s.provenance|], RowFor(m));
  }

  lemma NoRowYet(s: Stores, q: Request)
    requires Inv(s) && q.markerId !in s.markers
    ensures !HasRow(s.provenance, RowFor(NewMarker(s, q)))
  {
  }

  /** An erasure that nothing disturbs: the key and the index rows are gone, and one marker and one provenance
      row say whose items were erased, how many, and when. A request that does not name its subject is refused
      and changes nothing. */
  lemma UndisturbedErasureLeaves(s: Stores, q: Request, env: Environment, budget: nat)
    requires Inv(s) && q.markerId !in s.markers && budget >= 5
    requires env.destroy(q.markerId, 0).Destroyed? && !env.commitFails(q.markerId)
    ensures var items := if q.subject in s.subjectIndex then s.subjectIndex[q.subject] else [];
            Erase(s, q, env, budget)
            == if Blank(q.subject.tenantId) || Blank(q.subject.subjectId) then Run(s, Raised)
               else Run(Stores(s.keys - {q.subject}, s.subjectIndex,
                               s.markers[q.markerId := Marker(q.markerId, q.subject, items, Finalized, q.now, 0)],
                               s.markerOrder + [q.markerId],
                               s.provenance + [ProvenanceRow(q.subject.tenantId, "zone8-erasure-" + q.markerId,
                                                             "subject:" + q.subject.subjectId, q.now, |items|)],
                               s.bookkeeping - {q.subject}),
                        Alive(budget - 5))
  {
    NoRowYet(s, q);
    EraseStopsAtAStage(s, q, env, budget);
    if Named(q) {
      EraseSpendsFive(s, q, env, budget);
    }
  }

  lemma EraseSpendsFive(s: Stores, q: Request, env: Environment, budget: nat)
    requires Named(q) && budget >= 5 && env.destroy(q.markerId, 0).Destroyed? && !env.commitFails(q.markerId)
    requires !HasRow(s.provenance, RowFor(NewMarker(s, q)))
    ensures Erase(s, q, env, budget).control == Alive(budget - 5)
  {
  }

  lemma EraseKeeps(s: Stores, q: Request, env: Environment, budget: nat)
    requires Inv(s) && q.markerId !in s.markers
    ensures var r := Erase(s, q, env, budget);
            && Inv(r.stores) && (NoRowLost(s) ==> NoRowLost(r.stores))
  {
    NoRowYet(s, q);
    EraseStopsAtAStage(s, q, env, budget);
    StageKeeps(s, q, StageReached(q, env, budget));
  }

  // ---------------------------------------------------------------- which jobs commit

  /** Whether the retry loop gets as far as its commit: no attempt before the one that destroys the key
      may run out of effects or fail to ask again. Each kept attempt costs two effects. */
  ghost predicate RetryReaches(budget: nat, id: string, retries: nat, env: Environment)
    decreases MAX_DESTROY_RETRIES - retries
  {
    && retries < MAX_DESTROY_RETRIES && budget >= 2 && !env.requeryFails(id, retries)
    && if env.destroy(id, retries).RaisedKeyKept? then RetryReaches(budget - 2, id, retries + 1, env) else budget >= 3
  }

  /** Whether one marker's job lives to make its commit. */
  ghost predicate ReachesCommit(budget: nat, m: Marker, keyHeld: bool, env: Environment) {
    match m.status
    case DestroyConfirmed => budget >= 1
    case Pending =>
      && !env.queryFails(m.markerId)
      && if keyHeld then RetryReaches(budget, m.markerId, m.retryCount, env) else budget >= 2
    case _ => false
  }

  /** `_finalize` is reached, and commits. */
  ghost predicate CommitsNow(r: Run, m: Marker, env: Environment)
    requires r.control.Alive?
  {
    ReachesCommit(r.control.budget, m, m.subject in r.stores.keys, env) && Commits(r.stores, m, env)
  }

  /** The provenance table and the index after a job that did or did not commit. */
  ghost predicate Committed(s: Stores, s': Stores, m: Marker, did: bool) {
    && s'.provenance == s.provenance + (if did then [RowFor(m)] else [])
    && s'.bookkeeping == s.bookkeeping - (if did then {m.subject} else {})
  }

  lemma FinalizeOnlyCommits(r: Run, m: Marker, env: Environment)
    requires r.control.Alive?
    ensures Committed(r.stores, FinalizeOnly(r, m, env).stores, m, r.control.budget >= 1 && Commits(r.stores, m, env))
  {
  }

  lemma ConfirmCommits(r: Run, m: Marker, retries: nat, env: Environment)
    requires r.control.Alive?
    ensures Committed(r.stores, ConfirmAndFinalize(r, m, retries, env).stores, m,
                      r.control.budget >= 2 && Commits(r.stores, m, env))
  {
    var confirmed := m.(status := DestroyConfirmed, retryCount := retries);
    var r1 := Effect(r, Append(r.stores, confirmed));
    if r1.control.Alive? {
      FinalizeOnlyCommits(r1, confirmed, env);
    }
  }

  lemma {:induction false} RetryCommits(r: Run, m: Marker, retries: nat, env: Environment)
    requires r.control.Alive? && m.subject in r.stores.keys
    ensures Committed(r.stores, Retry(r, m, retries, env).stores, m,
                      RetryReaches(r.control.budget, m.markerId, retries, env) && Commits(r.stores, m, env))
    decreases MAX_DESTROY_RETRIES - retries, 1
  {
    RetryUnfolds(r, m, retries, env);
    if retries < MAX_DESTROY_RETRIES && r.control.budget > 0 && !env.requeryFails(m.markerId, retries) {
      var outcome := env.destroy(m.markerId, retries);
      var r1 := Effect(r, AfterDestroy(r.stores, m.subject, outcome));
      if outcome.RaisedKeyKept? {
        KeptAttemptCommits(r, r1, m, retries, env);
      } else {
        TakenAttemptCommits(r, m, retries, env);
      }
    }
  }

  lemma TakenAttemptCommits(r: Run, m: Marker, retries: nat, env: Environment)
    requires r.control.Alive? && r.control.budget > 0 && retries < MAX_DESTROY_RETRIES
    requires !env.destroy(m.markerId, retries).RaisedKeyKept? && !env.requeryFails(m.markerId, retries)
    ensures var r1 := Effect(r, AfterDestroy(r.stores, m.subject, env.destroy(m.markerId, retries)));
            Committed(r.stores, AfterAttempt(r1, m, retries, env).stores, m,
                      RetryReaches(r.control.budget, m.markerId, retries, env) && Commits(r.stores, m, env))
  {
    var r1 := Effect(r, AfterDestroy(r.stores, m.subject, env.destroy(m.markerId, retries)));
    ConfirmCommits(r1, m, retries + 1, env);
    assert AfterAttempt(r1, m, retries, env) == ConfirmAndFinalize(r1, m, retries + 1, env);
  }

  lemma {:induction false} KeptAttemptCommits(r: Run, r1: Run, m: Marker, retries: nat, env: Environment)
    requires r1.control.Alive? && m.subject in r1.stores.keys && retries < MAX_DESTROY_RETRIES
    requires r.control.Alive? && r.control.budget == r1.control.budget + 1 && r1.stores == r.stores
    requires env.destroy(m.markerId, retries).RaisedKeyKept? && !env.requeryFails(m.markerId, retries)
    ensures Committed(r.stores, AfterAttempt(r1, m, retries, env).stores, m,
                      RetryReaches(r.control.budget, m.markerId, retries, env) && Commits(r.stores, m, env))
    decreases MAX_DESTROY_RETRIES - retries, 0
  {
    AttemptUnfolds(r1, m, retries, env);
    var r2 := Effect(r1, Append(r1.stores, m.(status := Pending, retryCount := retries + 1)));
    if r2.control.Alive? {
      RetryCommits(r2, m, retries + 1, env);
    }
  }

  /** One marker's job changes the provenance table and the index exactly by its commit. */
  lemma ProcessCommits(r: Run, m: Marker, env: Environment)
    requires r.control.Alive?
    ensures Committed(r.stores, Process(r, m, env).stores, m, CommitsNow(r, m, env))
  {
    match m.status
    case DestroyConfirmed => FinalizeOnlyCommits(r, m, env);
    case Pending =>
      if !env.queryFails(m.markerId) {
        if m.subject in r.stores.keys {
          RetryCommits(r, m, m.retryCount, env);
        } else {
          ConfirmCommits(r, m, m.retryCount, env);
        }
      }
    case _ =>
  }

  // ---------------------------------------------------------------- the sweep

  /** A work list as `list_unfinalized` returns it: every entry is the stored, unfinalized marker. */
  ghost predicate WorkList(s: Stores, work: seq<Marker>) {
    && (forall i :: 0 <= i < |work| ==>
          work[i].markerId in s.markers && s.markers[work[i].markerId] == work[i] && Unfinalized(work[i]))
    && (forall i, j :: 0 <= i < j < |work| ==> work[i].markerId != work[j].markerId)
  }

  ghost predicate InWork(work: seq<Marker>, id: string) {
    exists i :: 0 <= i < |work| && work[i].markerId == id
  }

  /** What a sweep over `work` may do to one marker. */
  ghost predicate MarkerStep(s: Stores, s': Stores, work: seq<Marker>, id: string)
    requires id in s.markers && id in s'.markers
  {
    && SameErasure(s'.markers[id], s.markers[id])
    && Forward(s.markers[id].status, s'.markers[id].status)
    && (KeyGone(s'.markers[id].status) ==> KeyGone(s.markers[id].status) || s.markers[id].subject !in s'.keys)
    && (!InWork(work, id) ==> s'.markers[id] == s.markers[id])
  }

  /** What a sweep over `work` may change: only those markers, forward, and only by adding rows
      and removing keys. */
  ghost predicate SweepStep(s: Stores, s': Stores, work: seq<Marker>) {
    && s'.subjectIndex == s.subjectIndex
    && s'.markers.Keys == s.markers.Keys && s'.markerOrder == s.markerOrder
    && s'.keys.Keys <= s.keys.Keys && (forall k :: k in s'.keys ==> s'.keys[k] == s.keys[k])
    && s.provenance <= s'.provenance
    && (forall id :: id in s.markers ==> MarkerStep(s, s', work, id))
  }

  lemma {:induction false} ListedIsWork(s: Stores, order: seq<string>)
    requires NoDuplicates(order) && MarkersOk(s)
    ensures WorkList(s, ListUnfinalized(s, order))
    ensures forall id :: InWork(ListUnfinalized(s, order), id) <==>
                           id in order && id in s.markers && Unfinalized(s.markers[id])
  {
    if order != [] {
      var init, id := order[..|order| - 1], order[|order| - 1];
      ListedIsWork(s, init);
      var rest, work := ListUnfinalized(s, init), ListUnfinalized(s, order);
      assert order == init + [id];
      assert !InWork(rest, id);
      forall x ensures InWork(work, x) <==> x in order && x in s.markers && Unfinalized(s.markers[x]) {
        assert InWork(rest, x) <==> x in init && x in s.markers && Unfinalized(s.markers[x]);
        if work != rest {
          assert work == rest + [s.markers[id]];
          assert work[|rest|].markerId == id;
          if InWork(rest, x) {
            var i :| 0 <= i < |rest| && rest[i].markerId == x;
            assert work[i].markerId == x;
          }
        }
      }
    }
  }

  lemma InWorkExtends(work: seq<Marker>)
    requires work != []
    ensures forall id :: InWork(work, id) <==> InWork(work[..|work| - 1], id) || id == work[|work| - 1].markerId
  {
    var init, m := work[..|work| - 1], work[|work| - 1];
    forall id | InWork(init, id) || id == m.markerId ensures InWork(work, id) {
      if i :| 0 <= i < |init| && init[i].markerId == id {
        assert work[i].markerId == id;
      } else {
        assert work[|work| - 1].markerId == id;
      }
    }
    forall id | InWork(work, id) && id != m.markerId ensures InWork(init, id) {
      var i :| 0 <= i < |work| && work[i].markerId == id;
      assert init[i].markerId == id;
    }
  }

  lemma SweepStepExtends(s: Stores, s1: Stores, s2: Stores, work: seq<Marker>)
    requires WorkList(s, work) && work != []
    requires SweepStep(s, s1, work[..|work| - 1]) && (s2 == s1 || JobStep(s1, s2, work[|work| - 1]))
    ensures SweepStep(s, s2, work)
  {
    InWorkExtends(work);
    forall id | id in s.markers ensures MarkerStep(s, s2, work, id) {
      assert MarkerStep(s, s1, work[..|work| - 1], id);
    }
  }

  lemma LastUntouched(s: Stores, s1: Stores, work: seq<Marker>)
    requires WorkList(s, work) && work != [] && SweepStep(s, s1, work[..|work| - 1])
    ensures var m := work[|work| - 1]; m.markerId in s1.markers && s1.markers[m.markerId] == m && Unfinalized(m)
  {
    assert !InWork(work[..|work| - 1], work[|work| - 1].markerId);
  }

  lemma {:induction false} SweepOverKeeps(r: Run, work: seq<Marker>, env: Environment)
    requires Inv(r.stores) && WorkList(r.stores, work)
    ensures var r' := SweepOver(r, work, env);
            && Inv(r'.stores) && SweepStep(r.stores, r'.stores, work)
            && (NoRowLost(r.stores) && Reliable(env) ==> NoRowLost(r'.stores))
            && (Reachable(env) && r'.control.Raised? ==> r.control.Raised?)
  {
    if work != [] {
      var init, m := work[..|work| - 1], work[|work| - 1];
      var before := SweepOver(r, init, env);
      SweepOverKeeps(r, init, env);
      LastUntouched(r.stores, before.stores, work);
      if before.control.Alive? {
        ProcessJob(before, m, env);
      }
      SweepStepExtends(r.stores, before.stores, SweepOver(r, work, env).stores, work);
    }
  }

  /** A sweep with a reachable key store that runs to its end settles every listed marker: it
      fails exactly when its key was there at its turn and every attempt left it; otherwise it is
      finalized, and its row is there exactly when it already was or its commit went through. */
  ghost predicate Settled(start: Run, work: seq<Marker>, env: Environment, i: nat, end: Stores)
    requires i < |work|
  {
    var m := work[i];
    var turn := SweepOver(start, work[..i], env);
    && turn.control.Alive? && m.markerId in end.markers
    && if MustFail(turn.stores, m, env) then
         end.markers[m.markerId].status.Failed? && end.markers[m.markerId].retryCount == MAX_DESTROY_RETRIES
       else
         && end.markers[m.markerId].status.Finalized?
         && (HasRow(end.provenance, RowFor(m)) <==>
               HasRow(turn.stores.provenance, RowFor(m)) || !env.commitFails(m.markerId))
  }

  lemma LastSettles(r: Run, work: seq<Marker>, env: Environment)
    requires Inv(r.stores) && WorkList(r.stores, work) && Reachable(env) && work != []
    requires SweepOver(r, work, env).control.Alive?
    ensures Settled(r, work, env, |work| - 1, SweepOver(r, work, env).stores)
  {
    var init, m := work[..|work| - 1], work[|work| - 1];
    var before := SweepOver(r, init, env);
    SweepOverKeeps(r, init, env);
    LastUntouched(r.stores, before.stores, work);
    ProcessJob(before, m, env);
  }

  lemma SettledStays(r: Run, work: seq<Marker>, env: Environment, i: nat, s1: Stores, s2: Stores)
    requires WorkList(r.stores, work) && i < |work| - 1
    requires Settled(r, work[..|work| - 1], env, i, s1)
    requires s2 == s1 || JobStep(s1, s2, work[|work| - 1])
    ensures Settled(r, work, env, i, s2)
  {
    assert work[..|work| - 1][..i] == work[..i];
    var m, last := work[i], work[|work| - 1];
    assert m.markerId != last.markerId;
    HasRowMonotone(s1.provenance, s2.provenance);
    if HasRow(s2.provenance, RowFor(m)) {
      var k :| 0 <= k < |s2.provenance| && SameKey(s2.provenance[k], RowFor(m));
      if k >= |s1.provenance| {
        PrefixInjective(m.markerId, last.markerId);
      }
      assert SameKey(s1.provenance[k], RowFor(m));
    }
  }

  lemma {:induction false} SweepOverSettles(r: Run, work: seq<Marker>, env: Environment, i: nat)
    requires Inv(r.stores) && WorkList(r.stores, work) && Reachable(env) && i < |work|
    requires SweepOver(r, work, env).control.Alive?
    ensures Settled(r, work, env, i, SweepOver(r, work, env).stores)
  {
    if i == |work| - 1 {
      LastSettles(r, work, env);
    } else {
      var init, m := work[..|work| - 1], work[|work| - 1];
      var before := SweepOver(r, init, env);
      SweepOverSettles(r, init, env, i);
      SweepOverKeeps(r, init, env);
      LastUntouched(r.stores, before.stores, work);
      ProcessJob(before, m, env);
      SettledStays(r, work, env, i, before.stores, SweepOver(r, work, env).stores);
    }
  }

  lemma HasRowMonotone(table: seq<ProvenanceRow>, table': seq<ProvenanceRow>)
    requires table <= table'
    ensures forall row :: HasRow(table, row) ==> HasRow(table', row)
  {
    HasRowGrows(table, table'[|table|..]);
    assert table + table'[|table|..] == table';
  }

  // ---------------------------------------------------------------- which keys a sweep takes

  /** A pending marker of the subject, and an attempt left to it that takes the key. */
  ghost predicate AimsAt(m: Marker, subject: Subject, env: Environment) {
    m.subject == subject && m.status.Pending? && !AllAttemptsKeepKey(m, m.retryCount, env)
  }

  ghost predicate TakesKey(s: Stores, subject: Subject, env: Environment) {
    exists id :: id in s.markers && AimsAt(s.markers[id], subject, env)
  }

  ghost predicate AnyAims(work: seq<Marker>, subject: Subject, env: Environment) {
    exists i :: 0 <= i < |work| && AimsAt(work[i], subject, env)
  }

  lemma JobTakesKeyIff(r: Run, m: Marker, env: Environment, subject: Subject)
    requires r.control.Alive? && Inv(r.stores) && m.markerId in r.stores.markers
    requires r.stores.markers[m.markerId] == m && Unfinalized(m)
    requires Reachable(env) && Process(r, m, env).control.Alive?
    ensures subject in Process(r, m, env).stores.keys <==> subject in r.stores.keys && !AimsAt(m, subject, env)
  {
    ProcessJob(r, m, env);
  }

  lemma AnyAimsExtends(work: seq<Marker>, subject: Subject, env: Environment)
    requires work != []
    ensures AnyAims(work, subject, env)
       <==> AnyAims(work[..|work| - 1], subject, env) || AimsAt(work[|work| - 1], subject, env)
  {
    var init := work[..|work| - 1];
    if i :| 0 <= i < |init| && AimsAt(init[i], subject, env) {
      assert AimsAt(work[i], subject, env);
    }
    if i :| 0 <= i < |work| && AimsAt(work[i], subject, env) && i < |init| {
      assert AimsAt(init[i], subject, env);
    }
  }

  lemma {:induction false} SweepOverTakesKeyIff(r: Run, work: seq<Marker>, env: Environment, subject: Subject)
    requires Inv(r.stores) && WorkList(r.stores, work) && Reachable(env) && SweepOver(r, work, env).control.Alive?
    ensures subject in SweepOver(r, work, env).stores.keys
       <==> subject in r.stores.keys && !AnyAims(work, subject, env)
  {
    if work != [] {
      var init, m := work[..|work| - 1], work[|work| - 1];
      var before := SweepOver(r, init, env);
      SweepOverTakesKeyIff(r, init, env, subject);
      SweepOverKeeps(r, init, env);
      LastUntouched(r.stores, before.stores, work);
      JobTakesKeyIff(before, m, env, subject);
      AnyAimsExtends(work, subject, env);
    }
  }

  /** A completed sweep takes a held key if and only if some pending marker of its holder has an attempt left
      that takes it. The sweep asks for the subject, not for the key the erasure was to destroy. */
  lemma SweepTakesKeyIff(s: Stores, env: Environment, budget: nat, subject: Subject)
    requires Inv(s) && Reachable(env) && Sweep(s, env, budget).control.Alive?
    ensures subject in Sweep(s, env, budget).stores.keys <==> subject in s.keys && !TakesKey(s, subject, env)
  {
    var work := ListUnfinalized(s, s.markerOrder);
    ListedIsWork(s, s.markerOrder);
    SweepOverTakesKeyIff(Run(s, Alive(budget)), work, env, subject);
    if i :| 0 <= i < |work| && AimsAt(work[i], subject, env) {
      assert AimsAt(s.markers[work[i].markerId], subject, env);
    }
    if id :| id in s.markers && AimsAt(s.markers[id], subject, env) {
      assert InWork(work, id);
    }
  }

  // ---------------------------------------------------------------- how long a sweep must live

  /** The most durable effects the retry loop makes. */
  ghost function RetryCost(id: string, retries: nat, env: Environment): (cost: nat)
    ensures retries <= MAX_DESTROY_RETRIES ==> cost <= 2 + 2 * (MAX_DESTROY_RETRIES - retries)
    decreases MAX_DESTROY_RETRIES - retries
  {
    if retries >= MAX_DESTROY_RETRIES then 1
    else if env.destroy(id, retries).RaisedKeyKept? then 2 + RetryCost(id, retries + 1, env)
    else 4
  }

  /** The most one marker's job makes: finding the key gone it confirms, commits and finalizes. */
  ghost function JobCost(m: Marker, env: Environment): (cost: nat)
    ensures m.retryCount <= MAX_DESTROY_RETRIES ==> cost <= 6
  {
    var retry := RetryCost(m.markerId, m.retryCount, env);
    if retry < 3 then 3 else retry
  }

  ghost function SweepCost(work: seq<Marker>, env: Environment): nat {
    if work == [] then 0 else SweepCost(work[..|work| - 1], env) + JobCost(work[|work| - 1], env)
  }

  /** The run goes on, having made at most `cost` effects. */
  ghost predicate Survives(r: Run, r': Run, cost: nat)
    requires r.control.Alive?
  {
    r'.control.Alive? && r'.control.budget + cost >= r.control.budget
  }

  lemma ConfirmSurvives(r: Run, m: Marker, retries: nat, env: Environment)
    requires r.control.Alive? && r.control.budget >= 3
    ensures Survives(r, ConfirmAndFinalize(r, m, retries, env), 3)
  {
  }

  lemma {:induction false} RetrySurvives(r: Run, m: Marker, retries: nat, env: Environment)
    requires r.control.Alive? && Reachable(env) && m.subject in r.stores.keys
    requires r.control.budget >= RetryCost(m.markerId, retries, env)
    ensures Survives(r, Retry(r, m, retries, env), RetryCost(m.markerId, retries, env))
    decreases MAX_DESTROY_RETRIES - retries, 1
  {
    RetryUnfolds(r, m, retries, env);
    if retries < MAX_DESTROY_RETRIES {
      var outcome := env.destroy(m.markerId, retries);
      var r1 := Effect(r, AfterDestroy(r.stores, m.subject, outcome));
      if outcome.RaisedKeyKept? {
        KeptAttemptSurvives(r1, m, retries, env);
      } else {
        ConfirmSurvives(r1, m, retries + 1, env);
        assert AfterAttempt(r1, m, retries, env) == ConfirmAndFinalize(r1, m, retries + 1, env);
      }
    }
  }

  lemma {:induction false} KeptAttemptSurvives(r1: Run, m: Marker, retries: nat, env: Environment)
    requires r1.control.Alive? && Reachable(env) && m.subject in r1.stores.keys && retries < MAX_DESTROY_RETRIES
    requires r1.control.budget >= 1 + RetryCost(m.markerId, retries + 1, env)
    ensures Survives(r1, AfterAttempt(r1, m, retries, env), 1 + RetryCost(m.markerId, retries + 1, env))
    decreases MAX_DESTROY_RETRIES - retries, 0
  {
    AttemptUnfolds(r1, m, retries, env);
    RetrySurvives(Effect(r1, Append(r1.stores, m.(status := Pending, retryCount := retries + 1))), m, retries + 1, env);
  }

  lemma ProcessSurvives(r: Run, m: Marker, env: Environment)
    requires r.control.Alive? && Reachable(env) && r.control.budget >= JobCost(m, env)
    ensures Survives(r, Process(r, m, env), JobCost(m, env))
  {
    match m.status
    case Pending =>
      if m.subject in r.stores.keys {
        RetrySurvives(r, m, m.retryCount, env);
      } else {
        ConfirmSurvives(r, m, m.retryCount, env);
      }
    case _ =>
  }

  /** A sweep that reaches the key store and lives for its jobs' effects, at most six each, completes. */
  lemma {:induction false} SweepCompletes(r: Run, work: seq<Marker>, env: Environment)
    requires r.control.Alive? && Reachable(env) && r.control.budget >= SweepCost(work, env)
    ensures Survives(r, SweepOver(r, work, env), SweepCost(work, env))
  {
    if work != [] {
      SweepCompletes(r, work[..|work| - 1], env);
      ProcessSurvives(SweepOver(r, work[..|work| - 1], env), work[|work| - 1], env);
    }
  }

  // ---------------------------------------------------------------- what a sweep commits

  ghost function Rows(committed: seq<Marker>): (rows: seq<ProvenanceRow>)
    ensures |rows| == |committed| && forall k :: 0 <= k < |committed| ==> rows[k] == RowFor(committed[k])
  {
    Mapped(committed, RowFor)
  }

  ghost predicate AnyOf(committed: seq<Marker>, subject: Subject) {
    exists k :: 0 <= k < |committed| && committed[k].subject == subject
  }

  ghost predicate CommitOf(committed: seq<Marker>, id: string) {
    exists k :: 0 <= k < |committed| && committed[k].markerId == id
  }

  /** The markers whose commit the sweep lives to make, in order. */
  ghost function SweepCommits(r: Run, work: seq<Marker>, env: Environment): seq<Marker> {
    if work == [] then []
    else
      var init, last := work[..|work| - 1], work[|work| - 1];
      var before := SweepOver(r, init, env);
      SweepCommits(r, init, env) + (if before.control.Alive? && CommitsNow(before, last, env) then [last] else [])
  }

  /** The provenance table grows by the rows of `committed`, and the index loses exactly their subjects. */
  ghost predicate Records(s: Stores, s': Stores, committed: seq<Marker>) {
    && s'.provenance == s.provenance + Rows(committed)
    && (forall x :: x in s'.bookkeeping <==> x in s.bookkeeping && !AnyOf(committed, x))
  }

  lemma AnyOfAppend(committed: seq<Marker>, m: Marker)
    ensures forall x :: AnyOf(committed + [m], x) <==> AnyOf(committed, x) || x == m.subject
    ensures Rows(committed + [m]) == Rows(committed) + [RowFor(m)]
  {
    forall x ensures AnyOf(committed + [m], x) <==> AnyOf(committed, x) || x == m.subject {
      assert (committed + [m])[|committed|] == m;
      if k :| 0 <= k < |committed| && committed[k].subject == x {
        assert (committed + [m])[k].subject == x;
      }
    }
  }

  lemma RecordsOneMore(s: Stores, s1: Stores, s2: Stores, committed: seq<Marker>, m: Marker, did: bool)
    requires Records(s, s1, committed) && Committed(s1, s2, m, did)
    ensures Records(s, s2, committed + (if did then [m] else []))
  {
    AnyOfAppend(committed, m);
    if !did {
      assert committed + [] == committed;
    }
  }

  /** A sweep writes one row for each commit it makes, in order, and touches the index nowhere else. */
  lemma {:induction false} SweepRecordsCommits(r: Run, work: seq<Marker>, env: Environment)
    ensures Records(r.stores, SweepOver(r, work, env).stores, SweepCommits(r, work, env))
  {
    if work != [] {
      var init, last := work[..|work| - 1], work[|work| - 1];
      var before := SweepOver(r, init, env);
      SweepRecordsCommits(r, init, env);
      if before.control.Alive? {
        ProcessCommits(before, last, env);
        RecordsOneMore(r.stores, before.stores, SweepOver(r, work, env).stores, SweepCommits(r, init, env), last,
                       CommitsNow(before, last, env));
      } else {
        assert SweepCommits(r, init, env) + [] == SweepCommits(r, init, env);
      }
    } else {
      assert Rows([]) == [];
    }
  }

  // ---------------------------------------------------------------- whole runs

  datatype Action =
    | EraseSubject(request: Request, env: Environment, budget: nat)
    | RecoverySweep(env: Environment, budget: nat)
    | MintKey(subject: Subject, key: Key)
    | IndexItem(subject: Subject, itemId: string)

  function Act(s: Stores, a: Action): Stores {
    match a
    case EraseSubject(q, env, budget) => Erase(s, q, env, budget).stores
    case RecoverySweep(env, budget) => Sweep(s, env, budget).stores
    case MintKey(subject, key) => if subject in s.keys then s else s.(keys := s.keys[subject := key])
    case IndexItem(subject, itemId) =>
      s.(subjectIndex := s.subjectIndex[subject := ItemsOf(s, subject) + [itemId]],
         bookkeeping := s.bookkeeping[subject := (if subject in s.bookkeeping then s.bookkeeping[subject] else {}) + {itemId}])
  }

  /** Marker ids are never reused, and items are indexed for subjects that hold a key. Everything may die
      anywhere, any port may fail, and an erased subject may come back under a new key. */
  ghost predicate Allowed(s: Stores, a: Action) {
    match a
    case EraseSubject(q, _, _) => q.markerId !in s.markers
    case RecoverySweep(_, _) => true
    case MintKey(_, _) => true
    case IndexItem(subject, _) => subject in s.keys
  }

  function After(s: Stores, actions: seq<Action>): Stores {
    if actions == [] then s else Act(After(s, actions[..|actions| - 1]), actions[|actions| - 1])
  }

  ghost predicate AllAllowed(s: Stores, actions: seq<Action>) {
    if actions == [] then true
    else
      var init := actions[..|actions| - 1];
      AllAllowed(s, init) && Allowed(After(s, init), actions[|actions| - 1])
  }

  /** No recovery sweep meets a commit error other than a duplicate key. */
  ghost predicate ReliableSweeps(actions: seq<Action>) {
    forall i :: 0 <= i < |actions| && actions[i].RecoverySweep? ==> Reliable(actions[i].env)
  }

  /** A deployment that has not erased anyone yet; its provenance table may hold other records. */
  ghost predicate Fresh(s: Stores) {
    && s.markers == map[] && s.markerOrder == [] && UniqueKeys(s.provenance)
    && forall i, id :: 0 <= i < |s.provenance| ==> s.provenance[i].provenanceId != PROVENANCE_PREFIX + id
  }

  lemma ActKeeps(s: Stores, a: Action)
    requires Inv(s) && Allowed(s, a)
    ensures Inv(Act(s, a))
    ensures NoRowLost(s) && (a.RecoverySweep? ==> Reliable(a.env)) ==> NoRowLost(Act(s, a))
  {
    match a
    case EraseSubject(q, env, budget) => EraseKeeps(s, q, env, budget);
    case RecoverySweep(env, budget) =>
      ListedIsWork(s, s.markerOrder);
      SweepOverKeeps(Run(s, Alive(budget)), ListUnfinalized(s, s.markerOrder), env);
    case MintKey(subject, key) =>
    case IndexItem(subject, itemId) =>
  }

  /** Every reachable state is sound, wherever operations died on the way; and no finalized marker has lost
      its row unless a sweep met a commit error it took for a duplicate. */
  lemma {:induction false} ReachableIsSound(s: Stores, actions: seq<Action>)
    requires Fresh(s) && AllAllowed(s, actions)
    ensures Inv(After(s, actions))
    ensures ReliableSweeps(actions) ==> NoRowLost(After(s, actions))
  {
    if actions != [] {
      var init := actions[..|actions| - 1];
      ReachableIsSound(s, init);
      ActKeeps(After(s, init), actions[|actions| - 1]);
    }
  }

  // ---------------------------------------------------------------- the commits of a run

  /** The commits one action lives to make. */
  ghost function ActCommits(s: Stores, a: Action): seq<Marker> {
    match a
    case EraseSubject(q, env, budget) => if StageReached(q, env, budget) >= 4 then [NewMarker(s, q)] else []
    case RecoverySweep(env, budget) => SweepCommits(Run(s, Alive(budget)), ListUnfinalized(s, s.markerOrder), env)
    case _ => []
  }

  ghost function AllCommits(s: Stores, actions: seq<Action>): seq<Marker> {
    if actions == [] then []
    else
      var init := actions[..|actions| - 1];
      AllCommits(s, init) + ActCommits(After(s, init), actions[|actions| - 1])
  }

  lemma EraseRecordsCommit(s: Stores, q: Request, env: Environment, budget: nat)
    requires Inv(s) && q.markerId !in s.markers
    ensures Records(s, Erase(s, q, env, budget).stores, ActCommits(s, EraseSubject(q, env, budget)))
  {
    var m := NewMarker(s, q);
    NoRowYet(s, q);
    EraseStopsAtAStage(s, q, env, budget);
    AnyOfAppend([], m);
    assert [] + [m] == [m] && Rows([]) == [];
  }

  lemma ActRecords(s: Stores, a: Action)
    requires Inv(s) && Allowed(s, a)
    ensures Act(s, a).provenance == s.provenance + Rows(ActCommits(s, a))
    ensures forall x :: x in Act(s, a).bookkeeping <==>
      (x in s.bookkeeping && !AnyOf(ActCommits(s, a), x)) || (a.IndexItem? && x == a.subject)
  {
    match a
    case EraseSubject(q, env, budget) => EraseRecordsCommit(s, q, env, budget);
    case RecoverySweep(env, budget) =>
      SweepRecordsCommits(Run(s, Alive(budget)), ListUnfinalized(s, s.markerOrder), env);
    case MintKey(_, _) => assert Rows([]) == [];
    case IndexItem(_, _) => assert Rows([]) == [];
  }

  lemma TableGrows(table: seq<ProvenanceRow>, a: seq<Marker>, after: seq<ProvenanceRow>, b: seq<Marker>,
                   end: seq<ProvenanceRow>)
    requires after == table + Rows(a) && end == after + Rows(b)
    ensures end == table + Rows(a + b)
  {
  }

  /** In every reachable state the provenance table is what was there at first, and one row for each commit
      that went through, in order. */
  lemma {:induction false} ProvenanceIsCommits(s: Stores, actions: seq<Action>)
    requires Fresh(s) && AllAllowed(s, actions)
    ensures After(s, actions).provenance == s.provenance + Rows(AllCommits(s, actions))
  {
    if actions == [] {
      assert Rows([]) == [];
    } else {
      var init, last := actions[..|actions| - 1], actions[|actions| - 1];
      ProvenanceIsCommits(s, init);
      ReachableIsSound(s, init);
      ActRecords(After(s, init), last);
      TableGrows(s.provenance, AllCommits(s, init), After(s, init).provenance, ActCommits(After(s, init), last),
                 After(s, actions).provenance);
    }
  }

  lemma {:induction false} CommitHasPlace(s: Stores, actions: seq<Action>, k: nat) returns (i: nat)
    requires Fresh(s) && AllAllowed(s, actions) && k < |AllCommits(s, actions)|
    ensures i < |After(s, actions).provenance| && After(s, actions).provenance[i] == RowFor(AllCommits(s, actions)[k])
  {
    ProvenanceIsCommits(s, actions);
    i := |s.provenance| + k;
  }

  /** The committed marker is stored, its key is gone, and its row is there. */
  ghost predicate CommitKept(s: Stores, m: Marker) {
    match m
    case Marker(id, subject, _, _, _, _) =>
      && id in s.markers && s.markers[id].subject == subject
      && KeyGone(s.markers[id].status) && HasRow(s.provenance, RowFor(s.markers[id]))
  }

  lemma {:induction false} CommitIsStored(s: Stores, actions: seq<Action>, k: nat)
    requires Fresh(s) && AllAllowed(s, actions) && k < |AllCommits(s, actions)|
    ensures CommitKept(After(s, actions), AllCommits(s, actions)[k])
  {
    ReachableIsSound(s, actions);
    var i := CommitHasPlace(s, actions, k);
    StoredRowIsMarkers(After(s, actions), AllCommits(s, actions)[k], i);
  }

  lemma StoredRowIsMarkers(s: Stores, m: Marker, i: nat)
    requires Inv(s) && i < |s.provenance| && s.provenance[i] == RowFor(m)
    ensures CommitKept(s, m)
  {
    assert s.provenance[i].provenanceId == PROVENANCE_PREFIX + m.markerId;
    RowNamesSubject(m, s.markers[m.markerId]);
    assert SameKey(s.provenance[i], RowFor(s.markers[m.markerId]));
  }

  lemma RowNamesSubject(a: Marker, b: Marker)
    requires RowFor(a) == RowFor(b)
    ensures a.subject == b.subject
  {
    var prefix := "subject:";
    assert (prefix + a.subject.subjectId)[|prefix|..] == a.subject.subjectId;
    assert (prefix + b.subject.subjectId)[|prefix|..] == b.subject.subjectId;
  }

  /** So a marker has its row exactly when a commit for it went through. */
  lemma HasRowIffCommitted(s: Stores, actions: seq<Action>, id: string)
    requires Fresh(s) && AllAllowed(s, actions) && id in After(s, actions).markers
    ensures HasRow(After(s, actions).provenance, RowFor(After(s, actions).markers[id]))
       <==> CommitOf(AllCommits(s, actions), id)
  {
    if k :| 0 <= k < |AllCommits(s, actions)| && AllCommits(s, actions)[k].markerId == id {
      CommitIsStored(s, actions, k);
    } else {
      ReachableIsSound(s, actions);
      ProvenanceIsCommits(s, actions);
      UncommittedHasNoRow(s.provenance, AllCommits(s, actions), After(s, actions).markers[id]);
    }
  }

  lemma UncommittedHasNoRow(before: seq<ProvenanceRow>, committed: seq<Marker>, m: Marker)
    requires !CommitOf(committed, m.markerId)
    requires forall i, id :: 0 <= i < |before| ==> before[i].provenanceId != PROVENANCE_PREFIX + id
    ensures !HasRow(before + Rows(committed), RowFor(m))
  {
    var table := before + Rows(committed);
    if i :| 0 <= i < |table| && SameKey(table[i], RowFor(m)) {
      if i >= |before| {
        PrefixInjective(committed[i - |before|].markerId, m.markerId);
      }
    }
  }

  // ---------------------------------------------------------------- subjects that never come back

  /** A subject whose key is confirmed gone. */
  ghost predicate Erased(s: Stores, subject: Subject) {
    exists id :: id in s.markers && s.markers[id].subject == subject && KeyGone(s.markers[id].status)
  }

  ghost predicate NoReturn(s: Stores, actions: seq<Action>) {
    if actions == [] then true
    else
      var init, last := actions[..|actions| - 1], actions[|actions| - 1];
      NoReturn(s, init) && (last.MintKey? ==> !Erased(After(s, init), last.subject))
  }

  /** Nobody whose key was confirmed gone holds one. */
  ghost predicate Shredded(s: Stores) {
    forall id :: id in s.markers && KeyGone(s.markers[id].status) ==> s.markers[id].subject !in s.keys
  }

  /** What no operation but minting and indexing can do: keys only go, and a marker confirms its key's
      destruction only when its subject has none. */
  ghost predicate Advance(s: Stores, s': Stores) {
    && s'.keys.Keys <= s.keys.Keys && (forall x :: x in s'.keys ==> s'.keys[x] == s.keys[x])
    && (forall id :: id in s.markers ==>
          && id in s'.markers && SameErasure(s'.markers[id], s.markers[id])
          && (KeyGone(s.markers[id].status) ==> KeyGone(s'.markers[id].status)))
    && (forall id :: id in s'.markers && KeyGone(s'.markers[id].status) ==>
          || s'.markers[id].subject !in s'.keys
          || (id in s.markers && KeyGone(s.markers[id].status)))
  }

  lemma StageAdvances(s: Stores, q: Request, k: nat)
    requires q.markerId !in s.markers
    ensures Advance(s, Stage(s, q, k))
    ensures forall id :: id in Stage(s, q, k).markers && id !in s.markers ==>
              id == q.markerId && Stage(s, q, k).markers[id].subject == q.subject
  {
  }

  lemma EraseAdvances(s: Stores, q: Request, env: Environment, budget: nat)
    requires Inv(s) && q.markerId !in s.markers
    ensures var end := Erase(s, q, env, budget).stores;
            && Advance(s, end)
            && forall id :: id in end.markers && id !in s.markers ==>
                 id == q.markerId && end.markers[id].subject == q.subject
  {
    NoRowYet(s, q);
    EraseStopsAtAStage(s, q, env, budget);
    StageAdvances(s, q, StageReached(q, env, budget));
  }

  lemma SweepStepAdvances(s: Stores, s': Stores, work: seq<Marker>)
    requires SweepStep(s, s', work)
    ensures Advance(s, s') && s'.markers.Keys == s.markers.Keys
  {
  }

  lemma SweepAdvances(s: Stores, env: Environment, budget: nat)
    requires Inv(s)
    ensures Advance(s, Sweep(s, env, budget).stores) && Sweep(s, env, budget).stores.markers.Keys == s.markers.Keys
  {
    var work := ListUnfinalized(s, s.markerOrder);
    ListedIsWork(s, s.markerOrder);
    SweepOverKeeps(Run(s, Alive(budget)), work, env);
    SweepStepAdvances(s, Sweep(s, env, budget).stores, work);
  }

  /** An erasure or a sweep: what it may add is the erasure's own marker. */
  lemma OperationAdvances(s: Stores, a: Action)
    requires Inv(s) && Allowed(s, a) && (a.EraseSubject? || a.RecoverySweep?)
    ensures Advance(s, Act(s, a))
    ensures forall id :: id in Act(s, a).markers && id !in s.markers ==>
              a.EraseSubject? && id == a.request.markerId && Act(s, a).markers[id].subject == a.request.subject
  {
    match a
    case EraseSubject(q, env, budget) => EraseAdvances(s, q, env, budget);
    case RecoverySweep(env, budget) => SweepAdvances(s, env, budget);
  }

  lemma {:induction false} ErasedHoldNoKey(s: Stores, actions: seq<Action>)
    requires Fresh(s) && AllAllowed(s, actions) && NoReturn(s, actions)
    ensures Shredded(After(s, actions))
  {
    if actions != [] {
      var init, last := actions[..|actions| - 1], actions[|actions| - 1];
      ErasedHoldNoKey(s, init);
      ReachableIsSound(s, init);
      if last.EraseSubject? || last.RecoverySweep? {
        OperationAdvances(After(s, init), last);
      }
    }
  }

  ghost predicate EverIndexed(s: Stores, actions: seq<Action>, subject: Subject) {
    subject in s.bookkeeping || exists i :: 0 <= i < |actions| && actions[i].IndexItem? && actions[i].subject == subject
  }

  lemma EverIndexedStep(s: Stores, actions: seq<Action>, subject: Subject)
    requires actions != []
    ensures var init, last := actions[..|actions| - 1], actions[|actions| - 1];
            EverIndexed(s, actions, subject)
            <==> EverIndexed(s, init, subject) || (last.IndexItem? && last.subject == subject)
  {
    var init := actions[..|actions| - 1];
    if i :| 0 <= i < |init| && init[i].IndexItem? && init[i].subject == subject {
      assert actions[i].IndexItem? && actions[i].subject == subject;
    }
    if i :| 0 <= i < |actions| && actions[i].IndexItem? && actions[i].subject == subject && i < |init| {
      assert init[i].IndexItem? && init[i].subject == subject;
    }
  }

  lemma AnyOfConcat(a: seq<Marker>, b: seq<Marker>, subject: Subject)
    ensures AnyOf(a + b, subject) <==> AnyOf(a, subject) || AnyOf(b, subject)
  {
    if k :| 0 <= k < |a| && a[k].subject == subject {
      assert (a + b)[k].subject == subject;
    }
    if k :| 0 <= k < |b| && b[k].subject == subject {
      assert (a + b)[|a| + k].subject == subject;
    }
    if k :| 0 <= k < |a + b| && (a + b)[k].subject == subject {
      assert if k < |a| then a[k].subject == subject else b[k - |a|].subject == subject;
    }
  }

  lemma CommittedIsErased(s: Stores, actions: seq<Action>, subject: Subject)
    requires Fresh(s) && AllAllowed(s, actions) && AnyOf(AllCommits(s, actions), subject)
    ensures Erased(After(s, actions), subject)
  {
    var k :| 0 <= k < |AllCommits(s, actions)| && AllCommits(s, actions)[k].subject == subject;
    CommitIsStored(s, actions, k);
  }

  /** When erased subjects do not come back, a subject's index rows are gone exactly when it never had any or
      a commit for one of its erasures went through. */
  lemma {:induction false} IndexClearedIffCommitted(s: Stores, actions: seq<Action>, subject: Subject)
    requires Fresh(s) && AllAllowed(s, actions) && NoReturn(s, actions)
    ensures subject in After(s, actions).bookkeeping
       <==> EverIndexed(s, actions, subject) && !AnyOf(AllCommits(s, actions), subject)
  {
    if actions != [] {
      var init, last := actions[..|actions| - 1], actions[|actions| - 1];
      IndexClearedIffCommitted(s, init, subject);
      ReachableIsSound(s, init);
      ActRecords(After(s, init), last);
      EverIndexedStep(s, actions, subject);
      AnyOfConcat(AllCommits(s, init), ActCommits(After(s, init), last), subject);
      if last.IndexItem? && last.subject == subject && AnyOf(AllCommits(s, init), subject) {
        CommittedIsErased(s, init, subject);
        ErasedHoldNoKey(s, init);
      }
    }
  }

  // ---------------------------------------------------------------- keys by identity

  ghost predicate OneHolderEach(keys: map<Subject, Key>) {
    forall x, y :: x in keys && y in keys && keys[x] == keys[y] ==> x == y
  }

  ghost function Issued(s: Stores, actions: seq<Action>): set<Key> {
    if actions == [] then s.keys.Values
    else
      var last := actions[|actions| - 1];
      Issued(s, actions[..|actions| - 1]) + (if last.MintKey? then {last.key} else {})
  }

  /** Minted keys are new: no key is ever generated twice. */
  ghost predicate NewKeys(s: Stores, actions: seq<Action>) {
    if actions == [] then OneHolderEach(s.keys)
    else
      var init, last := actions[..|actions| - 1], actions[|actions| - 1];
      NewKeys(s, init) && (last.MintKey? ==> last.key !in Issued(s, init))
  }

  /** The key an erasure was asked to destroy: what its subject held when the marker was written. */
  ghost function Target(s: Stores, actions: seq<Action>, id: string): set<Key> {
    if actions == [] then {}
    else
      var init, last := actions[..|actions| - 1], actions[|actions| - 1];
      var before := After(s, init);
      if id in before.markers then Target(s, init, id)
      else if last.EraseSubject? && last.request.markerId == id && last.request.subject in before.keys
      then {before.keys[last.request.subject]}
      else {}
  }

  /** A target was issued, is held by its subject or nobody, and by nobody once confirmed gone. */
  ghost predicate TargetOk(s: Stores, issued: set<Key>, id: string, target: Key)
    requires id in s.markers
  {
    && target in issued
    && forall x :: x in s.keys && s.keys[x] == target ==>
         x == s.markers[id].subject && !KeyGone(s.markers[id].status)
  }

  ghost predicate TargetsOk(s: Stores, actions: seq<Action>) {
    var now := After(s, actions);
    && OneHolderEach(now.keys)
    && (forall x :: x in now.keys ==> now.keys[x] in Issued(s, actions))
    && (forall id, target :: id in now.markers && target in Target(s, actions, id) ==>
          TargetOk(now, Issued(s, actions), id, target))
  }

  lemma OperationKeepsTarget(s: Stores, s': Stores, issued: set<Key>, id: string, target: Key)
    requires Advance(s, s') && id in s.markers && TargetOk(s, issued, id, target)
    ensures TargetOk(s', issued, id, target)
  {
  }

  lemma NewTargetOk(s: Stores, s': Stores, issued: set<Key>, id: string, subject: Subject)
    requires Advance(s, s') && OneHolderEach(s.keys) && (forall x :: x in s.keys ==> s.keys[x] in issued)
    requires id !in s.markers && id in s'.markers && s'.markers[id].subject == subject && subject in s.keys
    ensures TargetOk(s', issued, id, s.keys[subject])
  {
  }

  lemma OperationKeepsTargets(s: Stores, actions: seq<Action>)
    requires actions != [] && Fresh(s) && AllAllowed(s, actions)
    requires TargetsOk(s, actions[..|actions| - 1])
    requires actions[|actions| - 1].EraseSubject? || actions[|actions| - 1].RecoverySweep?
    ensures TargetsOk(s, actions)
  {
    var init, last := actions[..|actions| - 1], actions[|actions| - 1];
    var before, now, issued := After(s, init), After(s, actions), Issued(s, actions);
    ReachableIsSound(s, init);
    OperationAdvances(before, last);
    assert issued == Issued(s, init);
    forall id, target | id in now.markers && target in Target(s, actions, id) ensures TargetOk(now, issued, id, target) {
      if id in before.markers {
        OperationKeepsTarget(before, now, issued, id, target);
      } else {
        NewTargetOk(before, now, issued, id, last.request.subject);
      }
    }
  }

  lemma MintKeepsTargets(s: Stores, actions: seq<Action>)
    requires actions != [] && NewKeys(s, actions) && TargetsOk(s, actions[..|actions| - 1])
    requires actions[|actions| - 1].MintKey? || actions[|actions| - 1].IndexItem?
    ensures TargetsOk(s, actions)
  {
    var init := actions[..|actions| - 1];
    var before, now := After(s, init), After(s, actions);
    forall id, target | id in now.markers && target in Target(s, actions, id)
      ensures TargetOk(now, Issued(s, actions), id, target)
    {
      assert TargetOk(before, Issued(s, init), id, target);
    }
  }

  lemma {:induction false} ReachableTargets(s: Stores, actions: seq<Action>)
    requires Fresh(s) && AllAllowed(s, actions) && NewKeys(s, actions)
    ensures TargetsOk(s, actions)
  {
    if actions != [] {
      ReachableTargets(s, actions[..|actions| - 1]);
      if actions[|actions| - 1].EraseSubject? || actions[|actions| - 1].RecoverySweep? {
        OperationKeepsTargets(s, actions);
      } else {
        MintKeepsTargets(s, actions);
      }
    }
  }

  /** A key confirmed destroyed is held by nobody, ever again: also when its subject comes back under a new
      key and is erased once more. */
  lemma {:induction false} DestroyedKeyNeverReturns(s: Stores, actions: seq<Action>, n: nat, id: string, target: Key)
    requires Fresh(s) && AllAllowed(s, actions) && NewKeys(s, actions) && n <= |actions|
    requires id in After(s, actions[..n]).markers && KeyGone(After(s, actions[..n]).markers[id].status)
    requires target in Target(s, actions[..n], id)
    ensures target !in After(s, actions).keys.Values
  {
    StaysDestroyed(s, actions, n, id, target);
    ReachableTargets(s, actions);
    assert TargetOk(After(s, actions), Issued(s, actions), id, target);
  }

  lemma {:induction false} StaysDestroyed(s: Stores, actions: seq<Action>, n: nat, id: string, target: Key)
    requires Fresh(s) && AllAllowed(s, actions) && n <= |actions|
    requires id in After(s, actions[..n]).markers && KeyGone(After(s, actions[..n]).markers[id].status)
    requires target in Target(s, actions[..n], id)
    ensures id in After(s, actions).markers && KeyGone(After(s, actions).markers[id].status)
    ensures target in Target(s, actions, id)
  {
    if n == |actions| {
      assert actions[..n] == actions;
    } else {
      var init := actions[..|actions| - 1];
      assert init[..n] == actions[..n];
      StaysDestroyed(s, init, n, id, target);
      StatusStaysGone(s, init, actions[|actions| - 1], id);
    }
  }

  lemma StatusStaysGone(s: Stores, actions: seq<Action>, last: Action, id: string)
    requires Fresh(s) && AllAllowed(s, actions) && Allowed(After(s, actions), last)
    requires id in After(s, actions).markers && KeyGone(After(s, actions).markers[id].status)
    ensures id in Act(After(s, actions), last).markers && KeyGone(Act(After(s, actions), last).markers[id].status)
  {
    ReachableIsSound(s, actions);
    if last.EraseSubject? || last.RecoverySweep? {
      OperationAdvances(After(s, actions), last);
    }
  }

  // ---------------------------------------------------------------- main results

  ghost function CountRows(table: seq<ProvenanceRow>, row: ProvenanceRow): nat {
    if table == [] then 0
    else CountRows(table[..|table| - 1], row) + (if SameKey(table[|table| - 1], row) then 1 else 0)
  }

  lemma {:induction false} UniqueCount(table: seq<ProvenanceRow>, row: ProvenanceRow)
    requires UniqueKeys(table)
    ensures CountRows(table, row) == if HasRow(table, row) then 1 else 0
  {
    if table != [] {
      var init, last := table[..|table| - 1], table[|table| - 1];
      UniqueCount(init, row);
      if SameKey(last, row) {
        assert forall i :: 0 <= i < |init| ==> !SameKey(table[i], last);
      } else if HasRow(table, row) {
        var i :| 0 <= i < |table| && SameKey(table[i], row);
        assert SameKey(init[i], row);
      }
    }
  }

  /** What a completed recovery sweep leaves of one marker: finalized, with as many rows as commits for it
      went through, one or none; or failed after every attempt, with none. */
  ghost predicate Resolved(end: Stores, m: Marker, committed: bool) {
    && (m.status.Finalized? || (m.status.Failed? && m.retryCount == MAX_DESTROY_RETRIES))
    && CountRows(end.provenance, RowFor(m)) == (if committed then 1 else 0)
    && (m.status.Failed? ==> !committed)
  }

  /** After any history of erasures, sweeps and new keys, with deaths at any point and any port failing, a
      recovery sweep that reaches the key store and runs to its end resolves every marker. A marker fails
      exactly when, at its turn, its key was still there and every attempt left to the policy kept it; a
      finalized marker has its row exactly when some commit for it went through. */
  lemma RecoveryResolvesEveryErasure(s0: Stores, actions: seq<Action>, env: Environment, budget: nat)
    requires Fresh(s0) && AllAllowed(s0, actions) && Reachable(env)
    requires Sweep(After(s0, actions), env, budget).control.Alive?
    ensures var s := After(s0, actions);
            var end := Sweep(s, env, budget).stores;
            var work := ListUnfinalized(s, s.markerOrder);
            && end.markers.Keys == s.markers.Keys
            && (forall id :: id in end.markers ==>
                  && SameErasure(end.markers[id], s.markers[id])
                  && Resolved(end, end.markers[id], CommitOf(AllCommits(s0, actions + [RecoverySweep(env, budget)]), id)))
            && (forall i :: 0 <= i < |work| ==> Settled(Run(s, Alive(budget)), work, env, i, end))
  {
    var s := After(s0, actions);
    var work := ListUnfinalized(s, s.markerOrder);
    var end := Sweep(s, env, budget).stores;
    ReachableIsSound(s0, actions);
    ListedIsWork(s, s.markerOrder);
    SweepOverKeeps(Run(s, Alive(budget)), work, env);
    forall i | 0 <= i < |work| ensures Settled(Run(s, Alive(budget)), work, env, i, end) {
      SweepOverSettles(Run(s, Alive(budget)), work, env, i);
    }
    forall id | id in end.markers
      ensures Resolved(end, end.markers[id], CommitOf(AllCommits(s0, actions + [RecoverySweep(env, budget)]), id))
    {
      SweepResolves(s0, actions, env, budget, id);
    }
  }

  lemma SweepEndsMarker(s: Stores, env: Environment, budget: nat, id: string)
    requires Inv(s) && Reachable(env) && Sweep(s, env, budget).control.Alive? && id in s.markers
    ensures var end := Sweep(s, env, budget).stores;
            && id in end.markers
            && (end.markers[id].status.Finalized?
                || (end.markers[id].status.Failed? && end.markers[id].retryCount == MAX_DESTROY_RETRIES))
  {
    var work := ListUnfinalized(s, s.markerOrder);
    ListedIsWork(s, s.markerOrder);
    SweepOverKeeps(Run(s, Alive(budget)), work, env);
    if InWork(work, id) {
      var i :| 0 <= i < |work| && work[i].markerId == id;
      SweepOverSettles(Run(s, Alive(budget)), work, env, i);
    }
  }

  /** How many attempts a marker has on record when its job has ended. */
  ghost function AttemptsMade(id: string, retries: nat, env: Environment): nat
    decreases MAX_DESTROY_RETRIES - retries
  {
    if retries >= MAX_DESTROY_RETRIES then retries
    else if !env.destroy(id, retries).RaisedKeyKept? then retries + 1
    else AttemptsMade(id, retries + 1, env)
  }

  lemma FinalizeRecords(r: Run, m: Marker, env: Environment)
    requires r.control.Alive? && FinalizeOnly(r, m, env).control.Alive?
    ensures var end := FinalizeOnly(r, m, env).stores;
            m.markerId in end.markers && end.markers[m.markerId] == m.(status := Finalized)
  {
  }

  lemma ConfirmRecords(r: Run, m: Marker, retries: nat, env: Environment)
    requires r.control.Alive? && ConfirmAndFinalize(r, m, retries, env).control.Alive?
    ensures var end := ConfirmAndFinalize(r, m, retries, env).stores;
            m.markerId in end.markers && end.markers[m.markerId] == m.(status := Finalized, retryCount := retries)
  {
    var confirmed := m.(status := DestroyConfirmed, retryCount := retries);
    FinalizeRecords(Effect(r, Append(r.stores, confirmed)), confirmed, env);
  }

  lemma {:induction false} RetryRecords(r: Run, m: Marker, retries: nat, env: Environment)
    requires r.control.Alive? && Reachable(env) && m.subject in r.stores.keys && Retry(r, m, retries, env).control.Alive?
    ensures var end := Retry(r, m, retries, env).stores;
            m.markerId in end.markers && end.markers[m.markerId].retryCount == AttemptsMade(m.markerId, retries, env)
    decreases MAX_DESTROY_RETRIES - retries, 1
  {
    RetryUnfolds(r, m, retries, env);
    if retries < MAX_DESTROY_RETRIES {
      var outcome := env.destroy(m.markerId, retries);
      var r1 := Effect(r, AfterDestroy(r.stores, m.subject, outcome));
      if outcome.RaisedKeyKept? {
        KeptAttemptRecords(r1, m, retries, env);
      } else {
        assert AfterAttempt(r1, m, retries, env) == ConfirmAndFinalize(r1, m, retries + 1, env);
        ConfirmRecords(r1, m, retries + 1, env);
      }
    }
  }

  lemma {:induction false} KeptAttemptRecords(r1: Run, m: Marker, retries: nat, env: Environment)
    requires r1.control.Alive? && Reachable(env) && m.subject in r1.stores.keys && retries < MAX_DESTROY_RETRIES
    requires AfterAttempt(r1, m, retries, env).control.Alive?
    ensures var end := AfterAttempt(r1, m, retries, env).stores;
            m.markerId in end.markers && end.markers[m.markerId].retryCount == AttemptsMade(m.markerId, retries + 1, env)
    decreases MAX_DESTROY_RETRIES - retries, 0
  {
    AttemptUnfolds(r1, m, retries, env);
    RetryRecords(Effect(r1, Append(r1.stores, m.(status := Pending, retryCount := retries + 1))), m, retries + 1, env);
  }

  lemma LastJobKeeps(r: Run, work: seq<Marker>, env: Environment, id: string)
    requires Inv(r.stores) && WorkList(r.stores, work) && work != [] && SweepOver(r, work, env).control.Alive?
    requires id in r.stores.markers && id != work[|work| - 1].markerId
    ensures var end, before := SweepOver(r, work, env), SweepOver(r, work[..|work| - 1], env);
            && before.control.Alive? && id in end.stores.markers && id in before.stores.markers
            && end.stores.markers[id] == before.stores.markers[id]
  {
    var init := work[..|work| - 1];
    var before := SweepOver(r, init, env);
    SweepOverKeeps(r, init, env);
    LastUntouched(r.stores, before.stores, work);
    ProcessJob(before, work[|work| - 1], env);
  }

  /** What happens to a marker after its turn: nothing. */
  lemma {:induction false} LaterJobsKeep(r: Run, work: seq<Marker>, env: Environment, i: nat)
    requires Inv(r.stores) && WorkList(r.stores, work) && i < |work| && SweepOver(r, work, env).control.Alive?
    ensures var id, end, after := work[i].markerId, SweepOver(r, work, env), SweepOver(r, work[..i + 1], env);
            && after.control.Alive? && id in end.stores.markers && id in after.stores.markers
            && end.stores.markers[id] == after.stores.markers[id]
  {
    if i < |work| - 1 {
      var init := work[..|work| - 1];
      LastJobKeeps(r, work, env, work[i].markerId);
      LaterJobsKeep(r, init, env, i);
      assert init[..i + 1] == work[..i + 1];
    } else {
      SweepOverKeeps(r, work, env);
      assert work[..i + 1] == work;
    }
  }

  lemma TurnRecords(r: Run, work: seq<Marker>, env: Environment, i: nat)
    requires Inv(r.stores) && WorkList(r.stores, work) && Reachable(env) && i < |work| && SweepOver(r, work, env).control.Alive?
    requires work[i].status.Pending? && work[i].subject in SweepOver(r, work[..i], env).stores.keys
    ensures var end := SweepOver(r, work, env).stores;
            && work[i].markerId in end.markers
            && end.markers[work[i].markerId].retryCount == AttemptsMade(work[i].markerId, work[i].retryCount, env)
  {
    var upTo := work[..i + 1];
    LaterJobsKeep(r, work, env, i);
    assert upTo[..i] == work[..i] && upTo[|upTo| - 1] == work[i];
    RetryRecords(SweepOver(r, work[..i], env), work[i], work[i].retryCount, env);
  }

  /** No other pending marker names its subject. */
  ghost predicate OnlyPending(s: Stores, id: string)
    requires id in s.markers
  {
    forall x :: x in s.markers && x != id && s.markers[x].subject == s.markers[id].subject ==> !s.markers[x].status.Pending?
  }

  /** Whether an attempt still open to a marker retried `retries` times, of the two there are, takes the key. */
  ghost predicate OneOfTwoTakes(env: Environment, id: string, retries: nat) {
    || (retries == 0 && !env.destroy(id, 0).RaisedKeyKept?)
    || (retries <= 1 && !env.destroy(id, 1).RaisedKeyKept?)
  }

  lemma OneOfTwoIff(m: Marker, env: Environment)
    ensures OneOfTwoTakes(env, m.markerId, m.retryCount) <==> !AllAttemptsKeepKey(m, m.retryCount, env)
  {
  }

  lemma AloneHoldsUntilTurn(s: Stores, env: Environment, budget: nat, i: nat)
    requires Inv(s) && Reachable(env) && i < |ListUnfinalized(s, s.markerOrder)|
    requires var m := ListUnfinalized(s, s.markerOrder)[i];
             m.markerId in s.markers && OnlyPending(s, m.markerId) && m.subject in s.keys
    requires SweepOver(Run(s, Alive(budget)), ListUnfinalized(s, s.markerOrder)[..i], env).control.Alive?
    ensures var work := ListUnfinalized(s, s.markerOrder);
            work[i].subject in SweepOver(Run(s, Alive(budget)), work[..i], env).stores.keys
  {
    var work := ListUnfinalized(s, s.markerOrder);
    ListedIsWork(s, s.markerOrder);
    SweepOverTakesKeyIff(Run(s, Alive(budget)), work[..i], env, work[i].subject);
    if k :| 0 <= k < i && AimsAt(work[..i][k], work[i].subject, env) {
      assert work[k].markerId != work[i].markerId && s.markers[work[k].markerId] == work[k];
    }
  }

  /** What a sweep makes of a marker whose key is held when its turn comes. */
  lemma OwnTurn(s: Stores, env: Environment, budget: nat, i: nat)
    requires Inv(s) && Reachable(env) && Sweep(s, env, budget).control.Alive? && i < |ListUnfinalized(s, s.markerOrder)|
    requires var m := ListUnfinalized(s, s.markerOrder)[i];
             m.markerId in s.markers && m.status.Pending? && OnlyPending(s, m.markerId) && m.subject in s.keys
    ensures var m, end := ListUnfinalized(s, s.markerOrder)[i], Sweep(s, env, budget).stores;
            && Inv(end) && m.markerId in end.markers && RowFor(end.markers[m.markerId]) == RowFor(m)
            && end.markers[m.markerId].retryCount == AttemptsMade(m.markerId, m.retryCount, env)
            && if AllAttemptsKeepKey(m, m.retryCount, env) then end.markers[m.markerId].status.Failed?
               else && end.markers[m.markerId].status.Finalized?
                    && (!env.commitFails(m.markerId) ==> HasRow(end.provenance, RowFor(m)))
  {
    var work := ListUnfinalized(s, s.markerOrder);
    ListedIsWork(s, s.markerOrder);
    SweepOverKeeps(Run(s, Alive(budget)), work, env);
    SweepOverSettles(Run(s, Alive(budget)), work, env, i);
    AloneHoldsUntilTurn(s, env, budget, i);
    TurnRecords(Run(s, Alive(budget)), work, env, i);
  }

  lemma OwnKey(s: Stores, env: Environment, budget: nat, id: string)
    requires Inv(s) && Reachable(env) && Sweep(s, env, budget).control.Alive?
    requires id in s.markers && s.markers[id].status.Pending? && s.markers[id].subject in s.keys && OnlyPending(s, id)
    ensures s.markers[id].subject in Sweep(s, env, budget).stores.keys
       <==> AllAttemptsKeepKey(s.markers[id], s.markers[id].retryCount, env)
  {
    SweepTakesKeyIff(s, env, budget, s.markers[id].subject);
    if !AllAttemptsKeepKey(s.markers[id], s.markers[id].retryCount, env) {
      assert AimsAt(s.markers[id], s.markers[id].subject, env);
    }
  }

  /** Two attempts, no more and no fewer: a completed sweep over a pending marker whose key is held finalizes it
      if an attempt still open to it takes the key, and then its row is there unless its commit fails; otherwise
      it leaves the marker failed after two, the key held and no row. */
  lemma TwoAttemptsDecide(s: Stores, env: Environment, budget: nat, id: string)
    requires Inv(s) && Reachable(env) && Sweep(s, env, budget).control.Alive?
    requires id in s.markers && s.markers[id].status.Pending? && s.markers[id].subject in s.keys && OnlyPending(s, id)
    ensures var m, end := s.markers[id], Sweep(s, env, budget).stores;
            && id in end.markers
            && if OneOfTwoTakes(env, id, m.retryCount)
               then end.markers[id].status == Finalized && m.subject !in end.keys
                    && (!env.commitFails(id) ==> HasRow(end.provenance, RowFor(m)))
                    && end.markers[id].retryCount == if m.retryCount == 0 && !env.destroy(id, 0).RaisedKeyKept? then 1 else 2
               else end.markers[id].status == Failed && end.markers[id].retryCount == 2 && m.subject in end.keys
                    && !HasRow(end.provenance, RowFor(m))
  {
    var m, end, work := s.markers[id], Sweep(s, env, budget).stores, ListUnfinalized(s, s.markerOrder);
    ListedIsWork(s, s.markerOrder);
    assert InWork(work, id);
    var i :| 0 <= i < |work| && work[i].markerId == id;
    OwnTurn(s, env, budget, i);
    OwnKey(s, env, budget, id);
    OneOfTwoIff(m, env);
    if !OneOfTwoTakes(env, id, m.retryCount) {
      FailedHasNoRow(end, id);
    }
  }

  /** With several pending erasures of one subject: its key outlives a completed sweep exactly if none of them
      has one of its two attempts take it. */
  lemma KeySurvivesIff(s: Stores, env: Environment, budget: nat, subject: Subject)
    requires Inv(s) && Reachable(env) && Sweep(s, env, budget).control.Alive?
    ensures subject in Sweep(s, env, budget).stores.keys <==>
      && subject in s.keys
      && forall id :: id in s.markers && s.markers[id].subject == subject && s.markers[id].status.Pending? ==>
           !OneOfTwoTakes(env, id, s.markers[id].retryCount)
  {
    SweepTakesKeyIff(s, env, budget, subject);
    forall id | id in s.markers
      ensures AimsAt(s.markers[id], subject, env) <==>
        && s.markers[id].subject == subject && s.markers[id].status.Pending?
        && OneOfTwoTakes(env, id, s.markers[id].retryCount)
    {
      OneOfTwoIff(s.markers[id], env);
    }
  }

  lemma SweepResolves(s0: Stores, actions: seq<Action>, env: Environment, budget: nat, id: string)
    requires Fresh(s0) && AllAllowed(s0, actions) && Reachable(env) && id in After(s0, actions).markers
    requires Sweep(After(s0, actions), env, budget).control.Alive?
    ensures var end := Sweep(After(s0, actions), env, budget).stores;
            && id in end.markers
            && Resolved(end, end.markers[id], CommitOf(AllCommits(s0, actions + [RecoverySweep(env, budget)]), id))
  {
    var all, end := actions + [RecoverySweep(env, budget)], Sweep(After(s0, actions), env, budget).stores;
    SweepIsLastAction(s0, actions, env, budget);
    ReachableIsSound(s0, actions);
    SweepEndsMarker(After(s0, actions), env, budget, id);
    ReachableIsSound(s0, all);
    HasRowIffCommitted(s0, all, id);
    UniqueCount(end.provenance, RowFor(end.markers[id]));
    if end.markers[id].status.Failed? {
      FailedHasNoRow(end, id);
    }
  }

  lemma SweepIsLastAction(s0: Stores, actions: seq<Action>, env: Environment, budget: nat)
    requires AllAllowed(s0, actions)
    ensures var all := actions + [RecoverySweep(env, budget)];
            AllAllowed(s0, all) && After(s0, all) == Sweep(After(s0, actions), env, budget).stores
  {
    var all := actions + [RecoverySweep(env, budget)];
    assert all[..|all| - 1] == actions;
  }

  lemma FailedHasNoRow(s: Stores, id: string)
    requires Inv(s) && id in s.markers && s.markers[id].status.Failed?
    ensures !HasRow(s.provenance, RowFor(s.markers[id]))
  {
    var row := RowFor(s.markers[id]);
    assert row.provenanceId == PROVENANCE_PREFIX + id;
  }

  /** The erasure is closed: key gone, index rows gone, exactly one provenance row. */
  ghost predicate Closed(s: Stores, m: Marker) {
    && m.subject !in s.keys && m.subject !in s.bookkeeping
    && CountRows(s.provenance, RowFor(m)) == 1
  }

  /** With commits that fail only on a duplicate and no erased subject coming back, every finalized marker is
      closed: key gone, index rows gone, exactly one provenance row. */
  lemma RecoveryClosesEveryErasure(s0: Stores, actions: seq<Action>, env: Environment, budget: nat, id: string)
    requires Fresh(s0) && AllAllowed(s0, actions) && NoReturn(s0, actions) && ReliableSweeps(actions)
    requires Reliable(env) && Reachable(env) && Sweep(After(s0, actions), env, budget).control.Alive?
    requires id in After(s0, actions).markers
    ensures var end := Sweep(After(s0, actions), env, budget).stores;
            && id in end.markers
            && if end.markers[id].status.Finalized? then Closed(end, end.markers[id]) else end.markers[id].status.Failed?
  {
    var all, end := actions + [RecoverySweep(env, budget)], Sweep(After(s0, actions), env, budget).stores;
    RecoveryResolvesEveryErasure(s0, actions, env, budget);
    SweepIsLastAction(s0, actions, env, budget);
    assert all[..|all| - 1] == actions;
    if end.markers[id].status.Finalized? {
      ReachableIsSound(s0, all);
      FinalizedIsClosed(s0, all, id);
    }
  }

  lemma FinalizedIsClosed(s0: Stores, all: seq<Action>, id: string)
    requires Fresh(s0) && AllAllowed(s0, all) && NoReturn(s0, all) && ReliableSweeps(all)
    requires id in After(s0, all).markers && After(s0, all).markers[id].status.Finalized?
    ensures Closed(After(s0, all), After(s0, all).markers[id])
  {
    var end := After(s0, all);
    var m := end.markers[id];
    ReachableIsSound(s0, all);
    ErasedHoldNoKey(s0, all);
    UniqueCount(end.provenance, RowFor(m));
    HasRowIffCommitted(s0, all, id);
    IndexClearedIffCommitted(s0, all, m.subject);
    CommitOfItsSubject(s0, all, id);
  }

  lemma CommitOfItsSubject(s0: Stores, all: seq<Action>, id: string)
    requires Fresh(s0) && AllAllowed(s0, all) && id in After(s0, all).markers && CommitOf(AllCommits(s0, all), id)
    ensures AnyOf(AllCommits(s0, all), After(s0, all).markers[id].subject)
  {
    var k :| 0 <= k < |AllCommits(s0, all)| && AllCommits(s0, all)[k].markerId == id;
    CommitIsStored(s0, all, k);
  }

  lemma {:induction false} NothingListed(s: Stores, order: seq<string>)
    requires forall id :: id in order && id in s.markers ==> !Unfinalized(s.markers[id])
    ensures ListUnfinalized(s, order) == []
  {
    if order != [] {
      var init := order[..|order| - 1];
      assert order == init + [order[|order| - 1]];
      NothingListed(s, init);
    }
  }

  /** A sweep after a completed one changes nothing, whatever the ports do and whenever it dies. */
  lemma SecondSweepIsIdle(s0: Stores, actions: seq<Action>, env: Environment, budget: nat, env': Environment, budget': nat)
    requires Fresh(s0) && AllAllowed(s0, actions) && Reachable(env)
    requires Sweep(After(s0, actions), env, budget).control.Alive?
    ensures var end := Sweep(After(s0, actions), env, budget).stores;
            Sweep(end, env', budget') == Run(end, Alive(budget'))
  {
    RecoveryResolvesEveryErasure(s0, actions, env, budget);
    var end := Sweep(After(s0, actions), env, budget).stores;
    NothingListed(end, end.markerOrder);
  }

  /** What an undisturbed erasure promises of its own marker, key, row and index entry. */
  ghost predicate Fulfilled(s: Stores, q: Request, end: Stores) {
    && q.markerId in end.markers && end.markers[q.markerId].status.Finalized?
    && SameErasure(end.markers[q.markerId], NewMarker(s, q))
    && q.subject !in end.keys && q.subject !in end.bookkeeping
    && HasRow(end.provenance, RowFor(NewMarker(s, q)))
  }

  /** What the interrupted state and the sweep's ports must allow: the row is written, or its commit goes
      through and the key is gone or taken by some pending marker of the subject. */
  ghost predicate CanBeFulfilled(t: Stores, m: Marker, env: Environment) {
    match t
    case Stores(keys, _, _, _, provenance, _) =>
      || HasRow(provenance, RowFor(m))
      || (!env.commitFails(m.markerId) && (m.subject !in keys || TakesKey(t, m.subject, env)))
  }

  lemma InterruptedAt(s: Stores, q: Request, env: Environment, budget: nat) returns (k: nat)
    requires Inv(s) && q.markerId !in s.markers && budget > 0 && Named(q)
    ensures 1 <= k <= 5 && Erase(s, q, env, budget).stores == Stage(s, q, k)
  {
    NoRowYet(s, q);
    EraseStopsAtAStage(s, q, env, budget);
    k := StageReached(q, env, budget);
  }

  /** However an erasure is interrupted after its marker was written, and whatever other erasures are left
      unfinished beside it, the next completed sweep fulfils it exactly when its ports allow it. */
  lemma InterruptedErasureIsFulfilledIff(s: Stores, q: Request, env: Environment, budget: nat, env': Environment, budget': nat)
    requires Inv(s) && q.markerId !in s.markers && budget > 0 && Named(q)
    requires Reachable(env') && Sweep(Erase(s, q, env, budget).stores, env', budget').control.Alive?
    ensures var t := Erase(s, q, env, budget).stores;
            Fulfilled(s, q, Sweep(t, env', budget').stores) <==> CanBeFulfilled(t, NewMarker(s, q), env')
  {
    var k := InterruptedAt(s, q, env, budget);
    StageIsFulfilledIff(s, q, k, env', budget');
  }

  lemma StageIsFulfilledIff(s: Stores, q: Request, k: nat, env: Environment, budget: nat)
    requires Inv(s) && q.markerId !in s.markers && 1 <= k <= 5 && Reachable(env)
    requires Sweep(Stage(s, q, k), env, budget).control.Alive?
    ensures Fulfilled(s, q, Sweep(Stage(s, q, k), env, budget).stores)
       <==> CanBeFulfilled(Stage(s, q, k), NewMarker(s, q), env)
  {
    NoRowYet(s, q);
    StageKeeps(s, q, k);
    StageHolds(s, q, k);
    if k == 5 {
      FinishedStaysFulfilled(s, q, env, budget);
    } else if k == 4 {
      CommittedIsFulfilled(s, q, env, budget);
    } else {
      UncommittedIsFulfilledIff(s, q, k, env, budget);
    }
  }

  /** So it is fulfilled whenever its commit goes through and not every attempt keeps the key. */
  lemma InterruptedErasureIsFulfilled(s: Stores, q: Request, env: Environment, budget: nat, env': Environment, budget': nat)
    requires Inv(s) && q.markerId !in s.markers && budget > 0 && Named(q)
    requires Reachable(env') && !env'.commitFails(q.markerId) && !AllAttemptsKeepKey(NewMarker(s, q), 0, env')
    requires Sweep(Erase(s, q, env, budget).stores, env', budget').control.Alive?
    ensures Fulfilled(s, q, Sweep(Erase(s, q, env, budget).stores, env', budget').stores)
  {
    var k := InterruptedAt(s, q, env, budget);
    NoRowYet(s, q);
    StageCanBeFulfilled(s, q, k, env');
    StageIsFulfilledIff(s, q, k, env', budget');
  }

  lemma StageCanBeFulfilled(s: Stores, q: Request, k: nat, env: Environment)
    requires 1 <= k <= 5 && !HasRow(s.provenance, RowFor(NewMarker(s, q)))
    requires !env.commitFails(q.markerId) && !AllAttemptsKeepKey(NewMarker(s, q), 0, env)
    ensures CanBeFulfilled(Stage(s, q, k), NewMarker(s, q), env)
  {
    StageHolds(s, q, k);
    if k == 1 {
      assert AimsAt(Stage(s, q, k).markers[q.markerId], q.subject, env);
    }
  }

  /** What of an erasure is done at each stage. */
  lemma StageHolds(s: Stores, q: Request, k: nat)
    requires 1 <= k <= 5 && !HasRow(s.provenance, RowFor(NewMarker(s, q)))
    ensures var t, m := Stage(s, q, k), NewMarker(s, q);
            && q.markerId in t.markers && t.markers[q.markerId] == m.(status := StatusAt(k))
            && (k >= 2 ==> q.subject !in t.keys)
            && (k >= 4 ==> q.subject !in t.bookkeeping)
            && (HasRow(t.provenance, RowFor(m)) <==> k >= 4)
  {
    if k >= 4 {
      CommitAddsRow(s, NewMarker(s, q));
    }
  }

  lemma FinishedStaysFulfilled(s: Stores, q: Request, env: Environment, budget: nat)
    requires Inv(Stage(s, q, 5)) && q.markerId !in s.markers
    ensures Fulfilled(s, q, Sweep(Stage(s, q, 5), env, budget).stores)
  {
    var t := Stage(s, q, 5);
    var work, r := ListUnfinalized(t, t.markerOrder), Run(t, Alive(budget));
    assert SameKey(t.provenance[|s.provenance|], RowFor(NewMarker(s, q)));
    ListedIsWork(t, t.markerOrder);
    SweepOverKeeps(r, work, env);
    SweepRecordsCommits(r, work, env);
    HasRowMonotone(t.provenance, SweepOver(r, work, env).stores.provenance);
  }

  /** The new marker is the last one listed, so its job is the sweep's last. */
  lemma NewMarkerIsLast(s: Stores, q: Request, k: nat)
    requires OrderOk(s) && q.markerId !in s.markers && 1 <= k <= 4
    ensures var t := Stage(s, q, k);
            var work := ListUnfinalized(t, t.markerOrder);
            work != [] && work[|work| - 1] == t.markers[q.markerId]
  {
    var t := Stage(s, q, k);
    assert t.markerOrder[|t.markerOrder| - 1] == q.markerId;
  }

  /** The last marker listed ends finalized exactly when its subject's key is gone in the end; its row is
      there if it was before or if its commit does not fail. */
  lemma LastEnds(t: Stores, env: Environment, budget: nat)
    requires Inv(t) && Reachable(env) && Sweep(t, env, budget).control.Alive? && ListUnfinalized(t, t.markerOrder) != []
    requires var work := ListUnfinalized(t, t.markerOrder);
             work[|work| - 1].status.DestroyConfirmed? ==> work[|work| - 1].subject !in t.keys
    ensures var work, end := ListUnfinalized(t, t.markerOrder), Sweep(t, env, budget).stores;
            var m := work[|work| - 1];
            && Inv(end) && m.markerId in end.markers && SameErasure(end.markers[m.markerId], m)
            && (end.markers[m.markerId].status.Finalized? <==> m.subject !in end.keys)
            && (m.subject !in end.keys && (HasRow(t.provenance, RowFor(m)) || !env.commitFails(m.markerId)) ==>
                  HasRow(end.provenance, RowFor(m)))
  {
    var work, r := ListUnfinalized(t, t.markerOrder), Run(t, Alive(budget));
    var init, m := work[..|work| - 1], work[|work| - 1];
    var before := SweepOver(r, init, env);
    ListedIsWork(t, t.markerOrder);
    SweepOverKeeps(r, init, env);
    LastUntouched(t, before.stores, work);
    ProcessJob(before, m, env);
    SweepOverKeeps(r, work, env);
    assert MarkerStep(t, Sweep(t, env, budget).stores, work, m.markerId);
    HasRowMonotone(t.provenance, before.stores.provenance);
  }

  lemma CommittedIsFulfilled(s: Stores, q: Request, env: Environment, budget: nat)
    requires Inv(s) && Inv(Stage(s, q, 4)) && q.markerId !in s.markers && Reachable(env)
    requires Sweep(Stage(s, q, 4), env, budget).control.Alive?
    ensures Fulfilled(s, q, Sweep(Stage(s, q, 4), env, budget).stores)
  {
    var t := Stage(s, q, 4);
    NoRowYet(s, q);
    StageHolds(s, q, 4);
    NewMarkerIsLast(s, q, 4);
    LastEnds(t, env, budget);
    SweepTakesKeyIff(t, env, budget, q.subject);
    SweepRecordsCommits(Run(t, Alive(budget)), ListUnfinalized(t, t.markerOrder), env);
  }

  lemma UncommittedIsFulfilledIff(s: Stores, q: Request, k: nat, env: Environment, budget: nat)
    requires Inv(s) && Inv(Stage(s, q, k)) && q.markerId !in s.markers && 1 <= k <= 3 && Reachable(env)
    requires Sweep(Stage(s, q, k), env, budget).control.Alive?
    ensures Fulfilled(s, q, Sweep(Stage(s, q, k), env, budget).stores) <==> CanBeFulfilled(Stage(s, q, k), NewMarker(s, q), env)
  {
    var t, m := Stage(s, q, k), NewMarker(s, q);
    var end, r, work := Sweep(t, env, budget).stores, Run(t, Alive(budget)), ListUnfinalized(t, t.markerOrder);
    NoRowYet(s, q);
    StageHolds(s, q, k);
    NewMarkerIsLast(s, q, k);
    LastEnds(t, env, budget);
    SweepTakesKeyIff(t, env, budget, q.subject);
    SweepRecordsCommits(r, work, env);
    if HasRow(end.provenance, RowFor(m)) {
      var c := NewRowWasCommitted(m, t, end, SweepCommits(r, work, env));
      CommitsGoThrough(r, work, env, c);
      assert AnyOf(SweepCommits(r, work, env), q.subject);
    }
  }

  lemma NewRowWasCommitted(m: Marker, t: Stores, end: Stores, committed: seq<Marker>) returns (c: nat)
    requires Inv(end) && Records(t, end, committed)
    requires m.markerId in end.markers && SameErasure(end.markers[m.markerId], m)
    requires !HasRow(t.provenance, RowFor(m)) && HasRow(end.provenance, RowFor(m))
    ensures c < |committed| && committed[c].markerId == m.markerId && committed[c].subject == m.subject
  {
    var i :| 0 <= i < |end.provenance| && SameKey(end.provenance[i], RowFor(m));
    assert forall k :: 0 <= k < |t.provenance| ==> !SameKey(t.provenance[k], RowFor(m));
    c := i - |t.provenance|;
    assert end.provenance[i] == RowFor(committed[c]);
    PrefixInjective(committed[c].markerId, m.markerId);
    StoredRowIsMarkers(end, committed[c], i);
  }

  lemma {:induction false} CommitsGoThrough(r: Run, work: seq<Marker>, env: Environment, c: nat)
    requires c < |SweepCommits(r, work, env)|
    ensures !env.commitFails(SweepCommits(r, work, env)[c].markerId)
  {
    var init := work[..|work| - 1];
    if c < |SweepCommits(r, init, env)| {
      CommitsGoThrough(r, init, env, c);
    }
  }

  /** `s'` is `s` except for how often marker `id` records that destroy was retried. */
  ghost predicate SameButRetries(s: Stores, s': Stores, id: string) {
    && id in s.markers && id in s'.markers
    && s' == s.(markers := s.markers[id := s.markers[id].(retryCount := s'.markers[id].retryCount)])
  }

  lemma {:induction false} ListIgnoresNew(s: Stores, s': Stores, order: seq<string>, id: string)
    requires id !in order
    requires forall x :: x != id ==> (x in s.markers <==> x in s'.markers) && (x in s.markers ==> s.markers[x] == s'.markers[x])
    ensures ListUnfinalized(s, order) == ListUnfinalized(s', order)
  {
    if order != [] {
      assert order[|order| - 1] in order;
      ListIgnoresNew(s, s', order[..|order| - 1], id);
    }
  }

  /** `t` is `s` plus one unfinalized marker, the last one written. */
  ghost predicate OneMore(s: Stores, t: Stores, id: string) {
    && id !in s.markers && id in t.markers && Unfinalized(t.markers[id])
    && t.markerOrder == s.markerOrder + [id]
    && forall x :: x != id ==> (x in s.markers <==> x in t.markers) && (x in s.markers ==> s.markers[x] == t.markers[x])
  }

  lemma SweepHasOneJob(s: Stores, t: Stores, id: string, env: Environment, budget: nat)
    requires OrderOk(s) && ListUnfinalized(s, s.markerOrder) == [] && OneMore(s, t, id)
    ensures Sweep(t, env, budget) == Process(Run(t, Alive(budget)), t.markers[id], env)
  {
    ListIgnoresNew(s, t, s.markerOrder, id);
    assert t.markerOrder[..|t.markerOrder| - 1] == s.markerOrder;
    var m := t.markers[id];
    assert ListUnfinalized(t, t.markerOrder) == [m];
    var r := Run(t, Alive(budget));
    assert SweepOver(r, [m][..0], env) == r;
  }

  /** A sweep that completed, and left the stores as an undisturbed erasure would have. */
  ghost predicate AsUndisturbed(s: Stores, q: Request, end: Run) {
    match end
    case Run(stores, control) => control.Alive? && SameButRetries(Undisturbed(s, q), stores, q.markerId)
  }

  /** Crash anywhere, recover, and nobody can tell: however an erasure is interrupted after its marker was
      written - death between any two effects, a destroy or a finalize that raises - a completed sweep leaves
      the stores as an undisturbed erasure would have, exactly when its ports allow it. */
  lemma InterruptedErasureIsCompletedIff(s: Stores, q: Request, env: Environment, budget: nat,
                                         env': Environment, budget': nat)
    requires Inv(s) && q.markerId !in s.markers && ListUnfinalized(s, s.markerOrder) == []
    requires budget > 0 && Named(q) && Reachable(env')
    requires Sweep(Erase(s, q, env, budget).stores, env', budget').control.Alive?
    ensures var t := Erase(s, q, env, budget).stores;
            AsUndisturbed(s, q, Sweep(t, env', budget')) <==> CanBeFulfilled(t, NewMarker(s, q), env')
  {
    var k := InterruptedAt(s, q, env, budget);
    StageIsCompletedIff(s, q, k, env', budget');
  }

  lemma StageIsCompletedIff(s: Stores, q: Request, k: nat, env: Environment, budget: nat)
    requires Inv(s) && q.markerId !in s.markers && ListUnfinalized(s, s.markerOrder) == [] && 1 <= k <= 5
    requires Reachable(env) && Sweep(Stage(s, q, k), env, budget).control.Alive?
    ensures AsUndisturbed(s, q, Sweep(Stage(s, q, k), env, budget)) <==> CanBeFulfilled(Stage(s, q, k), NewMarker(s, q), env)
  {
    StageIsFulfilledIff(s, q, k, env, budget);
    if k == 5 {
      LastStageCompletes(s, q, env, budget);
    } else {
      StageCompletesIffFulfilled(s, q, k, env, budget);
    }
  }

  lemma LastStageCompletes(s: Stores, q: Request, env: Environment, budget: nat)
    requires OrderOk(s) && q.markerId !in s.markers && ListUnfinalized(s, s.markerOrder) == []
    ensures var end := Sweep(Stage(s, q, 5), env, budget);
            AsUndisturbed(s, q, end) && Fulfilled(s, q, end.stores)
  {
    UndisturbedIsSettled(s, q, env, budget);
    UndisturbedIsFulfilled(s, q, Undisturbed(s, q));
  }

  /** Nothing but the erasure's own marker, key, row and index entry can differ, so fulfilled is completed. */
  lemma StageCompletesIffFulfilled(s: Stores, q: Request, k: nat, env: Environment, budget: nat)
    requires Inv(s) && q.markerId !in s.markers && ListUnfinalized(s, s.markerOrder) == [] && 1 <= k <= 4
    ensures var end := Sweep(Stage(s, q, k), env, budget);
            AsUndisturbed(s, q, end) <==> end.control.Alive? && Fulfilled(s, q, end.stores)
  {
    NoRowYet(s, q);
    StageKeeps(s, q, k);
    StageIsOneMore(s, q, k);
    SweepHasOneJob(s, Stage(s, q, k), q.markerId, env, budget);
    OneJobCompletesIff(s, q, k, Run(Stage(s, q, k), Alive(budget)), env);
  }

  /** With nothing else unfinished, and a sweep that lives long enough, that needs no more than a commit that
      goes through and one attempt that takes the key. */
  lemma InterruptedErasureIsCompleted(s: Stores, q: Request, env: Environment, budget: nat,
                                      env': Environment, budget': nat)
    requires Inv(s) && q.markerId !in s.markers && ListUnfinalized(s, s.markerOrder) == []
    requires budget > 0 && Named(q) && Reachable(env') && budget' >= JobCost(NewMarker(s, q), env')
    requires !env'.commitFails(q.markerId) && !AllAttemptsKeepKey(NewMarker(s, q), 0, env')
    ensures AsUndisturbed(s, q, Sweep(Erase(s, q, env, budget).stores, env', budget'))
  {
    var k := InterruptedAt(s, q, env, budget);
    StageIsCompleted(s, q, k, env', budget');
  }

  lemma StageSurvives(s: Stores, q: Request, k: nat, env: Environment, budget: nat)
    requires Inv(s) && q.markerId !in s.markers && ListUnfinalized(s, s.markerOrder) == [] && 1 <= k <= 5
    requires Reachable(env) && budget >= JobCost(NewMarker(s, q), env)
    ensures Sweep(Stage(s, q, k), env, budget).control.Alive?
  {
    if k == 5 {
      UndisturbedIsSettled(s, q, env, budget);
    } else {
      NoRowYet(s, q);
      StageHolds(s, q, k);
      StageIsOneMore(s, q, k);
      SweepHasOneJob(s, Stage(s, q, k), q.markerId, env, budget);
      ProcessSurvives(Run(Stage(s, q, k), Alive(budget)), Stage(s, q, k).markers[q.markerId], env);
    }
  }

  lemma StageIsCompleted(s: Stores, q: Request, k: nat, env: Environment, budget: nat)
    requires Inv(s) && q.markerId !in s.markers && ListUnfinalized(s, s.markerOrder) == [] && 1 <= k <= 5
    requires Reachable(env) && budget >= JobCost(NewMarker(s, q), env)
    requires !env.commitFails(q.markerId) && !AllAttemptsKeepKey(NewMarker(s, q), 0, env)
    ensures AsUndisturbed(s, q, Sweep(Stage(s, q, k), env, budget))
  {
    NoRowYet(s, q);
    StageSurvives(s, q, k, env, budget);
    StageCanBeFulfilled(s, q, k, env);
    StageIsCompletedIff(s, q, k, env, budget);
  }

  lemma UndisturbedIsSettled(s: Stores, q: Request, env: Environment, budget: nat)
    requires OrderOk(s) && q.markerId !in s.markers && ListUnfinalized(s, s.markerOrder) == []
    ensures Sweep(Undisturbed(s, q), env, budget) == Run(Undisturbed(s, q), Alive(budget))
  {
    var t := Undisturbed(s, q);
    ListIgnoresNew(s, t, s.markerOrder, q.markerId);
    assert t.markerOrder == s.markerOrder + [q.markerId];
    assert t.markerOrder[..|t.markerOrder| - 1] == s.markerOrder;
  }

  lemma StageIsOneMore(s: Stores, q: Request, k: nat)
    requires q.markerId !in s.markers && 1 <= k <= 4
    ensures OneMore(s, Stage(s, q, k), q.markerId)
  {
  }

  /** A job that fulfils its erasure changes nothing else, so it completes it. */
  lemma OneJobCompletesIff(s: Stores, q: Request, k: nat, r: Run, env: Environment)
    requires Inv(s) && q.markerId !in s.markers && 1 <= k <= 4 && !HasRow(s.provenance, RowFor(NewMarker(s, q)))
    requires r.control.Alive? && r.stores == Stage(s, q, k) && Inv(r.stores)
    ensures var end := Process(r, r.stores.markers[q.markerId], env);
            AsUndisturbed(s, q, end) <==> end.control.Alive? && Fulfilled(s, q, end.stores)
  {
    var m := r.stores.markers[q.markerId];
    StageHolds(s, q, k);
    OneJobStep(r, m, env);
    JobCompletes(s, q, k, m, Process(r, m, env).stores, CommitsNow(r, m, env));
    if SameButRetries(Undisturbed(s, q), Process(r, m, env).stores, q.markerId) {
      UndisturbedIsFulfilled(s, q, Process(r, m, env).stores);
    }
  }

  lemma OneJobStep(r: Run, m: Marker, env: Environment)
    requires r.control.Alive? && Inv(r.stores) && m.markerId in r.stores.markers
    requires r.stores.markers[m.markerId] == m && Unfinalized(m)
    ensures JobStep(r.stores, Process(r, m, env).stores, m)
    ensures Committed(r.stores, Process(r, m, env).stores, m, CommitsNow(r, m, env))
    ensures HasRow(r.stores.provenance, RowFor(m)) ==> !CommitsNow(r, m, env)
  {
    ProcessJob(r, m, env);
    ProcessCommits(r, m, env);
  }

  lemma UndisturbedIsFulfilled(s: Stores, q: Request, end: Stores)
    requires SameButRetries(Undisturbed(s, q), end, q.markerId)
    ensures Fulfilled(s, q, end)
  {
    CommitAddsRow(s, NewMarker(s, q));
  }

  lemma JobCompletes(s: Stores, q: Request, k: nat, m: Marker, end: Stores, did: bool)
    requires q.markerId !in s.markers && 1 <= k <= 4 && m == NewMarker(s, q).(status := StatusAt(k))
    requires !HasRow(s.provenance, RowFor(m))
    requires JobStep(Stage(s, q, k), end, m) && Committed(Stage(s, q, k), end, m, did) && (k == 4 ==> !did)
    ensures Fulfilled(s, q, end) ==> SameButRetries(Undisturbed(s, q), end, q.markerId)
  {
    var goal := Undisturbed(s, q);
    if Fulfilled(s, q, end) {
      assert end.keys == goal.keys;
      assert k <= 3 ==> did;
      var retries := end.markers[q.markerId].retryCount;
      assert end.markers == goal.markers[q.markerId := goal.markers[q.markerId].(retryCount := retries)];
    }
  }

  // ---------------------------------------------------------------- two ways the promise breaks

  /** Without reliable commits the sweep closes a marker whose provenance row was never written:
      it reads every finalize error as "already applied". `Settled` says exactly when. */
  lemma SwallowedErrorLosesRow(env: Environment, budget: nat)
    requires env.commitFails("m") && budget >= 1
    ensures var subject := Subject("t", "s");
            var s := Stores(map[], map[], map["m" := Marker("m", subject, [], DestroyConfirmed, 0, 0)], ["m"], [], map[]);
            var end := Sweep(s, env, budget);
            && Inv(s) && NoRowLost(s) && end.control.Alive?
            && end.stores.markers["m"].status.Finalized? && end.stores.provenance == []
  {
    var m := Marker("m", Subject("t", "s"), [], DestroyConfirmed, 0, 0);
    var s := Stores(map[], map[], map["m" := m], ["m"], [], map[]);
    OneListed(s, m);
    var r := Run(s, Alive(budget));
    assert SweepOver(r, [m][..0], env) == r;
    LostRow(r, m, env);
  }

  lemma OneListed(s: Stores, m: Marker)
    requires s.markerOrder == [m.markerId] && s.markers == map[m.markerId := m] && Unfinalized(m)
    ensures ListUnfinalized(s, s.markerOrder) == [m]
  {
    assert s.markerOrder[..0] == [];
  }

  lemma LostRow(r: Run, m: Marker, env: Environment)
    requires r.control.Alive? && r.control.budget >= 1 && m.status.DestroyConfirmed? && env.commitFails(m.markerId)
    ensures var end := Process(r, m, env);
            && end.control.Alive? && end.stores == Append(r.stores, m.(status := Finalized))
  {
  }

  /** A subject that comes back under a new key between an interrupted erasure and the sweep loses that key
      exactly when some pending marker of it has an attempt left that takes it: always, when the erasure had
      not yet confirmed the old key's destruction and one of its own attempts works. */
  lemma FreshKeyIsShredded(s: Stores, q: Request, env: Environment, budget: nat, key: Key, env': Environment, budget': nat)
    requires Inv(s) && q.markerId !in s.markers && budget > 0 && Named(q) && Reachable(env')
    requires var died := Erase(s, q, env, budget).stores;
             q.subject !in died.keys && Sweep(Act(died, MintKey(q.subject, key)), env', budget').control.Alive?
    ensures var again := Act(Erase(s, q, env, budget).stores, MintKey(q.subject, key));
            && again.keys[q.subject] == key
            && (q.subject !in Sweep(again, env', budget').stores.keys <==> TakesKey(again, q.subject, env'))
            && (StageReached(q, env, budget) <= 2 && !AllAttemptsKeepKey(NewMarker(s, q), 0, env') ==>
                  TakesKey(again, q.subject, env'))
  {
    var died := Erase(s, q, env, budget).stores;
    var again := Act(died, MintKey(q.subject, key));
    NoRowYet(s, q);
    EraseStopsAtAStage(s, q, env, budget);
    StageHolds(s, q, StageReached(q, env, budget));
    EraseKeeps(s, q, env, budget);
    ActKeeps(died, MintKey(q.subject, key));
    SweepTakesKeyIff(again, env', budget', q.subject);
    if StageReached(q, env, budget) <= 2 && !AllAttemptsKeepKey(NewMarker(s, q), 0, env') {
      assert AimsAt(again.markers[q.markerId], q.subject, env');
    }
  }

  // ---------------------------------------------------------------- the code, in place

  class MarkerStore {
    var markers: map<string, Marker>
    var order: seq<string>

    constructor ()
      ensures markers == map[] && order == []
    {
      markers, order := map[], [];
    }

    /** Stores `marker`, replacing any prior state for its id. */
    method Put(marker: Marker)
      modifies this
      ensures markers == old(markers)[marker.markerId := marker]
      ensures order == if marker.markerId in old(markers) then old(order) else old(order) + [marker.markerId]
    {
      if marker.markerId !in markers {
        order := order + [marker.markerId];
      }
      markers := markers[marker.markerId := marker];
    }
  }

  /** The coordinator and the recovery sweep over the stores they share. `control` counts how many
      more durable effects this process will live for. */
  class ErasureService {
    const markerStore: MarkerStore
    var keys: map<Subject, Key>
    var subjectIndex: map<Subject, seq<string>>
    var provenance: seq<ProvenanceRow>
    var bookkeeping: map<Subject, set<string>>
    var control: Control

    constructor (store: MarkerStore, budget: nat)
      ensures markerStore == store && control == Alive(budget)
      ensures keys == map[] && subjectIndex == map[] && provenance == [] && bookkeeping == map[]
    {
      markerStore, control := store, Alive(budget);
      keys, subjectIndex, provenance, bookkeeping := map[], map[], [], map[];
    }

    function Snapshot(): Stores
      reads this, markerStore
    {
      Stores(keys, subjectIndex, markerStore.markers, markerStore.order, provenance, bookkeeping)
    }

    function Now(): Run
      reads this, markerStore
    {
      Run(Snapshot(), control)
    }

    /** Whether the process survives up to its next durable effect. */
    method Spend() returns (survives: bool)
      requires control.Alive?
      modifies this`control
      ensures survives == (old(control).budget > 0)
      ensures control == if survives then Alive(old(control).budget - 1) else Crashed
    {
      survives := control.budget > 0;
      control := if survives then Alive(control.budget - 1) else Crashed;
    }

    method AppendMarker(marker: Marker)
      requires control.Alive?
      modifies this`control, markerStore
      ensures Now() == Effect(old(Now()), Append(old(Snapshot()), marker))
    {
      var survives := Spend();
      if survives {
        markerStore.Put(marker);
      }
    }

    method DestroyKey(subject: Subject, outcome: DestroyOutcome)
      requires control.Alive?
      modifies this`control, this`keys
      ensures Now() == Effect(old(Now()), AfterDestroy(old(Snapshot()), subject, outcome))
    {
      var survives := Spend();
      if survives && !outcome.RaisedKeyKept? {
        keys := keys - {subject};
      }
    }

    /** The finalize transaction; `committed` is false when it raised. */
    method Finalize(marker: Marker, env: Environment) returns (committed: bool)
      requires control.Alive?
      modifies this`control, this`provenance, this`bookkeeping
      ensures committed == Commits(old(Snapshot()), marker, env)
      ensures Now() == if committed then Effect(old(Now()), AfterCommit(old(Snapshot()), marker)) else old(Now())
    {
      committed := Commits(Snapshot(), marker, env);
      if committed {
        var survives := Spend();
        if survives {
          provenance := provenance + [RowFor(marker)];
          bookkeeping := bookkeeping - {marker.subject};
        }
      }
    }

    method EraseSubject(q: Request, env: Environment) returns (itemIds: seq<string>)
      requires control.Alive?
      modifies this, markerStore
      ensures Now() == Erase(old(Snapshot()), q, env, old(control).budget)
      ensures control.Alive? ==> itemIds == ItemsOf(old(Snapshot()), q.subject)
    {
      itemIds := [];
      if Blank(q.subject.tenantId) || Blank(q.subject.subjectId) {
        control := Raised;
        return;
      }
      itemIds := if q.subject in subjectIndex then subjectIndex[q.subject] else [];
      var marker := Marker(q.markerId, q.subject, itemIds, Pending, q.now, 0);
      AppendMarker(marker);
      if !control.Alive? { return; }
      var outcome := env.destroy(q.markerId, 0);
      DestroyKey(q.subject, outcome);
      if !control.Alive? { return; }
      if !outcome.Destroyed? {
        control := Raised;
        return;
      }
      var confirmed := marker.(status := DestroyConfirmed);
      AppendMarker(confirmed);
      if !control.Alive? { return; }
      var committed := Finalize(confirmed, env);
      if !committed {
        control := Raised;
        return;
      }
      if !control.Alive? { return; }
      AppendMarker(confirmed.(status := Finalized));
    }

    method RecoverFinalizeOnly(marker: Marker, env: Environment)
      requires control.Alive?
      modifies this, markerStore
      ensures Now() == FinalizeOnly(old(Now()), marker, env)
    {
      var _ := Finalize(marker, env);
      if control.Alive? {
        AppendMarker(marker.(status := Finalized));
      }
    }

    method ConfirmThenFinalize(marker: Marker, retries: nat, env: Environment)
      requires control.Alive?
      modifies this, markerStore
      ensures Now() == ConfirmAndFinalize(old(Now()), marker, retries, env)
    {
      var confirmed := marker.(status := DestroyConfirmed, retryCount := retries);
      AppendMarker(confirmed);
      if control.Alive? {
        RecoverFinalizeOnly(confirmed, env);
      }
    }

    method RetryDestroyThenFinalize(marker: Marker, env: Environment)
      requires control.Alive?
      modifies this, markerStore
      ensures Now() == Retry(old(Now()), marker, marker.retryCount, env)
    {
      var retryCount := marker.retryCount;
      ghost var end := Retry(Now(), marker, marker.retryCount, env);
      while retryCount < MAX_DESTROY_RETRIES
        invariant control.Alive? && Retry(Now(), marker, retryCount, env) == end
      {
        ghost var before := Now();
        var attempt := retryCount;
        DestroyKey(marker.subject, env.destroy(marker.markerId, attempt));
        RetryUnfolds(before, marker, attempt, env);
        var resolved := FollowAttempt(marker, attempt, env);
        if resolved { return; }
        retryCount := retryCount + 1;
      }
      RetryUnfolds(Now(), marker, retryCount, env);
      AppendMarker(marker.(status := Failed, retryCount := retryCount));
    }

    /** What follows an attempt to destroy the key; whether the marker is done with for this sweep. */
    method FollowAttempt(marker: Marker, attempt: nat, env: Environment) returns (resolved: bool)
      requires attempt < MAX_DESTROY_RETRIES
      modifies this, markerStore
      ensures resolved ==> Now() == AfterAttempt(old(Now()), marker, attempt, env)
      ensures !resolved ==>
        control.Alive? && Retry(Now(), marker, attempt + 1, env) == AfterAttempt(old(Now()), marker, attempt, env)
    {
      if !control.Alive? {
        return true;
      }
      if env.requeryFails(marker.markerId, attempt) {
        control := Raised;
        return true;
      }
      if marker.subject !in keys {
        ConfirmThenFinalize(marker, attempt + 1, env);
        return true;
      }
      AppendMarker(marker.(status := Pending, retryCount := attempt + 1));
      resolved := !control.Alive?;
    }

    /** `list_unfinalized`, in insertion order. */
    method Unresolved() returns (work: seq<Marker>)
      ensures work == ListUnfinalized(Snapshot(), markerStore.order)
    {
      work := [];
      var order := markerStore.order;
      for i := 0 to |order|
        invariant work == ListUnfinalized(Snapshot(), order[..i])
      {
        assert order[..i + 1][..i] == order[..i];
        if order[i] in markerStore.markers && Unfinalized(markerStore.markers[order[i]]) {
          work := work + [markerStore.markers[order[i]]];
        }
      }
      assert order[..|order|] == order;
    }

    method ProcessMarker(marker: Marker, env: Environment)
      requires control.Alive? && Unfinalized(marker)
      modifies this, markerStore
      ensures Now() == Process(old(Now()), marker, env)
    {
      if marker.status.DestroyConfirmed? {
        RecoverFinalizeOnly(marker, env);
      } else if !env.queryFails(marker.markerId) {
        if marker.subject !in keys {
          ConfirmThenFinalize(marker, marker.retryCount, env);
        } else {
          RetryDestroyThenFinalize(marker, env);
        }
      }
    }

    method RecoverPendingErasures(env: Environment) returns (finalized: seq<string>)
      requires control.Alive?
      modifies this, markerStore
      ensures Now() == Sweep(old(Snapshot()), env, old(control).budget)
      ensures control.Alive? ==>
                finalized == FinalizedIds(old(Now()), ListUnfinalized(old(Snapshot()), old(markerStore.order)), env)
    {
      finalized := [];
      ghost var start := Now();
      var work := Unresolved();
      AllUnfinalized(Snapshot(), markerStore.order);
      var i := 0;
      while i < |work|
        invariant 0 <= i <= |work| && control.Alive?
        invariant Now() == SweepOver(start, work[..i], env)
        invariant finalized == FinalizedIds(start, work[..i], env)
      {
        assert work[..i + 1][..i] == work[..i];
        ProcessMarker(work[i], env);
        assert Now() == SweepOver(start, work[..i + 1], env);
        if !control.Alive? {
          StaysDead(start, work, i + 1, env);
          return;
        }
        if IsFinalized(markerStore.markers, work[i].markerId) {
          finalized := finalized + [work[i].markerId];
        }
        i := i + 1;
      }
      assert work[..|work|] == work;
    }
  }

  predicate IsFinalized(markers: map<string, Marker>, id: string) {
    id in markers && markers[id].status.Finalized?
  }

  /** The ids whose marker was finalized at its turn: what the sweep returns. */
  ghost function FinalizedIds(start: Run, work: seq<Marker>, env: Environment): seq<string> {
    if work == [] then []
    else
      FinalizedIds(start, work[..|work| - 1], env)
      + (if IsFinalized(SweepOver(start, work, env).stores.markers, work[|work| - 1].markerId)
         then [work[|work| - 1].markerId] else [])
  }

  lemma {:induction false} FinalizedAtTurn(start: Run, work: seq<Marker>, env: Environment, id: string)
    ensures id in FinalizedIds(start, work, env) <==>
      exists i :: 0 <= i < |work| && work[i].markerId == id && IsFinalized(SweepOver(start, work[..i + 1], env).stores.markers, id)
  {
    if work != [] {
      var init, n := work[..|work| - 1], |work| - 1;
      FinalizedAtTurn(start, init, env, id);
      assert work[..n + 1] == work;
      assert forall i :: 0 <= i < n ==> work[..i + 1] == init[..i + 1] && work[i] == init[i];
      assert work[n].markerId == id && IsFinalized(SweepOver(start, work, env).stores.markers, id) ==>
        IsFinalized(SweepOver(start, work[..n + 1], env).stores.markers, id);
    }
  }

  /** A completed sweep returns exactly the ids of the markers it found unfinished and left finalized. */
  lemma SweepReturns(s: Stores, env: Environment, budget: nat, id: string)
    requires Inv(s) && Sweep(s, env, budget).control.Alive?
    ensures var end := Sweep(s, env, budget).stores;
            id in FinalizedIds(Run(s, Alive(budget)), ListUnfinalized(s, s.markerOrder), env) <==>
              && id in s.markers && (s.markers[id].status == Pending || s.markers[id].status == DestroyConfirmed)
              && id in end.markers && end.markers[id].status == Finalized
  {
    var start, work := Run(s, Alive(budget)), ListUnfinalized(s, s.markerOrder);
    ListedIsWork(s, s.markerOrder);
    FinalizedAtTurn(start, work, env, id);
    forall i | 0 <= i < |work|
      ensures IsFinalized(SweepOver(start, work[..i + 1], env).stores.markers, work[i].markerId)
         <==> IsFinalized(Sweep(s, env, budget).stores.markers, work[i].markerId)
    {
      LaterJobsKeep(start, work, env, i);
    }
    assert id in s.markers && Unfinalized(s.markers[id]) ==> InWork(work, id);
  }

  lemma {:induction false} AllUnfinalized(s: Stores, order: seq<string>)
    ensures forall i :: 0 <= i < |ListUnfinalized(s, order)| ==> Unfinalized(ListUnfinalized(s, order)[i])
  {
    if order != [] {
      AllUnfinalized(s, order[..|order| - 1]);
    }
  }

  lemma {:induction false} StaysDead(r: Run, work: seq<Marker>, n: nat, env: Environment)
    requires n <= |work| && !SweepOver(r, work[..n], env).control.Alive?
    ensures SweepOver(r, work, env) == SweepOver(r, work[..n], env)
  {
    if n < |work| {
      assert work[..|work| - 1][..n] == work[..n];
      StaysDead(r, work[..|work| - 1], n, env);
    } else {
      assert work[..n] == work;
    }
  }
}
