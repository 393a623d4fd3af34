/** The provenance write gate under concurrency: threads submit writes, may re-enter the gate from
    inside their own `persist_fact` callback, and interleave at every step between lock, journal,
    bucket and callback. The sequential decisions come first, then the interleaved machine. */
module WriteGate {
  import Sequences
  import opened Options
  import opened SourceTypes
  import opened Text
  import opened TokenBucket
  import opened Zones

  const MAX_ATTESTATION_AGE := 300.0

  datatype Attestation = Attestation(issuedAt: real, signature: string, keyId: string)

  datatype Request = Request(
    tenantId: string, itemId: string, sourceZone: Zone, sourceTypeRaw: string, callerIdentity: string,
    retrievalContextHash: string, idempotencyKey: string, sourceRefs: seq<string>,
    userTurnMarker: bool, attestation: Option<Attestation>)

  datatype Entry = Entry(
    tenantId: string, writeId: string, itemId: string, sourceZone: Zone, sourceType: SourceType,
    sourceRefs: seq<string>, callerIdentity: string, retrievalContextHash: string,
    idempotencyKey: string, userTurnMarker: bool, writtenAt: real)

  datatype ErrorCode =
    | UnresolvableSourceType | MissingUserTurnMarker | ForgedUserTurnMarker | MissingCallerBinding
    | IdempotencyKeyReused | RateLimitExceeded

  datatype Result = Accepted(writeId: string, acceptedAt: real) | Rejected(httpStatus: nat, error: ErrorCode)

  datatype Key = Key(tenantId: string, idempotencyKey: string)

  datatype SignedFields = SignedFields(tenantId: string, itemId: string, callerIdentity: string,
                                       retrievalContextHash: string, keyId: string, issuedAt: real)

  /** The gate's configuration. `sign` stands for HMAC-SHA256 over the canonical message. */
  datatype Policy = Policy(bucket: Config, signingKeys: map<string, nat>, sign: (nat, SignedFields) -> string)

  // ---------------------------------------------------------------- the sequential decisions

  function KeyOf(q: Request): Key {
    Key(q.tenantId, q.idempotencyKey)
  }

  function EntryKey(e: Entry): Key {
    Key(e.tenantId, e.idempotencyKey)
  }

  predicate AttestationVerifies(p: Policy, q: Request, now: real) {
    && q.attestation.Some?
    && var a := q.attestation.value;
       && a.keyId in p.signingKeys
       && a.issuedAt <= now && now - a.issuedAt <= MAX_ATTESTATION_AGE
       && p.sign(p.signingKeys[a.keyId], SignedFields(q.tenantId, q.itemId, q.callerIdentity,
                                                      q.retrievalContextHash, a.keyId, a.issuedAt)) == a.signature
  }

  /** The checks between the rate limit and the journal append. */
  function Validate(p: Policy, q: Request, now: real): Option<ErrorCode> {
    var sourceType := ResolveSourceType(q.sourceTypeRaw);
    if sourceType.None? then Some(UnresolvableSourceType)
    else if sourceType.value.UserStated? && !q.userTurnMarker then Some(MissingUserTurnMarker)
    else if sourceType.value.UserStated? && !AttestationVerifies(p, q, now) then Some(ForgedUserTurnMarker)
    else if Blank(q.callerIdentity) || !IsHexSha256(q.retrievalContextHash) then Some(MissingCallerBinding)
    else None
  }

  /** `find_by_idempotency_key`. */
  function Find(journal: seq<Entry>, key: Key): Option<Entry> {
    if journal == [] then None
    else if EntryKey(journal[|journal| - 1]) == key then Some(journal[|journal| - 1])
    else Find(journal[..|journal| - 1], key)
  }

  predicate IsVerbatimReplay(q: Request, e: Entry) {
    && e.itemId == q.itemId && e.sourceZone == q.sourceZone
    && Some(e.sourceType) == ResolveSourceType(q.sourceTypeRaw)
    && e.sourceRefs == q.sourceRefs && e.callerIdentity == q.callerIdentity
    && e.retrievalContextHash == q.retrievalContextHash && e.userTurnMarker == q.userTurnMarker
  }

  function Replay(q: Request, e: Entry): Result {
    if IsVerbatimReplay(q, e) then Accepted(e.writeId, e.writtenAt) else Rejected(422, IdempotencyKeyReused)
  }

  function NewEntry(q: Request, writeId: string, now: real): Entry
    requires ResolveSourceType(q.sourceTypeRaw).Some?
  {
    Entry(q.tenantId, writeId, q.itemId, q.sourceZone, ResolveSourceType(q.sourceTypeRaw).value, q.sourceRefs,
          q.callerIdentity, q.retrievalContextHash, q.idempotencyKey, q.userTurnMarker, now)
  }

  function BucketOf(buckets: map<string, Bucket>, tenantId: string, config: Config, now: real): Bucket {
    if tenantId in buckets then buckets[tenantId] else NewFullBucket(config, now)
  }

  // ---------------------------------------------------------------- the interleaved machine

  type ThreadId = nat

  /** Where one `submit_write` call is. */
  datatype Pc =
    | Waiting
    | Checking
    | Limiting
    | Validating
    | Journaling
    | Ready(writeId: string, writtenAt: real)
    | Persisting(writeId: string, writtenAt: real)
    | Leaving(outcome: Option<Result>)

  datatype Frame = Frame(request: Request, pc: Pc)

  datatype Lock = Lock(owner: ThreadId, depth: nat)

  datatype Usage = Usage(spent: nat, forward: real, opens: nat)

  datatype Event =
    | Journaled(key: Key, writeId: string)
    | PersistRan(key: Key, writeId: string)
    | Returned(key: Key, outcome: Option<Result>)

  /** The journal is durable; buckets, locks and calls are the process's. `stacks` holds each thread's nested
      calls; `usage` and `events` record what happened. */
  datatype Gate = Gate(
    journal: seq<Entry>, buckets: map<string, Bucket>, locks: map<Key, Lock>,
    stacks: map<ThreadId, seq<Frame>>, usage: map<string, Usage>, events: seq<Event>)

  const INITIAL := Gate([], map[], map[], map[], map[], [])

  /** How a journal append ends: durable, or raising before or after the entry became durable. */
  datatype AppendOutcome = Durable | RaisedLost | RaisedKept

  datatype Step =
    | Submit(t: ThreadId, request: Request)
    | Acquire(t: ThreadId)
    | Check(t: ThreadId)
    | Limit(t: ThreadId, now: real)
    | Vet(t: ThreadId, now: real)
    | Append(t: ThreadId, writeId: string, now: real, outcome: AppendOutcome)
    | StartPersist(t: ThreadId)
    | EndPersist(t: ThreadId, raises: bool)
    | Release(t: ThreadId)
    | Restart

  function Stack(g: Gate, t: ThreadId): seq<Frame> {
    if t in g.stacks then g.stacks[t] else []
  }

  predicate Active(g: Gate, t: ThreadId) {
    Stack(g, t) != []
  }

  function Top(g: Gate, t: ThreadId): Frame
    requires Active(g, t)
  {
    Stack(g, t)[|Stack(g, t)| - 1]
  }

  function TopKey(g: Gate, t: ThreadId): Key
    requires Active(g, t)
  {
    KeyOf(Top(g, t).request)
  }

  /** Moves the innermost call of `t` to `pc`. */
  function Move(g: Gate, t: ThreadId, pc: Pc): Gate
    requires Active(g, t)
  {
    var s := Stack(g, t);
    g.(stacks := g.stacks[t := s[..|s| - 1] + [Top(g, t).(pc := pc)]])
  }

  predicate CanAcquire(g: Gate, t: ThreadId)
    requires Active(g, t)
  {
    TopKey(g, t) !in g.locks || g.locks[TopKey(g, t)].owner == t
  }

  function Reject(error: ErrorCode): Pc {
    Leaving(Some(Rejected(if error.RateLimitExceeded? then 429 else 422, error)))
  }

  /** A step that is not possible leaves everything as it is. */
  function Next(p: Policy, g: Gate, step: Step): Gate {
    match step
    case Submit(t, q) =>
      if !Active(g, t) || Top(g, t).pc.Persisting? then
        g.(stacks := g.stacks[t := Stack(g, t) + [Frame(q, Waiting)]])
      else g
    case Acquire(t) =>
      if Active(g, t) && Top(g, t).pc.Waiting? && CanAcquire(g, t) then DoAcquire(g, t) else g
    case Check(t) =>
      if Active(g, t) && Top(g, t).pc.Checking? then Move(g, t, CheckPc(g, t)) else g
    case Limit(t, now) =>
      if Active(g, t) && Top(g, t).pc.Limiting? then DoLimit(p, g, t, now) else g
    case Vet(t, now) =>
      if Active(g, t) && Top(g, t).pc.Validating? then Move(g, t, VetPc(p, g, t, now)) else g
    case Append(t, writeId, now, outcome) =>
      if Active(g, t) && Top(g, t).pc.Journaling? && ResolveSourceType(Top(g, t).request.sourceTypeRaw).Some?
      then DoAppend(g, t, writeId, now, outcome) else g
    case StartPersist(t) =>
      if Active(g, t) && Top(g, t).pc.Ready? then DoPersist(g, t) else g
    case EndPersist(t, raises) =>
      if Active(g, t) && Top(g, t).pc.Persisting? then Move(g, t, EndPc(g, t, raises)) else g
    case Release(t) =>
      if Active(g, t) && Top(g, t).pc.Leaving? then DoRelease(g, t) else g
    case Restart => Restarted(g)
  }

  /** The process dies and starts again. */
  function Restarted(g: Gate): Gate {
    g.(buckets := map[], locks := map[], stacks := map[])
  }

  function DoAcquire(g: Gate, t: ThreadId): Gate
    requires Active(g, t)
  {
    var key := TopKey(g, t);
    var depth := if key in g.locks then g.locks[key].depth else 0;
    Move(g, t, Checking).(locks := g.locks[key := Lock(t, depth + 1)])
  }

  function CheckPc(g: Gate, t: ThreadId): Pc
    requires Active(g, t)
  {
    match Find(g.journal, TopKey(g, t))
    case Some(entry) => Leaving(Some(Replay(Top(g, t).request, entry)))
    case None => Limiting
  }

  function UsageOf(g: Gate, tenantId: string): Usage {
    if tenantId in g.usage then g.usage[tenantId] else Usage(0, 0.0, 0)
  }

  /** The tenant's bucket as the consume call finds it. */
  function TopBucket(p: Policy, g: Gate, t: ThreadId, now: real): Bucket
    requires Active(g, t)
  {
    BucketOf(g.buckets, Top(g, t).request.tenantId, p.bucket, now)
  }

  function LimitPc(p: Policy, g: Gate, t: ThreadId, now: real): Pc
    requires Active(g, t)
  {
    if TryConsume(TopBucket(p, g, t, now), p.bucket, now).1 then Validating else Reject(RateLimitExceeded)
  }

  function DoLimit(p: Policy, g: Gate, t: ThreadId, now: real): Gate
    requires Active(g, t)
  {
    var tenantId, bucket := Top(g, t).request.tenantId, TopBucket(p, g, t, now);
    var (bucket', allowed) := TryConsume(bucket, p.bucket, now);
    var used := UsageOf(g, tenantId);
    Move(g, t, LimitPc(p, g, t, now))
      .(buckets := g.buckets[tenantId := bucket'],
        usage := g.usage[tenantId := Usage(if allowed then used.spent + 1 else used.spent,
                                           used.forward + Elapsed(bucket.lastRefilledAt, now),
                                           if tenantId in g.buckets then used.opens else used.opens + 1)])
  }

  function VetPc(p: Policy, g: Gate, t: ThreadId, now: real): Pc
    requires Active(g, t)
  {
    match Validate(p, Top(g, t).request, now)
    case Some(error) => Reject(error)
    case None => Journaling
  }

  function AppendPc(writeId: string, now: real, outcome: AppendOutcome): Pc {
    if outcome.Durable? then Ready(writeId, now) else Leaving(None)
  }

  function DoAppend(g: Gate, t: ThreadId, writeId: string, now: real, outcome: AppendOutcome): Gate
    requires Active(g, t) && ResolveSourceType(Top(g, t).request.sourceTypeRaw).Some?
  {
    var g' := Move(g, t, AppendPc(writeId, now, outcome));
    if outcome.RaisedLost? then g'
    else
      g'.(journal := g.journal + [NewEntry(Top(g, t).request, writeId, now)],
          events := g.events + [Journaled(TopKey(g, t), writeId)])
  }

  function PersistPc(g: Gate, t: ThreadId): Pc
    requires Active(g, t) && Top(g, t).pc.Ready?
  {
    Persisting(Top(g, t).pc.writeId, Top(g, t).pc.writtenAt)
  }

  function DoPersist(g: Gate, t: ThreadId): Gate
    requires Active(g, t) && Top(g, t).pc.Ready?
  {
    Move(g, t, PersistPc(g, t)).(events := g.events + [PersistRan(TopKey(g, t), Top(g, t).pc.writeId)])
  }

  function EndPc(g: Gate, t: ThreadId, raises: bool): Pc
    requires Active(g, t) && Top(g, t).pc.Persisting?
  {
    Leaving(if raises then None else Some(Accepted(Top(g, t).pc.writeId, Top(g, t).pc.writtenAt)))
  }

  function DoRelease(g: Gate, t: ThreadId): Gate
    requires Active(g, t) && Top(g, t).pc.Leaving?
  {
    var s, key := Stack(g, t), TopKey(g, t);
    g.(stacks := g.stacks[t := s[..|s| - 1]],
       locks := if key in g.locks && g.locks[key].depth > 1 then g.locks[key := Lock(t, g.locks[key].depth - 1)]
                else g.locks - {key},
       events := g.events + [Returned(key, Top(g, t).pc.outcome)])
  }

  // ---------------------------------------------------------------- mutual exclusion

  /** How many of these nested calls hold `key`'s lock. */
  ghost function Held(s: seq<Frame>, key: Key): nat {
    if s == [] then 0
    else
      var last := s[|s| - 1];
      Held(s[..|s| - 1], key) + (if KeyOf(last.request) == key && !last.pc.Waiting? then 1 else 0)
  }

  /** Each lock's depth is the number of calls of its owner that hold it, and nobody else does. */
  ghost predicate LocksMatch(g: Gate) {
    && (forall key :: key in g.locks ==> g.locks[key].depth > 0)
    && (forall t, key {:trigger Held(Stack(g, t), key)} ::
          Held(Stack(g, t), key) == if key in g.locks && g.locks[key].owner == t then g.locks[key].depth else 0)
  }

  /** Only the innermost call of a thread can be anywhere but inside its callback. */
  ghost predicate OuterPersisting(g: Gate) {
    forall t, i :: 0 <= i < |Stack(g, t)| - 1 ==> Stack(g, t)[i].pc.Persisting?
  }

  ghost predicate Exclusive(g: Gate) {
    LocksMatch(g) && OuterPersisting(g)
  }

  /** `g'` differs from `g` in `t`'s innermost program counter and in nothing the locks depend on. */
  ghost predicate Moved(g: Gate, g': Gate, t: ThreadId, pc: Pc) {
    Active(g, t) && g'.stacks == Move(g, t, pc).stacks
  }

  lemma MovedFacts(g: Gate, g': Gate, t: ThreadId, pc: Pc)
    requires Moved(g, g', t, pc)
    ensures Active(g', t) && Top(g', t) == Top(g, t).(pc := pc) && TopKey(g', t) == TopKey(g, t)
    ensures |Stack(g', t)| == |Stack(g, t)|
    ensures forall i :: 0 <= i < |Stack(g, t)| - 1 ==> Stack(g', t)[i] == Stack(g, t)[i]
    ensures Stack(g', t)[..|Stack(g, t)| - 1] == Stack(g, t)[..|Stack(g, t)| - 1]
    ensures forall u :: u != t ==> Stack(g', u) == Stack(g, u)
    ensures forall u :: Active(g', u) <==> Active(g, u)
    ensures forall u :: u != t && Active(g, u) ==> Top(g', u) == Top(g, u)
  {
  }

  lemma MovedKeepsExclusive(g: Gate, g': Gate, t: ThreadId, pc: Pc)
    requires Exclusive(g) && Moved(g, g', t, pc) && g'.locks == g.locks
    requires !Top(g, t).pc.Waiting? && !pc.Waiting?
    ensures Exclusive(g')
  {
    MovedFacts(g, g', t, pc);
    forall u, key ensures Held(Stack(g', u), key) == Held(Stack(g, u), key) {
    }
  }

  lemma {:induction false} HeldPositive(s: seq<Frame>, i: nat)
    requires i < |s| && !s[i].pc.Waiting?
    ensures Held(s, KeyOf(s[i].request)) > 0
  {
    if i < |s| - 1 {
      HeldPositive(s[..|s| - 1], i);
    }
  }

  /** Two threads whose innermost calls are past the lock are working on different keys. */
  lemma DifferentKeys(g: Gate, t: ThreadId, u: ThreadId)
    requires Exclusive(g) && Active(g, t) && Active(g, u)
    requires !Top(g, t).pc.Waiting? && !Top(g, u).pc.Waiting? && TopKey(g, t) == TopKey(g, u)
    ensures t == u
  {
    HeldPositive(Stack(g, t), |Stack(g, t)| - 1);
    HeldPositive(Stack(g, u), |Stack(g, u)| - 1);
  }

  lemma SubmitKeepsExclusive(g: Gate, t: ThreadId, q: Request)
    requires Exclusive(g) && (!Active(g, t) || Top(g, t).pc.Persisting?)
    ensures Exclusive(g.(stacks := g.stacks[t := Stack(g, t) + [Frame(q, Waiting)]]))
  {
    var g' := g.(stacks := g.stacks[t := Stack(g, t) + [Frame(q, Waiting)]]);
    assert Stack(g', t)[..|Stack(g, t)|] == Stack(g, t);
    forall u, key ensures Held(Stack(g', u), key) == Held(Stack(g, u), key) {
    }
    forall u, i | 0 <= i < |Stack(g', u)| - 1 ensures Stack(g', u)[i].pc.Persisting? {
      assert u != t ==> Stack(g', u) == Stack(g, u);
      assert u == t ==> Stack(g', u)[i] == Stack(g, u)[i];
    }
  }

  lemma AcquireKeepsExclusive(g: Gate, t: ThreadId)
    requires Exclusive(g) && Active(g, t) && Top(g, t).pc.Waiting? && CanAcquire(g, t)
    ensures Exclusive(DoAcquire(g, t))
  {
    var g' := DoAcquire(g, t);
    MovedFacts(g, g', t, Checking);
    var key := TopKey(g, t);
    forall u, k ensures Held(Stack(g', u), k) == Held(Stack(g, u), k) + (if u == t && k == key then 1 else 0) {
    }
  }

  lemma ReleaseKeepsExclusive(g: Gate, t: ThreadId)
    requires Exclusive(g) && Active(g, t) && Top(g, t).pc.Leaving?
    ensures Exclusive(DoRelease(g, t))
  {
    var g' := DoRelease(g, t);
    var s, key := Stack(g, t), TopKey(g, t);
    HeldPositive(s, |s| - 1);
    assert Stack(g', t) == s[..|s| - 1];
    forall u, k ensures Held(Stack(g', u), k) == Held(Stack(g, u), k) - (if u == t && k == key then 1 else 0) {
    }
    forall u, i | 0 <= i < |Stack(g', u)| - 1 ensures Stack(g', u)[i].pc.Persisting? {
      assert u != t ==> Stack(g', u) == Stack(g, u);
      assert Stack(g', u)[i] == Stack(g, u)[i];
    }
  }

  lemma ExclusiveStep(p: Policy, g: Gate, step: Step)
    requires Exclusive(g)
    ensures Exclusive(Next(p, g, step))
  {
    var g' := Next(p, g, step);
    if g' != g {
      match step
      case Submit(t, q) => SubmitKeepsExclusive(g, t, q);
      case Acquire(t) => AcquireKeepsExclusive(g, t);
      case Release(t) => ReleaseKeepsExclusive(g, t);
      case Check(t) => MovedKeepsExclusive(g, g', t, CheckPc(g, t));
      case Limit(t, now) => MovedKeepsExclusive(g, g', t, LimitPc(p, g, t, now));
      case Vet(t, now) => MovedKeepsExclusive(g, g', t, VetPc(p, g, t, now));
      case Append(t, writeId, now, outcome) => MovedKeepsExclusive(g, g', t, AppendPc(writeId, now, outcome));
      case StartPersist(t) => MovedKeepsExclusive(g, g', t, PersistPc(g, t));
      case EndPersist(t, raises) => MovedKeepsExclusive(g, g', t, EndPc(g, t, raises));
      case Restart => assert forall t :: Stack(g', t) == [];
    }
  }

  // ---------------------------------------------------------------- at most once

  predicate Undecided(pc: Pc) {
    pc.Limiting? || pc.Validating? || pc.Journaling?
  }

  ghost predicate HasWrite(journal: seq<Entry>, key: Key, writeId: string, at: real) {
    Find(journal, key).Some? && Find(journal, key).value.writeId == writeId && Find(journal, key).value.writtenAt == at
  }

  /** Whatever a call is about to claim is what the journal holds for its key. */
  ghost predicate Backed(journal: seq<Entry>, f: Frame) {
    match f.pc
    case Ready(w, at) => HasWrite(journal, KeyOf(f.request), w, at)
    case Persisting(w, at) => HasWrite(journal, KeyOf(f.request), w, at)
    case Leaving(Some(Accepted(w, at))) => HasWrite(journal, KeyOf(f.request), w, at)
    case _ => true
  }

  ghost predicate AllBacked(g: Gate) {
    forall t, i :: 0 <= i < |Stack(g, t)| ==> Backed(g.journal, Stack(g, t)[i])
  }

  /** A call that saw no entry for its key still would not; a call about to run its callback is
      the first to. */
  ghost predicate TopOk(journal: seq<Entry>, events: seq<Event>, f: Frame) {
    && (Undecided(f.pc) ==> Find(journal, KeyOf(f.request)).None?)
    && (f.pc.Ready? ==> Persists(events, KeyOf(f.request)) == 0)
  }

  ghost predicate TopsOk(g: Gate) {
    forall t :: Active(g, t) ==> TopOk(g.journal, g.events, Top(g, t))
  }

  ghost function Journals(events: seq<Event>, key: Key): nat {
    if events == [] then 0
    else
      var last := events[|events| - 1];
      Journals(events[..|events| - 1], key) + (if last.Journaled? && last.key == key then 1 else 0)
  }

  ghost function Persists(events: seq<Event>, key: Key): nat {
    if events == [] then 0
    else
      var last := events[|events| - 1];
      Persists(events[..|events| - 1], key) + (if last.PersistRan? && last.key == key then 1 else 0)
  }

  /** The journal and the event log tell the same story, once per key. */
  ghost predicate JournalLogged(g: Gate) {
    && (forall key :: Journals(g.events, key) == if Find(g.journal, key).Some? then 1 else 0)
    && (forall key, w :: Journaled(key, w) in g.events <==>
          Find(g.journal, key).Some? && Find(g.journal, key).value.writeId == w)
  }

  /** A callback ran at most once per key, and only with an entry. */
  ghost predicate PersistOnce(g: Gate) {
    forall key :: Persists(g.events, key) <= if Find(g.journal, key).Some? then 1 else 0
  }

  ghost predicate PersistAfterJournal(events: seq<Event>) {
    forall i :: 0 <= i < |events| && events[i].PersistRan? ==>
      Journaled(events[i].key, events[i].writeId) in events[..i]
  }

  ghost predicate AcceptancesBacked(g: Gate) {
    forall key, w, at :: Returned(key, Some(Accepted(w, at))) in g.events ==> HasWrite(g.journal, key, w, at)
  }

  ghost predicate Sound(g: Gate) {
    && Exclusive(g) && TopsOk(g) && AllBacked(g)
    && JournalLogged(g) && PersistOnce(g) && PersistAfterJournal(g.events) && AcceptancesBacked(g)
  }

  lemma FindAppend(journal: seq<Entry>, e: Entry, key: Key)
    ensures Find(journal + [e], key) == if EntryKey(e) == key then Some(e) else Find(journal, key)
  {
    assert (journal + [e])[..|journal|] == journal;
  }

  lemma CountsAppend(events: seq<Event>, e: Event)
    ensures forall key :: Journals(events + [e], key)
                       == Journals(events, key) + (if e.Journaled? && e.key == key then 1 else 0)
    ensures forall key :: Persists(events + [e], key)
                       == Persists(events, key) + (if e.PersistRan? && e.key == key then 1 else 0)
  {
    assert (events + [e])[..|events|] == events;
  }

  lemma {:induction false} FindHasKey(journal: seq<Entry>, key: Key)
    ensures Find(journal, key).Some? ==> EntryKey(Find(journal, key).value) == key
  {
    if journal != [] && EntryKey(journal[|journal| - 1]) != key {
      FindHasKey(journal[..|journal| - 1], key);
    }
  }

  lemma MovedKeepsBacked(g: Gate, g': Gate, t: ThreadId, pc: Pc)
    requires Moved(g, g', t, pc) && AllBacked(g)
    requires forall f :: Backed(g.journal, f) ==> Backed(g'.journal, f)
    requires Backed(g'.journal, Top(g, t).(pc := pc))
    ensures AllBacked(g')
  {
    MovedFacts(g, g', t, pc);
    forall u, i | 0 <= i < |Stack(g', u)| ensures Backed(g'.journal, Stack(g', u)[i]) {
      if u != t || i < |Stack(g, t)| - 1 {
        assert Stack(g', u)[i] == Stack(g, u)[i];
      }
    }
  }

  lemma MovedKeepsTops(g: Gate, g': Gate, t: ThreadId, pc: Pc)
    requires Moved(g, g', t, pc) && TopsOk(g)
    requires forall u :: u != t && Active(g, u) ==>
               TopOk(g.journal, g.events, Top(g, u)) ==> TopOk(g'.journal, g'.events, Top(g, u))
    requires TopOk(g'.journal, g'.events, Top(g, t).(pc := pc))
    ensures TopsOk(g')
  {
    MovedFacts(g, g', t, pc);
    forall u | Active(g', u) ensures TopOk(g'.journal, g'.events, Top(g', u)) {
      if u != t {
        assert TopOk(g.journal, g.events, Top(g, u));
      }
    }
  }

  /** A move that touches neither journal nor log keeps everything, if its new claim is backed. */
  lemma QuietMove(g: Gate, g': Gate, t: ThreadId, pc: Pc)
    requires Sound(g) && Moved(g, g', t, pc) && Exclusive(g')
    requires g'.journal == g.journal && g'.events == g.events
    requires Backed(g.journal, Top(g, t).(pc := pc)) && TopOk(g.journal, g.events, Top(g, t).(pc := pc))
    ensures Sound(g')
  {
    MovedKeepsBacked(g, g', t, pc);
    MovedKeepsTops(g, g', t, pc);
  }

  lemma PersistStep(g: Gate, t: ThreadId)
    requires Sound(g) && Active(g, t) && Top(g, t).pc.Ready? && Exclusive(DoPersist(g, t))
    ensures Sound(DoPersist(g, t))
  {
    var g', pc, key := DoPersist(g, t), PersistPc(g, t), TopKey(g, t);
    CountsAppend(g.events, PersistRan(key, pc.writeId));
    assert Backed(g.journal, Stack(g, t)[|Stack(g, t)| - 1]);
    MovedKeepsBacked(g, g', t, pc);
    forall u | u != t && Active(g, u) && TopOk(g.journal, g.events, Top(g, u))
      ensures TopOk(g'.journal, g'.events, Top(g, u))
    {
      if Top(g, u).pc.Ready? && TopKey(g, u) == key {
        DifferentKeys(g, t, u);
      }
    }
    MovedKeepsTops(g, g', t, pc);
    LogPersist(g, g', key, pc.writeId);
  }

  /** What appending a callback event does to the log's own properties. */
  lemma LogPersist(g: Gate, g': Gate, key: Key, writeId: string)
    requires JournalLogged(g) && PersistOnce(g) && PersistAfterJournal(g.events) && AcceptancesBacked(g)
    requires g'.journal == g.journal && g'.events == g.events + [PersistRan(key, writeId)]
    requires Persists(g.events, key) == 0 && Find(g.journal, key).Some? && Find(g.journal, key).value.writeId == writeId
    ensures JournalLogged(g') && PersistOnce(g') && PersistAfterJournal(g'.events) && AcceptancesBacked(g')
  {
    CountsAppend(g.events, PersistRan(key, writeId));
    EventsExtend(g.events, PersistRan(key, writeId));
  }

  lemma EventsExtend(events: seq<Event>, e: Event)
    requires PersistAfterJournal(events)
    requires e.PersistRan? ==> Journaled(e.key, e.writeId) in events
    ensures PersistAfterJournal(events + [e])
  {
    var events' := events + [e];
    assert events'[..|events|] == events;
    forall i | 0 <= i < |events'| && events'[i].PersistRan?
      ensures Journaled(events'[i].key, events'[i].writeId) in events'[..i]
    {
      assert events'[..i] == events[..i];
    }
  }

  lemma ReleaseStep(g: Gate, t: ThreadId)
    requires Sound(g) && Active(g, t) && Top(g, t).pc.Leaving? && Exclusive(DoRelease(g, t))
    ensures Sound(DoRelease(g, t))
  {
    ReleaseLog(g, t);
    ReleaseStacks(g, t);
  }

  lemma ReleaseLog(g: Gate, t: ThreadId)
    requires Sound(g) && Active(g, t) && Top(g, t).pc.Leaving?
    ensures var g' := DoRelease(g, t);
            JournalLogged(g') && PersistOnce(g') && PersistAfterJournal(g'.events) && AcceptancesBacked(g')
  {
    ReleaseLogsNothingNew(g, t);
    ReleaseIsBacked(g, t);
    PersistsStayAfterJournals(g.events, Returned(TopKey(g, t), Top(g, t).pc.outcome));
  }

  lemma ReleaseLogsNothingNew(g: Gate, t: ThreadId)
    requires JournalLogged(g) && PersistOnce(g) && Active(g, t) && Top(g, t).pc.Leaving?
    ensures JournalLogged(DoRelease(g, t)) && PersistOnce(DoRelease(g, t))
  {
    CountsAppend(g.events, Returned(TopKey(g, t), Top(g, t).pc.outcome));
  }

  lemma ReleaseIsBacked(g: Gate, t: ThreadId)
    requires AcceptancesBacked(g) && AllBacked(g) && Active(g, t) && Top(g, t).pc.Leaving?
    ensures AcceptancesBacked(DoRelease(g, t))
  {
    assert Backed(g.journal, Stack(g, t)[|Stack(g, t)| - 1]);
  }

  lemma PersistsStayAfterJournals(events: seq<Event>, e: Event)
    requires PersistAfterJournal(events) && !e.PersistRan?
    ensures PersistAfterJournal(events + [e])
  {
    forall i | 0 <= i < |events + [e]| && (events + [e])[i].PersistRan?
      ensures Journaled((events + [e])[i].key, (events + [e])[i].writeId) in (events + [e])[..i]
    {
      assert (events + [e])[..i] == events[..i];
    }
  }

  lemma ReleaseStacks(g: Gate, t: ThreadId)
    requires Sound(g) && Active(g, t) && Top(g, t).pc.Leaving?
    ensures TopsOk(DoRelease(g, t)) && AllBacked(DoRelease(g, t))
  {
    var g', e := DoRelease(g, t), Returned(TopKey(g, t), Top(g, t).pc.outcome);
    CountsAppend(g.events, e);
    var s := Stack(g, t);
    assert Stack(g', t) == s[..|s| - 1];
    forall u | Active(g', u) ensures TopOk(g'.journal, g'.events, Top(g', u)) {
      if u == t {
        assert Stack(g, t)[|s| - 2].pc.Persisting?;
      } else {
        assert Stack(g', u) == Stack(g, u);
        assert TopOk(g.journal, g.events, Top(g, u));
      }
    }
    forall u, i | 0 <= i < |Stack(g', u)| ensures Backed(g'.journal, Stack(g', u)[i]) {
      assert Stack(g', u)[i] == Stack(g, u)[i];
    }
  }

  lemma SubmitStep(g: Gate, t: ThreadId, q: Request)
    requires Sound(g) && (!Active(g, t) || Top(g, t).pc.Persisting?)
    ensures Sound(g.(stacks := g.stacks[t := Stack(g, t) + [Frame(q, Waiting)]]))
  {
    var g' := g.(stacks := g.stacks[t := Stack(g, t) + [Frame(q, Waiting)]]);
    SubmitKeepsExclusive(g, t, q);
    forall u | Active(g', u) ensures TopOk(g'.journal, g'.events, Top(g', u)) {
      if u != t {
        assert Stack(g', u) == Stack(g, u);
        assert TopOk(g.journal, g.events, Top(g, u));
      }
    }
    forall u, i | 0 <= i < |Stack(g', u)| ensures Backed(g'.journal, Stack(g', u)[i]) {
      if u != t || i < |Stack(g, t)| {
        assert Stack(g', u)[i] == Stack(g, u)[i];
      }
    }
  }

  lemma AppendStep(g: Gate, t: ThreadId, writeId: string, now: real, outcome: AppendOutcome)
    requires Sound(g) && Active(g, t) && Top(g, t).pc.Journaling? && !outcome.RaisedLost?
    requires ResolveSourceType(Top(g, t).request.sourceTypeRaw).Some?
    requires Exclusive(DoAppend(g, t, writeId, now, outcome))
    ensures Sound(DoAppend(g, t, writeId, now, outcome))
  {
    var g', pc, key := DoAppend(g, t, writeId, now, outcome), AppendPc(writeId, now, outcome), TopKey(g, t);
    var e := NewEntry(Top(g, t).request, writeId, now);
    assert TopOk(g.journal, g.events, Top(g, t));
    forall k ensures Find(g'.journal, k) == if k == key then Some(e) else Find(g.journal, k) {
      FindAppend(g.journal, e, k);
    }
    CountsAppend(g.events, Journaled(key, writeId));
    assert forall f :: Backed(g.journal, f) ==> Backed(g'.journal, f);
    MovedKeepsBacked(g, g', t, pc);
    forall u | u != t && Active(g, u) && TopOk(g.journal, g.events, Top(g, u))
      ensures TopOk(g'.journal, g'.events, Top(g, u))
    {
      if Undecided(Top(g, u).pc) && TopKey(g, u) == key {
        DifferentKeys(g, t, u);
      }
    }
    MovedKeepsTops(g, g', t, pc);
    LogJournal(g, g', key, e);
  }

  /** What appending an entry together with its event does to the log's own properties. */
  lemma LogJournal(g: Gate, g': Gate, key: Key, e: Entry)
    requires JournalLogged(g) && PersistOnce(g) && PersistAfterJournal(g.events) && AcceptancesBacked(g)
    requires EntryKey(e) == key && Find(g.journal, key).None?
    requires g'.journal == g.journal + [e] && g'.events == g.events + [Journaled(key, e.writeId)]
    ensures JournalLogged(g') && PersistOnce(g') && PersistAfterJournal(g'.events) && AcceptancesBacked(g')
  {
    forall k ensures Find(g'.journal, k) == if k == key then Some(e) else Find(g.journal, k) {
      FindAppend(g.journal, e, k);
    }
    CountsAppend(g.events, Journaled(key, e.writeId));
    EventsExtend(g.events, Journaled(key, e.writeId));
  }

  /** The steps that neither journal nor log. */
  predicate Quiet(step: Step) {
    step.Acquire? || step.Check? || step.Limit? || step.Vet? || step.EndPersist?
    || (step.Append? && step.outcome.RaisedLost?)
  }

  lemma QuietStepIsSound(p: Policy, g: Gate, step: Step)
    requires Sound(g) && Quiet(step) && Next(p, g, step) != g && Exclusive(Next(p, g, step))
    ensures Sound(Next(p, g, step))
  {
    var g' := Next(p, g, step);
    TopDecided(g, step.t);
    match step
    case Acquire(t) => QuietMove(g, g', t, Checking);
    case Check(t) => QuietMove(g, g', t, CheckPc(g, t));
    case Limit(t, now) => QuietMove(g, g', t, LimitPc(p, g, t, now));
    case Vet(t, now) => QuietMove(g, g', t, VetPc(p, g, t, now));
    case Append(t, writeId, now, outcome) => QuietMove(g, g', t, AppendPc(writeId, now, outcome));
    case EndPersist(t, raises) => QuietMove(g, g', t, EndPc(g, t, raises));
  }

  /** Every step of every thread keeps the gate sound. */
  lemma SoundStep(p: Policy, g: Gate, step: Step)
    requires Sound(g)
    ensures Sound(Next(p, g, step))
  {
    ExclusiveStep(p, g, step);
    if Next(p, g, step) != g {
      if Quiet(step) {
        QuietStepIsSound(p, g, step);
      } else {
        match step
        case Submit(t, q) => SubmitStep(g, t, q);
        case Release(t) => ReleaseStep(g, t);
        case Append(t, writeId, now, outcome) => AppendStep(g, t, writeId, now, outcome);
        case StartPersist(t) => PersistStep(g, t);
        case Restart => assert forall t :: Stack(Restarted(g), t) == [];
      }
    }
  }

  lemma TopDecided(g: Gate, t: ThreadId)
    requires Sound(g) && Active(g, t)
    ensures TopOk(g.journal, g.events, Top(g, t)) && Backed(g.journal, Top(g, t))
  {
    assert Backed(g.journal, Stack(g, t)[|Stack(g, t)| - 1]);
  }

  // ---------------------------------------------------------------- the admission bound

  /** Past the rate limit, with the token not yet turned into a journal entry. */
  predicate OnTicket(pc: Pc) {
    pc.Validating? || pc.Journaling?
  }

  ghost function InFlight(g: Gate, tenantId: string): set<ThreadId> {
    set t | t in g.stacks && Active(g, t) && OnTicket(Top(g, t).pc) && Top(g, t).request.tenantId == tenantId
  }

  ghost function JournalsFor(events: seq<Event>, tenantId: string): nat {
    if events == [] then 0
    else
      var last := events[|events| - 1];
      JournalsFor(events[..|events| - 1], tenantId)
      + (if last.Journaled? && last.key.tenantId == tenantId then 1 else 0)
  }

  ghost function Capacities(config: Config, opens: nat): (c: real)
    ensures c >= 0.0
  {
    if opens == 0 then 0.0 else Capacities(config, opens - 1) + config.capacity
  }

  /** What the full buckets opened for a tenant and the forward movement they saw can have given out. */
  ghost function Given(config: Config, used: Usage): real {
    Capacities(config, used.opens) + used.forward * config.refillPerSecond
  }

  ghost predicate InBooks(config: Config, bucket: Option<Bucket>, used: Usage) {
    match bucket
    case None => used.forward >= 0.0 && used.spent as real <= Given(config, used)
    case Some(b) => used.forward >= 0.0 && InRange(b, config) && used.spent as real + b.tokens <= Given(config, used)
  }

  ghost function Open(g: Gate, tenantId: string): Option<Bucket> {
    if tenantId in g.buckets then Some(g.buckets[tenantId]) else None
  }

  /** Every tenant is accounted for, over all the buckets that restarts made it open. */
  ghost predicate Balanced(p: Policy, g: Gate) {
    forall tenantId :: InBooks(p.bucket, Open(g, tenantId), UsageOf(g, tenantId))
  }

  lemma SameBooks(p: Policy, g: Gate, g': Gate)
    requires Balanced(p, g) && g'.buckets == g.buckets && g'.usage == g.usage
    ensures Balanced(p, g')
  {
    forall tenantId ensures InBooks(p.bucket, Open(g', tenantId), UsageOf(g', tenantId)) {
      assert Open(g', tenantId) == Open(g, tenantId) && UsageOf(g', tenantId) == UsageOf(g, tenantId);
    }
  }

  /** Every journal entry and every call in flight was paid for with its own token. */
  ghost predicate Ticketed(g: Gate) {
    forall tenantId :: JournalsFor(g.events, tenantId) + |InFlight(g, tenantId)| <= UsageOf(g, tenantId).spent
  }

  ghost predicate Paid(p: Policy, g: Gate) {
    Balanced(p, g) && Ticketed(g)
  }

  lemma InFlightIs(g: Gate, g': Gate, t: ThreadId, pc: Pc, tenantId: string)
    requires Moved(g, g', t, pc)
    ensures InFlight(g', tenantId)
         == if OnTicket(pc) && Top(g, t).request.tenantId == tenantId then InFlight(g, tenantId) + {t}
            else InFlight(g, tenantId) - {t}
    ensures t in InFlight(g, tenantId) <==> OnTicket(Top(g, t).pc) && Top(g, t).request.tenantId == tenantId
  {
    MovedFacts(g, g', t, pc);
    forall u ensures u in InFlight(g', tenantId) <==>
        if OnTicket(pc) && Top(g, t).request.tenantId == tenantId then u in InFlight(g, tenantId) + {t}
        else u in InFlight(g, tenantId) - {t} {
      assert u in g.stacks && u != t ==> Stack(g', u) == Stack(g, u);
    }
  }

  lemma InFlightMoved(g: Gate, g': Gate, t: ThreadId, pc: Pc, tenantId: string)
    requires Moved(g, g', t, pc)
    ensures |InFlight(g', tenantId)|
         == |InFlight(g, tenantId)|
            + (if OnTicket(pc) && Top(g, t).request.tenantId == tenantId then 1 else 0)
            - (if OnTicket(Top(g, t).pc) && Top(g, t).request.tenantId == tenantId then 1 else 0)
  {
    InFlightIs(g, g', t, pc, tenantId);
    WithAndWithout(InFlight(g, tenantId), t);
  }

  lemma WithAndWithout<T>(s: set<T>, x: T)
    ensures |s + {x}| == |s| + (if x in s then 0 else 1)
    ensures |s - {x}| == |s| - (if x in s then 1 else 0)
  {
    if x in s {
      assert s + {x} == s;
    } else {
      assert s - {x} == s;
    }
  }

  lemma JournalsForAppend(events: seq<Event>, e: Event, tenantId: string)
    ensures JournalsFor(events + [e], tenantId)
         == JournalsFor(events, tenantId) + (if e.Journaled? && e.key.tenantId == tenantId then 1 else 0)
  {
    assert (events + [e])[..|events|] == events;
  }

  /** A move that neither takes nor turns in a token, nor journals. */
  lemma UnpaidMove(p: Policy, g: Gate, g': Gate, t: ThreadId, pc: Pc)
    requires Paid(p, g) && Moved(g, g', t, pc) && g'.buckets == g.buckets && g'.usage == g.usage
    requires OnTicket(pc) ==> OnTicket(Top(g, t).pc)
    requires forall tenantId :: JournalsFor(g'.events, tenantId) == JournalsFor(g.events, tenantId)
    ensures Paid(p, g')
  {
    SameBooks(p, g, g');
    forall tenantId ensures |InFlight(g', tenantId)| <= |InFlight(g, tenantId)| {
      InFlightMoved(g, g', t, pc, tenantId);
    }
  }

  lemma TicketTaken(g: Gate, g': Gate, t: ThreadId, pc: Pc)
    requires Ticketed(g) && Moved(g, g', t, pc) && g'.events == g.events
    requires forall tenantId :: UsageOf(g', tenantId).spent == UsageOf(g, tenantId).spent
               + (if OnTicket(pc) && tenantId == Top(g, t).request.tenantId then 1 else 0)
    ensures Ticketed(g')
  {
    forall tenantId ensures JournalsFor(g'.events, tenantId) + |InFlight(g', tenantId)| <= UsageOf(g', tenantId).spent {
      InFlightMoved(g, g', t, pc, tenantId);
      assert JournalsFor(g.events, tenantId) + |InFlight(g, tenantId)| <= UsageOf(g, tenantId).spent;
    }
  }

  lemma LimitIsTicketed(p: Policy, g: Gate, t: ThreadId, now: real)
    requires Ticketed(g) && Active(g, t) && Top(g, t).pc.Limiting?
    ensures Ticketed(DoLimit(p, g, t, now))
  {
    var g' := DoLimit(p, g, t, now);
    assert forall tenantId :: tenantId != Top(g, t).request.tenantId ==> UsageOf(g', tenantId) == UsageOf(g, tenantId);
    TicketTaken(g, g', t, LimitPc(p, g, t, now));
  }

  lemma GivenGrows(config: Config, used: Usage, more: real, opens: nat)
    requires opens == used.opens || opens == used.opens + 1
    ensures Given(config, Usage(used.spent, used.forward + more, opens))
         == Given(config, used) + more * config.refillPerSecond + (if opens == used.opens then 0.0 else config.capacity)
  {
    assert (used.forward + more) * config.refillPerSecond
        == used.forward * config.refillPerSecond + more * config.refillPerSecond;
  }

  /** The tenant's bucket, opened if need be, and what is then given out to it. */
  lemma OpeningIsBalanced(p: Policy, g: Gate, t: ThreadId, now: real)
    requires Balanced(p, g) && Active(g, t)
    ensures var mine := Top(g, t).request.tenantId;
            var used, bucket := UsageOf(g, mine), TopBucket(p, g, t, now);
            && used.forward >= 0.0 && InRange(bucket, p.bucket)
            && used.spent as real + bucket.tokens
               <= Given(p.bucket, used) + (if mine in g.buckets then 0.0 else p.bucket.capacity)
  {
    assert InBooks(p.bucket, Open(g, Top(g, t).request.tenantId), UsageOf(g, Top(g, t).request.tenantId));
  }

  lemma LimitIsBalanced(p: Policy, g: Gate, t: ThreadId, now: real)
    requires Balanced(p, g) && Active(g, t)
    ensures Balanced(p, DoLimit(p, g, t, now))
  {
    var g', mine := DoLimit(p, g, t, now), Top(g, t).request.tenantId;
    var used, bucket := UsageOf(g, mine), TopBucket(p, g, t, now);
    OpeningIsBalanced(p, g, t, now);
    ConsumeSpends(bucket, p.bucket, now);
    SpendingIsBalanced(p.bucket, used, bucket, now, UsageOf(g', mine).opens);
    forall other ensures InBooks(p.bucket, Open(g', other), UsageOf(g', other)) {
      if other != mine {
        assert Open(g', other) == Open(g, other) && UsageOf(g', other) == UsageOf(g, other);
      }
    }
  }

  lemma SpendingIsBalanced(config: Config, used: Usage, bucket: Bucket, now: real, opens: nat)
    requires used.forward >= 0.0 && InRange(bucket, config) && (opens == used.opens || opens == used.opens + 1)
    requires used.spent as real + bucket.tokens <= Given(config, used) + (if opens == used.opens then 0.0 else config.capacity)
    ensures var (bucket', allowed) := TryConsume(bucket, config, now);
            InBooks(config, Some(bucket'), Usage(if allowed then used.spent + 1 else used.spent,
                                                 used.forward + Elapsed(bucket.lastRefilledAt, now), opens))
  {
    ConsumeSpends(bucket, config, now);
    var elapsed := Elapsed(bucket.lastRefilledAt, now);
    GivenGrows(config, used, elapsed, opens);
    GivenIgnoresSpent(config, Usage(used.spent, used.forward + elapsed, opens), used.spent + 1);
    assert (used.spent + 1) as real == used.spent as real + 1.0;
  }

  lemma GivenIgnoresSpent(config: Config, used: Usage, spent: nat)
    ensures Given(config, used.(spent := spent)) == Given(config, used)
  {
  }

  lemma AppendKeepsTicket(g: Gate, t: ThreadId, writeId: string, now: real, outcome: AppendOutcome, tenantId: string)
    requires Active(g, t) && Top(g, t).pc.Journaling? && !outcome.RaisedLost?
    requires ResolveSourceType(Top(g, t).request.sourceTypeRaw).Some?
    ensures var g' := DoAppend(g, t, writeId, now, outcome);
            JournalsFor(g'.events, tenantId) + |InFlight(g', tenantId)| == JournalsFor(g.events, tenantId) + |InFlight(g, tenantId)|
  {
    InFlightMoved(g, DoAppend(g, t, writeId, now, outcome), t, AppendPc(writeId, now, outcome), tenantId);
    JournalsForAppend(g.events, Journaled(TopKey(g, t), writeId), tenantId);
  }

  lemma AppendIsPaid(p: Policy, g: Gate, t: ThreadId, writeId: string, now: real, outcome: AppendOutcome)
    requires Paid(p, g) && Active(g, t) && Top(g, t).pc.Journaling? && !outcome.RaisedLost?
    requires ResolveSourceType(Top(g, t).request.sourceTypeRaw).Some?
    ensures Paid(p, DoAppend(g, t, writeId, now, outcome))
  {
    var g' := DoAppend(g, t, writeId, now, outcome);
    SameBooks(p, g, g');
    forall tenantId ensures JournalsFor(g'.events, tenantId) + |InFlight(g', tenantId)| <= UsageOf(g', tenantId).spent {
      AppendKeepsTicket(g, t, writeId, now, outcome, tenantId);
      assert JournalsFor(g.events, tenantId) + |InFlight(g, tenantId)| <= UsageOf(g, tenantId).spent;
    }
  }

  lemma StackChangeIsPaid(p: Policy, g: Gate, g': Gate, t: ThreadId)
    requires Paid(p, g) && g'.buckets == g.buckets && g'.usage == g.usage
    requires forall u :: u != t ==> (u in g'.stacks <==> u in g.stacks) && Stack(g', u) == Stack(g, u)
    requires Active(g, t) ==> !OnTicket(Top(g, t).pc)
    requires Active(g', t) ==> !OnTicket(Top(g', t).pc)
    requires forall tenantId :: JournalsFor(g'.events, tenantId) == JournalsFor(g.events, tenantId)
    ensures Paid(p, g')
  {
    SameBooks(p, g, g');
    forall tenantId ensures InFlight(g', tenantId) == InFlight(g, tenantId) {
      forall u ensures u in InFlight(g', tenantId) <==> u in InFlight(g, tenantId) {
      }
    }
  }

  lemma PaidStep(p: Policy, g: Gate, step: Step)
    requires Paid(p, g) && Exclusive(g)
    ensures Paid(p, Next(p, g, step))
  {
    var g' := Next(p, g, step);
    if g' != g {
      match step
      case Submit(t, q) => StackChangeIsPaid(p, g, g', t);
      case Acquire(t) => UnpaidMove(p, g, g', t, Checking);
      case Release(t) => ReleaseIsPaid(p, g, t);
      case Check(t) => UnpaidMove(p, g, g', t, CheckPc(g, t));
      case Limit(t, now) => LimitIsTicketed(p, g, t, now); LimitIsBalanced(p, g, t, now);
      case Vet(t, now) => UnpaidMove(p, g, g', t, VetPc(p, g, t, now));
      case Append(t, writeId, now, outcome) =>
        if outcome.RaisedLost? {
          UnpaidMove(p, g, g', t, AppendPc(writeId, now, outcome));
        } else {
          AppendIsPaid(p, g, t, writeId, now, outcome);
        }
      case StartPersist(t) => PersistIsPaid(p, g, t);
      case EndPersist(t, raises) => UnpaidMove(p, g, g', t, EndPc(g, t, raises));
      case Restart => RestartIsPaid(p, g);
    }
  }

  lemma RestartIsPaid(p: Policy, g: Gate)
    requires Paid(p, g)
    ensures Paid(p, Restarted(g))
  {
    var g' := Restarted(g);
    forall tenantId ensures InBooks(p.bucket, Open(g', tenantId), UsageOf(g', tenantId)) {
      assert UsageOf(g', tenantId) == UsageOf(g, tenantId) && Open(g', tenantId) == None;
      assert InBooks(p.bucket, Open(g, tenantId), UsageOf(g, tenantId));
    }
    forall tenantId ensures JournalsFor(g'.events, tenantId) + |InFlight(g', tenantId)| <= UsageOf(g', tenantId).spent {
      assert InFlight(g', tenantId) == {} && UsageOf(g', tenantId) == UsageOf(g, tenantId);
      assert JournalsFor(g.events, tenantId) + |InFlight(g, tenantId)| <= UsageOf(g, tenantId).spent;
    }
  }

  lemma PersistIsPaid(p: Policy, g: Gate, t: ThreadId)
    requires Paid(p, g) && Active(g, t) && Top(g, t).pc.Ready?
    ensures Paid(p, DoPersist(g, t))
  {
    var g' := DoPersist(g, t);
    forall tenantId ensures JournalsFor(g'.events, tenantId) == JournalsFor(g.events, tenantId) {
      JournalsForAppend(g.events, PersistRan(TopKey(g, t), Top(g, t).pc.writeId), tenantId);
    }
    UnpaidMove(p, g, g', t, PersistPc(g, t));
  }

  lemma ReleaseIsPaid(p: Policy, g: Gate, t: ThreadId)
    requires Paid(p, g) && Exclusive(g) && Active(g, t) && Top(g, t).pc.Leaving?
    ensures Paid(p, DoRelease(g, t))
  {
    var g', s := DoRelease(g, t), Stack(g, t);
    forall tenantId ensures JournalsFor(g'.events, tenantId) == JournalsFor(g.events, tenantId) {
      JournalsForAppend(g.events, Returned(TopKey(g, t), Top(g, t).pc.outcome), tenantId);
    }
    if |s| > 1 {
      assert Stack(g, t)[|s| - 2].pc.Persisting?;
      assert Top(g', t) == s[|s| - 2];
    }
    StackChangeIsPaid(p, g, g', t);
  }

  // ---------------------------------------------------------------- main results

  function Run(p: Policy, steps: seq<Step>): Gate {
    if steps == [] then INITIAL else Next(p, Run(p, steps[..|steps| - 1]), steps[|steps| - 1])
  }

  lemma {:induction false} RunIsSound(p: Policy, steps: seq<Step>)
    ensures Sound(Run(p, steps)) && Paid(p, Run(p, steps))
  {
    if steps == [] {
      assert forall t :: Stack(INITIAL, t) == [];
      assert forall tenantId :: InFlight(INITIAL, tenantId) == {};
    } else {
      var init := steps[..|steps| - 1];
      RunIsSound(p, init);
      SoundStep(p, Run(p, init), steps[|steps| - 1]);
      PaidStep(p, Run(p, init), steps[|steps| - 1]);
    }
  }

  /** Under any interleaving of concurrent and re-entrant calls, a key is journaled at most once and
      its callback runs at most once, after that entry and with its write id; every acceptance ever
      returned for the key carries the id and time of that one entry. */
  lemma EffectsAtMostOnce(p: Policy, steps: seq<Step>, key: Key)
    ensures var events := Run(p, steps).events;
            && Journals(events, key) <= 1 && Persists(events, key) <= Journals(events, key)
            && (forall i :: 0 <= i < |events| && events[i].PersistRan? ==>
                  Journaled(events[i].key, events[i].writeId) in events[..i])
            && (forall w, at :: Returned(key, Some(Accepted(w, at))) in events ==> Journaled(key, w) in events)
            && (forall w, at, w', at' ::
                  Returned(key, Some(Accepted(w, at))) in events && Returned(key, Some(Accepted(w', at'))) in events
                  ==> w == w' && at == at')
  {
    RunIsSound(p, steps);
  }

  function Restarts(steps: seq<Step>): nat {
    if steps == [] then 0 else Restarts(steps[..|steps| - 1]) + (if steps[|steps| - 1].Restart? then 1 else 0)
  }

  ghost function Opens(g: Gate, tenantId: string): nat {
    UsageOf(g, tenantId).opens + (if tenantId in g.buckets then 0 else 1)
  }

  lemma StepOpens(p: Policy, g: Gate, step: Step, tenantId: string)
    ensures Opens(Next(p, g, step), tenantId) <= Opens(g, tenantId) + (if step.Restart? then 1 else 0)
  {
  }

  /** A tenant opens a bucket at first and at most one more after each restart. */
  lemma {:induction false} OpenedBuckets(p: Policy, steps: seq<Step>, tenantId: string)
    ensures Opens(Run(p, steps), tenantId) <= 1 + Restarts(steps)
  {
    if steps != [] {
      OpenedBuckets(p, steps[..|steps| - 1], tenantId);
      StepOpens(p, Run(p, steps[..|steps| - 1]), steps[|steps| - 1], tenantId);
    }
  }

  lemma {:induction false} CapacitiesGrow(config: Config, opens: nat, limit: nat)
    requires opens <= limit
    ensures Capacities(config, opens) <= Capacities(config, limit)
    decreases limit
  {
    if opens < limit {
      CapacitiesGrow(config, opens, limit - 1);
    }
  }

  lemma GivenToMore(config: Config, used: Usage, limit: nat)
    requires used.opens <= limit
    ensures Given(config, used) <= Given(config, Usage(0, used.forward, limit))
  {
    CapacitiesGrow(config, used.opens, limit);
  }

  lemma SpentInBooks(config: Config, bucket: Option<Bucket>, used: Usage)
    requires InBooks(config, bucket, used)
    ensures used.spent as real <= Given(config, used)
    ensures bucket.Some? ==> 0.0 <= bucket.value.tokens <= config.capacity
  {
  }

  /** Over any run and any clock, a tenant gets at most its burst capacity, once more for every restart, plus
      the refill rate times the forward clock movement its buckets saw; a bucket never leaves [0, capacity]. */
  lemma TenantIsBounded(p: Policy, steps: seq<Step>, tenantId: string)
    ensures var g := Run(p, steps);
            && JournalsFor(g.events, tenantId) as real
               <= Given(p.bucket, Usage(0, UsageOf(g, tenantId).forward, 1 + Restarts(steps)))
            && (tenantId in g.buckets ==> 0.0 <= g.buckets[tenantId].tokens <= p.bucket.capacity)
  {
    var g := Run(p, steps);
    RunIsSound(p, steps);
    OpenedBuckets(p, steps, tenantId);
    GivenToMore(p.bucket, UsageOf(g, tenantId), 1 + Restarts(steps));
    assert JournalsFor(g.events, tenantId) + |InFlight(g, tenantId)| <= UsageOf(g, tenantId).spent;
    assert InBooks(p.bucket, Open(g, tenantId), UsageOf(g, tenantId));
    SpentInBooks(p.bucket, Open(g, tenantId), UsageOf(g, tenantId));
  }

  ghost function EntriesOf(journal: seq<Entry>, tenantId: string): set<nat> {
    Sequences.Where(journal, (e: Entry) => e.tenantId == tenantId)
  }

  ghost function RestartsIn(steps: seq<Step>): set<nat> {
    Sequences.Where(steps, (step: Step) => step.Restart?)
  }

  /** How far the clock has moved on when the step consults the tenant's bucket, since it was last consulted. */
  ghost function ClockGain(g: Gate, step: Step, tenantId: string): real {
    if step.Limit? && Active(g, step.t) && Top(g, step.t).pc.Limiting? && Top(g, step.t).request.tenantId == tenantId
       && tenantId in g.buckets && step.now > g.buckets[tenantId].lastRefilledAt
    then step.now - g.buckets[tenantId].lastRefilledAt else 0.0
  }

  ghost function ClockGains(p: Policy, steps: seq<Step>, tenantId: string): real {
    if steps == [] then 0.0
    else
      var init := steps[..|steps| - 1];
      ClockGains(p, init, tenantId) + ClockGain(Run(p, init), steps[|steps| - 1], tenantId)
  }

  lemma StepGains(p: Policy, g: Gate, step: Step, tenantId: string)
    ensures UsageOf(Next(p, g, step), tenantId).forward == UsageOf(g, tenantId).forward + ClockGain(g, step, tenantId)
  {
  }

  lemma {:induction false} ForwardIsGains(p: Policy, steps: seq<Step>, tenantId: string)
    ensures UsageOf(Run(p, steps), tenantId).forward == ClockGains(p, steps, tenantId)
  {
    if steps != [] {
      var init := steps[..|steps| - 1];
      ForwardIsGains(p, init, tenantId);
      StepGains(p, Run(p, init), steps[|steps| - 1], tenantId);
    }
  }

  lemma StepCountsEntries(p: Policy, g: Gate, step: Step, tenantId: string)
    ensures var g' := Next(p, g, step);
            |EntriesOf(g'.journal, tenantId)| - |EntriesOf(g.journal, tenantId)|
            == JournalsFor(g'.events, tenantId) - JournalsFor(g.events, tenantId)
  {
    var g', ofTenant := Next(p, g, step), (e: Entry) => e.tenantId == tenantId;
    if |g'.journal| > |g.journal| {
      assert g'.journal[..|g'.journal| - 1] == g.journal;
      Sequences.WhereAppend(g'.journal, ofTenant);
    }
    if |g'.events| > |g.events| {
      var e := g'.events[|g.events|];
      assert g'.events == g.events + [e];
      JournalsForAppend(g.events, e, tenantId);
    }
  }

  lemma {:induction false} JournalsAreEntries(p: Policy, steps: seq<Step>, tenantId: string)
    ensures |EntriesOf(Run(p, steps).journal, tenantId)| == JournalsFor(Run(p, steps).events, tenantId)
  {
    if steps != [] {
      var init := steps[..|steps| - 1];
      JournalsAreEntries(p, init, tenantId);
      StepCountsEntries(p, Run(p, init), steps[|steps| - 1], tenantId);
    } else {
      assert EntriesOf([], tenantId) == {};
    }
  }

  lemma {:induction false} RestartsAreIn(steps: seq<Step>)
    ensures Restarts(steps) == |RestartsIn(steps)|
  {
    if steps != [] {
      RestartsAreIn(steps[..|steps| - 1]);
      Sequences.WhereAppend(steps, (step: Step) => step.Restart?);
    } else {
      assert RestartsIn(steps) == {};
    }
  }

  lemma {:induction false} CapacitiesAre(config: Config, opens: nat)
    ensures Capacities(config, opens) == config.capacity * (opens as real)
  {
    if opens > 0 {
      CapacitiesAre(config, opens - 1);
    }
  }

  ghost function MostEntries(config: Config, buckets: nat, seconds: real): real {
    config.capacity * (buckets as real) + seconds * config.refillPerSecond
  }

  lemma GivenIsMost(config: Config, buckets: nat, seconds: real)
    ensures Given(config, Usage(0, seconds, buckets)) == MostEntries(config, buckets, seconds)
  {
    CapacitiesAre(config, buckets);
  }

  /** Said of the journal, the restarts and the clock: at most the capacity for the first bucket and for each
      restart, and the rate for the seconds by which the clock was ahead when the tenant's bucket was consulted. */
  lemma EntriesAreBounded(p: Policy, steps: seq<Step>, tenantId: string)
    ensures |EntriesOf(Run(p, steps).journal, tenantId)| as real
            <= MostEntries(p.bucket, 1 + |RestartsIn(steps)|, ClockGains(p, steps, tenantId))
  {
    TenantIsBounded(p, steps, tenantId);
    JournalsAreEntries(p, steps, tenantId);
    RestartsAreIn(steps);
    ForwardIsGains(p, steps, tenantId);
    GivenIsMost(p.bucket, 1 + Restarts(steps), UsageOf(Run(p, steps), tenantId).forward);
  }

  // ---------------------------------------------------------------- every token is accounted for

  /** The step ends a call of the tenant that had paid, with nothing journaled: refused, or its append lost. */
  ghost predicate Wastes(p: Policy, g: Gate, step: Step, tenantId: string) {
    match step
    case Vet(t, now) =>
      && Active(g, t) && Top(g, t).pc.Validating? && Top(g, t).request.tenantId == tenantId
      && Validate(p, Top(g, t).request, now).Some?
    case Append(t, _, _, outcome) =>
      && Active(g, t) && Top(g, t).pc.Journaling? && Top(g, t).request.tenantId == tenantId
      && ResolveSourceType(Top(g, t).request.sourceTypeRaw).Some? && outcome.RaisedLost?
    case _ => false
  }

  /** Paid calls that the step ends; a restart ends all of them. */
  ghost function WastedBy(p: Policy, g: Gate, step: Step, tenantId: string): nat {
    if step.Restart? then |InFlight(g, tenantId)| else if Wastes(p, g, step, tenantId) then 1 else 0
  }

  ghost function Wasted(p: Policy, steps: seq<Step>, tenantId: string): nat {
    if steps == [] then 0
    else
      var init, last := steps[..|steps| - 1], steps[|steps| - 1];
      Wasted(p, init, tenantId) + WastedBy(p, Run(p, init), last, tenantId)
  }

  /** What the tenant has paid for and not turned into an entry or a call in flight. */
  ghost function Unused(g: Gate, tenantId: string): int {
    UsageOf(g, tenantId).spent - JournalsFor(g.events, tenantId) - |InFlight(g, tenantId)|
  }

  /** A move of one call, with the tokens it takes, turns in and gives up. */
  lemma MoveAccounts(g: Gate, g': Gate, t: ThreadId, pc: Pc, tenantId: string, took: nat, journaled: nat)
    requires Moved(g, g', t, pc)
    requires UsageOf(g', tenantId).spent == UsageOf(g, tenantId).spent + took
    requires JournalsFor(g'.events, tenantId) == JournalsFor(g.events, tenantId) + journaled
    ensures var mine := Top(g, t).request.tenantId == tenantId;
            Unused(g', tenantId) == Unused(g, tenantId) + took - journaled
              - (if OnTicket(pc) && mine then 1 else 0) + (if OnTicket(Top(g, t).pc) && mine then 1 else 0)
  {
    InFlightMoved(g, g', t, pc, tenantId);
  }

  lemma StackChangeAccounts(g: Gate, g': Gate, t: ThreadId, tenantId: string)
    requires g'.usage == g.usage && JournalsFor(g'.events, tenantId) == JournalsFor(g.events, tenantId)
    requires forall u :: u != t ==> (u in g'.stacks <==> u in g.stacks) && Stack(g', u) == Stack(g, u)
    requires Active(g, t) ==> !OnTicket(Top(g, t).pc)
    requires Active(g', t) ==> !OnTicket(Top(g', t).pc)
    ensures Unused(g', tenantId) == Unused(g, tenantId)
  {
    assert InFlight(g', tenantId) == InFlight(g, tenantId);
  }

  lemma AppendAccounts(g: Gate, t: ThreadId, writeId: string, now: real, outcome: AppendOutcome, tenantId: string)
    requires Active(g, t) && Top(g, t).pc.Journaling? && ResolveSourceType(Top(g, t).request.sourceTypeRaw).Some?
    ensures Unused(DoAppend(g, t, writeId, now, outcome), tenantId)
         == Unused(g, tenantId) + (if outcome.RaisedLost? && Top(g, t).request.tenantId == tenantId then 1 else 0)
  {
    var g' := DoAppend(g, t, writeId, now, outcome);
    if !outcome.RaisedLost? {
      JournalsForAppend(g.events, Journaled(TopKey(g, t), writeId), tenantId);
    }
    MoveAccounts(g, g', t, AppendPc(writeId, now, outcome), tenantId, 0,
                 if !outcome.RaisedLost? && Top(g, t).request.tenantId == tenantId then 1 else 0);
  }

  lemma LimitAccounts(p: Policy, g: Gate, t: ThreadId, now: real, tenantId: string)
    requires Active(g, t) && Top(g, t).pc.Limiting?
    ensures Unused(DoLimit(p, g, t, now), tenantId) == Unused(g, tenantId)
  {
    MoveAccounts(g, DoLimit(p, g, t, now), t, LimitPc(p, g, t, now), tenantId,
                 if OnTicket(LimitPc(p, g, t, now)) && Top(g, t).request.tenantId == tenantId then 1 else 0, 0);
  }

  lemma PersistAccounts(g: Gate, t: ThreadId, tenantId: string)
    requires Active(g, t) && Top(g, t).pc.Ready?
    ensures Unused(DoPersist(g, t), tenantId) == Unused(g, tenantId)
  {
    JournalsForAppend(g.events, PersistRan(TopKey(g, t), Top(g, t).pc.writeId), tenantId);
    MoveAccounts(g, DoPersist(g, t), t, PersistPc(g, t), tenantId, 0, 0);
  }

  lemma ReleaseAccounts(g: Gate, t: ThreadId, tenantId: string)
    requires Exclusive(g) && Active(g, t) && Top(g, t).pc.Leaving?
    ensures Unused(DoRelease(g, t), tenantId) == Unused(g, tenantId)
  {
    var g', s := DoRelease(g, t), Stack(g, t);
    JournalsForAppend(g.events, Returned(TopKey(g, t), Top(g, t).pc.outcome), tenantId);
    if |s| > 1 {
      assert Stack(g, t)[|s| - 2].pc.Persisting?;
      assert Top(g', t) == s[|s| - 2];
    }
    StackChangeAccounts(g, g', t, tenantId);
  }

  /** The steps that take no token and turn none in, but may give one up. */
  lemma PlainMoveAccounts(p: Policy, g: Gate, step: Step, tenantId: string)
    requires Next(p, g, step) != g && (step.Acquire? || step.Check? || step.Vet? || step.EndPersist?)
    ensures Unused(Next(p, g, step), tenantId) == Unused(g, tenantId) + (if Wastes(p, g, step, tenantId) then 1 else 0)
  {
    var g' := Next(p, g, step);
    match step
    case Acquire(t) => MoveAccounts(g, g', t, Checking, tenantId, 0, 0);
    case Check(t) => MoveAccounts(g, g', t, CheckPc(g, t), tenantId, 0, 0);
    case Vet(t, now) => MoveAccounts(g, g', t, VetPc(p, g, t, now), tenantId, 0, 0);
    case EndPersist(t, raises) => MoveAccounts(g, g', t, EndPc(g, t, raises), tenantId, 0, 0);
  }

  lemma StepAccounts(p: Policy, g: Gate, step: Step, tenantId: string)
    requires Exclusive(g)
    ensures Unused(Next(p, g, step), tenantId) == Unused(g, tenantId) + WastedBy(p, g, step, tenantId)
  {
    if Next(p, g, step) != g {
      match step
      case Submit(t, q) => StackChangeAccounts(g, Next(p, g, step), t, tenantId);
      case Release(t) => ReleaseAccounts(g, t, tenantId);
      case Limit(t, now) => LimitAccounts(p, g, t, now, tenantId);
      case Append(t, writeId, now, outcome) => AppendAccounts(g, t, writeId, now, outcome, tenantId);
      case StartPersist(t) => PersistAccounts(g, t, tenantId);
      case Restart => RestartAccounts(g, tenantId);
      case _ => PlainMoveAccounts(p, g, step, tenantId);
    } else if step.Restart? {
      RestartAccounts(g, tenantId);
    } else {
      NoOpWastesNothing(p, g, step, tenantId);
    }
  }

  lemma RestartAccounts(g: Gate, tenantId: string)
    ensures Unused(Restarted(g), tenantId) == Unused(g, tenantId) + |InFlight(g, tenantId)|
  {
    assert InFlight(Restarted(g), tenantId) == {};
    assert UsageOf(Restarted(g), tenantId) == UsageOf(g, tenantId);
  }

  lemma NoOpWastesNothing(p: Policy, g: Gate, step: Step, tenantId: string)
    ensures Wastes(p, g, step, tenantId) ==> Next(p, g, step) != g
  {
    if Wastes(p, g, step, tenantId) {
      match step
      case Vet(t, now) => MovedFacts(g, Next(p, g, step), t, VetPc(p, g, t, now));
      case Append(t, writeId, now, outcome) => MovedFacts(g, Next(p, g, step), t, AppendPc(writeId, now, outcome));
    }
  }

  /** Over any interleaving, every token a tenant spent went into one journal entry, into a call still in
      flight, or into a call that was refused after paying, whose append was lost, or that a restart cut
      off. Replays, and calls refused by the limiter, spend nothing. */
  lemma {:induction false} EveryTokenIsAccountedFor(p: Policy, steps: seq<Step>, tenantId: string)
    ensures var g := Run(p, steps);
            UsageOf(g, tenantId).spent == JournalsFor(g.events, tenantId) + |InFlight(g, tenantId)| + Wasted(p, steps, tenantId)
  {
    if steps == [] {
      assert InFlight(INITIAL, tenantId) == {};
    } else {
      var init := steps[..|steps| - 1];
      EveryTokenIsAccountedFor(p, init, tenantId);
      RunIsSound(p, init);
      StepAccounts(p, Run(p, init), steps[|steps| - 1], tenantId);
    }
  }

  // ---------------------------------------------------------------- what an entry was made from

  /** Some request of exactly this content passed every check at some time. */
  ghost predicate Vetted(p: Policy, e: Entry) {
    exists q, now ::
      && Validate(p, q, now).None? && ResolveSourceType(q.sourceTypeRaw).Some?
      && e == NewEntry(q, e.writeId, e.writtenAt)
  }

  ghost predicate Passed(p: Policy, q: Request) {
    exists now :: Validate(p, q, now).None?
  }

  ghost predicate AllVetted(p: Policy, g: Gate) {
    && (forall k :: 0 <= k < |g.journal| ==> Vetted(p, g.journal[k]))
    && (forall t :: Active(g, t) && Top(g, t).pc.Journaling? ==> Passed(p, Top(g, t).request))
  }

  lemma MoveKeepsVetted(p: Policy, g: Gate, g': Gate, t: ThreadId, pc: Pc)
    requires AllVetted(p, g) && Moved(g, g', t, pc) && g'.journal == g.journal
    requires pc.Journaling? ==> Passed(p, Top(g, t).request)
    ensures AllVetted(p, g')
  {
    MovedFacts(g, g', t, pc);
  }

  lemma AppendKeepsVetted(p: Policy, g: Gate, t: ThreadId, writeId: string, now: real, outcome: AppendOutcome)
    requires AllVetted(p, g) && Active(g, t) && Top(g, t).pc.Journaling?
    requires ResolveSourceType(Top(g, t).request.sourceTypeRaw).Some?
    ensures AllVetted(p, DoAppend(g, t, writeId, now, outcome))
  {
    var q := Top(g, t).request;
    var at :| Validate(p, q, at).None?;
    assert Vetted(p, NewEntry(q, writeId, now));
    MovedFacts(g, DoAppend(g, t, writeId, now, outcome), t, AppendPc(writeId, now, outcome));
  }

  lemma StacksKeepVetted(p: Policy, g: Gate, g': Gate, t: ThreadId)
    requires AllVetted(p, g) && g'.journal == g.journal
    requires forall u :: u != t ==> Stack(g', u) == Stack(g, u)
    requires Active(g', t) ==> !Top(g', t).pc.Journaling?
    ensures AllVetted(p, g')
  {
    forall u | Active(g', u) && Top(g', u).pc.Journaling? ensures Passed(p, Top(g', u).request) {
      assert Stack(g', u) == Stack(g, u) && Active(g, u);
    }
  }

  lemma ReleaseKeepsVetted(p: Policy, g: Gate, t: ThreadId)
    requires Exclusive(g) && AllVetted(p, g) && Active(g, t) && Top(g, t).pc.Leaving?
    ensures AllVetted(p, DoRelease(g, t))
  {
    var s := Stack(g, t);
    if |s| > 1 {
      assert Stack(g, t)[|s| - 2].pc.Persisting?;
    }
    StacksKeepVetted(p, g, DoRelease(g, t), t);
  }

  lemma StepKeepsVetted(p: Policy, g: Gate, step: Step)
    requires Exclusive(g) && AllVetted(p, g)
    ensures AllVetted(p, Next(p, g, step))
  {
    var g' := Next(p, g, step);
    if g' != g {
      match step
      case Submit(t, q) => StacksKeepVetted(p, g, g', t);
      case Acquire(t) => MoveKeepsVetted(p, g, g', t, Checking);
      case Release(t) => ReleaseKeepsVetted(p, g, t);
      case Check(t) => MoveKeepsVetted(p, g, g', t, CheckPc(g, t));
      case Limit(t, now) => MoveKeepsVetted(p, g, g', t, LimitPc(p, g, t, now));
      case Vet(t, now) => MoveKeepsVetted(p, g, g', t, VetPc(p, g, t, now));
      case Append(t, writeId, now, outcome) => AppendKeepsVetted(p, g, t, writeId, now, outcome);
      case StartPersist(t) => MoveKeepsVetted(p, g, g', t, PersistPc(g, t));
      case EndPersist(t, raises) => MoveKeepsVetted(p, g, g', t, EndPc(g, t, raises));
      case Restart => assert forall t :: Stack(g', t) == [];
    }
  }

  lemma {:induction false} RunIsVetted(p: Policy, steps: seq<Step>)
    ensures AllVetted(p, Run(p, steps))
  {
    if steps == [] {
      assert forall t :: Stack(INITIAL, t) == [];
    } else {
      var init := steps[..|steps| - 1];
      RunIsVetted(p, init);
      RunIsSound(p, init);
      StepKeepsVetted(p, Run(p, init), steps[|steps| - 1]);
    }
  }

  /** The entry repeats the request, field by field. */
  ghost predicate Records(e: Entry, q: Request) {
    && e.tenantId == q.tenantId && e.idempotencyKey == q.idempotencyKey && e.itemId == q.itemId
    && e.sourceZone == q.sourceZone && SourceTypeName(e.sourceType) == q.sourceTypeRaw && e.sourceRefs == q.sourceRefs
    && e.callerIdentity == q.callerIdentity && e.retrievalContextHash == q.retrievalContextHash
    && e.userTurnMarker == q.userTurnMarker
  }

  /** The request carries the user turn marker and an attestation at most 300 seconds old, whose signature is
      the one that a known key makes over exactly this request. */
  ghost predicate Attested(p: Policy, q: Request, now: real) {
    && q.userTurnMarker && q.attestation.Some?
    && var a := q.attestation.value;
       && a.keyId in p.signingKeys && 0.0 <= now - a.issuedAt <= 300.0
       && a.signature == p.sign(p.signingKeys[a.keyId],
                                SignedFields(q.tenantId, q.itemId, q.callerIdentity, q.retrievalContextHash, a.keyId, a.issuedAt))
  }

  /** A caller that is not all white space, and a context hash of 64 lowercase hexadecimal digits. */
  ghost predicate Bound(q: Request) {
    && (exists i :: 0 <= i < |q.callerIdentity| && !Whitespace(q.callerIdentity[i]))
    && |q.retrievalContextHash| == 64
    && forall i :: 0 <= i < 64 ==> q.retrievalContextHash[i] in "0123456789abcdef"
  }

  lemma HexDigits(c: char)
    ensures c in "0123456789abcdef" <==> '0' <= c <= '9' || 'a' <= c <= 'f'
  {
    var digits := "0123456789abcdef";
    assert digits[0] == '0' && digits[1] == '1' && digits[2] == '2' && digits[3] == '3' && digits[4] == '4';
    assert digits[5] == '5' && digits[6] == '6' && digits[7] == '7' && digits[8] == '8' && digits[9] == '9';
    assert digits[10] == 'a' && digits[11] == 'b' && digits[12] == 'c' && digits[13] == 'd' && digits[14] == 'e';
    assert digits[15] == 'f';
  }

  lemma BoundIff(q: Request)
    ensures Bound(q) <==> !Blank(q.callerIdentity) && IsHexSha256(q.retrievalContextHash)
  {
    forall i | 0 <= i < |q.retrievalContextHash|
      ensures q.retrievalContextHash[i] in "0123456789abcdef"
         <==> '0' <= q.retrievalContextHash[i] <= '9' || 'a' <= q.retrievalContextHash[i] <= 'f'
    {
      HexDigits(q.retrievalContextHash[i]);
    }
  }

  lemma NamedType(raw: string)
    ensures ResolveSourceType(raw).Some? ==> SourceTypeName(ResolveSourceType(raw).value) == raw
    ensures ResolveSourceType(raw) == Some(UserStated) <==> raw == "user_stated"
    ensures ResolveSourceType(raw).None? <==> forall t :: raw != SourceTypeName(t)
  {
    forall t ensures ResolveSourceType(raw) == Some(t) <==> raw == SourceTypeName(t) {
      ResolvesIffNamed(raw, t);
    }
    assert SourceTypeName(UserStated) == "user_stated";
  }

  /** What the checks after the limiter decide, and in which order they are told. */
  lemma ValidateIs(p: Policy, q: Request, now: real)
    ensures Validate(p, q, now)
         == if forall t :: q.sourceTypeRaw != SourceTypeName(t) then Some(UnresolvableSourceType)
            else if q.sourceTypeRaw == "user_stated" && !q.userTurnMarker then Some(MissingUserTurnMarker)
            else if q.sourceTypeRaw == "user_stated" && !Attested(p, q, now) then Some(ForgedUserTurnMarker)
            else if !Bound(q) then Some(MissingCallerBinding)
            else None
  {
    NamedType(q.sourceTypeRaw);
    BoundIff(q);
    assert q.userTurnMarker ==> (Attested(p, q, now) <==> AttestationVerifies(p, q, now));
  }

  /** Over any interleaving and any restarts, every entry in the journal repeats a request that named its caller
      and its context; and every user-stated one was attested, for exactly that request, when it was checked. */
  lemma EntriesWereAttested(p: Policy, steps: seq<Step>, k: nat) returns (q: Request, checkedAt: real)
    requires k < |Run(p, steps).journal|
    ensures var e := Run(p, steps).journal[k];
            Records(e, q) && Bound(q) && (e.sourceType == UserStated ==> Attested(p, q, checkedAt))
  {
    RunIsVetted(p, steps);
    var e := Run(p, steps).journal[k];
    assert Vetted(p, e);
    q, checkedAt :|
      && Validate(p, q, checkedAt).None? && ResolveSourceType(q.sourceTypeRaw).Some?
      && e == NewEntry(q, e.writeId, e.writtenAt);
    ValidateIs(p, q, checkedAt);
    NamedType(q.sourceTypeRaw);
  }

  // ---------------------------------------------------------------- replays

  lemma StepKeepsEntry(p: Policy, g: Gate, step: Step, key: Key)
    requires Sound(g) && Find(g.journal, key).Some?
    ensures Find(Next(p, g, step).journal, key) == Find(g.journal, key)
  {
    if step.Append? && Next(p, g, step) != g && !step.outcome.RaisedLost? {
      TopDecided(g, step.t);
      FindAppend(g.journal, NewEntry(Top(g, step.t).request, step.writeId, step.now), key);
    }
  }

  lemma {:induction false} EntryStays(p: Policy, steps: seq<Step>, n: nat, key: Key)
    requires n <= |steps| && Find(Run(p, steps[..n]).journal, key).Some?
    ensures Find(Run(p, steps).journal, key) == Find(Run(p, steps[..n]).journal, key)
  {
    if n == |steps| {
      assert steps[..n] == steps;
    } else {
      var init := steps[..|steps| - 1];
      assert init[..n] == steps[..n];
      EntryStays(p, init, n, key);
      RunIsSound(p, init);
      StepKeepsEntry(p, Run(p, init), steps[|steps| - 1], key);
    }
  }

  /** Once a key has an entry, whatever happens in between, every later call for it is answered from that
      entry alone, journals, spends and runs nothing: the first answer if it repeats the entry's request, a
      refusal if it does not. */
  lemma LaterCallIsAnsweredFromEntry(p: Policy, steps: seq<Step>, n: nat, t: ThreadId, key: Key)
    requires n <= |steps| && Find(Run(p, steps[..n]).journal, key).Some?
    requires var g := Run(p, steps); Active(g, t) && Top(g, t).pc.Checking? && TopKey(g, t) == key
    ensures var g, e := Run(p, steps), Find(Run(p, steps[..n]).journal, key).value;
            var g' := Next(p, g, Check(t));
            && Active(g', t) && Top(g', t).pc == Leaving(Some(Replay(Top(g, t).request, e)))
            && g'.journal == g.journal && g'.buckets == g.buckets && g'.usage == g.usage && g'.events == g.events
            && g'.locks == g.locks
  {
    EntryStays(p, steps, n, key);
    var g := Run(p, steps);
    MovedFacts(g, Next(p, g, Check(t)), t, CheckPc(g, t));
  }

  lemma ReplayIs(q: Request, e: Entry)
    ensures EntryKey(e) == KeyOf(q) ==>
      Replay(q, e) == if Records(e, q) then Accepted(e.writeId, e.writtenAt) else Rejected(422, IdempotencyKeyReused)
  {
    NamedType(q.sourceTypeRaw);
    ResolvesIffNamed(q.sourceTypeRaw, e.sourceType);
  }

  /** So it is accepted with the entry's id and time exactly if it repeats the entry in every field, and is
      refused as a reuse of the key if it differs in any. */
  lemma LaterCallIsAcceptedIff(p: Policy, steps: seq<Step>, n: nat, t: ThreadId, key: Key)
    requires n <= |steps| && Find(Run(p, steps[..n]).journal, key).Some?
    requires var g := Run(p, steps); Active(g, t) && Top(g, t).pc.Checking? && TopKey(g, t) == key
    ensures var q, e := Top(Run(p, steps), t).request, Find(Run(p, steps[..n]).journal, key).value;
            var g' := Next(p, Run(p, steps), Check(t));
            && Active(g', t)
            && Top(g', t).pc == Leaving(Some(if Records(e, q) then Accepted(e.writeId, e.writtenAt)
                                             else Rejected(422, IdempotencyKeyReused)))
  {
    LaterCallIsAnsweredFromEntry(p, steps, n, t, key);
    FindHasKey(Run(p, steps[..n]).journal, key);
    ReplayIs(Top(Run(p, steps), t).request, Find(Run(p, steps[..n]).journal, key).value);
  }

  // ---------------------------------------------------------------- accepted without having run

  /** The keys whose append raised although the entry became durable, or whose call a restart cut off between
      the append and the start of its callback. */
  ghost function KeptKeys(p: Policy, steps: seq<Step>): set<Key> {
    if steps == [] then {}
    else
      var init, last := steps[..|steps| - 1], steps[|steps| - 1];
      KeptKeys(p, init) + KeptBy(Run(p, init), last)
  }

  ghost function KeptBy(g: Gate, step: Step): set<Key> {
    match step
    case Append(t, _, _, outcome) =>
      if Active(g, t) && Top(g, t).pc.Journaling? && ResolveSourceType(Top(g, t).request.sourceTypeRaw).Some?
         && outcome.RaisedKept?
      then {TopKey(g, t)} else {}
    case Restart => set t | t in g.stacks && Active(g, t) && Top(g, t).pc.Ready? :: TopKey(g, t)
    case _ => {}
  }

  /** A call that has started its callback, or is about to answer with an acceptance. */
  predicate Claims(pc: Pc) {
    pc.Persisting? || (pc.Leaving? && pc.outcome.Some? && pc.outcome.value.Accepted?)
  }

  ghost predicate ReadyFor(g: Gate, key: Key) {
    exists t :: Active(g, t) && Top(g, t).pc.Ready? && TopKey(g, t) == key
  }

  /** Kept keys never run; any other key with an entry has run its callback or is just about to. */
  ghost predicate RunsMatch(g: Gate, kept: set<Key>) {
    && (forall key :: key in kept ==> Find(g.journal, key).Some? && Persists(g.events, key) == 0 && !ReadyFor(g, key))
    && (forall key :: key !in kept && Find(g.journal, key).Some? ==> Persists(g.events, key) == 1 || ReadyFor(g, key))
  }

  ghost predicate FrameRan(events: seq<Event>, kept: set<Key>, f: Frame) {
    Claims(f.pc) && KeyOf(f.request) !in kept ==> Persists(events, KeyOf(f.request)) == 1
  }

  ghost predicate FramesRan(g: Gate, kept: set<Key>) {
    forall t, i :: 0 <= i < |Stack(g, t)| ==> FrameRan(g.events, kept, Stack(g, t)[i])
  }

  ghost predicate AcceptanceRan(events: seq<Event>, kept: set<Key>, i: nat)
    requires i < |events|
  {
    events[i].Returned? && events[i].outcome.Some? && events[i].outcome.value.Accepted? && events[i].key !in kept ==>
      Persists(events[..i], events[i].key) == 1
  }

  ghost predicate AcceptancesRan(events: seq<Event>, kept: set<Key>) {
    forall i :: 0 <= i < |events| ==> AcceptanceRan(events, kept, i)
  }

  ghost predicate Tracked(g: Gate, kept: set<Key>) {
    RunsMatch(g, kept) && FramesRan(g, kept) && AcceptancesRan(g.events, kept)
  }

  lemma AcceptancesExtend(events: seq<Event>, e: Event, kept: set<Key>)
    requires AcceptancesRan(events, kept)
    requires e.Returned? && e.outcome.Some? && e.outcome.value.Accepted? && e.key !in kept ==> Persists(events, e.key) == 1
    ensures AcceptancesRan(events + [e], kept)
  {
    var all := events + [e];
    forall i | 0 <= i < |all| ensures AcceptanceRan(all, kept, i) {
      assert all[..i] == events[..i];
      if i == |events| {
        assert events[..i] == events;
      } else {
        assert AcceptanceRan(events, kept, i);
      }
    }
  }

  /** A move that logs nothing and is not into or out of `Ready`. */
  lemma QuietMoveKeepsTracked(g: Gate, g': Gate, t: ThreadId, pc: Pc, kept: set<Key>)
    requires Tracked(g, kept) && PersistOnce(g) && Moved(g, g', t, pc) && g'.journal == g.journal && g'.events == g.events
    requires !Top(g, t).pc.Ready? && !pc.Ready?
    requires FrameRan(g.events, kept, Top(g, t).(pc := pc))
    ensures Tracked(g', kept)
  {
    MovedFacts(g, g', t, pc);
    forall key ensures ReadyFor(g', key) <==> ReadyFor(g, key) {
      if u :| Active(g, u) && Top(g, u).pc.Ready? && TopKey(g, u) == key {
        assert Active(g', u) && Top(g', u) == Top(g, u);
      }
    }
    FramesStay(g, g', t, pc, kept, kept);
  }

  lemma FramesStay(g: Gate, g': Gate, t: ThreadId, pc: Pc, kept: set<Key>, kept': set<Key>)
    requires FramesRan(g, kept) && Moved(g, g', t, pc) && kept <= kept'
    requires forall key :: Persists(g'.events, key) >= Persists(g.events, key) && Persists(g'.events, key) <= 1
    requires FrameRan(g'.events, kept', Top(g, t).(pc := pc))
    ensures FramesRan(g', kept')
  {
    MovedFacts(g, g', t, pc);
    forall u, i | 0 <= i < |Stack(g', u)| ensures FrameRan(g'.events, kept', Stack(g', u)[i]) {
      if u != t || i < |Stack(g, t)| - 1 {
        assert Stack(g', u)[i] == Stack(g, u)[i];
        assert FrameRan(g.events, kept, Stack(g, u)[i]);
      }
    }
  }

  /** Only `t`'s innermost call can become or stop being about to run. */
  lemma ReadyElsewhere(g: Gate, g': Gate, t: ThreadId, key: Key)
    requires forall u :: u != t ==> Stack(g', u) == Stack(g, u)
    requires Active(g, t) && Top(g, t).pc.Ready? ==> TopKey(g, t) != key
    requires Active(g', t) && Top(g', t).pc.Ready? ==> TopKey(g', t) != key
    ensures ReadyFor(g', key) <==> ReadyFor(g, key)
  {
    if u :| Active(g, u) && Top(g, u).pc.Ready? && TopKey(g, u) == key {
      assert Stack(g', u) == Stack(g, u) && Active(g', u);
    }
    if u :| Active(g', u) && Top(g', u).pc.Ready? && TopKey(g', u) == key {
      assert Stack(g', u) == Stack(g, u) && Active(g, u);
    }
  }

  /** A call that finds an entry under its lock is not running beside the call that made it. */
  lemma CheckKeepsTracked(g: Gate, g': Gate, t: ThreadId, kept: set<Key>)
    requires Sound(g) && Tracked(g, kept) && Active(g, t) && Top(g, t).pc.Checking? && g' == Move(g, t, CheckPc(g, t))
    ensures Tracked(g', kept)
  {
    var key := TopKey(g, t);
    if u :| Active(g, u) && Top(g, u).pc.Ready? && TopKey(g, u) == key {
      DifferentKeys(g, t, u);
    }
    assert !ReadyFor(g, key);
    QuietMoveKeepsTracked(g, g', t, CheckPc(g, t), kept);
  }

  lemma EndKeepsTracked(g: Gate, t: ThreadId, raises: bool, kept: set<Key>)
    requires PersistOnce(g) && Tracked(g, kept) && Active(g, t) && Top(g, t).pc.Persisting?
    ensures Tracked(Move(g, t, EndPc(g, t, raises)), kept)
  {
    assert FrameRan(g.events, kept, Stack(g, t)[|Stack(g, t)| - 1]);
    QuietMoveKeepsTracked(g, Move(g, t, EndPc(g, t, raises)), t, EndPc(g, t, raises), kept);
  }

  lemma ReadyHasEntry(g: Gate, key: Key)
    requires AllBacked(g) && ReadyFor(g, key)
    ensures Find(g.journal, key).Some?
  {
    var t :| Active(g, t) && Top(g, t).pc.Ready? && TopKey(g, t) == key;
    assert Backed(g.journal, Stack(g, t)[|Stack(g, t)| - 1]);
  }

  lemma AppendRunsMatch(g: Gate, t: ThreadId, writeId: string, now: real, outcome: AppendOutcome, kept: set<Key>, k: Key)
    requires Sound(g) && RunsMatch(g, kept) && Active(g, t) && Top(g, t).pc.Journaling? && !outcome.RaisedLost?
    requires ResolveSourceType(Top(g, t).request.sourceTypeRaw).Some?
    ensures var g', kept' := DoAppend(g, t, writeId, now, outcome), kept + (if outcome.RaisedKept? then {TopKey(g, t)} else {});
            if k in kept' then Find(g'.journal, k).Some? && Persists(g'.events, k) == 0 && !ReadyFor(g', k)
            else Find(g'.journal, k).Some? ==> Persists(g'.events, k) == 1 || ReadyFor(g', k)
  {
    var g', key := DoAppend(g, t, writeId, now, outcome), TopKey(g, t);
    TopDecided(g, t);
    FindAppend(g.journal, NewEntry(Top(g, t).request, writeId, now), k);
    CountsAppend(g.events, Journaled(key, writeId));
    MovedFacts(g, g', t, AppendPc(writeId, now, outcome));
    if k != key || outcome.RaisedKept? {
      ReadyElsewhere(g, g', t, k);
    } else {
      assert ReadyFor(g', k);
    }
    if ReadyFor(g, key) {
      ReadyHasEntry(g, key);
    }
  }

  lemma AppendKeepsTracked(g: Gate, t: ThreadId, writeId: string, now: real, outcome: AppendOutcome, kept: set<Key>)
    requires Sound(g) && Tracked(g, kept) && Active(g, t) && Top(g, t).pc.Journaling? && !outcome.RaisedLost?
    requires ResolveSourceType(Top(g, t).request.sourceTypeRaw).Some?
    ensures Tracked(DoAppend(g, t, writeId, now, outcome), kept + (if outcome.RaisedKept? then {TopKey(g, t)} else {}))
  {
    var g', kept' := DoAppend(g, t, writeId, now, outcome), kept + (if outcome.RaisedKept? then {TopKey(g, t)} else {});
    forall k
      ensures if k in kept' then Find(g'.journal, k).Some? && Persists(g'.events, k) == 0 && !ReadyFor(g', k)
              else Find(g'.journal, k).Some? ==> Persists(g'.events, k) == 1 || ReadyFor(g', k)
    {
      AppendRunsMatch(g, t, writeId, now, outcome, kept, k);
    }
    CountsAppend(g.events, Journaled(TopKey(g, t), writeId));
    FramesStay(g, g', t, AppendPc(writeId, now, outcome), kept, kept');
    AcceptancesWiden(g.events, kept, kept');
    AcceptancesExtend(g.events, Journaled(TopKey(g, t), writeId), kept');
  }

  lemma AcceptancesWiden(events: seq<Event>, kept: set<Key>, kept': set<Key>)
    requires AcceptancesRan(events, kept) && kept <= kept'
    ensures AcceptancesRan(events, kept')
  {
    forall i | 0 <= i < |events| ensures AcceptanceRan(events, kept', i) {
      assert AcceptanceRan(events, kept, i);
    }
  }

  lemma StartKeepsTracked(g: Gate, t: ThreadId, kept: set<Key>)
    requires Sound(g) && Tracked(g, kept) && Active(g, t) && Top(g, t).pc.Ready? && PersistOnce(DoPersist(g, t))
    ensures Tracked(DoPersist(g, t), kept)
  {
    var g', key, e := DoPersist(g, t), TopKey(g, t), PersistRan(TopKey(g, t), Top(g, t).pc.writeId);
    TopDecided(g, t);
    CountsAppend(g.events, e);
    MovedFacts(g, g', t, PersistPc(g, t));
    assert ReadyFor(g, key);
    forall k | k != key ensures ReadyFor(g', k) <==> ReadyFor(g, k) {
      ReadyElsewhere(g, g', t, k);
    }
    FramesStay(g, g', t, PersistPc(g, t), kept, kept);
    AcceptancesExtend(g.events, e, kept);
  }

  lemma ReleaseKeepsTracked(g: Gate, t: ThreadId, kept: set<Key>)
    requires Sound(g) && Tracked(g, kept) && Active(g, t) && Top(g, t).pc.Leaving?
    ensures Tracked(DoRelease(g, t), kept)
  {
    var g', s, e := DoRelease(g, t), Stack(g, t), Returned(TopKey(g, t), Top(g, t).pc.outcome);
    CountsAppend(g.events, e);
    assert FrameRan(g.events, kept, s[|s| - 1]);
    AcceptancesExtend(g.events, e, kept);
    PoppedKeepsRuns(g, g', t, kept);
  }

  /** Taking a finished call off the stack, with nothing journaled or run. */
  lemma PoppedKeepsRuns(g: Gate, g': Gate, t: ThreadId, kept: set<Key>)
    requires Exclusive(g) && RunsMatch(g, kept) && FramesRan(g, kept) && Active(g, t) && Top(g, t).pc.Leaving?
    requires g'.stacks == g.stacks[t := Stack(g, t)[..|Stack(g, t)| - 1]] && g'.journal == g.journal
    requires forall key :: Persists(g'.events, key) == Persists(g.events, key)
    ensures RunsMatch(g', kept) && FramesRan(g', kept)
  {
    var s := Stack(g, t);
    if |s| > 1 {
      assert Stack(g, t)[|s| - 2].pc.Persisting?;
    }
    forall key ensures ReadyFor(g', key) <==> ReadyFor(g, key) {
      ReadyElsewhere(g, g', t, key);
    }
    forall u, i | 0 <= i < |Stack(g', u)| ensures FrameRan(g'.events, kept, Stack(g', u)[i]) {
      assert Stack(g', u)[i] == Stack(g, u)[i];
      assert FrameRan(g.events, kept, Stack(g, u)[i]);
    }
  }

  lemma SubmitKeepsTracked(g: Gate, t: ThreadId, q: Request, kept: set<Key>)
    requires Tracked(g, kept) && (!Active(g, t) || Top(g, t).pc.Persisting?)
    ensures Tracked(g.(stacks := g.stacks[t := Stack(g, t) + [Frame(q, Waiting)]]), kept)
  {
    var g' := g.(stacks := g.stacks[t := Stack(g, t) + [Frame(q, Waiting)]]);
    forall key ensures ReadyFor(g', key) <==> ReadyFor(g, key) {
      ReadyElsewhere(g, g', t, key);
    }
    forall u, i | 0 <= i < |Stack(g', u)| ensures FrameRan(g'.events, kept, Stack(g', u)[i]) {
      if u != t || i < |Stack(g, t)| {
        assert Stack(g', u)[i] == Stack(g, u)[i];
        assert FrameRan(g.events, kept, Stack(g, u)[i]);
      }
    }
  }

  lemma StepKeepsTracked(p: Policy, g: Gate, step: Step, kept: set<Key>)
    requires Sound(g) && Tracked(g, kept)
    ensures Tracked(Next(p, g, step), kept + KeptBy(g, step))
  {
    var g' := Next(p, g, step);
    SoundStep(p, g, step);
    if KeptBy(g, step) == {} {
      assert kept + KeptBy(g, step) == kept;
    }
    if g' != g {
      match step
      case Submit(t, q) => SubmitKeepsTracked(g, t, q, kept);
      case Acquire(t) => QuietMoveKeepsTracked(g, g', t, Checking, kept);
      case Release(t) => ReleaseKeepsTracked(g, t, kept);
      case Check(t) => CheckKeepsTracked(g, g', t, kept);
      case Limit(t, now) => QuietMoveKeepsTracked(g, g', t, LimitPc(p, g, t, now), kept);
      case Vet(t, now) => QuietMoveKeepsTracked(g, g', t, VetPc(p, g, t, now), kept);
      case Append(t, writeId, now, outcome) =>
        if outcome.RaisedLost? {
          QuietMoveKeepsTracked(g, g', t, AppendPc(writeId, now, outcome), kept);
        } else {
          AppendKeepsTracked(g, t, writeId, now, outcome, kept);
        }
      case StartPersist(t) => StartKeepsTracked(g, t, kept);
      case EndPersist(t, raises) => EndKeepsTracked(g, t, raises, kept);
      case Restart => RestartKeepsTracked(g, kept);
    } else {
      KeptByChanges(p, g, step);
    }
  }

  lemma RestartKeepsTracked(g: Gate, kept: set<Key>)
    requires Sound(g) && Tracked(g, kept)
    ensures Tracked(Restarted(g), kept + KeptBy(g, Restart))
  {
    var g', kept' := Restarted(g), kept + KeptBy(g, Restart);
    forall key ensures key in KeptBy(g, Restart) <==> ReadyFor(g, key) {
      if t :| Active(g, t) && Top(g, t).pc.Ready? && TopKey(g, t) == key {
        assert t in g.stacks;
      }
    }
    forall key | key in KeptBy(g, Restart) ensures Find(g.journal, key).Some? && Persists(g.events, key) == 0 {
      var t :| Active(g, t) && Top(g, t).pc.Ready? && TopKey(g, t) == key;
      TopDecided(g, t);
    }
    assert forall t :: Stack(g', t) == [];
    AcceptancesWiden(g.events, kept, kept');
  }

  lemma KeptByChanges(p: Policy, g: Gate, step: Step)
    ensures KeptBy(g, step) != {} ==> Next(p, g, step) != g
  {
    if KeptBy(g, step) != {} {
      if step.Restart? {
        var t :| t in g.stacks && Active(g, t) && Top(g, t).pc.Ready?;
        assert Stack(Restarted(g), t) == [];
      } else {
        MovedFacts(g, Next(p, g, step), step.t, AppendPc(step.writeId, step.now, step.outcome));
      }
    }
  }

  lemma {:induction false} RunIsTracked(p: Policy, steps: seq<Step>)
    ensures Tracked(Run(p, steps), KeptKeys(p, steps))
  {
    if steps == [] {
      assert forall t :: Stack(INITIAL, t) == [];
    } else {
      var init := steps[..|steps| - 1];
      RunIsTracked(p, init);
      RunIsSound(p, init);
      StepKeepsTracked(p, Run(p, init), steps[|steps| - 1], KeptKeys(p, init));
    }
  }

  lemma {:induction false} PersistsIffRan(events: seq<Event>, key: Key)
    ensures Persists(events, key) > 0 <==> exists w :: PersistRan(key, w) in events
  {
    if events != [] {
      var init, last := events[..|events| - 1], events[|events| - 1];
      PersistsIffRan(init, key);
      assert events == init + [last];
      if w :| PersistRan(key, w) in init {
        assert PersistRan(key, w) in events;
      }
      if last.PersistRan? && last.key == key {
        assert PersistRan(key, last.writeId) in events;
      }
    }
  }

  /** An acceptance does not say that the callback ran. Over any interleaving, an accepted write's callback
      had been run, with that id, exactly unless the journal append for its key raised after its entry had
      become durable, or the process died between that append and the callback: then it never runs, and every
      later call is accepted from the entry. */
  lemma AcceptedIffRan(p: Policy, steps: seq<Step>, i: nat)
    requires i < |Run(p, steps).events| && Run(p, steps).events[i].Returned?
    requires Run(p, steps).events[i].outcome.Some? && Run(p, steps).events[i].outcome.value.Accepted?
    ensures var events := Run(p, steps).events;
            PersistRan(events[i].key, events[i].outcome.value.writeId) in events[..i]
            <==> events[i].key !in KeptKeys(p, steps)
  {
    var events, kept := Run(p, steps).events, KeptKeys(p, steps);
    var key := events[i].key;
    RunIsTracked(p, steps);
    assert AcceptanceRan(events, kept, i);
    PersistsIffRan(events[..i], key);
    PersistsIffRan(events, key);
    if key !in kept {
      var ran :| PersistRan(key, ran) in events[..i];
      RanIdIsAccepted(p, steps, i, ran);
    }
  }

  lemma RanIdIsAccepted(p: Policy, steps: seq<Step>, i: nat, ran: string)
    requires i < |Run(p, steps).events| && Run(p, steps).events[i].Returned?
    requires Run(p, steps).events[i].outcome.Some? && Run(p, steps).events[i].outcome.value.Accepted?
    requires PersistRan(Run(p, steps).events[i].key, ran) in Run(p, steps).events
    ensures ran == Run(p, steps).events[i].outcome.value.writeId
  {
    RunIsSound(p, steps);
    var events := Run(p, steps).events;
    var key, w, at := events[i].key, events[i].outcome.value.writeId, events[i].outcome.value.acceptedAt;
    assert Returned(key, Some(Accepted(w, at))) in events;
    var j :| 0 <= j < |events| && events[j] == PersistRan(key, ran);
    assert Journaled(key, ran) in events[..j];
  }

  // ---------------------------------------------------------------- one call, start to end

  /** The clock readings of one call, the id it would mint, and how its two port calls end. */
  datatype Circumstances = Circumstances(consumeAt: real, vetAt: real, writeAt: real, writeId: string,
                                         append: AppendOutcome, persistRaises: bool)

  /** What an undisturbed call leaves behind; `result` is None when it raises. */
  datatype Submission = Submission(journal: seq<Entry>, buckets: map<string, Bucket>,
                                   result: Option<Result>, persistRan: bool)

  function SubmitWrite(p: Policy, journal: seq<Entry>, buckets: map<string, Bucket>, q: Request,
                       c: Circumstances): Submission
  {
    var found := Find(journal, KeyOf(q));
    if found.Some? then Submission(journal, buckets, Some(Replay(q, found.value)), false) else
    var (bucket, allowed) := TryConsume(BucketOf(buckets, q.tenantId, p.bucket, c.consumeAt), p.bucket, c.consumeAt);
    var buckets' := buckets[q.tenantId := bucket];
    if !allowed then Submission(journal, buckets', Some(Rejected(429, RateLimitExceeded)), false) else
    var error := Validate(p, q, c.vetAt);
    if error.Some? then Submission(journal, buckets', Some(Rejected(422, error.value)), false) else
    if c.append.RaisedLost? then Submission(journal, buckets', None, false) else
    var journal' := journal + [NewEntry(q, c.writeId, c.writeAt)];
    if c.append.RaisedKept? then Submission(journal', buckets', None, false) else
    Submission(journal', buckets', if c.persistRaises then None else Some(Accepted(c.writeId, c.writeAt)), true)
  }

  /** A replay, and every rejection, journals nothing and runs nothing; a replay spends nothing. */
  lemma RefusalsHaveNoEffect(p: Policy, journal: seq<Entry>, buckets: map<string, Bucket>, q: Request, c: Circumstances)
    ensures var r := SubmitWrite(p, journal, buckets, q, c);
            && (Find(journal, KeyOf(q)).Some? ==> r.journal == journal && r.buckets == buckets && !r.persistRan)
            && (r.result.Some? && r.result.value.Rejected? ==> r.journal == journal && !r.persistRan)
  {
  }

  ghost predicate Sourced(p: Policy, q: Request, now: real) {
    && (exists t :: q.sourceTypeRaw == SourceTypeName(t))
    && (q.sourceTypeRaw == "user_stated" ==> Attested(p, q, now))
  }

  /** One more entry, of the request, unless the append loses it; the callback runs after a durable append. */
  ghost predicate JournaledAs(journal: seq<Entry>, q: Request, c: Circumstances, r: Submission) {
    if c.append.RaisedLost? then r.journal == journal && r.result.None? && !r.persistRan
    else
      && |r.journal| == |journal| + 1 && r.journal[..|journal|] == journal
      && var e := r.journal[|journal|];
         && Records(e, q) && e.writeId == c.writeId && e.writtenAt == c.writeAt
         && (r.persistRan <==> c.append.Durable?)
         && r.result == if c.append.Durable? && !c.persistRaises then Some(Accepted(c.writeId, c.writeAt)) else None
  }

  /** What one submission under a new key does: refused for want of a token; or refused by the first check it
      fails, its token spent; or journaled, unless the append is lost, and its callback run. A user-stated
      request with the marker is refused as forged exactly if it is not attested. */
  lemma NewSubmissionIs(p: Policy, journal: seq<Entry>, buckets: map<string, Bucket>, q: Request, c: Circumstances)
    requires Find(journal, KeyOf(q)).None?
    ensures var r := SubmitWrite(p, journal, buckets, q, c);
            var (bucket, allowed) := TryConsume(BucketOf(buckets, q.tenantId, p.bucket, c.consumeAt), p.bucket, c.consumeAt);
            && r.buckets == buckets[q.tenantId := bucket]
            && (!allowed ==> r.result == Some(Rejected(429, RateLimitExceeded)) && r.journal == journal && !r.persistRan)
            && (allowed && (forall t :: q.sourceTypeRaw != SourceTypeName(t)) ==>
                  r.result == Some(Rejected(422, UnresolvableSourceType)) && r.journal == journal && !r.persistRan)
            && (allowed && q.sourceTypeRaw == "user_stated" && !q.userTurnMarker ==>
                  r.result == Some(Rejected(422, MissingUserTurnMarker)) && r.journal == journal && !r.persistRan)
            && (allowed && q.sourceTypeRaw == "user_stated" && q.userTurnMarker && !Attested(p, q, c.vetAt) ==>
                  r.result == Some(Rejected(422, ForgedUserTurnMarker)) && r.journal == journal && !r.persistRan)
            && (allowed && Sourced(p, q, c.vetAt) && !Bound(q) ==>
                  r.result == Some(Rejected(422, MissingCallerBinding)) && r.journal == journal && !r.persistRan)
            && (allowed && Sourced(p, q, c.vetAt) && Bound(q) ==> JournaledAs(journal, q, c, r))
  {
    ValidateIs(p, q, c.vetAt);
    NamedType(q.sourceTypeRaw);
  }

  lemma JournalingAppends(p: Policy, journal: seq<Entry>, buckets: map<string, Bucket>, q: Request, c: Circumstances)
    requires SubmitWrite(p, journal, buckets, q, c).journal != journal
    ensures ResolveSourceType(q.sourceTypeRaw).Some?
    ensures var first := SubmitWrite(p, journal, buckets, q, c);
            first.journal == journal + [NewEntry(q, c.writeId, c.writeAt)] && (first.persistRan <==> c.append.Durable?)
  {
  }

  lemma OwnEntryIsVerbatim(q: Request, writeId: string, now: real)
    requires ResolveSourceType(q.sourceTypeRaw).Some?
    ensures Replay(q, NewEntry(q, writeId, now)) == Accepted(writeId, now)
    ensures EntryKey(NewEntry(q, writeId, now)) == KeyOf(q)
  {
  }

  lemma FoundIsReplayed(p: Policy, journal: seq<Entry>, buckets: map<string, Bucket>, q: Request, c: Circumstances)
    requires Find(journal, KeyOf(q)).Some?
    ensures SubmitWrite(p, journal, buckets, q, c)
         == Submission(journal, buckets, Some(Replay(q, Find(journal, KeyOf(q)).value)), false)
  {
  }

  /** Submitting a journaled request again accepts it with the entry's id and time and changes nothing,
      whatever the clock, the bucket and the ports do by then: also when the first submission raised, its
      append kept or its callback failed, and even if the callback never ran. */
  lemma ReplayReturnsFirstAnswer(p: Policy, journal: seq<Entry>, buckets: map<string, Bucket>, q: Request,
                                 c: Circumstances, c': Circumstances)
    requires SubmitWrite(p, journal, buckets, q, c).journal != journal
    ensures var first := SubmitWrite(p, journal, buckets, q, c);
            && (first.persistRan <==> c.append.Durable?)
            && SubmitWrite(p, first.journal, first.buckets, q, c')
               == Submission(first.journal, first.buckets, Some(Accepted(c.writeId, c.writeAt)), false)
  {
    var first := SubmitWrite(p, journal, buckets, q, c);
    JournalingAppends(p, journal, buckets, q, c);
    OwnEntryIsVerbatim(q, c.writeId, c.writeAt);
    FindAppend(journal, NewEntry(q, c.writeId, c.writeAt), KeyOf(q));
    FoundIsReplayed(p, first.journal, first.buckets, q, c');
  }

  /** Thread `t` is inside one call for `q`, at `pc`, and holds its lock once. */
  ghost predicate Inside(locks: map<Key, Lock>, g: Gate, t: ThreadId, q: Request, pc: Pc) {
    Stack(g, t) == [Frame(q, pc)] && g.locks == locks[KeyOf(q) := Lock(t, 1)]
  }

  lemma InsideMove(locks: map<Key, Lock>, g: Gate, g': Gate, t: ThreadId, q: Request, pc: Pc, pc': Pc)
    requires Inside(locks, g, t, q, pc) && Moved(g, g', t, pc') && g'.locks == g.locks
    ensures Inside(locks, g', t, q, pc')
  {
    MovedFacts(g, g', t, pc');
  }

  /** The three steps that decide, for a thread nobody interrupts; a step that does not apply does
      nothing. */
  function Decide(p: Policy, g: Gate, t: ThreadId, c: Circumstances): Gate {
    Next(p, Next(p, Next(p, g, Check(t)), Limit(t, c.consumeAt)), Vet(t, c.vetAt))
  }

  /** The three steps that act. */
  function Perform(p: Policy, g: Gate, t: ThreadId, c: Circumstances): Gate {
    Next(p, Next(p, Next(p, g, Append(t, c.writeId, c.writeAt, c.append)), StartPersist(t)), EndPersist(t, c.persistRaises))
  }

  function SoloRun(p: Policy, g: Gate, t: ThreadId, q: Request, c: Circumstances): Gate {
    var entered := Next(p, Next(p, g, Submit(t, q)), Acquire(t));
    Next(p, Perform(p, Decide(p, entered, t, c), t, c), Release(t))
  }

  /** Where the decision leaves the call. */
  function DecidedPc(p: Policy, g: Gate, q: Request, c: Circumstances): Pc {
    var found := Find(g.journal, KeyOf(q));
    if found.Some? then Leaving(Some(Replay(q, found.value))) else
    var allowed := TryConsume(BucketOf(g.buckets, q.tenantId, p.bucket, c.consumeAt), p.bucket, c.consumeAt).1;
    if !allowed then Reject(RateLimitExceeded) else
    var error := Validate(p, q, c.vetAt);
    if error.Some? then Reject(error.value) else Journaling
  }

  lemma SoloChecks(p: Policy, locks: map<Key, Lock>, g: Gate, t: ThreadId, q: Request)
    requires Inside(locks, g, t, q, Checking)
    ensures var g' := Next(p, g, Check(t));
            var found := Find(g.journal, KeyOf(q));
            && Inside(locks, g', t, q, if found.Some? then Leaving(Some(Replay(q, found.value))) else Limiting)
            && g'.journal == g.journal && g'.events == g.events && g'.buckets == g.buckets
  {
    InsideMove(locks, g, Next(p, g, Check(t)), t, q, Checking, CheckPc(g, t));
  }

  lemma SoloIsLimited(p: Policy, locks: map<Key, Lock>, g: Gate, t: ThreadId, q: Request, now: real)
    requires Inside(locks, g, t, q, Limiting)
    ensures var g' := Next(p, g, Limit(t, now));
            var (bucket, allowed) := TryConsume(BucketOf(g.buckets, q.tenantId, p.bucket, now), p.bucket, now);
            && Inside(locks, g', t, q, if allowed then Validating else Reject(RateLimitExceeded))
            && g'.journal == g.journal && g'.events == g.events && g'.buckets == g.buckets[q.tenantId := bucket]
  {
    InsideMove(locks, g, Next(p, g, Limit(t, now)), t, q, Limiting, LimitPc(p, g, t, now));
  }

  lemma SoloIsVetted(p: Policy, locks: map<Key, Lock>, g: Gate, t: ThreadId, q: Request, now: real)
    requires Inside(locks, g, t, q, Validating)
    ensures var g' := Next(p, g, Vet(t, now));
            var error := Validate(p, q, now);
            && Inside(locks, g', t, q, if error.Some? then Reject(error.value) else Journaling)
            && g'.journal == g.journal && g'.events == g.events && g'.buckets == g.buckets
  {
    InsideMove(locks, g, Next(p, g, Vet(t, now)), t, q, Validating, VetPc(p, g, t, now));
  }

  lemma SoloSkips(p: Policy, locks: map<Key, Lock>, g: Gate, t: ThreadId, q: Request, pc: Pc, now: real)
    requires Inside(locks, g, t, q, pc)
    ensures !pc.Limiting? ==> Next(p, g, Limit(t, now)) == g
    ensures !pc.Validating? ==> Next(p, g, Vet(t, now)) == g
  {
  }

  lemma SoloDecides(p: Policy, locks: map<Key, Lock>, g: Gate, t: ThreadId, q: Request, c: Circumstances)
    requires Inside(locks, g, t, q, Checking)
    ensures var g' := Decide(p, g, t, c);
            && Inside(locks, g', t, q, DecidedPc(p, g, q, c))
            && g'.journal == g.journal && g'.events == g.events
            && g'.buckets == SubmitWrite(p, g.journal, g.buckets, q, c).buckets
  {
    var g1 := Next(p, g, Check(t));
    SoloChecks(p, locks, g, t, q);
    var found := Find(g.journal, KeyOf(q));
    if found.Some? {
      SoloSkips(p, locks, g1, t, q, Leaving(Some(Replay(q, found.value))), c.consumeAt);
      SoloSkips(p, locks, g1, t, q, Leaving(Some(Replay(q, found.value))), c.vetAt);
    } else {
      var g2 := Next(p, g1, Limit(t, c.consumeAt));
      SoloIsLimited(p, locks, g1, t, q, c.consumeAt);
      if TryConsume(BucketOf(g.buckets, q.tenantId, p.bucket, c.consumeAt), p.bucket, c.consumeAt).1 {
        SoloIsVetted(p, locks, g2, t, q, c.vetAt);
      } else {
        SoloSkips(p, locks, g2, t, q, Reject(RateLimitExceeded), c.vetAt);
      }
    }
  }

  lemma SoloAppends(p: Policy, locks: map<Key, Lock>, g: Gate, t: ThreadId, q: Request, c: Circumstances)
    requires Inside(locks, g, t, q, Journaling) && ResolveSourceType(q.sourceTypeRaw).Some?
    ensures var g' := Next(p, g, Append(t, c.writeId, c.writeAt, c.append));
            && Inside(locks, g', t, q, AppendPc(c.writeId, c.writeAt, c.append)) && g'.buckets == g.buckets
            && g'.journal == (if c.append.RaisedLost? then g.journal else g.journal + [NewEntry(q, c.writeId, c.writeAt)])
            && g'.events == g.events + (if c.append.RaisedLost? then [] else [Journaled(KeyOf(q), c.writeId)])
  {
    InsideMove(locks, g, Next(p, g, Append(t, c.writeId, c.writeAt, c.append)), t, q, Journaling,
               AppendPc(c.writeId, c.writeAt, c.append));
  }

  lemma SoloPersists(p: Policy, locks: map<Key, Lock>, g: Gate, t: ThreadId, q: Request, writeId: string, at: real, raises: bool)
    requires Inside(locks, g, t, q, Ready(writeId, at))
    ensures var g' := Next(p, Next(p, g, StartPersist(t)), EndPersist(t, raises));
            && Inside(locks, g', t, q, Leaving(if raises then None else Some(Accepted(writeId, at))))
            && g'.buckets == g.buckets && g'.journal == g.journal
            && g'.events == g.events + [PersistRan(KeyOf(q), writeId)]
  {
    var g1 := Next(p, g, StartPersist(t));
    InsideMove(locks, g, g1, t, q, Ready(writeId, at), PersistPc(g, t));
    InsideMove(locks, g1, Next(p, g1, EndPersist(t, raises)), t, q, Top(g1, t).pc, EndPc(g1, t, raises));
  }

  lemma SoloPerforms(p: Policy, locks: map<Key, Lock>, g: Gate, t: ThreadId, q: Request, c: Circumstances)
    requires Inside(locks, g, t, q, Journaling) && ResolveSourceType(q.sourceTypeRaw).Some?
    ensures var g' := Perform(p, g, t, c);
            var result := if c.append.Durable? && !c.persistRaises then Some(Accepted(c.writeId, c.writeAt)) else None;
            && Inside(locks, g', t, q, Leaving(result)) && g'.buckets == g.buckets
            && g'.journal == (if c.append.RaisedLost? then g.journal
                              else g.journal + [NewEntry(q, c.writeId, c.writeAt)])
            && g'.events == g.events
                 + (if c.append.RaisedLost? then [] else [Journaled(KeyOf(q), c.writeId)])
                 + (if c.append.Durable? then [PersistRan(KeyOf(q), c.writeId)] else [])
  {
    var g1 := Next(p, g, Append(t, c.writeId, c.writeAt, c.append));
    SoloAppends(p, locks, g, t, q, c);
    if c.append.Durable? {
      SoloPersists(p, locks, g1, t, q, c.writeId, c.writeAt, c.persistRaises);
    } else {
      AfterRaisedAppend(p, g1, t, c);
    }
  }

  lemma AfterRaisedAppend(p: Policy, g: Gate, t: ThreadId, c: Circumstances)
    requires Active(g, t) && Top(g, t).pc.Leaving?
    ensures Next(p, Next(p, g, StartPersist(t)), EndPersist(t, c.persistRaises)) == g
  {
  }

  lemma SoloLeaves(p: Policy, locks: map<Key, Lock>, g: Gate, t: ThreadId, q: Request, result: Option<Result>)
    requires Inside(locks, g, t, q, Leaving(result)) && KeyOf(q) !in locks
    ensures var g' := Next(p, g, Release(t));
            && !Active(g', t) && g'.locks == locks && g'.journal == g.journal && g'.buckets == g.buckets
            && g'.events == g.events + [Returned(KeyOf(q), result)]
  {
  }

  lemma LeavingStays(p: Policy, g: Gate, t: ThreadId, c: Circumstances)
    requires Active(g, t) && Top(g, t).pc.Leaving?
    ensures Perform(p, g, t, c) == g
  {
  }

  lemma SoloEnters(p: Policy, g: Gate, t: ThreadId, q: Request)
    requires !Active(g, t) && KeyOf(q) !in g.locks
    ensures var g' := Next(p, Next(p, g, Submit(t, q)), Acquire(t));
            Inside(g.locks, g', t, q, Checking)
            && g'.journal == g.journal && g'.buckets == g.buckets && g'.events == g.events
  {
    var g1 := Next(p, g, Submit(t, q));
    assert Stack(g1, t) == [Frame(q, Waiting)];
    MovedFacts(g1, Next(p, g1, Acquire(t)), t, Checking);
  }

  /** Up to its last step, an undisturbed call does what the sequential code does. */
  lemma SoloActs(p: Policy, locks: map<Key, Lock>, g: Gate, t: ThreadId, q: Request, c: Circumstances)
    requires Inside(locks, g, t, q, Checking)
    ensures var g' := Perform(p, Decide(p, g, t, c), t, c);
            var r := SubmitWrite(p, g.journal, g.buckets, q, c);
            && Inside(locks, g', t, q, Leaving(r.result)) && g'.journal == r.journal && g'.buckets == r.buckets
            && g'.events == g.events
                 + (if r.journal == g.journal then [] else [Journaled(KeyOf(q), c.writeId)])
                 + (if r.persistRan then [PersistRan(KeyOf(q), c.writeId)] else [])
  {
    var decided := Decide(p, g, t, c);
    SoloDecides(p, locks, g, t, q, c);
    if DecidedPc(p, g, q, c).Journaling? {
      SoloPerforms(p, locks, decided, t, q, c);
    } else {
      LeavingStays(p, decided, t, c);
    }
  }

  /** The interleaved machine runs an undisturbed call exactly as the sequential code does. */
  lemma SoloRunIsSubmitWrite(p: Policy, g: Gate, t: ThreadId, q: Request, c: Circumstances)
    requires !Active(g, t) && KeyOf(q) !in g.locks
    ensures var end := SoloRun(p, g, t, q, c);
            var r := SubmitWrite(p, g.journal, g.buckets, q, c);
            && end.journal == r.journal && end.buckets == r.buckets && end.locks == g.locks && !Active(end, t)
            && end.events == g.events
                 + (if r.journal == g.journal then [] else [Journaled(KeyOf(q), c.writeId)])
                 + (if r.persistRan then [PersistRan(KeyOf(q), c.writeId)] else [])
                 + [Returned(KeyOf(q), r.result)]
  {
    var entered := Next(p, Next(p, g, Submit(t, q)), Acquire(t));
    SoloEnters(p, g, t, q);
    SoloActs(p, g.locks, entered, t, q, c);
    SoloLeaves(p, g.locks, Perform(p, Decide(p, entered, t, c), t, c), t, q,
               SubmitWrite(p, g.journal, g.buckets, q, c).result);
  }

  /** The gate's sequential code, with the journal and buckets it owns. */
  class ProvenanceWriteGate {
    const policy: Policy
    var journal: seq<Entry>
    var buckets: map<string, Bucket>

    constructor (p: Policy)
      ensures policy == p && journal == [] && buckets == map[]
    {
      policy, journal, buckets := p, [], map[];
    }

    method FindByIdempotencyKey(key: Key) returns (entry: Option<Entry>)
      ensures entry == Find(journal, key)
    {
      var i := |journal|;
      assert journal[..i] == journal;
      while i > 0
        invariant 0 <= i <= |journal| && Find(journal, key) == Find(journal[..i], key)
      {
        assert journal[..i][..i - 1] == journal[..i - 1];
        if EntryKey(journal[i - 1]) == key {
          return Some(journal[i - 1]);
        }
        i := i - 1;
      }
      entry := None;
    }

    method ConsumeRateLimitToken(tenantId: string, now: real) returns (allowed: bool)
      modifies this`buckets
      ensures var (b, a) := TryConsume(BucketOf(old(buckets), tenantId, policy.bucket, now), policy.bucket, now);
              buckets == old(buckets)[tenantId := b] && allowed == a
    {
      var state := if tenantId in buckets then buckets[tenantId] else NewFullBucket(policy.bucket, now);
      var (newState, ok) := TryConsume(state, policy.bucket, now);
      buckets := buckets[tenantId := newState];
      allowed := ok;
    }

    method SubmitWriteWithinLock(q: Request, c: Circumstances) returns (result: Option<Result>, persistRan: bool)
      modifies this
      ensures Submission(journal, buckets, result, persistRan) == SubmitWrite(policy, old(journal), old(buckets), q, c)
    {
      persistRan := false;
      var replayed := FindByIdempotencyKey(KeyOf(q));
      if replayed.Some? {
        if !IsVerbatimReplay(q, replayed.value) {
          return Some(Rejected(422, IdempotencyKeyReused)), false;
        }
        return Some(Accepted(replayed.value.writeId, replayed.value.writtenAt)), false;
      }
      var allowed := ConsumeRateLimitToken(q.tenantId, c.consumeAt);
      if !allowed {
        return Some(Rejected(429, RateLimitExceeded)), false;
      }
      var sourceType := ResolveSourceType(q.sourceTypeRaw);
      if sourceType.None? {
        return Some(Rejected(422, UnresolvableSourceType)), false;
      }
      if sourceType.value.UserStated? {
        if !q.userTurnMarker {
          return Some(Rejected(422, MissingUserTurnMarker)), false;
        }
        if !AttestationVerifies(policy, q, c.vetAt) {
          return Some(Rejected(422, ForgedUserTurnMarker)), false;
        }
      }
      if Blank(q.callerIdentity) || !IsHexSha256(q.retrievalContextHash) {
        return Some(Rejected(422, MissingCallerBinding)), false;
      }
      if c.append.RaisedLost? {
        return None, false;
      }
      journal := journal + [NewEntry(q, c.writeId, c.writeAt)];
      if c.append.RaisedKept? {
        return None, false;
      }
      persistRan := true;
      result := if c.persistRaises then None else Some(Accepted(c.writeId, c.writeAt));
    }
  }
}
