/** Zone 2's capacity and age backstop: which items a sweep evicts, in what order, and how each eviction
    runs through the retrieval index, an erasure cascade that may be pending, and the zone itself. */
module CapacityBackstop {
  import opened Options
  import opened Sequences
  import opened Sorting
  import opened Text

  datatype Candidate = Candidate(itemId: string, memoryScore: real, isCompressed: bool, ageSeconds: real, writtenAt: real)
  datatype Reason = Capacity | MaxAge
  datatype Decision = Decision(itemId: string, reason: Reason)

  type Positive = n: int | n > 0 witness 1
  datatype Config = Config(capacityCap: Positive, maxAgeSeconds: real)

  // ---------------------------------------------------------------- the plan

  /** Lowest score first, then oldest write, then lowest id. */
  predicate RankBefore(a: Candidate, b: Candidate) {
    || a.memoryScore < b.memoryScore
    || (a.memoryScore == b.memoryScore
        && (a.writtenAt < b.writtenAt || (a.writtenAt == b.writtenAt && Less(a.itemId, b.itemId))))
  }

  lemma RankIsOrder()
    ensures StrictWeakOrder(RankBefore)
  {
    forall a, b | RankBefore(a, b) ensures !RankBefore(b, a) {
      LessTotal(a.itemId, b.itemId);
    }
    forall a, b, c | !RankBefore(b, a) && !RankBefore(c, b) ensures !RankBefore(c, a) {
      LessTotal(a.itemId, b.itemId);
      LessTotal(b.itemId, c.itemId);
      if Less(c.itemId, a.itemId) && Less(a.itemId, b.itemId) {
        LessTransitive(c.itemId, a.itemId, b.itemId);
      }
    }
  }

  predicate Expired(c: Candidate, maxAgeSeconds: real) {
    c.isCompressed && c.ageSeconds > maxAgeSeconds
  }

  function Ranked(candidates: seq<Candidate>): (ranked: seq<Candidate>)
    ensures |ranked| == |candidates| && multiset(ranked) == multiset(candidates) && Ordered(ranked, RankBefore)
  {
    RankIsOrder();
    SortedIsOrdered(candidates, RankBefore);
    Sorted(candidates, RankBefore)
  }

  function CapacityOverflow(candidates: seq<Candidate>, cap: Positive): seq<Candidate> {
    if |candidates| <= cap then [] else Ranked(candidates)[..|candidates| - cap]
  }

  function ExpiredOnes(candidates: seq<Candidate>, maxAgeSeconds: real): seq<Candidate> {
    if candidates == [] then []
    else
      var last := candidates[|candidates| - 1];
      ExpiredOnes(candidates[..|candidates| - 1], maxAgeSeconds) + (if Expired(last, maxAgeSeconds) then [last] else [])
  }

  function MaxAgeExceeded(candidates: seq<Candidate>, maxAgeSeconds: real): seq<Candidate> {
    Ranked(ExpiredOnes(candidates, maxAgeSeconds))
  }

  /** The values of a dictionary from item id after `d[c.item_id] = c`: a known id keeps its place. */
  function Put(values: seq<Candidate>, c: Candidate): seq<Candidate> {
    if values == [] then [c]
    else
      var n := |values| - 1;
      if values[n].itemId == c.itemId then values[..n] + [c] else Put(values[..n], c) + [values[n]]
  }

  function PutAll(values: seq<Candidate>, cs: seq<Candidate>): seq<Candidate> {
    if cs == [] then values else Put(PutAll(values, cs[..|cs| - 1]), cs[|cs| - 1])
  }

  function Names(cs: seq<Candidate>): (names: seq<string>)
    ensures |names| == |cs| && forall k :: 0 <= k < |cs| ==> names[k] == cs[k].itemId
  {
    Mapped(cs, (c: Candidate) => c.itemId)
  }

  function Tagged(reasons: map<string, Reason>, cs: seq<Candidate>, reason: Reason): (m: map<string, Reason>)
    ensures forall id :: id in m <==> id in reasons || id in Names(cs)
    ensures forall id :: id in m ==> m[id] == if id in Names(cs) then reason else reasons[id]
  {
    if cs == [] then reasons
    else
      var n := |cs| - 1;
      assert Names(cs) == Names(cs[..n]) + [cs[n].itemId];
      Tagged(reasons, cs[..n], reason)[cs[n].itemId := reason]
  }

  /** Everything selected by either trigger, once, in rank order. */
  function Victims(candidates: seq<Candidate>, config: Config): seq<Candidate> {
    Ranked(PutAll(PutAll([], CapacityOverflow(candidates, config.capacityCap)),
                  MaxAgeExceeded(candidates, config.maxAgeSeconds)))
  }

  function Reasons(candidates: seq<Candidate>, config: Config): map<string, Reason> {
    Tagged(Tagged(map[], CapacityOverflow(candidates, config.capacityCap), Capacity),
           MaxAgeExceeded(candidates, config.maxAgeSeconds), MaxAge)
  }

  function Decisions(victims: seq<Candidate>, reasons: map<string, Reason>): (plan: seq<Decision>)
    requires forall k :: 0 <= k < |victims| ==> victims[k].itemId in reasons
    ensures |plan| == |victims|
    ensures forall k :: 0 <= k < |plan| ==> plan[k] == Decision(victims[k].itemId, reasons[victims[k].itemId])
  {
    seq(|victims|, (k: int) requires 0 <= k < |victims| && victims[k].itemId in reasons =>
      Decision(victims[k].itemId, reasons[victims[k].itemId]))
  }

  function Plan(candidates: seq<Candidate>, config: Config): seq<Decision> {
    VictimsAreTagged(candidates, config);
    Decisions(Victims(candidates, config), Reasons(candidates, config))
  }

  lemma {:induction false} PutFrom(values: seq<Candidate>, c: Candidate)
    ensures forall x :: x in Put(values, c) ==> x in values || x == c
  {
    if values != [] {
      PutFrom(values[..|values| - 1], c);
    }
  }

  lemma {:induction false} PutAllFrom(values: seq<Candidate>, cs: seq<Candidate>)
    ensures forall x :: x in PutAll(values, cs) ==> x in values || x in cs
  {
    if cs != [] {
      PutAllFrom(values, cs[..|cs| - 1]);
      PutFrom(PutAll(values, cs[..|cs| - 1]), cs[|cs| - 1]);
    }
  }

  lemma NameIn(cs: seq<Candidate>, c: Candidate)
    requires c in cs
    ensures c.itemId in Names(cs)
  {
    var k :| 0 <= k < |cs| && cs[k] == c;
    assert Names(cs)[k] == c.itemId;
  }

  lemma VictimsAreTagged(candidates: seq<Candidate>, config: Config)
    ensures forall k :: 0 <= k < |Victims(candidates, config)| ==> Victims(candidates, config)[k].itemId in Reasons(candidates, config)
  {
    var over := CapacityOverflow(candidates, config.capacityCap);
    var aged := MaxAgeExceeded(candidates, config.maxAgeSeconds);
    var values := PutAll(PutAll([], over), aged);
    PutAllFrom([], over);
    PutAllFrom(PutAll([], over), aged);
    MembersOf(Ranked(values), values);
    forall c | c in Ranked(values) ensures c.itemId in Reasons(candidates, config) {
      if c in over {
        NameIn(over, c);
      } else {
        NameIn(aged, c);
      }
    }
  }

  // ---------------------------------------------------------------- who is selected

  ghost predicate DistinctIds(candidates: seq<Candidate>) {
    forall i, j :: 0 <= i < j < |candidates| ==> candidates[i].itemId != candidates[j].itemId
  }

  lemma SameIdSame(candidates: seq<Candidate>, a: Candidate, b: Candidate)
    requires DistinctIds(candidates) && a in candidates && b in candidates && a.itemId == b.itemId
    ensures a == b
  {
  }

  lemma MembersOf<T>(a: seq<T>, b: seq<T>)
    requires multiset(a) == multiset(b)
    ensures forall x :: x in a <==> x in b
  {
    forall x ensures x in a <==> x in b {
      assert x in a <==> x in multiset(a);
      assert x in b <==> x in multiset(b);
    }
  }

  lemma {:induction false} ExpiredOnesAre(candidates: seq<Candidate>, maxAgeSeconds: real)
    ensures forall c :: c in ExpiredOnes(candidates, maxAgeSeconds) <==> c in candidates && Expired(c, maxAgeSeconds)
  {
    if candidates != [] {
      var init, last := candidates[..|candidates| - 1], candidates[|candidates| - 1];
      ExpiredOnesAre(init, maxAgeSeconds);
      assert candidates == init + [last];
    }
  }

  lemma OverflowIsFromCandidates(candidates: seq<Candidate>, cap: Positive)
    ensures forall c :: c in CapacityOverflow(candidates, cap) ==> c in candidates
  {
    MembersOf(Ranked(candidates), candidates);
  }

  lemma {:induction false} PutAdds(pool: seq<Candidate>, values: seq<Candidate>, c: Candidate)
    requires DistinctIds(pool) && c in pool && DistinctIds(values) && forall v :: v in values ==> v in pool
    ensures DistinctIds(Put(values, c))
    ensures forall x :: x in Put(values, c) <==> x in values || x == c
  {
    if values != [] {
      var n := |values| - 1;
      var init, last := values[..n], values[n];
      assert values == init + [last];
      if last.itemId == c.itemId {
        SameIdSame(pool, last, c);
        assert init + [c] == values;
      } else {
        PutAdds(pool, init, c);
        forall i | 0 <= i < |Put(init, c)| ensures Put(init, c)[i].itemId != last.itemId {
          assert Put(init, c)[i] in Put(init, c);
        }
      }
    }
  }

  lemma {:induction false} PutAllAdds(pool: seq<Candidate>, values: seq<Candidate>, cs: seq<Candidate>)
    requires DistinctIds(pool) && DistinctIds(values)
    requires forall v :: v in values ==> v in pool
    requires forall v :: v in cs ==> v in pool
    ensures DistinctIds(PutAll(values, cs))
    ensures forall x :: x in PutAll(values, cs) <==> x in values || x in cs
  {
    if cs != [] {
      var init, last := cs[..|cs| - 1], cs[|cs| - 1];
      assert cs == init + [last];
      PutAllAdds(pool, values, init);
      PutAdds(pool, PutAll(values, init), last);
    }
  }

  lemma DistinctUnderPermutation(a: seq<Candidate>, b: seq<Candidate>)
    requires DistinctIds(a) && multiset(a) == multiset(b)
    ensures DistinctIds(b)
  {
    MembersOf(a, b);
    forall i, j | 0 <= i < j < |b| ensures b[i].itemId != b[j].itemId {
      if b[i].itemId == b[j].itemId {
        SameIdSame(a, b[i], b[j]);
        TwiceInMultiset(b, i, j);
        OnceInMultiset(a, b[i]);
      }
    }
  }

  lemma TwiceInMultiset(s: seq<Candidate>, i: nat, j: nat)
    requires i < j < |s| && s[i] == s[j]
    ensures multiset(s)[s[i]] >= 2
  {
    assert s == s[..j] + [s[j]] + s[j + 1..];
    assert s[i] == s[..j][i];
    assert multiset(s[..j])[s[i]] >= 1;
  }

  lemma {:induction false} OnceInMultiset(s: seq<Candidate>, c: Candidate)
    requires DistinctIds(s)
    ensures multiset(s)[c] <= 1
  {
    if s != [] {
      var init, last := s[..|s| - 1], s[|s| - 1];
      assert s == init + [last];
      OnceInMultiset(init, c);
      if last == c {
        assert c !in init;
      }
    }
  }

  /** A candidate is a victim exactly when it is among the lowest-ranked excess or an expired compressed item. */
  lemma VictimsAre(candidates: seq<Candidate>, config: Config)
    requires DistinctIds(candidates)
    ensures DistinctIds(Victims(candidates, config))
    ensures forall c :: c in Victims(candidates, config) <==>
      c in CapacityOverflow(candidates, config.capacityCap) || (c in candidates && Expired(c, config.maxAgeSeconds))
    ensures forall c :: c in Victims(candidates, config) ==> c in candidates
  {
    var over := CapacityOverflow(candidates, config.capacityCap);
    var aged := MaxAgeExceeded(candidates, config.maxAgeSeconds);
    OverflowIsFromCandidates(candidates, config.capacityCap);
    ExpiredOnesAre(candidates, config.maxAgeSeconds);
    MembersOf(aged, ExpiredOnes(candidates, config.maxAgeSeconds));
    PutAllAdds(candidates, [], over);
    PutAllAdds(candidates, PutAll([], over), aged);
    var values := PutAll(PutAll([], over), aged);
    MembersOf(Ranked(values), values);
    DistinctUnderPermutation(values, Ranked(values));
  }

  // ---------------------------------------------------------------- what the plan promises

  lemma NotBothWays(a: Candidate, b: Candidate)
    requires a.itemId != b.itemId && !RankBefore(b, a)
    ensures RankBefore(a, b)
  {
    LessTotal(a.itemId, b.itemId);
  }

  ghost predicate StrictlyAscending(cs: seq<Candidate>) {
    forall i, j :: 0 <= i < j < |cs| ==> RankBefore(cs[i], cs[j])
  }

  lemma RankedStrictly(cs: seq<Candidate>)
    requires DistinctIds(cs) && Ordered(cs, RankBefore)
    ensures StrictlyAscending(cs)
  {
    forall i, j | 0 <= i < j < |cs| ensures RankBefore(cs[i], cs[j]) {
      assert !RankBefore(cs[j], cs[i]);
      NotBothWays(cs[i], cs[j]);
    }
  }

  /** What comes before the cut ranks below what comes after it. */
  lemma PrefixRanksBelow(ranked: seq<Candidate>, n: nat, a: Candidate, b: Candidate)
    requires StrictlyAscending(ranked) && n <= |ranked| && a in ranked[..n] && b in ranked && b !in ranked[..n]
    ensures RankBefore(a, b)
  {
    var i :| 0 <= i < n && ranked[..n][i] == a;
    forall k | 0 <= k < n ensures ranked[k] in ranked[..n] {
      assert ranked[..n][k] == ranked[k];
    }
    var j :| 0 <= j < |ranked| && ranked[j] == b;
    assert ranked[i] == a;
  }

  /** The plan names its victims, which ascend strictly by rank, and no item twice. */
  lemma PlanIsAscending(candidates: seq<Candidate>, config: Config)
    requires DistinctIds(candidates)
    ensures StrictlyAscending(Victims(candidates, config)) && DistinctIds(Victims(candidates, config))
    ensures |Plan(candidates, config)| == |Victims(candidates, config)|
    ensures forall k :: 0 <= k < |Plan(candidates, config)| ==>
      Plan(candidates, config)[k].itemId == Victims(candidates, config)[k].itemId
  {
    VictimsAre(candidates, config);
    RankedStrictly(Victims(candidates, config));
  }

  /** An item is tagged with its age exactly when it has expired, whichever trigger found it first. */
  lemma PlanTagsExpired(candidates: seq<Candidate>, config: Config, k: nat)
    requires DistinctIds(candidates) && k < |Victims(candidates, config)| == |Plan(candidates, config)|
    ensures Plan(candidates, config)[k].reason.MaxAge? <==> Expired(Victims(candidates, config)[k], config.maxAgeSeconds)
  {
    VictimsAre(candidates, config);
    VictimsAreTagged(candidates, config);
    var victim := Victims(candidates, config)[k];
    assert victim in Victims(candidates, config);
    assert Plan(candidates, config)[k].reason == Reasons(candidates, config)[victim.itemId];
    ReasonIsAge(candidates, config, victim);
  }

  lemma ReasonIsAge(candidates: seq<Candidate>, config: Config, c: Candidate)
    requires DistinctIds(candidates) && c in candidates && c.itemId in Reasons(candidates, config)
    ensures Reasons(candidates, config)[c.itemId].MaxAge? <==> Expired(c, config.maxAgeSeconds)
  {
    var aged := MaxAgeExceeded(candidates, config.maxAgeSeconds);
    ExpiredOnesAre(candidates, config.maxAgeSeconds);
    MembersOf(aged, ExpiredOnes(candidates, config.maxAgeSeconds));
    if c.itemId in Names(aged) {
      var k :| 0 <= k < |aged| && Names(aged)[k] == c.itemId;
      assert aged[k] in aged;
      SameIdSame(candidates, c, aged[k]);
    } else if Expired(c, config.maxAgeSeconds) {
      NameIn(aged, c);
    }
  }

  /** Every victim that has not expired ranks below every item that stays. */
  lemma VictimsRankBelowSurvivors(candidates: seq<Candidate>, config: Config, victim: Candidate, survivor: Candidate)
    requires DistinctIds(candidates)
    requires victim in Victims(candidates, config) && !Expired(victim, config.maxAgeSeconds)
    requires survivor in candidates && survivor !in Victims(candidates, config)
    ensures RankBefore(victim, survivor) && !Expired(survivor, config.maxAgeSeconds)
  {
    VictimsAre(candidates, config);
    var ranked := Ranked(candidates);
    MembersOf(ranked, candidates);
    DistinctUnderPermutation(candidates, ranked);
    RankedStrictly(ranked);
    PrefixRanksBelow(ranked, |candidates| - config.capacityCap, victim, survivor);
  }

  /** Who goes first, on the fields: the lower score, at equal scores the earlier write, at equal times the id
      that is lexicographically smaller. */
  ghost predicate GoesFirst(a: Candidate, b: Candidate) {
    && a.memoryScore <= b.memoryScore
    && (a.memoryScore == b.memoryScore ==> a.writtenAt <= b.writtenAt)
    && (a.memoryScore == b.memoryScore && a.writtenAt == b.writtenAt ==>
          exists k :: 0 <= k <= |a.itemId| && k < |b.itemId| && a.itemId[..k] == b.itemId[..k]
            && (k == |a.itemId| || a.itemId[k] < b.itemId[k]))
  }

  lemma RankIsOnFields(a: Candidate, b: Candidate)
    requires RankBefore(a, b)
    ensures GoesFirst(a, b)
  {
    LessIsLexicographic(a.itemId, b.itemId);
  }

  /** The plan goes through its victims from the lowest score, then the earliest write, then the smallest id;
      whoever it evicts without being expired goes before everyone who stays; and only an item that is
      compressed and older than the maximum age is evicted for its age. */
  lemma PlanIsByScore(candidates: seq<Candidate>, config: Config)
    requires DistinctIds(candidates)
    ensures var plan, victims := Plan(candidates, config), Victims(candidates, config);
            && |plan| == |victims| && (forall k :: 0 <= k < |plan| ==> plan[k].itemId == victims[k].itemId)
            && (forall i, j :: 0 <= i < j < |victims| ==> GoesFirst(victims[i], victims[j]))
            && (forall v, s ::
                  v in victims && (!v.isCompressed || v.ageSeconds <= config.maxAgeSeconds) && s in candidates && s !in victims
                  ==> GoesFirst(v, s))
            && (forall k :: 0 <= k < |plan| ==>
                  (plan[k].reason == MaxAge <==> victims[k].isCompressed && victims[k].ageSeconds > config.maxAgeSeconds))
            && (forall c :: c in candidates && c.isCompressed && c.ageSeconds > config.maxAgeSeconds ==> c in victims)
  {
    var plan, victims := Plan(candidates, config), Victims(candidates, config);
    PlanIsAscending(candidates, config);
    VictimsAre(candidates, config);
    forall i, j | 0 <= i < j < |victims| ensures GoesFirst(victims[i], victims[j]) {
      RankIsOnFields(victims[i], victims[j]);
    }
    forall v, s | v in victims && !Expired(v, config.maxAgeSeconds) && s in candidates && s !in victims
      ensures GoesFirst(v, s)
    {
      VictimsRankBelowSurvivors(candidates, config, v, s);
      RankIsOnFields(v, s);
    }
    forall k | 0 <= k < |plan|
      ensures plan[k].reason == MaxAge <==> victims[k].isCompressed && victims[k].ageSeconds > config.maxAgeSeconds
    {
      PlanTagsExpired(candidates, config, k);
    }
  }

  lemma NamesDistinct(cs: seq<Candidate>)
    requires DistinctIds(cs)
    ensures NoDuplicates(Names(cs)) && |Elements(Names(cs))| == |cs|
  {
    DistinctSize(Names(cs));
  }

  lemma DistinctPrefix(cs: seq<Candidate>, n: nat)
    requires DistinctIds(cs) && n <= |cs|
    ensures DistinctIds(cs[..n])
  {
  }

  /** Without its victims the zone is within its cap. */
  lemma SurvivorsFit(candidates: seq<Candidate>, config: Config)
    requires DistinctIds(candidates)
    ensures Elements(Names(Victims(candidates, config))) <= Elements(Names(candidates))
    ensures |Elements(Names(candidates)) - Elements(Names(Victims(candidates, config)))| <= config.capacityCap
  {
    var victims, over := Victims(candidates, config), CapacityOverflow(candidates, config.capacityCap);
    VictimsAre(candidates, config);
    DistinctUnderPermutation(candidates, Ranked(candidates));
    if |candidates| > config.capacityCap {
      DistinctPrefix(Ranked(candidates), |candidates| - config.capacityCap);
    }
    NamesDistinct(over);
    NamesDistinct(candidates);
    NamesSubset(over, victims);
    NamesSubset(victims, candidates);
    SubsetSize(Elements(Names(over)), Elements(Names(victims)));
  }

  lemma NamesSubset(a: seq<Candidate>, b: seq<Candidate>)
    requires forall c :: c in a ==> c in b
    ensures Elements(Names(a)) <= Elements(Names(b))
  {
    forall id | id in Names(a) ensures id in Names(b) {
      var k :| 0 <= k < |a| && Names(a)[k] == id;
      assert a[k] in a;
      NameIn(b, a[k]);
    }
  }

  /** And it evicts no more than it must: the victims that have not expired are at most the excess. */
  lemma NoMoreThanTheExcess(candidates: seq<Candidate>, config: Config)
    requires DistinctIds(candidates)
    ensures var unexpired := set c | c in Victims(candidates, config) && !Expired(c, config.maxAgeSeconds) :: c.itemId;
            |unexpired| <= if |candidates| > config.capacityCap then |candidates| - config.capacityCap else 0
  {
    var over := CapacityOverflow(candidates, config.capacityCap);
    VictimsAre(candidates, config);
    var unexpired := set c | c in Victims(candidates, config) && !Expired(c, config.maxAgeSeconds) :: c.itemId;
    forall id | id in unexpired ensures id in Elements(Names(over)) {
      var c :| c in Victims(candidates, config) && !Expired(c, config.maxAgeSeconds) && c.itemId == id;
      NameIn(over, c);
    }
    SubsetSize(unexpired, Elements(Names(over)));
    ElementsBound(Names(over));
  }

  lemma {:induction false} ElementsBound<T>(s: seq<T>)
    ensures |Elements(s)| <= |s|
  {
    if s != [] {
      ElementsBound(s[..|s| - 1]);
      assert Elements(s) == Elements(s[..|s| - 1]) + {s[|s| - 1]};
    }
  }

  // ---------------------------------------------------------------- carrying the plan out

  type Place = (string, string)

  /** Where an item can be, by tenant and id: Zone 2, both surfaces of the retrieval index, and the
      obligations still to erase. */
  datatype Zones = Zones(zone2: set<Place>, vectors: set<Place>, lexical: set<Place>, pending: set<Place>)

  /** How one removal through a port ends: done, or raised before or after it took effect. */
  datatype Call = Done | RaisedBefore | RaisedAfter

  /** The port calls that one decision can make, in order; and whether a raise among them ends the whole
      sweep, because it is not the error type that the sweep catches, or because the process dies there. */
  datatype Ports = Ports(checkRaises: bool, cascadeVector: Call, cascadeLexical: Call, cascadeZone2: Call, clear: Call,
                         vector: Call, lexical: Call, zone2: Call, stops: bool)

  function Removed(places: set<Place>, p: Place, call: Call): set<Place> {
    if call.RaisedBefore? then places else places - {p}
  }

  /** Both surfaces of the retrieval index; whether it returned. */
  function ItemDeleted(z: Zones, p: Place, vector: Call, lexical: Call): (Zones, bool) {
    var z' := z.(vectors := Removed(z.vectors, p, vector));
    if !vector.Done? then (z', false) else (z'.(lexical := Removed(z'.lexical, p, lexical)), lexical.Done?)
  }

  function Evicted(z: Zones, p: Place, call: Call): (Zones, bool) {
    (z.(zone2 := Removed(z.zone2, p, call)), call.Done?)
  }

  /** The cascade: `Some(true)` fulfilled, `Some(false)` no obligation, None raised. */
  function Fulfilled(z: Zones, p: Place, ports: Ports): (Zones, Option<bool>) {
    if ports.checkRaises then (z, None)
    else if p !in z.pending then (z, Some(false))
    else
      var (z1, deleted) := ItemDeleted(z, p, ports.cascadeVector, ports.cascadeLexical);
      if !deleted then (z1, None)
      else
        var (z2, evicted) := Evicted(z1, p, ports.cascadeZone2);
        if !evicted then (z2, None)
        else (z2.(pending := Removed(z2.pending, p, ports.clear)), if ports.clear.Done? then Some(true) else None)
  }

  /** One decision: None when a port raised. */
  function ExecutedOne(z: Zones, p: Place, ports: Ports): (Zones, Option<bool>) {
    var (z1, fulfilled) := Fulfilled(z, p, ports);
    if fulfilled.None? then (z1, None)
    else
      var (z2, deleted) := ItemDeleted(z1, p, ports.vector, ports.lexical);
      if !deleted then (z2, None)
      else if fulfilled.value then (z2, Some(true))
      else
        var (z3, evicted) := Evicted(z2, p, ports.zone2);
        (z3, if evicted then Some(false) else None)
  }

  /** The last decision raised, and the raise ended the sweep. */
  predicate Stopped(done: seq<Option<bool>>, ports: nat -> Ports) {
    done != [] && done[|done| - 1].None? && ports(|done| - 1).stops
  }

  /** The decisions in order, as far as the sweep gets. */
  function Executed(z: Zones, tenantId: string, plan: seq<Decision>, ports: nat -> Ports): (r: (Zones, seq<Option<bool>>))
    ensures |r.1| <= |plan| && (!Stopped(r.1, ports) ==> |r.1| == |plan|)
  {
    if plan == [] then (z, [])
    else
      var n := |plan| - 1;
      var (z', done) := Executed(z, tenantId, plan[..n], ports);
      if Stopped(done, ports) then (z', done)
      else
        var (z'', outcome) := ExecutedOne(z', (tenantId, plan[n].itemId), ports(n));
        (z'', done + [outcome])
  }

  /** The places of the decisions that were carried out. */
  function EvictedPlaces(tenantId: string, plan: seq<Decision>, done: seq<Option<bool>>): seq<Place>
    requires |done| <= |plan|
  {
    if done == [] then []
    else
      var n := |done| - 1;
      EvictedPlaces(tenantId, plan, done[..n]) + (if done[n].Some? then [(tenantId, plan[n].itemId)] else [])
  }

  /** One more decision of the sweep. */
  lemma ExecutedStep(z: Zones, tenantId: string, plan: seq<Decision>, ports: nat -> Ports, i: nat, z': Zones, done: seq<Option<bool>>)
    requires i < |plan| && |done| == i && Executed(z, tenantId, plan[..i], ports) == (z', done) && !Stopped(done, ports)
    ensures var p := (tenantId, plan[i].itemId);
            var (z'', outcome) := ExecutedOne(z', p, ports(i));
            && Executed(z, tenantId, plan[..i + 1], ports) == (z'', done + [outcome])
            && EvictedPlaces(tenantId, plan, done + [outcome])
               == EvictedPlaces(tenantId, plan, done) + (if outcome.Some? then [p] else [])
  {
    assert plan[..i + 1][..i] == plan[..i];
    var outcome := ExecutedOne(z', (tenantId, plan[i].itemId), ports(i)).1;
    assert (done + [outcome])[..i] == done;
  }

  lemma {:induction false} StoppedStays(z: Zones, tenantId: string, plan: seq<Decision>, ports: nat -> Ports, i: nat)
    requires i <= |plan| && Stopped(Executed(z, tenantId, plan[..i], ports).1, ports)
    ensures Executed(z, tenantId, plan, ports) == Executed(z, tenantId, plan[..i], ports)
  {
    if i < |plan| {
      assert plan[..|plan| - 1][..i] == plan[..i];
      StoppedStays(z, tenantId, plan[..|plan| - 1], ports, i);
    } else {
      assert plan[..i] == plan;
    }
  }

  // ---------------------------------------------------------------- what survives failing ports

  /** Nothing can be found that is no longer in Zone 2. */
  ghost predicate NoOrphans(z: Zones) {
    z.vectors <= z.zone2 && z.lexical <= z.zone2
  }

  ghost predicate GoneEverywhere(z: Zones, p: Place) {
    p !in z.zone2 && p !in z.vectors && p !in z.lexical
  }

  /** What carrying out decisions may do to the zones: only remove, leave Zone 2 last, clear obligations last. */
  ghost predicate SafeChange(z: Zones, z': Zones) {
    && z'.zone2 <= z.zone2 && z'.vectors <= z.vectors && z'.lexical <= z.lexical && z'.pending <= z.pending
    && (forall p :: p in z.zone2 && p !in z'.zone2 ==> GoneEverywhere(z', p))
    && (forall p :: p in z.pending && p !in z'.pending ==> GoneEverywhere(z', p))
  }

  lemma FulfilledIsSafe(z: Zones, p: Place, ports: Ports)
    ensures SafeChange(z, Fulfilled(z, p, ports).0)
    ensures Fulfilled(z, p, ports).1 == Some(true) ==> GoneEverywhere(Fulfilled(z, p, ports).0, p)
  {
  }

  /** An item leaves Zone 2 only after leaving the retrieval index, and its obligation clears only when it
      is gone from both, whichever port fails and whether or not the failing removal took effect. */
  lemma DecisionIsSafe(z: Zones, p: Place, ports: Ports)
    ensures SafeChange(z, ExecutedOne(z, p, ports).0)
    ensures ExecutedOne(z, p, ports).1.Some? ==> GoneEverywhere(ExecutedOne(z, p, ports).0, p)
    ensures NoOrphans(z) ==> NoOrphans(ExecutedOne(z, p, ports).0)
    ensures NoOrphans(z) && p in z.zone2 ==>
      p in ExecutedOne(z, p, ports).0.zone2 || GoneEverywhere(ExecutedOne(z, p, ports).0, p)
  {
    FulfilledIsSafe(z, p, ports);
  }

  /** When every port answers, the item is gone from Zone 2 and from both surfaces of the index, its obligation
      is cleared, and nothing else changes; the answer says whether there was one. */
  lemma UndisturbedDecisionEvicts(z: Zones, p: Place, ports: Ports)
    requires !ports.checkRaises && ports.cascadeVector.Done? && ports.cascadeLexical.Done? && ports.cascadeZone2.Done?
    requires ports.clear.Done? && ports.vector.Done? && ports.lexical.Done? && ports.zone2.Done?
    ensures ExecutedOne(z, p, ports)
         == (Zones(z.zone2 - {p}, z.vectors - {p}, z.lexical - {p}, z.pending - {p}), Some(p in z.pending))
  {
    assert z.vectors - {p} - {p} == z.vectors - {p} && z.lexical - {p} - {p} == z.lexical - {p};
    assert p !in z.pending ==> z.pending - {p} == z.pending;
  }

  /** A decision fails exactly if a port it reaches raises: the check; the four steps of a cascade that is due;
      the index; and Zone 2 unless the cascade has emptied it. */
  lemma DecisionFailsIff(z: Zones, p: Place, ports: Ports)
    ensures ExecutedOne(z, p, ports).1.None? <==>
      || ports.checkRaises
      || (p in z.pending && !(ports.cascadeVector.Done? && ports.cascadeLexical.Done? && ports.cascadeZone2.Done? && ports.clear.Done?))
      || !ports.vector.Done? || !ports.lexical.Done?
      || (p !in z.pending && !ports.zone2.Done?)
  {
  }

  lemma SafeChain(a: Zones, b: Zones, c: Zones)
    requires SafeChange(a, b) && SafeChange(b, c)
    ensures SafeChange(a, c)
  {
  }

  /** The same for a whole sweep, wherever it stops: every item evicted is gone everywhere, and one that
      failed or was not reached is either still in Zone 2, so a later sweep meets it again, or gone
      everywhere already. */
  lemma {:induction false} SweepIsSafe(z: Zones, tenantId: string, plan: seq<Decision>, ports: nat -> Ports)
    requires NoOrphans(z)
    ensures var (z', outcomes) := Executed(z, tenantId, plan, ports);
            && SafeChange(z, z') && NoOrphans(z')
            && (forall k :: 0 <= k < |outcomes| && outcomes[k].Some? ==> GoneEverywhere(z', (tenantId, plan[k].itemId)))
            && (forall k :: 0 <= k < |plan| && (tenantId, plan[k].itemId) !in z'.zone2 ==>
                  GoneEverywhere(z', (tenantId, plan[k].itemId)))
  {
    if plan != [] {
      var n := |plan| - 1;
      SweepIsSafe(z, tenantId, plan[..n], ports);
      var (z', done) := Executed(z, tenantId, plan[..n], ports);
      if !Stopped(done, ports) {
        var p := (tenantId, plan[n].itemId);
        DecisionIsSafe(z', p, ports(n));
        SafeChain(z, z', ExecutedOne(z', p, ports(n)).0);
      }
    }
  }

  // ---------------------------------------------------------------- the zone fits

  ghost function TenantItems(z: Zones, tenantId: string): set<string> {
    set p | p in z.zone2 && p.0 == tenantId :: p.1
  }

  /** The items whose eviction failed, or that a sweep which stopped did not reach. */
  function Unevicted(plan: seq<Decision>, done: seq<Option<bool>>): (ids: seq<string>)
    ensures |ids| <= |plan|
  {
    if plan == [] then []
    else
      var n := |plan| - 1;
      Unevicted(plan[..n], done) + (if n < |done| && done[n].Some? then [] else [plan[n].itemId])
  }

  lemma {:induction false} UnevictedListed(plan: seq<Decision>, done: seq<Option<bool>>, k: nat)
    requires k < |plan| && !(k < |done| && done[k].Some?)
    ensures plan[k].itemId in Unevicted(plan, done)
  {
    var n := |plan| - 1;
    if k < n {
      UnevictedListed(plan[..n], done, k);
    }
  }

  /** A sweep over all of a tenant's items leaves at most its cap, plus those whose eviction failed or was not
      reached, and no expired compressed item except among those. */
  lemma SweepFitsTheZone(z: Zones, tenantId: string, candidates: seq<Candidate>, config: Config, ports: nat -> Ports)
    requires NoOrphans(z) && DistinctIds(candidates) && TenantItems(z, tenantId) == Elements(Names(candidates))
    ensures var (z', done) := Executed(z, tenantId, Plan(candidates, config), ports);
            var left := Unevicted(Plan(candidates, config), done);
            && |TenantItems(z', tenantId)| <= config.capacityCap + |left|
            && forall c :: c in candidates && Expired(c, config.maxAgeSeconds) && c.itemId in TenantItems(z', tenantId) ==>
                 c.itemId in left
  {
    var plan, victims := Plan(candidates, config), Victims(candidates, config);
    var (z', done) := Executed(z, tenantId, plan, ports);
    SweepIsSafe(z, tenantId, plan, ports);
    var left := Unevicted(plan, done);
    var kept := Elements(Names(candidates)) - Elements(Names(victims));
    forall id | id in TenantItems(z', tenantId) ensures id in kept + Elements(left) {
      StaysOnlyIfUnevicted(z, tenantId, candidates, config, ports, id);
    }
    SubsetSize(TenantItems(z', tenantId), kept + Elements(left));
    SurvivorsFit(candidates, config);
    ElementsBound(left);
    forall c | c in candidates && Expired(c, config.maxAgeSeconds) && c.itemId in TenantItems(z', tenantId)
      ensures c.itemId in left
    {
      VictimsAre(candidates, config);
      NameIn(victims, c);
      StaysOnlyIfUnevicted(z, tenantId, candidates, config, ports, c.itemId);
    }
  }

  lemma StaysOnlyIfUnevicted(z: Zones, tenantId: string, candidates: seq<Candidate>, config: Config, ports: nat -> Ports, id: string)
    requires NoOrphans(z) && TenantItems(z, tenantId) == Elements(Names(candidates))
    requires id in TenantItems(Executed(z, tenantId, Plan(candidates, config), ports).0, tenantId)
    ensures id in Names(candidates)
    ensures id !in Names(Victims(candidates, config))
         || id in Unevicted(Plan(candidates, config), Executed(z, tenantId, Plan(candidates, config), ports).1)
  {
    var plan, victims := Plan(candidates, config), Victims(candidates, config);
    var (z', done) := Executed(z, tenantId, plan, ports);
    SweepIsSafe(z, tenantId, plan, ports);
    assert (tenantId, id) in z'.zone2;
    assert id in TenantItems(z, tenantId);
    if id in Names(victims) {
      var k :| 0 <= k < |victims| && Names(victims)[k] == id;
      assert plan[k].itemId == id;
      assert k < |done| && done[k].Some? ==> GoneEverywhere(z', (tenantId, plan[k].itemId));
      UnevictedListed(plan, done, k);
    }
  }

  // ---------------------------------------------------------------- runs

  datatype Event =
    | Remember(place: Place)
    | RequestErasure(place: Place)
    | Sweep(tenantId: string, candidates: seq<Candidate>, config: Config, ports: nat -> Ports)

  function Step(z: Zones, e: Event): Zones {
    match e
    case Remember(p) => z.(zone2 := z.zone2 + {p}, vectors := z.vectors + {p}, lexical := z.lexical + {p})
    case RequestErasure(p) => z.(pending := z.pending + {p})
    case Sweep(tenantId, candidates, config, ports) => Executed(z, tenantId, Plan(candidates, config), ports).0
  }

  function Run(z: Zones, es: seq<Event>): Zones {
    if es == [] then z else Step(Run(z, es[..|es| - 1]), es[|es| - 1])
  }

  lemma StepIsSafe(z: Zones, e: Event, p: Place)
    requires NoOrphans(z)
    ensures NoOrphans(Step(z, e))
    ensures p in z.pending && p !in Step(z, e).pending ==> GoneEverywhere(Step(z, e), p)
  {
    if e.Sweep? {
      SweepIsSafe(z, e.tenantId, Plan(e.candidates, e.config), e.ports);
    }
  }

  /** Some event of the run cleared the obligation, and the item was gone everywhere when it did. */
  ghost predicate ClearedWhenGone(z: Zones, es: seq<Event>, p: Place) {
    if es == [] then false
    else
      var before, after := Run(z, es[..|es| - 1]), Run(z, es);
      || ClearedWhenGone(z, es[..|es| - 1], p)
      || (p in before.pending && p !in after.pending && GoneEverywhere(after, p))
  }

  /** Over any run of writes, erasure requests and sweeps with failing ports, nothing searchable ever outlives
      Zone 2; and an obligation, also for an item that is written again, is either still pending or was
      cleared at a moment when its item was gone everywhere. */
  lemma {:induction false} ErasuresStayPendingUntilGone(z: Zones, es: seq<Event>, p: Place)
    requires NoOrphans(z)
    ensures NoOrphans(Run(z, es))
    ensures p in z.pending ==> p in Run(z, es).pending || ClearedWhenGone(z, es, p)
  {
    if es != [] {
      var init, last := es[..|es| - 1], es[|es| - 1];
      ErasuresStayPendingUntilGone(z, init, p);
      StepIsSafe(Run(z, init), last, p);
    }
  }

  // ---------------------------------------------------------------- an obligation nobody clears

  ghost predicate Stranded(z: Zones, p: Place) {
    p in z.pending && GoneEverywhere(z, p)
  }

  /** Carrying out the decision for an item that Zone 2 holds leaves it gone everywhere with its obligation
      still pending exactly when the cascade's last removal raised after it took effect, or the clearing of
      the obligation raised, or the process died, before it did. */
  lemma DecisionStrandsIff(z: Zones, p: Place, ports: Ports)
    requires p in z.zone2
    ensures Stranded(ExecutedOne(z, p, ports).0, p)
       <==> && p in z.pending && !ports.checkRaises && ports.cascadeVector.Done? && ports.cascadeLexical.Done?
            && (ports.cascadeZone2.RaisedAfter? || (ports.cascadeZone2.Done? && ports.clear.RaisedBefore?))
  {
  }

  /** The item is not written again, and its tenant's sweeps are given what Zone 2 holds. */
  ghost predicate Usual(z: Zones, e: Event, p: Place) {
    match e
    case Remember(q) => q != p
    case RequestErasure(_) => true
    case Sweep(tenantId, candidates, _, _) =>
      tenantId == p.0 ==> forall id :: id in Names(candidates) ==> id in TenantItems(z, tenantId)
  }

  ghost predicate UsualRun(z: Zones, es: seq<Event>, p: Place) {
    if es == [] then true
    else UsualRun(z, es[..|es| - 1], p) && Usual(Run(z, es[..|es| - 1]), es[|es| - 1], p)
  }

  lemma {:induction false} OthersKeepPending(z: Zones, tenantId: string, plan: seq<Decision>, ports: nat -> Ports, p: Place)
    requires p in z.pending && forall k :: 0 <= k < |plan| ==> (tenantId, plan[k].itemId) != p
    ensures p in Executed(z, tenantId, plan, ports).0.pending
  {
    if plan != [] {
      OthersKeepPending(z, tenantId, plan[..|plan| - 1], ports, p);
    }
  }

  lemma VictimsAmong(candidates: seq<Candidate>, config: Config)
    ensures forall c :: c in Victims(candidates, config) ==> c in candidates
  {
    var over := CapacityOverflow(candidates, config.capacityCap);
    var aged := MaxAgeExceeded(candidates, config.maxAgeSeconds);
    var values := PutAll(PutAll([], over), aged);
    OverflowIsFromCandidates(candidates, config.capacityCap);
    ExpiredOnesAre(candidates, config.maxAgeSeconds);
    MembersOf(aged, ExpiredOnes(candidates, config.maxAgeSeconds));
    PutAllFrom([], over);
    PutAllFrom(PutAll([], over), aged);
    MembersOf(Ranked(values), values);
  }

  lemma PlannedIsCandidate(candidates: seq<Candidate>, config: Config, k: nat)
    requires k < |Plan(candidates, config)|
    ensures Plan(candidates, config)[k].itemId in Names(candidates)
  {
    VictimsAreTagged(candidates, config);
    VictimsAmong(candidates, config);
    var victims := Victims(candidates, config);
    assert victims[k] in victims;
    NameIn(candidates, victims[k]);
  }

  lemma StrandedStep(z: Zones, e: Event, p: Place)
    requires NoOrphans(z) && Stranded(z, p) && Usual(z, e, p)
    ensures Stranded(Step(z, e), p)
  {
    if e.Sweep? {
      var plan := Plan(e.candidates, e.config);
      SweepIsSafe(z, e.tenantId, plan, e.ports);
      forall k | 0 <= k < |plan| ensures (e.tenantId, plan[k].itemId) != p {
        PlannedIsCandidate(e.candidates, e.config, k);
        if e.tenantId == p.0 {
          assert plan[k].itemId in TenantItems(z, e.tenantId);
        }
      }
      OthersKeepPending(z, e.tenantId, plan, e.ports, p);
    }
  }

  /** Such an obligation is never cleared: the item is no longer in Zone 2, so no sweep names it again. */
  lemma {:induction false} StrandedObligationStays(z: Zones, es: seq<Event>, p: Place)
    requires NoOrphans(z) && Stranded(z, p) && UsualRun(z, es, p)
    ensures Stranded(Run(z, es), p)
  {
    if es != [] {
      var init := es[..|es| - 1];
      StrandedObligationStays(z, init, p);
      ErasuresStayPendingUntilGone(z, init, p);
      StrandedStep(Run(z, init), es[|es| - 1], p);
    }
  }

  // ---------------------------------------------------------------- in place

  /** Zone 2 and the two surfaces of Zone 6, behind their ports. */
  class ItemZones {
    var zone2: set<Place>
    var vectors: set<Place>
    var lexical: set<Place>

    constructor (zone2: set<Place>, vectors: set<Place>, lexical: set<Place>)
      ensures this.zone2 == zone2 && this.vectors == vectors && this.lexical == lexical
    {
      this.zone2, this.vectors, this.lexical := zone2, vectors, lexical;
    }

    method DeleteItem(p: Place, vector: Call, lexicalCall: Call) returns (ok: bool)
      modifies this
      ensures forall pending {:trigger Zones(zone2, vectors, lexical, pending)} ::
        (Zones(zone2, vectors, lexical, pending), ok)
        == ItemDeleted(Zones(old(zone2), old(vectors), old(lexical), pending), p, vector, lexicalCall)
    {
      vectors := Removed(vectors, p, vector);
      if !vector.Done? {
        return false;
      }
      lexical := Removed(lexical, p, lexicalCall);
      ok := lexicalCall.Done?;
    }

    method Evict(p: Place, call: Call) returns (ok: bool)
      modifies this
      ensures forall pending {:trigger Zones(zone2, vectors, lexical, pending)} ::
        (Zones(zone2, vectors, lexical, pending), ok)
        == Evicted(Zones(old(zone2), old(vectors), old(lexical), pending), p, call)
    {
      zone2 := Removed(zone2, p, call);
      ok := call.Done?;
    }
  }

  class InMemoryErasureObligationStore {
    var pending: set<Place>

    constructor ()
      ensures pending == {}
    {
      pending := {};
    }

    method Request(tenantId: string, itemId: string) returns (accepted: bool)
      modifies this
      ensures accepted <==> !Blank(tenantId) && !Blank(itemId)
      ensures pending == if accepted then old(pending) + {(tenantId, itemId)} else old(pending)
    {
      accepted := !Blank(tenantId) && !Blank(itemId);
      if accepted {
        pending := pending + {(tenantId, itemId)};
      }
    }

    method Clear(p: Place, call: Call) returns (ok: bool)
      modifies this
      ensures pending == Removed(old(pending), p, call) && ok == call.Done?
    {
      pending := Removed(pending, p, call);
      ok := call.Done?;
    }
  }

  class CrossZoneDpdpErasureCascade {
    const zones: ItemZones
    const obligations: InMemoryErasureObligationStore

    function Now(): Zones
      reads zones, obligations
    {
      Zones(zones.zone2, zones.vectors, zones.lexical, obligations.pending)
    }

    constructor (zones: ItemZones, obligations: InMemoryErasureObligationStore)
      ensures this.zones == zones && this.obligations == obligations
    {
      this.zones, this.obligations := zones, obligations;
    }

    method FulfilPendingErasure(p: Place, ports: Ports) returns (fulfilled: Option<bool>)
      modifies zones, obligations
      ensures (Now(), fulfilled) == Fulfilled(old(Now()), p, ports)
    {
      if ports.checkRaises {
        return None;
      }
      if p !in obligations.pending {
        return Some(false);
      }
      var deleted := zones.DeleteItem(p, ports.cascadeVector, ports.cascadeLexical);
      assert (Now(), deleted) == ItemDeleted(old(Now()), p, ports.cascadeVector, ports.cascadeLexical);
      if !deleted {
        return None;
      }
      ghost var afterDelete := Now();
      var evicted := zones.Evict(p, ports.cascadeZone2);
      assert (Now(), evicted) == Evicted(afterDelete, p, ports.cascadeZone2);
      if !evicted {
        return None;
      }
      var cleared := obligations.Clear(p, ports.clear);
      fulfilled := if cleared then Some(true) else None;
    }
  }

  class Zone2CapacityBackstopSweep {
    const cascade: CrossZoneDpdpErasureCascade
    var published: seq<Place>

    constructor (cascade: CrossZoneDpdpErasureCascade)
      ensures this.cascade == cascade && published == []
    {
      this.cascade := cascade;
      published := [];
    }

    /** `plan_backstop_eviction`, filling its two dictionaries trigger by trigger. */
    method PlanEviction(candidates: seq<Candidate>, config: Config) returns (plan: seq<Decision>)
      ensures plan == Plan(candidates, config)
    {
      var over := CapacityOverflow(candidates, config.capacityCap);
      var aged := MaxAgeExceeded(candidates, config.maxAgeSeconds);
      var byItem, reasons := FillDictionaries([], map[], over, Capacity);
      byItem, reasons := FillDictionaries(byItem, reasons, aged, MaxAge);
      var victims := Ranked(byItem);
      assert victims == Victims(candidates, config) && reasons == Reasons(candidates, config);
      VictimsAreTagged(candidates, config);
      plan := Decisions(victims, reasons);
    }

    method FillDictionaries(values: seq<Candidate>, tags: map<string, Reason>, selected: seq<Candidate>, reason: Reason)
      returns (byItem: seq<Candidate>, reasons: map<string, Reason>)
      ensures byItem == PutAll(values, selected) && reasons == Tagged(tags, selected, reason)
    {
      byItem, reasons := values, tags;
      assert selected[..0] == [];
      for i := 0 to |selected|
        invariant byItem == PutAll(values, selected[..i]) && reasons == Tagged(tags, selected[..i], reason)
      {
        assert selected[..i + 1][..i] == selected[..i];
        reasons := reasons[selected[i].itemId := reason];
        byItem := Put(byItem, selected[i]);
      }
      assert selected[..|selected|] == selected;
    }

    /** No result when it raised: for a blank tenant, or because a decision stopped it. What was evicted until
        then has been announced. */
    method RunSweep(tenantId: string, candidates: seq<Candidate>, config: Config, ports: nat -> Ports)
      returns (outcomes: Option<seq<Option<bool>>>)
      modifies this, cascade.zones, cascade.obligations
      ensures Blank(tenantId) ==> outcomes.None? && cascade.Now() == old(cascade.Now()) && published == old(published)
      ensures !Blank(tenantId) ==>
        var plan := Plan(candidates, config);
        var (z', done) := Executed(old(cascade.Now()), tenantId, plan, ports);
        && cascade.Now() == z' && published == old(published) + EvictedPlaces(tenantId, plan, done)
        && outcomes == if Stopped(done, ports) then None else Some(done)
    {
      if Blank(tenantId) {
        return None;
      }
      var plan := PlanEviction(candidates, config);
      var done := ExecutePlan(tenantId, plan, ports);
      outcomes := if Stopped(done, ports) then None else Some(done);
    }

    /** The loop over the plan; every carried-out eviction is announced, in order. */
    method ExecutePlan(tenantId: string, plan: seq<Decision>, ports: nat -> Ports) returns (done: seq<Option<bool>>)
      modifies this, cascade.zones, cascade.obligations
      ensures (cascade.Now(), done) == Executed(old(cascade.Now()), tenantId, plan, ports)
      ensures |done| <= |plan| && published == old(published) + EvictedPlaces(tenantId, plan, done)
    {
      done := [];
      assert plan[..0] == [];
      while |done| < |plan| && !Stopped(done, ports)
        invariant |done| <= |plan|
        invariant (cascade.Now(), done) == Executed(old(cascade.Now()), tenantId, plan[..|done|], ports)
        invariant published == old(published) + EvictedPlaces(tenantId, plan, done)
        decreases |plan| - |done|
      {
        var i := |done|;
        ExecutedStep(old(cascade.Now()), tenantId, plan, ports, i, cascade.Now(), done);
        AppendLast(old(published), EvictedPlaces(tenantId, plan, done), (tenantId, plan[i].itemId));
        var outcome := ExecuteOne((tenantId, plan[i].itemId), ports(i));
        if outcome.Some? {
          published := published + [(tenantId, plan[i].itemId)];
        }
        done := done + [outcome];
      }
      if Stopped(done, ports) {
        StoppedStays(old(cascade.Now()), tenantId, plan, ports, |done|);
      } else {
        assert plan[..|plan|] == plan;
      }
    }

    method ExecuteOne(p: Place, ports: Ports) returns (outcome: Option<bool>)
      modifies cascade.zones, cascade.obligations
      ensures (cascade.Now(), outcome) == ExecutedOne(old(cascade.Now()), p, ports)
    {
      var fulfilled := cascade.FulfilPendingErasure(p, ports);
      if fulfilled.None? {
        return None;
      }
      ghost var afterCascade := cascade.Now();
      var deleted := cascade.zones.DeleteItem(p, ports.vector, ports.lexical);
      assert (cascade.Now(), deleted) == ItemDeleted(afterCascade, p, ports.vector, ports.lexical);
      if !deleted {
        return None;
      }
      if fulfilled.value {
        return Some(true);
      }
      ghost var afterDelete := cascade.Now();
      var evicted := cascade.zones.Evict(p, ports.zone2);
      assert (cascade.Now(), evicted) == Evicted(afterDelete, p, ports.zone2);
      outcome := if evicted then Some(false) else None;
    }
  }
}
