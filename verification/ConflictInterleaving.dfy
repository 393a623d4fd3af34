/** Concurrent appends through the conflict-detection sweep. An append first reads the item's history and
    decides, and only then inserts; nothing holds the item in between. Each call is here three steps, and a
    run is any interleaving of them. */
module ConflictInterleaving {
  import opened ConflictSweep
  import opened Options
  import opened ProvenanceChain

  /** A call that has read and decided, and whether its correction is stored yet. */
  datatype Pending = Pending(record: Record, contradicted: Option<Record>, corrected: bool)

  datatype State = State(rows: seq<Record>, calls: map<nat, Pending>)

  datatype Step =
    | Read(call: nat, record: Record)
    | Correct(call: nat, now: string, freshId: string, up: bool)
    | Write(call: nat, up: bool)

  const START := State([], map[])

  /** Insert one record, or raise: None where it could not even be created. */
  function InsertIfCreated(rows: seq<Record>, record: Option<Record>, up: bool): (seq<Record>, Outcome) {
    match record
    case None => (rows, RaisedError)
    case Some(r) => Insert(rows, r, up)
  }

  /** What the call's last insert is of: the claim as it came, or created again as disputed. */
  function Claim(env: Env, p: Pending): Option<Record> {
    if p.contradicted.None? || p.record.updateHistory == [] then Some(p.record)
    else Create(env.hash, Downgrade(p.record))
  }

  predicate Enabled(s: State, step: Step) {
    match step
    case Read(call, record) => call !in s.calls && record.updateHistory != []
    case Correct(call, _, _, _) => call in s.calls && s.calls[call].contradicted.Some? && !s.calls[call].corrected
    case Write(call, _) => call in s.calls && (s.calls[call].contradicted.Some? ==> s.calls[call].corrected)
  }

  function Next(env: Env, s: State, step: Step): State {
    if !Enabled(s, step) then s
    else
      match step
      case Read(call, record) => s.(calls := s.calls[call := Pending(record, Contradicted(env, s.rows, record), false)])
      case Correct(call, now, freshId, up) =>
        var p := s.calls[call];
        var (rows, outcome) :=
          InsertIfCreated(s.rows, Create(env.hash, Correction(p.contradicted.value, p.record.provenanceId, freshId, now)), up);
        State(rows, if outcome.Stored? then s.calls[call := p.(corrected := true)] else s.calls - {call})
      case Write(call, up) =>
        State(InsertIfCreated(s.rows, Claim(env, s.calls[call]), up).0, s.calls - {call})
  }

  function Run(env: Env, steps: seq<Step>): State {
    if steps == [] then START else Next(env, Run(env, steps[..|steps| - 1]), steps[|steps| - 1])
  }

  /** An append nobody interleaves with is the sequential one. */
  lemma UndisturbedAppend(env: Env, s: State, call: nat, record: Record, now: string, freshId: string, firstUp: bool,
                          secondUp: bool)
    requires call !in s.calls && record.updateHistory != []
    ensures var read := Next(env, s, Read(call, record));
            var end := if Contradicted(env, s.rows, record).Some?
                       then Next(env, Next(env, read, Correct(call, now, freshId, firstUp)), Write(call, secondUp))
                       else Next(env, read, Write(call, firstUp));
            end == State(Append(env, s.rows, record, now, freshId, firstUp, secondUp).0, s.calls)
  {
    var p := Pending(record, Contradicted(env, s.rows, record), false);
    var read := State(s.rows, s.calls[call := p]);
    assert Next(env, s, Read(call, record)) == read && read.calls - {call} == s.calls;
    if p.contradicted.Some? {
      UndisturbedPair(env, read, call, now, freshId, firstUp, secondUp);
    }
  }

  lemma UndisturbedPair(env: Env, read: State, call: nat, now: string, freshId: string, firstUp: bool, secondUp: bool)
    requires call in read.calls && read.calls[call].record.updateHistory != []
    requires read.calls[call].contradicted.Some? && !read.calls[call].corrected
    ensures var p := read.calls[call];
            Next(env, Next(env, read, Correct(call, now, freshId, firstUp)), Write(call, secondUp))
            == State(StoreDisputed(env, read.rows, p.contradicted.value, p.record, now, freshId, firstUp, secondUp).0,
                     read.calls - {call})
  {
    var corrected := Next(env, read, Correct(call, now, freshId, firstUp));
    assert corrected.calls - {call} == read.calls - {call};
  }

  // ---------------------------------------------------------------- the correction comes first

  /** The `j`-th step stored the call's correction, which had not been stored before. */
  ghost predicate Corrects(env: Env, steps: seq<Step>, j: nat, call: nat, p: Pending) {
    && j < |steps| && steps[j].Correct? && steps[j].call == call && p.contradicted.Some?
    && var s := Run(env, steps[..j]);
       && call in s.calls && s.calls[call] == p.(corrected := false)
       && var correction := Create(env.hash, Correction(p.contradicted.value, p.record.provenanceId, steps[j].freshId, steps[j].now));
          correction.Some? && Run(env, steps[..j + 1]).rows == s.rows + [correction.value]
  }

  /** No step of the call from the `j`-th on stores anything. */
  ghost predicate IdleFrom(env: Env, steps: seq<Step>, j: nat, call: nat) {
    forall k :: j <= k < |steps| && steps[k].call == call ==> Run(env, steps[..k + 1]).rows == Run(env, steps[..k]).rows
  }

  lemma StepCorrects(env: Env, s: State, step: Step, call: nat)
    requires var s' := Next(env, s, step);
             call in s'.calls && s'.calls[call].corrected && !(call in s.calls && s.calls[call].corrected)
    ensures var s' := Next(env, s, step);
            var p := s'.calls[call];
            && step.Correct? && step.call == call && p.contradicted.Some?
            && call in s.calls && s.calls[call] == p.(corrected := false)
            && var correction := Create(env.hash, Correction(p.contradicted.value, p.record.provenanceId, step.freshId, step.now));
               correction.Some? && s'.rows == s.rows + [correction.value]
  {
  }

  lemma StepKeepsCorrected(env: Env, s: State, step: Step, call: nat)
    requires call in s.calls && s.calls[call].corrected && call in Next(env, s, step).calls
    ensures var s' := Next(env, s, step); s'.calls[call] == s.calls[call] && (step.call == call ==> s'.rows == s.rows)
  {
  }

  lemma CorrectsExtends(env: Env, steps: seq<Step>, last: Step, j: nat, call: nat, p: Pending)
    requires Corrects(env, steps, j, call, p)
    ensures Corrects(env, steps + [last], j, call, p)
  {
    assert (steps + [last])[..j] == steps[..j] && (steps + [last])[..j + 1] == steps[..j + 1];
  }

  lemma IdleExtends(env: Env, steps: seq<Step>, last: Step, j: nat, call: nat)
    requires IdleFrom(env, steps, j, call) && j <= |steps|
    requires last.call == call ==> Run(env, steps + [last]).rows == Run(env, steps).rows
    ensures IdleFrom(env, steps + [last], j, call)
  {
    var all := steps + [last];
    assert all[..|steps|] == steps && all[..|all|] == all;
    forall k | j <= k < |all| && all[k].call == call ensures Run(env, all[..k + 1]).rows == Run(env, all[..k]).rows {
      if k < |steps| {
        assert all[..k + 1] == steps[..k + 1] && all[..k] == steps[..k];
      }
    }
  }

  lemma {:induction false} CorrectedOnce(env: Env, steps: seq<Step>, call: nat) returns (j: nat)
    requires call in Run(env, steps).calls && Run(env, steps).calls[call].corrected
    ensures Corrects(env, steps, j, call, Run(env, steps).calls[call])
    ensures IdleFrom(env, steps, j + 1, call)
  {
    var init, last := steps[..|steps| - 1], steps[|steps| - 1];
    var before := Run(env, init);
    assert steps == init + [last] && steps[..|steps|] == steps;
    if call in before.calls && before.calls[call].corrected {
      j := CorrectedOnce(env, init, call);
      StepKeepsCorrected(env, before, last, call);
      CorrectsExtends(env, init, last, j, call, before.calls[call]);
      IdleExtends(env, init, last, j + 1, call);
    } else {
      j := |steps| - 1;
      StepCorrects(env, before, last, call);
    }
  }

  /** Over any interleaving: when a contradicted claim goes in, its correction has been stored, once. */
  lemma ClaimFollowsCorrection(env: Env, steps: seq<Step>, call: nat, up: bool) returns (j: nat)
    requires var s := Run(env, steps);
             call in s.calls && s.calls[call].contradicted.Some? && Next(env, s, Write(call, up)) != s
    ensures Corrects(env, steps, j, call, Run(env, steps).calls[call])
    ensures IdleFrom(env, steps, j + 1, call)
  {
    j := CorrectedOnce(env, steps, call);
  }

  // ---------------------------------------------------------------- stale decisions

  /** The claim goes in undisputed although, by now, it contradicts a stored record. */
  ghost predicate Stale(env: Env, s: State, step: Step) {
    && step.Write? && Enabled(s, step)
    && var p := s.calls[step.call];
       && p.contradicted.None? && p.record.conflictStatus != Disputed && p.record.updateHistory != []
       && step.up && Insertable(s.rows, p.record)
       && Contradicted(env, s.rows, p.record).Some?
  }

  ghost predicate NoneStale(env: Env, steps: seq<Step>) {
    if steps == [] then true
    else
      var init := steps[..|steps| - 1];
      NoneStale(env, init) && !Stale(env, Run(env, init), steps[|steps| - 1])
  }

  /** What a call that is under way knows. */
  ghost predicate CallsOk(s: State) {
    forall call :: call in s.calls ==>
      && s.calls[call].record.updateHistory != []
      && (s.calls[call].contradicted.Some? ==>
            Concerns(s.calls[call].contradicted.value, s.calls[call].record.tenantId, s.calls[call].record.itemId))
  }

  /** One step adds at most one row, of the call's item, undisputed only if it is an uncontradicted claim. */
  ghost predicate AddsAtMostOne(s: State, s': State, step: Step) {
    s'.rows == s.rows
    || (step.call in s.calls && |s'.rows| == |s.rows| + 1 && s'.rows[..|s.rows|] == s.rows
        && Concerns(s'.rows[|s.rows|], s.calls[step.call].record.tenantId, s.calls[step.call].record.itemId)
        && (s'.rows[|s.rows|].conflictStatus != Disputed ==>
              step.Write? && s.calls[step.call].contradicted.None? && s'.rows[|s.rows|] == s.calls[step.call].record
              && step.up && Insertable(s.rows, s'.rows[|s.rows|])))
  }

  lemma StepAdds(env: Env, s: State, step: Step)
    requires ReturnsItsRows(env) && UniqueIds(s.rows) && CallsOk(s)
    ensures CallsOk(Next(env, s, step)) && UniqueIds(Next(env, s, step).rows) && AddsAtMostOne(s, Next(env, s, step), step)
  {
    if Enabled(s, step) {
      match step
      case Read(call, record) => ContradictsTheLatestActive(env, s.rows, record);
      case Correct(call, now, freshId, up) =>
        var p := s.calls[call];
        var d := Correction(p.contradicted.value, p.record.provenanceId, freshId, now);
        if Create(env.hash, d).Some? {
          CreatedIsDisputed(env.hash, d);
          InsertKeepsUnique(s.rows, Create(env.hash, d).value, up);
        }
      case Write(call, up) => WriteAdds(env, s, call, up);
    }
  }

  lemma WriteAdds(env: Env, s: State, call: nat, up: bool)
    requires UniqueIds(s.rows) && CallsOk(s) && Enabled(s, Write(call, up))
    ensures var s' := Next(env, s, Write(call, up));
            CallsOk(s') && UniqueIds(s'.rows) && AddsAtMostOne(s, s', Write(call, up))
  {
    var p := s.calls[call];
    if p.contradicted.None? {
      InsertKeepsUnique(s.rows, p.record, up);
    } else if Create(env.hash, Downgrade(p.record)).Some? {
      CreatedIsDisputed(env.hash, Downgrade(p.record));
      InsertKeepsUnique(s.rows, Create(env.hash, Downgrade(p.record)).value, up);
    }
  }

  lemma {:induction false} RunIsOk(env: Env, steps: seq<Step>)
    requires ReturnsItsRows(env)
    ensures UniqueIds(Run(env, steps).rows) && CallsOk(Run(env, steps))
  {
    if steps != [] {
      RunIsOk(env, steps[..|steps| - 1]);
      StepAdds(env, Run(env, steps[..|steps| - 1]), steps[|steps| - 1]);
    }
  }

  /** A stored undisputed row stands or falls with the rows before it. */
  lemma GrownInvIff(env: Env, rows: seq<Record>, r: Record)
    requires UniqueIds(rows + [r])
    ensures Inv(env, rows + [r])
       <==> Inv(env, rows) && (r.conflictStatus != Disputed ==> Acknowledged(env, rows + [r], |rows|))
  {
    var all := rows + [r];
    assert UniqueIds(rows) by {
      assert forall k :: 0 <= k < |rows| ==> all[k] == rows[k];
    }
    forall k | 0 <= k < |rows| ensures Acknowledged(env, all, k) <==> Acknowledged(env, rows, k) {
      assert all[..k] == rows[..k] && all[k] == rows[k];
    }
  }

  lemma ClaimAcknowledgedIff(env: Env, rows: seq<Record>, r: Record)
    requires ReturnsItsRows(env) && UniqueIds(rows) && r.updateHistory != []
    ensures Acknowledged(env, rows + [r], |rows|) <==> Contradicted(env, rows, r).None?
  {
    assert (rows + [r])[..|rows|] == rows;
    ContradictsTheLatestActive(env, rows, r);
  }

  lemma StaleAddsItsClaim(env: Env, s: State, step: Step)
    ensures Stale(env, s, step) ==>
      && Next(env, s, step).rows == s.rows + [s.calls[step.call].record]
      && s.calls[step.call].record.conflictStatus != Disputed
  {
  }

  lemma StepKeepsIff(env: Env, s: State, step: Step)
    requires ReturnsItsRows(env) && UniqueIds(s.rows) && CallsOk(s)
    ensures Inv(env, Next(env, s, step).rows) <==> Inv(env, s.rows) && !Stale(env, s, step)
  {
    var s' := Next(env, s, step);
    StepAdds(env, s, step);
    StaleAddsItsClaim(env, s, step);
    if s'.rows != s.rows {
      var r := s'.rows[|s.rows|];
      assert s'.rows == s.rows + [r];
      GrownInvIff(env, s.rows, r);
      if r.conflictStatus != Disputed {
        ClaimAcknowledgedIff(env, s.rows, r);
      }
    }
  }

  /** Over any interleaving, every stored undisputed record was the first active one of its item or named the
      then-latest active one, if and only if no claim was written on a decision that had gone stale. */
  lemma {:induction false} AcknowledgedIffNoneStale(env: Env, steps: seq<Step>)
    requires ReturnsItsRows(env)
    ensures Inv(env, Run(env, steps).rows) <==> NoneStale(env, steps)
  {
    if steps != [] {
      var init := steps[..|steps| - 1];
      AcknowledgedIffNoneStale(env, init);
      RunIsOk(env, init);
      StepKeepsIff(env, Run(env, init), steps[|steps| - 1]);
    }
  }

  // ---------------------------------------------------------------- appends that do not overlap

  ghost predicate SameItem(a: Record, b: Record) {
    Concerns(a, b.tenantId, b.itemId)
  }

  /** Nobody reads an item's history while another call on the item is under way. */
  ghost predicate Separate(env: Env, steps: seq<Step>) {
    if steps == [] then true
    else
      var init, last := steps[..|steps| - 1], steps[|steps| - 1];
      && Separate(env, init)
      && (last.Read? ==> forall call :: call in Run(env, init).calls ==>
            !SameItem(Run(env, init).calls[call].record, last.record))
  }

  /** One call an item, and its decision is the one that would be made now. */
  ghost predicate UpToDate(env: Env, s: State) {
    && (forall c, d :: c in s.calls && d in s.calls && c != d ==> !SameItem(s.calls[c].record, s.calls[d].record))
    && (forall c :: c in s.calls && s.calls[c].contradicted.None? && s.calls[c].record.updateHistory != [] ==>
          Contradicted(env, s.rows, s.calls[c].record).None?)
  }

  lemma OtherItemKeepsDecision(env: Env, rows: seq<Record>, r: Record, record: Record)
    requires record.updateHistory != [] && !SameItem(r, record)
    ensures Contradicted(env, rows + [r], record) == Contradicted(env, rows, record)
  {
    ItemRowsAppend(rows, r, record.tenantId, record.itemId);
    assert ItemRows(rows, record.tenantId, record.itemId) + [] == ItemRows(rows, record.tenantId, record.itemId);
  }

  lemma StepKeepsUpToDate(env: Env, s: State, step: Step)
    requires ReturnsItsRows(env) && UniqueIds(s.rows) && CallsOk(s) && UpToDate(env, s)
    requires step.Read? ==> forall c :: c in s.calls ==> !SameItem(s.calls[c].record, step.record)
    ensures UpToDate(env, Next(env, s, step)) && !Stale(env, s, step)
  {
    if step.Read? {
      ReadIsUpToDate(env, s, step.call, step.record);
    } else {
      StepAdds(env, s, step);
      InsertIsUpToDate(env, s, Next(env, s, step), step);
    }
  }

  lemma ReadIsUpToDate(env: Env, s: State, call: nat, record: Record)
    requires UpToDate(env, s) && forall c :: c in s.calls ==> !SameItem(s.calls[c].record, record)
    ensures UpToDate(env, Next(env, s, Read(call, record)))
  {
    assert Next(env, s, Read(call, record)).rows == s.rows;
  }

  /** What a step that is not a read does to the calls under way: its own may be done or corrected. */
  ghost predicate OnlyItsOwn(s: State, s': State, step: Step) {
    forall c :: c in s'.calls ==>
      && c in s.calls && s'.calls[c].record == s.calls[c].record && s'.calls[c].contradicted == s.calls[c].contradicted
      && (s'.rows != s.rows && c == step.call ==> s.calls[c].contradicted.Some?)
  }

  lemma StepOnlyItsOwn(env: Env, s: State, step: Step)
    requires !step.Read?
    ensures OnlyItsOwn(s, Next(env, s, step), step)
  {
  }

  lemma InsertIsUpToDate(env: Env, s: State, s': State, step: Step)
    requires !step.Read? && s' == Next(env, s, step) && UpToDate(env, s) && CallsOk(s) && AddsAtMostOne(s, s', step)
    ensures UpToDate(env, s')
  {
    StepOnlyItsOwn(env, s, step);
    if s'.rows != s.rows {
      var r := s'.rows[|s.rows|];
      assert s'.rows == s.rows + [r];
      forall c | c in s'.calls && s'.calls[c].contradicted.None? && s'.calls[c].record.updateHistory != []
        ensures Contradicted(env, s'.rows, s'.calls[c].record).None?
      {
        assert c != step.call && !SameItem(s.calls[step.call].record, s.calls[c].record);
        OtherItemKeepsDecision(env, s.rows, r, s.calls[c].record);
      }
    }
  }

  lemma {:induction false} SeparateStaysUpToDate(env: Env, steps: seq<Step>)
    requires ReturnsItsRows(env) && Separate(env, steps)
    ensures UpToDate(env, Run(env, steps)) && NoneStale(env, steps)
  {
    if steps != [] {
      var init := steps[..|steps| - 1];
      SeparateStaysUpToDate(env, init);
      RunIsOk(env, init);
      StepKeepsUpToDate(env, Run(env, init), steps[|steps| - 1]);
    }
  }

  // ---------------------------------------------------------------- rival claims

  /** The store returns an item's records in the order they were written. */
  ghost predicate InWriteOrder(env: Env) {
    forall s :: env.order(s) == s
  }

  predicate Undisputed(r: Record) {
    r.conflictStatus != Disputed && !r.invalidationFlag && r.updateHistory != []
  }

  /** Two undisputed claims on one item, each as if it were the only one: both name the same earlier record,
      or both name none. */
  ghost predicate Rivals(rows: seq<Record>, j: nat, k: nat)
    requires j < k < |rows|
  {
    && Undisputed(rows[j]) && Undisputed(rows[k]) && SameItem(rows[j], rows[k])
    && rows[j].updateHistory[0].prevProvenanceId == rows[k].updateHistory[0].prevProvenanceId
    && match rows[k].updateHistory[0].prevProvenanceId
       case None => true
       case Some(id) => exists i :: 0 <= i < j && rows[i].tenantId == rows[k].tenantId && rows[i].provenanceId == id
  }

  ghost predicate NoRivals(rows: seq<Record>) {
    forall j: nat, k: nat :: j < k < |rows| ==> !Rivals(rows, j, k)
  }

  /** The latest active record of an item is not before any active one. */
  lemma {:induction false} LatestIsLast(rows: seq<Record>, tenantId: string, itemId: string, j: nat) returns (i: nat)
    requires j < |rows| && Concerns(rows[j], tenantId, itemId) && !rows[j].invalidationFlag
    ensures j <= i < |rows| && LatestActive(ItemRows(rows, tenantId, itemId)) == Some(rows[i])
  {
    var init, last := rows[..|rows| - 1], rows[|rows| - 1];
    var items := ItemRows(init, tenantId, itemId);
    if Concerns(last, tenantId, itemId) {
      assert (items + [last])[..|items|] == items;
    }
    if Concerns(last, tenantId, itemId) && !last.invalidationFlag {
      i := |rows| - 1;
    } else {
      assert items + [] == items;
      i := LatestIsLast(init, tenantId, itemId, j);
    }
  }

  lemma AcknowledgedHaveNoRivals(env: Env, rows: seq<Record>)
    requires Inv(env, rows) && InWriteOrder(env)
    ensures NoRivals(rows)
  {
    forall j: nat, k: nat | j < k < |rows| ensures !Rivals(rows, j, k) {
      if Rivals(rows, j, k) {
        assert Acknowledged(env, rows, k);
        var i := LatestIsLast(rows[..k], rows[k].tenantId, rows[k].itemId, j);
        ItemRowsAre(rows[..k], rows[k].tenantId, rows[k].itemId);
        assert LatestActive(ItemRows(rows[..k], rows[k].tenantId, rows[k].itemId)) == Some(rows[i]);
        LatestActiveIsActive(ItemRows(rows[..k], rows[k].tenantId, rows[k].itemId));
      }
    }
  }

  /** Appends that do not overlap on an item leave no rival claims, however appends to other items are
      interleaved with them. */
  lemma SeparateAppendsHaveNoRivals(env: Env, steps: seq<Step>)
    requires ReturnsItsRows(env) && Separate(env, steps)
    ensures Inv(env, Run(env, steps).rows)
    ensures InWriteOrder(env) ==> NoRivals(Run(env, steps).rows)
  {
    SeparateStaysUpToDate(env, steps);
    AcknowledgedIffNoneStale(env, steps);
    if InWriteOrder(env) {
      AcknowledgedHaveNoRivals(env, Run(env, steps).rows);
    }
  }

  /** Nor do appends made one after the other. */
  lemma SerialAppendsHaveNoRivals(env: Env, calls: seq<Call>)
    requires ReturnsItsRows(env) && InWriteOrder(env) && WellFormed(calls)
    ensures NoRivals(After(env, calls))
  {
    UndisputedWereAcknowledged(env, calls);
    AcknowledgedHaveNoRivals(env, After(env, calls));
  }

  /** Two calls under way on one item, both decided uncontradicted, that name the same stored record or none. */
  ghost predicate Overlap(s: State, a: nat, b: nat) {
    && a in s.calls && b in s.calls && a != b
    && s.calls[a].contradicted.None? && s.calls[b].contradicted.None?
    && var (r, t) := (s.calls[a].record, s.calls[b].record);
       && Undisputed(r) && Undisputed(t) && SameItem(r, t)
       && r.updateHistory[0].prevProvenanceId == t.updateHistory[0].prevProvenanceId
       && (match t.updateHistory[0].prevProvenanceId
           case None => true
           case Some(id) => exists i :: 0 <= i < |s.rows| && s.rows[i].tenantId == t.tenantId && s.rows[i].provenanceId == id)
       && Insertable(s.rows, r) && Insertable(s.rows + [r], t)
  }

  /** From every such state the two writes store rivals. */
  lemma OverlapStoresRivals(env: Env, s: State, a: nat, b: nat)
    requires Overlap(s, a, b)
    ensures var rows := Next(env, Next(env, s, Write(a, true)), Write(b, true)).rows;
            && rows == s.rows + [s.calls[a].record, s.calls[b].record]
            && Rivals(rows, |s.rows|, |s.rows| + 1)
  {
    var r, t := s.calls[a].record, s.calls[b].record;
    var s1 := Next(env, s, Write(a, true));
    assert s1 == State(s.rows + [r], s.calls - {a});
    var rows := Next(env, s1, Write(b, true)).rows;
    assert rows == s.rows + [r] + [t] == s.rows + [r, t];
    match t.updateHistory[0].prevProvenanceId
    case None =>
    case Some(id) =>
      var i :| 0 <= i < |s.rows| && s.rows[i].tenantId == t.tenantId && s.rows[i].provenanceId == id;
      assert rows[i] == s.rows[i];
  }

  /** Two reads before either write reach one: nothing is stored yet, and each claim looks like the first. */
  lemma OverlapIsReachable(env: Env, r: Record, t: Record)
    requires ReturnsItsRows(env) && Undisputed(r) && Undisputed(t) && SameItem(r, t)
    requires r.updateHistory[0].prevProvenanceId.None? && t.updateHistory[0].prevProvenanceId.None?
    requires r.provenanceId != t.provenanceId && r.recordHash != t.recordHash
    ensures Overlap(Run(env, [Read(0, r), Read(1, t)]), 0, 1)
  {
    var steps := [Read(0, r), Read(1, t)];
    assert steps[..1] == [Read(0, r)] && [Read(0, r)][..0] == [];
    FirstClaimIsUncontradicted(env, r);
    FirstClaimIsUncontradicted(env, t);
    assert Run(env, [Read(0, r)]) == State([], map[0 := Pending(r, None, false)]);
    assert Run(env, steps) == State([], map[0 := Pending(r, None, false), 1 := Pending(t, None, false)]);
  }

  lemma FirstClaimIsUncontradicted(env: Env, r: Record)
    requires ReturnsItsRows(env) && r.updateHistory != []
    ensures Contradicted(env, [], r).None?
  {
    ContradictsTheLatestActive(env, [], r);
  }
}
