/** Building the projections: loops over the loaded runs, against the specification functions. */
module ProjectionBuild {
  import opened Options
  import opened Texts
  import opened Lists
  import opened AuditRuns
  import opened Projections
  import L = Ledger
  import Sorting

  /** One line for each state, in order. */
  method RecordAll<T>(states: seq<State>, record: State -> T) returns (lines: seq<T>)
    ensures lines == Sorting.Map(states, record)
  {
    lines := [];
    for n := 0 to |states|
      invariant lines == Sorting.Map(states[..n], record)
    {
      lines := lines + [record(states[n])];
      assert states[..n + 1] == states[..n] + [states[n]];
    }
    assert states[..|states|] == states;
  }

  method BuildInvocationLines(runs: seq<LoadedRun>) returns (lines: seq<InvocationLine>)
    requires Dated(runs)
    ensures lines == InvocationLines(runs)
  {
    lines := [];
    for i := 0 to |runs|
      invariant lines == FlatMap(runs[..i], RunInvocations)
    {
      assert runs[..i + 1][..i] == runs[..i];
      var more := RecordAll(Ordered(runs[i].states), InvocationRecord);
      lines := lines + more;
    }
    assert runs[..|runs|] == runs;
    lines := Sorting.Sort(lines, InvocationLineLe);
  }

  method BuildUsageLines(runs: seq<LoadedRun>) returns (lines: seq<UsageLine>)
    requires Dated(runs)
    ensures lines == UsageLines(runs)
  {
    lines := [];
    for i := 0 to |runs|
      invariant lines == FlatMap(runs[..i], RunUsage)
    {
      assert runs[..i + 1][..i] == runs[..i];
      var more := RecordAll(Ordered(runs[i].states), UsageRecord);
      lines := lines + more;
    }
    assert runs[..|runs|] == runs;
    lines := Sorting.Sort(lines, UsageLineLe);
  }

  method BuildReviewLines(runs: seq<LoadedRun>) returns (lines: seq<ReviewLine>)
    requires Dated(runs)
    ensures lines == ReviewLines(runs)
  {
    lines := [];
    for i := 0 to |runs|
      invariant lines == FlatMap(runs[..i], RunReviews)
    {
      assert runs[..i + 1][..i] == runs[..i];
      var more := RecordAll(Ordered(Filter(runs[i].states, IsReview)), ReviewRecord);
      lines := lines + more;
    }
    assert runs[..|runs|] == runs;
    lines := Sorting.Sort(lines, ReviewLineLe);
  }

  /** The group of one work unit, or no group when it has no state. */
  ghost predicate GroupIs(ss: seq<State>, groups: map<Id, seq<State>>, u: Id) {
    var group := Filter(ss, OfUnit(u));
    (u in groups <==> group != []) && (u in groups ==> groups[u] == group)
  }

  function AddState(groups: map<Id, seq<State>>, st: State): map<Id, seq<State>> {
    groups[st.workUnitId := (if st.workUnitId in groups then groups[st.workUnitId] else []) + [st]]
  }

  lemma GroupStep(ss: seq<State>, st: State, groups: map<Id, seq<State>>, u: Id)
    requires GroupIs(ss, groups, u)
    ensures GroupIs(ss + [st], AddState(groups, st), u)
  {
    FilterSnoc(ss, st, OfUnit(u));
  }

  /** The states of a run by work unit. */
  method GroupByUnit(ss: seq<State>) returns (groups: map<Id, seq<State>>)
    ensures forall u :: GroupIs(ss, groups, u)
  {
    groups := map[];
    for n := 0 to |ss|
      invariant forall u :: GroupIs(ss[..n], groups, u)
    {
      forall u ensures GroupIs(ss[..n] + [ss[n]], AddState(groups, ss[n]), u) { GroupStep(ss[..n], ss[n], groups, u); }
      assert ss[..n + 1] == ss[..n] + [ss[n]];
      groups := AddState(groups, ss[n]);
    }
    assert ss[..|ss|] == ss;
  }

  /** The last of the sorted list. */
  method LatestState(ss: seq<State>, le: (State, State) -> bool) returns (r: Option<State>)
    requires Sorting.Ordering(le)
    ensures r == Latest(ss, le)
    ensures r.None? <==> ss == []
    ensures r.Some? ==> r.value in ss && forall st :: st in ss ==> le(st, r.value)
  {
    LatestIsLast(ss, le);
    Sorting.SortKeeps(ss, le);
    if |ss| == 0 { return None; }
    r := Some(Sorting.Sort(ss, le)[|ss| - 1]);
  }

  method DeriveTransportStatus(ss: seq<State>) returns (status: TransportStatus)
    ensures status == DeriveTransport(ss)
  {
    var mismatch := SomeOf(ss, HasSchemaMismatch);
    if mismatch { return SCHEMA_MISMATCH; }
    var malformed := SomeOf(ss, HasTransportFailure);
    if malformed { return TRANSPORT_FAILURE; }
    var failed := SomeOf(ss, CallFailed);
    if failed { return CALL_FAILURE; }
    var assessed := EveryOf(ss, Assessed);
    status := if |ss| > 0 && assessed then TRANSPORT_OK else TRANSPORT_UNKNOWN;
  }

  /** The set of the verdicts there are, and how many. */
  method DeriveValidation(ss: seq<State>) returns (v: ControllerValidation)
    ensures v == DeriveControllerValidation(ss)
  {
    var values: set<L.Verdict> := {};
    for n := 0 to |ss|
      invariant forall x :: x in values <==> exists st :: st in ss[..n] && st.assessmentResult == Some(x)
    {
      assert ss[..n + 1] == ss[..n] + [ss[n]];
      if ss[n].assessmentResult.Some? { values := values + {ss[n].assessmentResult.value}; }
    }
    assert ss[..|ss|] == ss;
    assert L.ACCEPTED in values <==> exists st :: st in ss && WasAccepted(st);
    assert L.REJECTED in values <==> exists st :: st in ss && WasRejected(st);
    VerdictSets(values);
    if |values| == 0 { return if |ss| > 0 then NO_ASSESSMENT else NO_INVOCATION; }
    if |values| == 1 { return if L.ACCEPTED in values then ALL_ACCEPTED else ALL_REJECTED; }
    v := MIXED;
  }

  lemma VerdictSets(values: set<L.Verdict>)
    ensures |values| == (if L.ACCEPTED in values then 1 else 0) + if L.REJECTED in values then 1 else 0
  {
    forall v | v in values ensures v == L.ACCEPTED || v == L.REJECTED {}
    if L.ACCEPTED in values && L.REJECTED in values {
      assert values == {L.ACCEPTED, L.REJECTED};
    } else if L.ACCEPTED in values {
      assert values == {L.ACCEPTED};
    } else if L.REJECTED in values {
      assert values == {L.REJECTED};
    } else {
      assert values == {};
    }
  }

  /** One line of a work unit, field by field. */
  method BuildWorkUnitLine(runId: Id, workUnitId: Id, invocations: seq<State>) returns (line: WorkUnitLine)
    requires DistinctIds(invocations)
    ensures line == WorkUnitRecord(runId, workUnitId, Ordered(invocations))
  {
    var ordered := Ordered(invocations);
    OrderedFacts(invocations);
    var worker := Filter(ordered, IsWorker);
    FilterDistinct(ordered, IsWorker);
    FilterAll(worker, IsWorker);
    var status := DeriveWorkUnitStatus(worker);
    var first := DeriveFirstPassAccepted(worker);
    var repaired := DeriveRepairAccepted(worker);
    var accepted, assessed, coded := LatestWorkers(worker);
    var transport := DeriveTransportStatus(ordered);
    var validation := DeriveValidation(ordered);
    var semantic := SomeOf(ordered, RejectedSemantically);
    line := WorkUnitLine(
      runId, workUnitId, |ordered|, if |ordered| > 0 then Some(ordered[0].invocationId) else None,
      if accepted.Some? then Some(accepted.value.invocationId) else None, status, first, repaired,
      if assessed.Some? then assessed.value.assessmentResult else None,
      if coded.Some? then coded.value.rejectionCode else None, transport, validation, semantic);
  }

  /** The latest accepted, assessed and coded call. */
  method LatestWorkers(worker: seq<State>) returns (accepted: Option<State>, assessed: Option<State>, coded: Option<State>)
    ensures accepted == Latest(Filter(worker, WasAccepted), AssessedLe)
    ensures assessed == Latest(Filter(worker, Assessed), AssessedLe)
    ensures coded == Latest(Filter(worker, Coded), LastEventLe)
  {
    EventOrdering();
    accepted := LatestState(Filter(worker, WasAccepted), AssessedLe);
    assessed := LatestState(Filter(worker, Assessed), AssessedLe);
    coded := LatestState(Filter(worker, Coded), LastEventLe);
  }

  method BuildWorkUnitLines(runs: seq<LoadedRun>) returns (lines: seq<WorkUnitLine>)
    requires Dated(runs) && forall lr :: lr in runs ==> DistinctIds(lr.states)
    ensures lines == WorkUnitLines(runs)
  {
    lines := [];
    for i := 0 to |runs|
      invariant lines == WorkUnitLines(runs[..i])
    {
      assert runs[i] in runs && runs[..i + 1][..i] == runs[..i];
      var more := BuildRunWorkUnits(runs[i]);
      lines := lines + more;
    }
    assert runs[..|runs|] == runs;
  }

  method BuildRunWorkUnits(lr: LoadedRun) returns (lines: seq<WorkUnitLine>)
    requires DistinctIds(lr.states)
    ensures lines == RunWorkUnits(lr)
  {
    var groups := GroupByUnit(lr.states);
    var units := Units(lr.states);
    lines := [];
    for n := 0 to |units|
      invariant LinesSoFar(lr, units[..n], lines)
    {
      var line := BuildUnitLine(lr, units[n], groups);
      LinesGrow(lr, units[..n], lines, units[n]);
      assert units[..n + 1] == units[..n] + [units[n]];
      lines := lines + [line];
    }
    assert units[..|units|] == units;
    LinesAreAll(lr, lines);
  }

  ghost predicate LinesSoFar(lr: LoadedRun, units: seq<Id>, lines: seq<WorkUnitLine>) {
    |lines| == |units| && forall i :: 0 <= i < |lines| ==> lines[i] == UnitLine(lr, units[i])
  }

  lemma LinesGrow(lr: LoadedRun, units: seq<Id>, lines: seq<WorkUnitLine>, u: Id)
    requires LinesSoFar(lr, units, lines)
    ensures LinesSoFar(lr, units + [u], lines + [UnitLine(lr, u)])
  {}

  lemma LinesAreAll(lr: LoadedRun, lines: seq<WorkUnitLine>)
    requires LinesSoFar(lr, Units(lr.states), lines)
    ensures lines == RunWorkUnits(lr)
  {}

  method BuildUnitLine(lr: LoadedRun, u: Id, groups: map<Id, seq<State>>) returns (line: WorkUnitLine)
    requires DistinctIds(lr.states) && u in Units(lr.states) && GroupIs(lr.states, groups, u)
    ensures line == UnitLine(lr, u)
  {
    UnitHasGroup(lr.states, groups, u);
    FilterDistinct(lr.states, OfUnit(u));
    line := BuildWorkUnitLine(lr.runId, u, groups[u]);
  }

  lemma UnitHasGroup(ss: seq<State>, groups: map<Id, seq<State>>, u: Id)
    requires u in Units(ss) && GroupIs(ss, groups, u)
    ensures u in groups && groups[u] == Filter(ss, OfUnit(u))
  {
    Sorting.SortKeeps(FirstSeen(UnitIds(ss)), StringLe);
    UnitOfState(ss, u);
    var st :| st in ss && st.workUnitId == u;
    assert st in Filter(ss, OfUnit(u));
  }

  datatype ProjectionSet = ProjectionSet(
    invocations: seq<InvocationLine>, workUnits: seq<WorkUnitLine>, reviews: seq<ReviewLine>, usage: seq<UsageLine>)

  function ProjectionsOf(runs: seq<LoadedRun>): ProjectionSet {
    ProjectionSet(InvocationLines(runs), WorkUnitLines(runs), ReviewLines(runs), UsageLines(runs))
  }

  method BuildProjections(runs: seq<LoadedRun>) returns (ps: ProjectionSet)
    requires Dated(runs) && forall lr :: lr in runs ==> DistinctIds(lr.states)
    ensures ps == ProjectionsOf(runs)
  {
    var invocations := BuildInvocationLines(runs);
    var workUnits := BuildWorkUnitLines(runs);
    var reviews := BuildReviewLines(runs);
    var usage := BuildUsageLines(runs);
    ps := ProjectionSet(invocations, workUnits, reviews, usage);
  }
}
