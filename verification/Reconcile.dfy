/**
 Reconciliation: expectations are derived from the canonical states alone and compared, by identity
 and not by count, with what the projections and the metrics say.
 */
module Reconcile {
  import opened Options
  import opened Lists
  import opened AuditRuns
  import opened Projections
  import opened ProjectionBuild
  import opened Metrics
  import L = Ledger
  import Sorting

  /** A run and an identity in it. */
  datatype Key = Key(runId: Id, id: Id)

  // ---------------------------------------------------------------------------
  // Multiset difference
  // ---------------------------------------------------------------------------

  datatype Diff = Diff(ok: bool, missing: seq<Key>, unexpected: seq<Key>)

  /** Each key as often as the first count exceeds the second. */
  method Excess(a: map<Key, nat>, b: map<Key, nat>) returns (out: seq<Key>)
    ensures forall k :: multiset(out)[k] == if At(a, k) > At(b, k) then At(a, k) - At(b, k) else 0
  {
    out := [];
    var rest := a.Keys;
    while rest != {}
      invariant rest <= a.Keys
      invariant forall k :: multiset(out)[k] == if k !in rest && At(a, k) > At(b, k) then At(a, k) - At(b, k) else 0
    {
      var k :| k in rest;
      rest := rest - {k};
      ghost var before := multiset(out);
      var delta := if a[k] > At(b, k) then a[k] - At(b, k) else 0;
      for n := 0 to delta
        invariant forall j :: multiset(out)[j] == before[j] + if j == k then n else 0
      {
        out := out + [k];
      }
    }
  }

  lemma ExcessIsDifference(values: seq<Key>, others: seq<Key>, out: seq<Key>)
    requires var a, b := Tally(values), Tally(others);
             forall k :: multiset(out)[k] == if At(a, k) > At(b, k) then At(a, k) - At(b, k) else 0
    ensures multiset(out) == multiset(values) - multiset(others)
  {
    var a, b := Tally(values), Tally(others);
    forall k ensures multiset(out)[k] == (multiset(values) - multiset(others))[k] {
      TallyTimes(values, k);
      TallyTimes(others, k);
    }
  }

  lemma TallyTimes(values: seq<Key>, k: Key)
    ensures At(Tally(values), k) == multiset(values)[k]
  {
    TallyConserves(values);
    if k !in values {
      assert k !in multiset(values);
    }
  }

  lemma EmptyMultiset(s: seq<Key>)
    ensures multiset(s) == multiset{} <==> s == []
  {
    if s != [] {
      assert s[0] in multiset(s);
    }
  }

  method MultisetDiff(expectedValues: seq<Key>, actualValues: seq<Key>) returns (d: Diff)
    ensures multiset(d.missing) == multiset(expectedValues) - multiset(actualValues)
    ensures multiset(d.unexpected) == multiset(actualValues) - multiset(expectedValues)
    ensures d.ok <==> multiset(expectedValues) == multiset(actualValues)
  {
    var expected := CountBy(expectedValues);
    var actual := CountBy(actualValues);
    var missing := Excess(expected, actual);
    var unexpected := Excess(actual, expected);
    ExcessIsDifference(expectedValues, actualValues, missing);
    ExcessIsDifference(actualValues, expectedValues, unexpected);
    EmptyMultiset(missing);
    EmptyMultiset(unexpected);
    NoDifference(multiset(expectedValues), multiset(actualValues));
    d := Diff(missing == [] && unexpected == [], missing, unexpected);
  }

  lemma NoDifference(e: multiset<Key>, a: multiset<Key>)
    ensures e - a == multiset{} && a - e == multiset{} <==> e == a
  {
    if e - a == multiset{} && a - e == multiset{} {
      forall k ensures e[k] == a[k] { assert (e - a)[k] == 0 && (a - e)[k] == 0; }
    }
  }

  /** Expected and unexpected together are actual and missing together; nothing is both. */
  lemma DifferenceConserves(e: multiset<Key>, a: multiset<Key>)
    ensures e + (a - e) == a + (e - a)
    ensures (e - a) !! (a - e)
  {}

  // ---------------------------------------------------------------------------
  // Canonical expectations
  // ---------------------------------------------------------------------------

  function StatesOf(lr: LoadedRun): seq<State> { lr.states }

  function AllStates(runs: seq<LoadedRun>): seq<State> { FlatMap(runs, StatesOf) }

  function KeyOf(st: State): Key { Key(st.runId, st.invocationId) }
  function InvocationKey(l: InvocationLine): Key { Key(l.runId, l.invocationId) }
  function UsageKey(l: UsageLine): Key { Key(l.runId, l.invocationId) }
  function ReviewKey(l: ReviewLine): Key { Key(l.runId, l.reviewInvocationId) }
  function UnitKey(l: WorkUnitLine): Key { Key(l.runId, l.workUnitId) }

  /** The entry that a map filled in order holds for a key. */
  function LastWith(ss: seq<State>, k: Key): (r: Option<State>)
    ensures r.Some? <==> exists st :: st in ss && KeyOf(st) == k
    ensures r.Some? ==> r.value in ss && KeyOf(r.value) == k
  {
    if ss == [] then None else
      var n := |ss| - 1;
      assert ss == ss[..n] + [ss[n]];
      if KeyOf(ss[n]) == k then Some(ss[n]) else LastWith(ss[..n], k)
  }

  predicate FactsAgree(st: State, l: InvocationLine) {
    && l.status == st.status && l.role == st.role && l.outcome == st.outcome
    && l.assessmentResult == st.assessmentResult && l.rejectionCode == st.rejectionCode
  }

  function RunUnitKeys(lr: LoadedRun): seq<Key> { seq(|lr.states|, i requires 0 <= i < |lr.states| => Key(lr.runId, lr.states[i].workUnitId)) }

  /** The work units of the runs, each once. */
  function UnitKeys(runs: seq<LoadedRun>): seq<Key> { FirstSeen(FlatMap(runs, RunUnitKeys)) }

  function GroupIn(k: Key): LoadedRun -> seq<State> {
    (lr: LoadedRun) => if lr.runId == k.runId then Filter(lr.states, OfUnit(k.id)) else []
  }

  function GroupStates(runs: seq<LoadedRun>, k: Key): seq<State> { FlatMap(runs, GroupIn(k)) }

  datatype Class = Class(status: WorkUnitStatus, firstPassAccepted: Option<bool>, repairAccepted: bool)

  /** The worker calls of a work unit, in chronological order. */
  function WorkersOf(runs: seq<LoadedRun>, k: Key): seq<State> { Filter(Ordered(GroupStates(runs, k)), IsWorker) }

  /** The class of a sorted group by position. */
  function ClassInOrder(group: seq<State>): Class {
    var os := Ordered(Filter(group, IsWorker));
    Class(StatusOf(os), FirstInOrder(os), RepairInOrder(os))
  }

  /** The class that the canonical code gives: by position in the chronological order. */
  function CanonicalClass(runs: seq<LoadedRun>, k: Key): Class { ClassInOrder(Ordered(GroupStates(runs, k))) }

  /** The class that a work unit has by its calls: no position, only who started before whom. */
  function ClassOf(runs: seq<LoadedRun>, k: Key): Class {
    var worker := WorkersOf(runs, k);
    Class(StatusOf(worker), FirstPassOf(worker), RepairOf(worker))
  }

  lemma StatusIgnoresOrder(ss: seq<State>, ts: seq<State>)
    requires multiset(ss) == multiset(ts)
    ensures StatusOf(ss) == StatusOf(ts)
  {
    forall st ensures st in ss <==> st in ts { assert st in multiset(ss) <==> st in multiset(ts); }
    assert ss == [] <==> ts == [] by { assert |multiset(ss)| == |ss| && |multiset(ts)| == |ts|; }
  }

  /** Calls under distinct identities: the class by position is the class by pairs. */
  lemma CanonicalClassIsByPairs(runs: seq<LoadedRun>, k: Key)
    requires DistinctIds(GroupStates(runs, k))
    ensures CanonicalClass(runs, k) == ClassOf(runs, k)
  {
    var worker := WorkersOf(runs, k);
    OrderedFacts(GroupStates(runs, k));
    FilterDistinct(Ordered(GroupStates(runs, k)), IsWorker);
    OrderedFacts(worker);
    StatusIgnoresOrder(Ordered(worker), worker);
    FirstIsEarliest(worker);
    RepairByPosition(worker);
  }

  function LineClass(l: WorkUnitLine): Class { Class(l.status, l.firstPassAccepted, l.repairAccepted) }

  predicate HasClass(line: Option<WorkUnitLine>, c: Class) { line.Some? && LineClass(line.value) == c }

  /** The first line of a work unit. */
  function FirstLine(lines: seq<WorkUnitLine>, k: Key): (r: Option<WorkUnitLine>)
    ensures r.Some? <==> exists l :: l in lines && UnitKey(l) == k
    ensures r.Some? ==> r.value in lines && UnitKey(r.value) == k
  {
    if lines == [] then None
    else if UnitKey(lines[0]) == k then Some(lines[0])
    else
      assert lines == [lines[0]] + lines[1..];
      FirstLine(lines[1..], k)
  }

  function StatusOfKey(runs: seq<LoadedRun>): Key -> WorkUnitStatus { (k: Key) => CanonicalClass(runs, k).status }

  function CanonicalBuckets(runs: seq<LoadedRun>): Buckets {
    BucketsOf(|UnitKeys(runs)|, Sorting.Map(UnitKeys(runs), StatusOfKey(runs)))
  }

  /** Each expected counter is there, with its value. */
  predicate SameCounters(expected: Buckets, actual: Buckets) { forall n :: n in expected ==> n in actual && actual[n] == expected[n] }

  function SumRuns(runs: seq<LoadedRun>, f: LoadedRun -> nat): nat {
    if runs == [] then 0 else SumRuns(runs[..|runs| - 1], f) + f(runs[|runs| - 1])
  }

  function LedgerEvents(lr: LoadedRun): nat { lr.summary.events }
  function LedgerStarts(lr: LoadedRun): nat { lr.summary.starts }
  function LedgerCompletions(lr: LoadedRun): nat { lr.summary.completions }
  function LedgerAssessments(lr: LoadedRun): nat { lr.summary.assessments }
  function LedgerReconciliations(lr: LoadedRun): nat { lr.summary.reconciliations }

  // ---------------------------------------------------------------------------
  // The checks
  // ---------------------------------------------------------------------------

  datatype Check =
    | InvocationIdentities | InvocationFacts | UsageIdentities | ReviewIdentities | ReviewRoles | UnitIdentities
    | UnitClasses | OutcomeBuckets | StartCount | CompletionCount | AssessmentCount | ReconciliationCount
    | AssessedStates | RejectedStates | RejectionMetric | ReconciledStates | StartIdentities | EventTotal

  const CHECKS: seq<Check> := [
    InvocationIdentities, InvocationFacts, UsageIdentities, ReviewIdentities, ReviewRoles, UnitIdentities, UnitClasses,
    OutcomeBuckets, StartCount, CompletionCount, AssessmentCount, ReconciliationCount, AssessedStates, RejectedStates,
    RejectionMetric, ReconciledStates, StartIdentities, EventTotal]

  /** What each check says about the runs, the projections and the metrics. */
  ghost predicate Holds(c: Check, runs: seq<LoadedRun>, ps: ProjectionSet, m: MetricSet) {
    var ss := AllStates(runs);
    match c
    case InvocationIdentities => multiset(Sorting.Map(ss, KeyOf)) == multiset(Sorting.Map(ps.invocations, InvocationKey))
    case InvocationFacts =>
      forall l :: l in ps.invocations ==> LastWith(ss, InvocationKey(l)).Some? && FactsAgree(LastWith(ss, InvocationKey(l)).value, l)
    case UsageIdentities => multiset(Sorting.Map(ss, KeyOf)) == multiset(Sorting.Map(ps.usage, UsageKey))
    case ReviewIdentities => multiset(Sorting.Map(Filter(ss, IsReview), KeyOf)) == multiset(Sorting.Map(ps.reviews, ReviewKey))
    case ReviewRoles =>
      forall l :: l in ps.reviews ==>
        LastWith(Filter(ss, IsReview), ReviewKey(l)).Some? && LastWith(Filter(ss, IsReview), ReviewKey(l)).value.role == l.role
    case UnitIdentities => multiset(UnitKeys(runs)) == multiset(Sorting.Map(ps.workUnits, UnitKey))
    case UnitClasses =>
      forall k :: k in UnitKeys(runs) ==> HasClass(FirstLine(ps.workUnits, k), CanonicalClass(runs, k))
    case OutcomeBuckets => SameCounters(CanonicalBuckets(runs), m.workUnits)
    case StartCount => SumRuns(runs, LedgerStarts) == Sum(ss, Counter(L.START))
    case CompletionCount => SumRuns(runs, LedgerCompletions) == Sum(ss, Counter(L.COMPLETION))
    case AssessmentCount => SumRuns(runs, LedgerAssessments) == Sum(ss, Counter(L.ASSESSMENT))
    case ReconciliationCount => SumRuns(runs, LedgerReconciliations) == Sum(ss, Counter(L.RECONCILIATION))
    case AssessedStates => SumRuns(runs, LedgerAssessments) == Sum(ss, IsAssessed)
    case RejectedStates => Sum(ss, IsRejected) == |Filter(ps.invocations, LineRejected)|
    case RejectionMetric => |Filter(ps.invocations, LineRejected)| == m.rejections.total
    case ReconciledStates => SumRuns(runs, LedgerReconciliations) == Sum(ss, IsReconciled)
    case StartIdentities => SumRuns(runs, LedgerStarts) == |ss|
    case EventTotal =>
      SumRuns(runs, LedgerEvents) == SumRuns(runs, LedgerStarts) + SumRuns(runs, LedgerCompletions)
                                     + SumRuns(runs, LedgerAssessments) + SumRuns(runs, LedgerReconciliations)
  }

  datatype Report = Report(ok: bool, failed: seq<Check>)

  /** What the one pass over runs and states counts. */
  datatype Tallies = Tallies(
    events: nat, starts: nat, completions: nat, assessments: nat, reconciliations: nat,
    stateStarts: nat, stateCompletions: nat, stateAssessments: nat, stateReconciliations: nat,
    assessed: nat, rejected: nat, reconciled: nat)

  ghost predicate Counted(t: Tallies, runs: seq<LoadedRun>) {
    && t.events == SumRuns(runs, LedgerEvents) && t.starts == SumRuns(runs, LedgerStarts)
    && t.completions == SumRuns(runs, LedgerCompletions) && t.assessments == SumRuns(runs, LedgerAssessments)
    && t.reconciliations == SumRuns(runs, LedgerReconciliations)
  }

  ghost predicate CountedStates(t: Tallies, ss: seq<State>) {
    && t.stateStarts == Sum(ss, Counter(L.START)) && t.stateCompletions == Sum(ss, Counter(L.COMPLETION))
    && t.stateAssessments == Sum(ss, Counter(L.ASSESSMENT)) && t.stateReconciliations == Sum(ss, Counter(L.RECONCILIATION))
    && t.assessed == Sum(ss, IsAssessed) && t.rejected == Sum(ss, IsRejected) && t.reconciled == Sum(ss, IsReconciled)
  }

  function AddState(t: Tallies, st: State): Tallies {
    t.(stateStarts := t.stateStarts + st.counts.starts, stateCompletions := t.stateCompletions + st.counts.completions,
       stateAssessments := t.stateAssessments + st.counts.assessments, stateReconciliations := t.stateReconciliations + st.counts.reconciliations,
       assessed := t.assessed + IsAssessed(st), rejected := t.rejected + IsRejected(st), reconciled := t.reconciled + IsReconciled(st))
  }

  lemma AddStateCounts(t: Tallies, ss: seq<State>, st: State)
    requires CountedStates(t, ss)
    ensures CountedStates(AddState(t, st), ss + [st])
  {
    assert (ss + [st])[..|ss|] == ss;
  }

  method TallyStates(t: Tallies, states: seq<State>, ghost before: seq<State>) returns (t': Tallies)
    requires CountedStates(t, before)
    ensures CountedStates(t', before + states)
    ensures forall runs :: Counted(t, runs) ==> Counted(t', runs)
  {
    t' := t;
    assert before + states[..0] == before;
    for n := 0 to |states|
      invariant CountedStates(t', before + states[..n])
      invariant forall runs :: Counted(t, runs) ==> Counted(t', runs)
    {
      AddStateCounts(t', before + states[..n], states[n]);
      assert before + states[..n + 1] == before + states[..n] + [states[n]];
      t' := AddState(t', states[n]);
    }
    assert states[..|states|] == states;
  }

  method TallyRuns(runs: seq<LoadedRun>) returns (t: Tallies)
    ensures Counted(t, runs) && CountedStates(t, AllStates(runs))
  {
    t := Tallies(0, 0, 0, 0, 0, 0, 0, 0, 0, 0, 0, 0);
    for i := 0 to |runs|
      invariant Counted(t, runs[..i]) && CountedStates(t, AllStates(runs[..i]))
    {
      var lr := runs[i];
      assert runs[..i + 1][..i] == runs[..i];
      t := t.(events := t.events + lr.summary.events, starts := t.starts + lr.summary.starts,
              completions := t.completions + lr.summary.completions, assessments := t.assessments + lr.summary.assessments,
              reconciliations := t.reconciliations + lr.summary.reconciliations);
      t := TallyStates(t, lr.states, AllStates(runs[..i]));
    }
    assert runs[..|runs|] == runs;
  }

  // ---------------------------------------------------------------------------
  // The canonical classes, by code of their own
  // ---------------------------------------------------------------------------

  /** The groups of some runs, and their keys in the order of first occurrence. */
  ghost predicate GroupsAre(runs: seq<LoadedRun>, keys: seq<Key>, groups: map<Key, seq<State>>) {
    && keys == UnitKeys(runs)
    && forall k :: KeyGroupIs(runs, groups, k)
  }

  ghost predicate KeyGroupIs(runs: seq<LoadedRun>, groups: map<Key, seq<State>>, k: Key) {
    (k in groups <==> k in UnitKeys(runs)) && GroupStates(runs, k) == if k in groups then groups[k] else []
  }

  function AddToGroup(groups: map<Key, seq<State>>, k: Key, st: State): map<Key, seq<State>> {
    groups[k := (if k in groups then groups[k] else []) + [st]]
  }

  function AddKey(keys: seq<Key>, groups: map<Key, seq<State>>, k: Key): seq<Key> { if k in groups then keys else keys + [k] }

  /** A run of which only some states were read. */
  function Partly(lr: LoadedRun, states: seq<State>): LoadedRun { lr.(states := states) }

  lemma StateAdded(runs: seq<LoadedRun>, lr: LoadedRun, states: seq<State>, st: State, keys: seq<Key>, groups: map<Key, seq<State>>)
    requires GroupsAre(runs + [Partly(lr, states)], keys, groups)
    ensures var k := Key(lr.runId, st.workUnitId);
            GroupsAre(runs + [Partly(lr, states + [st])], AddKey(keys, groups, k), AddToGroup(groups, k, st))
  {
    var k := Key(lr.runId, st.workUnitId);
    UnitKeysGrow(runs, lr, states, st);
    assert KeyGroupIs(runs + [Partly(lr, states)], groups, k);
    forall j ensures KeyGroupIs(runs + [Partly(lr, states + [st])], AddToGroup(groups, k, st), j) {
      assert KeyGroupIs(runs + [Partly(lr, states)], groups, j);
      GroupGrows(runs, lr, states, st, j);
    }
  }

  lemma UnitKeysGrow(runs: seq<LoadedRun>, lr: LoadedRun, states: seq<State>, st: State)
    ensures var k, before := Key(lr.runId, st.workUnitId), UnitKeys(runs + [Partly(lr, states)]);
            UnitKeys(runs + [Partly(lr, states + [st])]) == if k in before then before else before + [k]
  {
    var a, b := Partly(lr, states), Partly(lr, states + [st]);
    var k, flat := Key(lr.runId, st.workUnitId), FlatMap(runs + [a], RunUnitKeys);
    FlatMapSnoc(runs, a, RunUnitKeys);
    FlatMapSnoc(runs, b, RunUnitKeys);
    assert RunUnitKeys(b) == RunUnitKeys(a) + [k];
    assert FlatMap(runs + [b], RunUnitKeys) == flat + [k];
    FirstSeenSnoc(flat, k);
  }

  lemma GroupGrows(runs: seq<LoadedRun>, lr: LoadedRun, states: seq<State>, st: State, k: Key)
    ensures GroupStates(runs + [Partly(lr, states + [st])], k)
            == GroupStates(runs + [Partly(lr, states)], k) + if k == Key(lr.runId, st.workUnitId) then [st] else []
  {
    FlatMapSnoc(runs, Partly(lr, states), GroupIn(k));
    FlatMapSnoc(runs, Partly(lr, states + [st]), GroupIn(k));
    FilterSnoc(states, st, OfUnit(k.id));
  }

  lemma RunAdded(runs: seq<LoadedRun>, lr: LoadedRun, keys: seq<Key>, groups: map<Key, seq<State>>)
    requires GroupsAre(runs, keys, groups)
    ensures GroupsAre(runs + [Partly(lr, [])], keys, groups)
  {
    FlatMapSnoc(runs, Partly(lr, []), RunUnitKeys);
    assert FlatMap(runs + [Partly(lr, [])], RunUnitKeys) == FlatMap(runs, RunUnitKeys);
    forall k ensures KeyGroupIs(runs + [Partly(lr, [])], groups, k) {
      assert KeyGroupIs(runs, groups, k);
      FlatMapSnoc(runs, Partly(lr, []), GroupIn(k));
    }
  }

  method GroupRun(ghost before: seq<LoadedRun>, lr: LoadedRun, keys: seq<Key>, groups: map<Key, seq<State>>)
    returns (keys': seq<Key>, groups': map<Key, seq<State>>)
    requires GroupsAre(before, keys, groups)
    ensures GroupsAre(before + [lr], keys', groups')
  {
    keys', groups' := keys, groups;
    RunAdded(before, lr, keys, groups);
    assert lr.states[..0] == [];
    for n := 0 to |lr.states|
      invariant GroupsAre(before + [Partly(lr, lr.states[..n])], keys', groups')
    {
      var st := lr.states[n];
      var k := Key(lr.runId, st.workUnitId);
      assert lr.states[..n + 1] == lr.states[..n] + [st];
      StateAdded(before, lr, lr.states[..n], st, keys', groups');
      keys', groups' := AddKey(keys', groups', k), AddToGroup(groups', k, st);
    }
    assert Partly(lr, lr.states[..|lr.states|]) == lr;
  }

  method CanonicalGroups(runs: seq<LoadedRun>) returns (keys: seq<Key>, groups: map<Key, seq<State>>)
    requires Dated(runs)
    ensures keys == UnitKeys(runs)
    ensures forall k :: k in keys <==> k in groups
    ensures forall k :: k in keys ==> groups[k] == Ordered(GroupStates(runs, k))
  {
    keys, groups := [], map[];
    for i := 0 to |runs|
      invariant GroupsAre(runs[..i], keys, groups)
    {
      assert runs[..i + 1] == runs[..i] + [runs[i]];
      keys, groups := GroupRun(runs[..i], runs[i], keys, groups);
    }
    assert runs[..|runs|] == runs;
    forall k ensures k in keys <==> k in groups { assert KeyGroupIs(runs, groups, k); }
    forall k | k in keys ensures groups[k] == GroupStates(runs, k) { assert KeyGroupIs(runs, groups, k); }
    groups := map k | k in groups :: Ordered(groups[k]);
  }

  predicate IsOpen(st: State) { st.status == L.STARTED || st.status == L.COMPLETED }

  method CanonicalWorkUnitStatus(worker: seq<State>) returns (status: WorkUnitStatus)
    ensures status == StatusOf(worker)
  {
    if |worker| == 0 { return Unknown; }
    var accepted := SomeOf(worker, WasAccepted);
    if accepted { return Accepted; }
    var rejected := SomeOf(worker, WasRejected);
    if rejected { return Rejected; }
    var reconciled := EveryOf(worker, WasReconciled);
    if reconciled { return Reconciled; }
    var open := SomeOf(worker, IsOpen);
    status := if open then Incomplete else Unknown;
  }

  method CanonicalFirstPassAccepted(worker: seq<State>) returns (first: Option<bool>)
    ensures first == FirstInOrder(Ordered(worker))
  {
    var os := Ordered(worker);
    if os == [] { return None; }
    if os[0].assessmentResult == Some(L.ACCEPTED) { return Some(true); }
    if os[0].assessmentResult == Some(L.REJECTED) { return Some(false); }
    first := None;
  }

  method CanonicalRepairAccepted(worker: seq<State>) returns (repaired: bool)
    ensures repaired <==> RepairInOrder(Ordered(worker))
  {
    var os := Ordered(worker);
    var rejectedSeen := false;
    for k := 0 to |os|
      invariant rejectedSeen <==> exists j :: 0 <= j < k && WasRejected(os[j])
      invariant forall i, j :: 0 <= i < j < k && WasRejected(os[i]) ==> !WasAccepted(os[j])
    {
      if os[k].assessmentResult == Some(L.REJECTED) { rejectedSeen := true; }
      if os[k].assessmentResult == Some(L.ACCEPTED) && rejectedSeen { return true; }
    }
    repaired := false;
  }

  /** The classes of some keys. */
  ghost predicate ClassesAre(keys: seq<Key>, groups: map<Key, seq<State>>, classes: map<Key, Class>) {
    forall k :: (k in classes <==> k in keys) && (k in classes && k in groups ==> classes[k] == ClassInOrder(groups[k]))
  }

  method ClassifyGroup(group: seq<State>) returns (c: Class)
    ensures c == ClassInOrder(group)
  {
    var worker := Filter(group, IsWorker);
    var status := CanonicalWorkUnitStatus(worker);
    var first := CanonicalFirstPassAccepted(worker);
    var repaired := CanonicalRepairAccepted(worker);
    StatusIgnoresOrder(Ordered(worker), worker) by { Sorting.SortKeeps(worker, StartLe); }
    c := Class(status, first, repaired);
  }

  method ClassifyGroups(keys: seq<Key>, groups: map<Key, seq<State>>) returns (classes: map<Key, Class>)
    requires forall k :: k in keys ==> k in groups
    ensures ClassesAre(keys, groups, classes)
  {
    classes := map[];
    for n := 0 to |keys|
      invariant ClassesAre(keys[..n], groups, classes)
    {
      assert keys[..n + 1] == keys[..n] + [keys[n]] && keys[n] in keys;
      var c := ClassifyGroup(groups[keys[n]]);
      classes := classes[keys[n] := c];
    }
    assert keys[..|keys|] == keys;
  }

  ghost predicate CanonicalClasses(runs: seq<LoadedRun>, classes: map<Key, Class>) {
    forall k :: (k in classes <==> k in UnitKeys(runs)) && (k in classes ==> classes[k] == CanonicalClass(runs, k))
  }

  method CanonicalWorkUnitClasses(runs: seq<LoadedRun>) returns (keys: seq<Key>, classes: map<Key, Class>)
    requires Dated(runs)
    ensures keys == UnitKeys(runs) && CanonicalClasses(runs, classes)
  {
    var groups;
    keys, groups := CanonicalGroups(runs);
    classes := ClassifyGroups(keys, groups);
  }

  function StatusIn(classes: map<Key, Class>): Key -> WorkUnitStatus {
    (k: Key) => if k in classes then classes[k].status else Unknown
  }

  /** The counters over the classes, bumped by name. */
  method CountClasses(keys: seq<Key>, classes: map<Key, Class>) returns (counts: Buckets)
    requires forall k :: k in keys ==> k in classes
    ensures counts == BucketsOf(|keys|, Sorting.Map(keys, StatusIn(classes)))
  {
    counts := NoneYet(|keys|);
    for n := 0 to |keys|
      invariant counts == BucketsOf(|keys|, Sorting.Map(keys[..n], StatusIn(classes)))
    {
      assert keys[..n + 1] == keys[..n] + [keys[n]] && keys[n] in keys;
      Sorting.MapSnoc(keys[..n], keys[n], StatusIn(classes));
      CountStep(|keys|, Sorting.Map(keys[..n], StatusIn(classes)), classes[keys[n]].status);
      counts := CountStatus(counts, classes[keys[n]].status);
    }
    assert keys[..|keys|] == keys;
  }

  lemma CountedIsCanonical(runs: seq<LoadedRun>, classes: map<Key, Class>)
    requires CanonicalClasses(runs, classes)
    ensures BucketsOf(|UnitKeys(runs)|, Sorting.Map(UnitKeys(runs), StatusIn(classes))) == CanonicalBuckets(runs)
  {
    var keys := UnitKeys(runs);
    forall k | k in keys ensures StatusIn(classes)(k) == StatusOfKey(runs)(k) {}
    Sorting.MapEqual(keys, StatusIn(classes), StatusOfKey(runs));
  }

  // ---------------------------------------------------------------------------
  // The report
  // ---------------------------------------------------------------------------

  method CheckFacts(ss: seq<State>, lines: seq<InvocationLine>) returns (ok: bool)
    ensures ok <==> forall l :: l in lines ==> LastWith(ss, InvocationKey(l)).Some? && FactsAgree(LastWith(ss, InvocationKey(l)).value, l)
  {
    var facts := IndexStates(ss);
    for n := 0 to |lines|
      invariant forall l :: l in lines[..n] ==> LastWith(ss, InvocationKey(l)).Some? && FactsAgree(LastWith(ss, InvocationKey(l)).value, l)
    {
      var l := lines[n];
      assert lines[..n + 1] == lines[..n] + [l] && l in lines;
      var k := InvocationKey(l);
      assert LastWith(ss, k) == if k in facts then Some(facts[k]) else None;
      if k !in facts { return false; }
      if !FactsAgree(facts[k], l) { return false; }
    }
    assert lines[..|lines|] == lines;
    ok := true;
  }

  method CheckRoles(ss: seq<State>, lines: seq<ReviewLine>) returns (ok: bool)
    ensures ok <==> forall l :: l in lines ==> LastWith(ss, ReviewKey(l)).Some? && LastWith(ss, ReviewKey(l)).value.role == l.role
  {
    var reviews := IndexStates(ss);
    for n := 0 to |lines|
      invariant forall l :: l in lines[..n] ==> LastWith(ss, ReviewKey(l)).Some? && LastWith(ss, ReviewKey(l)).value.role == l.role
    {
      var l := lines[n];
      assert lines[..n + 1] == lines[..n] + [l] && l in lines;
      var k := ReviewKey(l);
      assert LastWith(ss, k) == if k in reviews then Some(reviews[k]) else None;
      if k !in reviews { return false; }
      if reviews[k].role != l.role { return false; }
    }
    assert lines[..|lines|] == lines;
    ok := true;
  }

  method IndexStates(ss: seq<State>) returns (byKey: map<Key, State>)
    ensures forall k :: LastWith(ss, k) == if k in byKey then Some(byKey[k]) else None
  {
    byKey := map[];
    for n := 0 to |ss|
      invariant forall k :: LastWith(ss[..n], k) == if k in byKey then Some(byKey[k]) else None
    {
      assert ss[..n + 1][..n] == ss[..n];
      byKey := byKey[KeyOf(ss[n]) := ss[n]];
    }
    assert ss[..|ss|] == ss;
  }

  /** The classes that the lines carry, one for each work unit. */
  ghost predicate LineClasses(lines: seq<WorkUnitLine>, classes: map<Key, Class>) {
    forall k :: LineClassIs(FirstLine(lines, k), classes, k)
  }

  ghost predicate LineClassIs(line: Option<WorkUnitLine>, classes: map<Key, Class>, k: Key) {
    (k in classes <==> line.Some?) && (k in classes ==> HasClass(line, classes[k]))
  }

  function AddLine(classes: map<Key, Class>, l: WorkUnitLine): map<Key, Class> {
    if UnitKey(l) in classes then classes else classes[UnitKey(l) := LineClass(l)]
  }

  lemma LineAdded(lines: seq<WorkUnitLine>, l: WorkUnitLine, classes: map<Key, Class>)
    requires LineClasses(lines, classes)
    ensures LineClasses(lines + [l], AddLine(classes, l))
  {
    assert LineClassIs(FirstLine(lines, UnitKey(l)), classes, UnitKey(l));
    forall k ensures LineClassIs(FirstLine(lines + [l], k), AddLine(classes, l), k) {
      assert LineClassIs(FirstLine(lines, k), classes, k);
      FirstLineSnoc(lines, l, k);
    }
  }

  lemma {:induction false} FirstLineSnoc(lines: seq<WorkUnitLine>, l: WorkUnitLine, k: Key)
    ensures FirstLine(lines + [l], k)
            == if FirstLine(lines, k).Some? then FirstLine(lines, k) else if UnitKey(l) == k then Some(l) else None
  {
    if lines != [] {
      assert (lines + [l])[1..] == lines[1..] + [l];
      FirstLineSnoc(lines[1..], l, k);
    }
  }

  method ProjectionClasses(lines: seq<WorkUnitLine>) returns (classes: map<Key, Class>)
    ensures LineClasses(lines, classes)
  {
    classes := map[];
    for n := 0 to |lines|
      invariant LineClasses(lines[..n], classes)
    {
      assert lines[..n + 1] == lines[..n] + [lines[n]];
      LineAdded(lines[..n], lines[n], classes);
      classes := AddLine(classes, lines[n]);
    }
    assert lines[..|lines|] == lines;
  }

  /** The classification of every canonical work unit against its first line. */
  method CheckClasses(ghost runs: seq<LoadedRun>, canonical: map<Key, Class>, lines: seq<WorkUnitLine>) returns (ok: bool)
    requires CanonicalClasses(runs, canonical)
    ensures ok <==> forall k :: k in UnitKeys(runs) ==> HasClass(FirstLine(lines, k), CanonicalClass(runs, k))
  {
    var actual := ProjectionClasses(lines);
    ok := forall k :: k in canonical ==> k in actual && actual[k] == canonical[k];
    forall k ensures LineClassIs(FirstLine(lines, k), actual, k) {}
  }

  predicate IsCount(c: Check) {
    c in {StartCount, CompletionCount, AssessmentCount, ReconciliationCount, AssessedStates, RejectedStates, RejectionMetric,
          ReconciledStates, StartIdentities, EventTotal}
  }

  /** A check on identities, facts or classes; `keys` and `canonical` are the canonical work units and their classes. */
  method IdentityCheck(c: Check, runs: seq<LoadedRun>, keys: seq<Key>, canonical: map<Key, Class>, ps: ProjectionSet, m: MetricSet)
    returns (ok: bool)
    requires !IsCount(c) && keys == UnitKeys(runs) && CanonicalClasses(runs, canonical)
    ensures ok <==> Holds(c, runs, ps, m)
  {
    var ss := AllStates(runs);
    match c
    case InvocationFacts => ok := CheckFacts(ss, ps.invocations);
    case ReviewRoles => ok := CheckRoles(Filter(ss, IsReview), ps.reviews);
    case UnitClasses => ok := CheckClasses(runs, canonical, ps.workUnits);
    case OutcomeBuckets =>
      var expected := CountClasses(keys, canonical);
      CountedIsCanonical(runs, canonical);
      ok := SameCounters(expected, m.workUnits);
    case _ =>
      var expected, actual := IdentitiesOf(c, runs, keys, ps);
      var d := MultisetDiff(expected, actual);
      ok := d.ok;
  }

  /** The identities that an identity check compares. */
  method IdentitiesOf(c: Check, runs: seq<LoadedRun>, keys: seq<Key>, ps: ProjectionSet) returns (expected: seq<Key>, actual: seq<Key>)
    requires c in {InvocationIdentities, UsageIdentities, ReviewIdentities, UnitIdentities} && keys == UnitKeys(runs)
    ensures forall m :: Holds(c, runs, ps, m) <==> multiset(expected) == multiset(actual)
  {
    var ss := AllStates(runs);
    if c == InvocationIdentities {
      expected, actual := Sorting.Map(ss, KeyOf), Sorting.Map(ps.invocations, InvocationKey);
    } else if c == UsageIdentities {
      expected, actual := Sorting.Map(ss, KeyOf), Sorting.Map(ps.usage, UsageKey);
    } else if c == ReviewIdentities {
      expected, actual := Sorting.Map(Filter(ss, IsReview), KeyOf), Sorting.Map(ps.reviews, ReviewKey);
    } else {
      expected, actual := keys, Sorting.Map(ps.workUnits, UnitKey);
    }
  }

  /** A check on counts, from what one pass over runs and states counted. */
  predicate CountCheck(c: Check, t: Tallies, states: nat, rejectedLines: nat, m: MetricSet)
    requires IsCount(c)
  {
    match c
    case StartCount => t.starts == t.stateStarts
    case CompletionCount => t.completions == t.stateCompletions
    case AssessmentCount => t.assessments == t.stateAssessments
    case ReconciliationCount => t.reconciliations == t.stateReconciliations
    case AssessedStates => t.assessments == t.assessed
    case RejectedStates => t.rejected == rejectedLines
    case RejectionMetric => rejectedLines == m.rejections.total
    case ReconciledStates => t.reconciliations == t.reconciled
    case StartIdentities => t.starts == states
    case EventTotal => t.events == t.starts + t.completions + t.assessments + t.reconciliations
  }

  lemma CountCheckHolds(c: Check, t: Tallies, runs: seq<LoadedRun>, ps: ProjectionSet, m: MetricSet)
    requires IsCount(c) && Counted(t, runs) && CountedStates(t, AllStates(runs))
    ensures CountCheck(c, t, |AllStates(runs)|, |Filter(ps.invocations, LineRejected)|, m) <==> Holds(c, runs, ps, m)
  {}

  /** All eighteen checks; `ok` is that none failed. */
  method BuildReconciliation(runs: seq<LoadedRun>, ps: ProjectionSet, m: MetricSet) returns (r: Report)
    requires Dated(runs)
    ensures forall c :: c in r.failed <==> !Holds(c, runs, ps, m)
    ensures r.ok <==> AllHold(runs, ps, m)
  {
    var t := TallyRuns(runs);
    var keys, canonical := CanonicalWorkUnitClasses(runs);
    var states, rejectedLines := |AllStates(runs)|, |Filter(ps.invocations, LineRejected)|;
    var failed := [];
    for n := 0 to |CHECKS|
      invariant forall c :: c in failed <==> c in CHECKS[..n] && !Holds(c, runs, ps, m)
    {
      var c := CHECKS[n];
      assert CHECKS[..n + 1] == CHECKS[..n] + [c];
      var ok;
      if IsCount(c) {
        CountCheckHolds(c, t, runs, ps, m);
        ok := CountCheck(c, t, states, rejectedLines, m);
      } else {
        ok := IdentityCheck(c, runs, keys, canonical, ps, m);
      }
      if !ok { failed := failed + [c]; }
    }
    assert CHECKS[..|CHECKS|] == CHECKS;
    forall c ensures c in CHECKS { EveryCheck(c); }
    r := Report(failed == [], failed);
    if failed != [] { assert failed[0] in failed; }
  }

  ghost predicate AllHold(runs: seq<LoadedRun>, ps: ProjectionSet, m: MetricSet) { forall c :: Holds(c, runs, ps, m) }

  function Number(c: Check): (n: nat)
    ensures n < |CHECKS| && CHECKS[n] == c
  {
    match c
    case InvocationIdentities => 0
    case InvocationFacts => 1
    case UsageIdentities => 2
    case ReviewIdentities => 3
    case ReviewRoles => 4
    case UnitIdentities => 5
    case UnitClasses => 6
    case OutcomeBuckets => 7
    case StartCount => 8
    case CompletionCount => 9
    case AssessmentCount => 10
    case ReconciliationCount => 11
    case AssessedStates => 12
    case RejectedStates => 13
    case RejectionMetric => 14
    case ReconciledStates => 15
    case StartIdentities => 16
    case EventTotal => 17
  }

  lemma EveryCheck(c: Check)
    ensures c in CHECKS
  {
    assert CHECKS[Number(c)] == c;
  }
}
