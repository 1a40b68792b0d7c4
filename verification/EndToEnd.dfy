/**
 End to end: for runs of the documented lifecycle with distinct identities, the projections and the
 metrics always reconcile; and whatever reconciles carries the canonical facts, once each.
 */
module EndToEnd {
  import opened Options
  import opened Lists
  import opened Texts
  import opened AuditRuns
  import opened Projections
  import opened ProjectionBuild
  import opened Metrics
  import opened Reconcile
  import L = Ledger
  import Sorting

  predicate DistinctRunIds(runs: seq<LoadedRun>) { forall i, j :: 0 <= i < j < |runs| ==> runs[i].runId != runs[j].runId }

  /** What loading guarantees: every state is its run's own, under its own identity. */
  predicate OwnStates(lr: LoadedRun) { DistinctIds(lr.states) && forall st :: st in lr.states ==> st.runId == lr.runId }

  predicate WellLoaded(runs: seq<LoadedRun>) { DistinctRunIds(runs) && forall lr :: lr in runs ==> OwnStates(lr) }

  ghost predicate AllDerived(runs: seq<LoadedRun>) { forall lr :: lr in runs ==> Derived(lr) }

  lemma DerivedIsWellLoaded(runs: seq<LoadedRun>)
    requires AllDerived(runs) && DistinctRunIds(runs)
    ensures WellLoaded(runs)
  {
    forall lr | lr in runs ensures OwnStates(lr) { StatesAgree(lr); }
  }

  // ---------------------------------------------------------------------------
  // Lines are rearranged states
  // ---------------------------------------------------------------------------

  lemma {:induction false} MapConcat<A, B>(s: seq<A>, t: seq<A>, f: A -> B)
    ensures Sorting.Map(s + t, f) == Sorting.Map(s, f) + Sorting.Map(t, f)
  {}

  lemma Without<A>(t: seq<A>, i: nat)
    requires i < |t|
    ensures multiset(t[..i] + t[i + 1..]) == multiset(t) - multiset{t[i]}
  {
    assert t == t[..i] + [t[i]] + t[i + 1..];
  }

  lemma MapWithout<A, B>(t: seq<A>, i: nat, f: A -> B)
    requires i < |t|
    ensures multiset(Sorting.Map(t, f)) == multiset(Sorting.Map(t[..i] + t[i + 1..], f)) + multiset{f(t[i])}
  {
    assert Sorting.Map(t[..i] + t[i + 1..], f) == Sorting.Map(t, f)[..i] + Sorting.Map(t, f)[i + 1..];
    Without(Sorting.Map(t, f), i);
  }

  /** Mapping a rearrangement gives a rearrangement. */
  lemma {:induction false} MapPermuted<A, B>(s: seq<A>, t: seq<A>, f: A -> B)
    requires multiset(s) == multiset(t)
    ensures multiset(Sorting.Map(s, f)) == multiset(Sorting.Map(t, f))
    decreases |s|
  {
    if s == [] {
      assert |multiset(t)| == |t|;
    } else {
      assert s[0] in multiset(t);
      var i: nat :| i < |t| && t[i] == s[0];
      var u, v := s[..0] + s[1..], t[..i] + t[i + 1..];
      Without(s, 0);
      Without(t, i);
      MapPermuted(u, v, f);
      MapWithout(s, 0, f);
      MapWithout(t, i, f);
    }
  }

  /** Lines made per run by a rearrangement have, all together, the images of the parts. */
  ghost predicate MadeFrom<T>(lines: seq<T>, key: T -> Key, states: seq<State>) {
    multiset(Sorting.Map(lines, key)) == multiset(Sorting.Map(states, KeyOf))
  }

  lemma {:induction false} FlatMadeFrom<T>(runs: seq<LoadedRun>, perRun: LoadedRun -> seq<T>, key: T -> Key, part: LoadedRun -> seq<State>)
    requires forall lr :: lr in runs ==> MadeFrom(perRun(lr), key, part(lr))
    ensures MadeFrom(FlatMap(runs, perRun), key, FlatMap(runs, part))
  {
    if runs != [] {
      var init, lr := runs[..|runs| - 1], runs[|runs| - 1];
      assert runs == init + [lr];
      FlatMadeFrom(init, perRun, key, part);
      MapConcat(FlatMap(init, perRun), perRun(lr), key);
      MapConcat(FlatMap(init, part), part(lr), KeyOf);
    }
  }

  lemma SortedMadeFrom<T>(lines: seq<T>, le: (T, T) -> bool, key: T -> Key, states: seq<State>)
    requires MadeFrom(lines, key, states)
    ensures MadeFrom(Sorting.Sort(lines, le), key, states)
  {
    Sorting.SortKeeps(lines, le);
    MapPermuted(Sorting.Sort(lines, le), lines, key);
  }

  /** A record made from each state of a rearrangement keeps the keys. */
  lemma RecordsMadeFrom<T>(ordered: seq<State>, states: seq<State>, record: State -> T, key: T -> Key)
    requires multiset(ordered) == multiset(states) && forall st :: key(record(st)) == KeyOf(st)
    ensures MadeFrom(Sorting.Map(ordered, record), key, states)
  {
    assert Sorting.Map(Sorting.Map(ordered, record), key) == Sorting.Map(ordered, KeyOf);
    MapPermuted(ordered, states, KeyOf);
  }

  lemma IdentitiesReconcile(runs: seq<LoadedRun>, m: MetricSet)
    ensures Holds(InvocationIdentities, runs, ProjectionsOf(runs), m) && Holds(UsageIdentities, runs, ProjectionsOf(runs), m)
  {
    forall lr | lr in runs ensures MadeFrom(RunInvocations(lr), InvocationKey, StatesOf(lr)) && MadeFrom(RunUsage(lr), UsageKey, StatesOf(lr)) {
      Sorting.SortKeeps(lr.states, StartLe);
      RecordsMadeFrom(Ordered(lr.states), lr.states, InvocationRecord, InvocationKey);
      RecordsMadeFrom(Ordered(lr.states), lr.states, UsageRecord, UsageKey);
    }
    FlatMadeFrom(runs, RunInvocations, InvocationKey, StatesOf);
    FlatMadeFrom(runs, RunUsage, UsageKey, StatesOf);
    SortedMadeFrom(FlatMap(runs, RunInvocations), InvocationLineLe, InvocationKey, AllStates(runs));
    SortedMadeFrom(FlatMap(runs, RunUsage), UsageLineLe, UsageKey, AllStates(runs));
  }

  function ReviewsIn(lr: LoadedRun): seq<State> { Filter(lr.states, IsReview) }

  lemma {:induction false} FlatReviews(runs: seq<LoadedRun>)
    ensures FlatMap(runs, ReviewsIn) == Filter(AllStates(runs), IsReview)
  {
    if runs != [] {
      FlatReviews(runs[..|runs| - 1]);
      FilterConcat(AllStates(runs[..|runs| - 1]), runs[|runs| - 1].states, IsReview);
    }
  }

  lemma ReviewsReconcile(runs: seq<LoadedRun>, m: MetricSet)
    ensures Holds(ReviewIdentities, runs, ProjectionsOf(runs), m)
  {
    ReviewKeysAre(runs);
  }

  lemma ReviewKeysAre(runs: seq<LoadedRun>)
    ensures multiset(Sorting.Map(Filter(AllStates(runs), IsReview), KeyOf)) == multiset(Sorting.Map(ReviewLines(runs), ReviewKey))
  {
    forall lr | lr in runs ensures MadeFrom(RunReviews(lr), ReviewKey, ReviewsIn(lr)) {
      Sorting.SortKeeps(ReviewsIn(lr), StartLe);
      RecordsMadeFrom(Ordered(ReviewsIn(lr)), ReviewsIn(lr), ReviewRecord, ReviewKey);
    }
    FlatMadeFrom(runs, RunReviews, ReviewKey, ReviewsIn);
    FlatReviews(runs);
    SortedMadeFrom(FlatMap(runs, RunReviews), ReviewLineLe, ReviewKey, Filter(AllStates(runs), IsReview));
  }

  // ---------------------------------------------------------------------------
  // Facts
  // ---------------------------------------------------------------------------

  /** Among well-loaded runs a state is determined by its key. */
  lemma KeysAreDistinct(runs: seq<LoadedRun>, st: State, other: State)
    requires WellLoaded(runs) && st in AllStates(runs) && other in AllStates(runs) && KeyOf(st) == KeyOf(other)
    ensures st == other
  {
    InFlatMap(runs, StatesOf, st);
    InFlatMap(runs, StatesOf, other);
    var a :| a in runs && st in StatesOf(a);
    var b :| b in runs && other in StatesOf(b);
    assert OwnStates(a) && OwnStates(b);
    SameRun(runs, a, b);
    OncePerId(a.states, st);
  }

  lemma SameRun(runs: seq<LoadedRun>, a: LoadedRun, b: LoadedRun)
    requires DistinctRunIds(runs) && a in runs && b in runs && a.runId == b.runId
    ensures a == b
  {
    var i: nat :| i < |runs| && runs[i] == a;
    var j: nat :| j < |runs| && runs[j] == b;
  }

  /** Every line of a projection is the record of some canonical state. */
  lemma LinesAreRecords<T>(runs: seq<LoadedRun>, perRun: LoadedRun -> seq<T>, le: (T, T) -> bool, record: State -> T, part: LoadedRun -> seq<State>, l: T)
    requires forall lr :: lr in runs ==> perRun(lr) == Sorting.Map(Ordered(part(lr)), record)
    requires l in Sorting.Sort(FlatMap(runs, perRun), le)
    ensures exists st :: st in FlatMap(runs, part) && l == record(st)
  {
    Sorting.SortKeeps(FlatMap(runs, perRun), le);
    assert l in multiset(Sorting.Sort(FlatMap(runs, perRun), le));
    InFlatMap(runs, perRun, l);
    var lr :| lr in runs && l in perRun(lr);
    var os := Ordered(part(lr));
    var i: nat :| i < |perRun(lr)| && perRun(lr)[i] == l;
    Sorting.SortKeeps(part(lr), StartLe);
    assert os[i] in multiset(os);
    InFlatMap(runs, part, os[i]);
    assert os[i] in FlatMap(runs, part) && l == record(os[i]);
  }

  lemma FactsReconcile(runs: seq<LoadedRun>, m: MetricSet)
    requires WellLoaded(runs)
    ensures Holds(InvocationFacts, runs, ProjectionsOf(runs), m)
  {
    var ss := AllStates(runs);
    forall l | l in InvocationLines(runs)
      ensures LastWith(ss, InvocationKey(l)).Some? && FactsAgree(LastWith(ss, InvocationKey(l)).value, l)
    {
      LinesAreRecords(runs, RunInvocations, InvocationLineLe, InvocationRecord, StatesOf, l);
      var st :| st in ss && l == InvocationRecord(st);
      assert KeyOf(st) == InvocationKey(l);
      KeysAreDistinct(runs, st, LastWith(ss, InvocationKey(l)).value);
    }
  }

  lemma RolesReconcile(runs: seq<LoadedRun>, m: MetricSet)
    requires WellLoaded(runs)
    ensures Holds(ReviewRoles, runs, ProjectionsOf(runs), m)
  {
    var rs := Filter(AllStates(runs), IsReview);
    FlatReviews(runs);
    forall l | l in ReviewLines(runs) ensures LastWith(rs, ReviewKey(l)).Some? && LastWith(rs, ReviewKey(l)).value.role == l.role {
      LinesAreRecords(runs, RunReviews, ReviewLineLe, ReviewRecord, ReviewsIn, l);
      var st :| st in rs && l == ReviewRecord(st);
      assert KeyOf(st) == ReviewKey(l);
      KeysAreDistinct(runs, st, LastWith(rs, ReviewKey(l)).value);
    }
  }

  // ---------------------------------------------------------------------------
  // What the lines say
  // ---------------------------------------------------------------------------

  /** A usage line states its call: identity, status, verdict, usage, waste and category. */
  ghost predicate UsageStates(l: UsageLine, st: State) {
    && l.runId == st.runId && l.invocationId == st.invocationId && l.workUnitId == st.workUnitId
    && l.role == st.role && l.status == st.status && l.assessmentResult == st.assessmentResult && l.rejectionCode == st.rejectionCode
    && l.usage == st.usage
    && (l.rejectedWaste <==> st.assessmentResult == Some(L.REJECTED))
    && (l.wasteTokens.Some? <==> st.assessmentResult == Some(L.REJECTED) && st.usage.Some?)
    && (l.wasteTokens.Some? ==> l.wasteTokens.value == st.usage.value.totalTokens)
    && (l.nonAcceptedCategory == None <==> st.assessmentResult == Some(L.ACCEPTED))
    && (l.nonAcceptedCategory == Some(REJECTED_CALL) <==> st.assessmentResult == Some(L.REJECTED))
    && (l.nonAcceptedCategory == Some(ORPHANED_CALL) <==>
          st.assessmentResult.None? && (st.status == L.ORPHANED || st.status == L.SUPERSEDED))
    && (l.nonAcceptedCategory == Some(FAILED_UNASSESSED) <==>
          && st.assessmentResult.None? && st.status != L.ORPHANED && st.status != L.SUPERSEDED
          && st.outcome.Some? && st.outcome.value != L.SUCCESS)
  }

  /** A review line states its call. */
  ghost predicate ReviewStates(l: ReviewLine, st: State) {
    && l.runId == st.runId && l.reviewInvocationId == st.invocationId && l.workUnitId == st.workUnitId
    && l.role == st.role && l.status == st.status && l.outcome == st.outcome && l.assessmentResult == st.assessmentResult
    && l.rejectionCode == st.rejectionCode && l.startedAt == st.startedAt
  }

  /** An invocation line states its call. */
  ghost predicate InvocationStates(l: InvocationLine, st: State) {
    && l.runId == st.runId && l.invocationId == st.invocationId && l.workUnitId == st.workUnitId
    && l.role == st.role && l.status == st.status && l.outcome == st.outcome && l.usage == st.usage
    && l.assessmentResult == st.assessmentResult && l.rejectionCode == st.rejectionCode && l.startedAt == st.startedAt
  }

  /** The projected lines of a call, whatever their place, state that call; it has a review line exactly when it is a SOL call. */
  lemma LinesStateTheirCalls(runs: seq<LoadedRun>, st: State)
    requires WellLoaded(runs) && st in AllStates(runs)
    ensures forall l :: l in InvocationLines(runs) && InvocationKey(l) == KeyOf(st) ==> InvocationStates(l, st)
    ensures forall l :: l in UsageLines(runs) && UsageKey(l) == KeyOf(st) ==> UsageStates(l, st)
    ensures forall l :: l in ReviewLines(runs) && ReviewKey(l) == KeyOf(st) ==> ReviewStates(l, st)
    ensures (exists l :: l in ReviewLines(runs) && ReviewKey(l) == KeyOf(st)) <==> st.role in {L.SOL, L.SOL_PRO}
  {
    forall l | l in InvocationLines(runs) && InvocationKey(l) == KeyOf(st) ensures InvocationStates(l, st) {
      LinesAreRecords(runs, RunInvocations, InvocationLineLe, InvocationRecord, StatesOf, l);
      var from :| from in AllStates(runs) && l == InvocationRecord(from);
      KeysAreDistinct(runs, st, from);
    }
    forall l | l in UsageLines(runs) && UsageKey(l) == KeyOf(st) ensures UsageStates(l, st) {
      LinesAreRecords(runs, RunUsage, UsageLineLe, UsageRecord, StatesOf, l);
      var from :| from in AllStates(runs) && l == UsageRecord(from);
      KeysAreDistinct(runs, st, from);
      RecordStates(st);
    }
    ReviewLinesState(runs, st);
    if st.role in {L.SOL, L.SOL_PRO} { ReviewIsListed(runs, st); }
  }

  lemma ReviewIsListed(runs: seq<LoadedRun>, st: State)
    requires st in AllStates(runs) && st.role in {L.SOL, L.SOL_PRO}
    ensures exists l :: l in ReviewLines(runs) && ReviewKey(l) == KeyOf(st)
  {
    ReviewKeysAre(runs);
    var rs, ls := Filter(AllStates(runs), IsReview), ReviewLines(runs);
    assert st in rs;
    var i: nat :| i < |rs| && rs[i] == st;
    assert Sorting.Map(rs, KeyOf)[i] == KeyOf(st);
    assert KeyOf(st) in multiset(Sorting.Map(ls, ReviewKey));
    var j: nat :| j < |Sorting.Map(ls, ReviewKey)| && Sorting.Map(ls, ReviewKey)[j] == KeyOf(st);
    assert ls[j] in ls;
  }

  lemma ReviewLinesState(runs: seq<LoadedRun>, st: State)
    requires WellLoaded(runs) && st in AllStates(runs)
    ensures forall l :: l in ReviewLines(runs) && ReviewKey(l) == KeyOf(st) ==> ReviewStates(l, st) && st.role in {L.SOL, L.SOL_PRO}
  {
    FlatReviews(runs);
    forall l | l in ReviewLines(runs) && ReviewKey(l) == KeyOf(st) ensures ReviewStates(l, st) && st.role in {L.SOL, L.SOL_PRO} {
      LinesAreRecords(runs, RunReviews, ReviewLineLe, ReviewRecord, ReviewsIn, l);
      var from :| from in FlatMap(runs, ReviewsIn) && l == ReviewRecord(from);
      KeysAreDistinct(runs, st, from);
    }
  }

  lemma RecordStates(st: State)
    ensures UsageStates(UsageRecord(st), st)
  {
    if st.assessmentResult.Some? { assert st.assessmentResult.value == L.ACCEPTED || st.assessmentResult.value == L.REJECTED; }
    if st.outcome.Some? { assert FailedOutcome(st.outcome.value) <==> st.outcome.value != L.SUCCESS by { Outcomes(st.outcome.value); } }
  }

  lemma Outcomes(o: L.Outcome)
    ensures o == L.SUCCESS || o in {L.FAILURE, L.TIMEOUT, L.TRANSPORT_ERROR, L.CANCELED}
  {}

  // ---------------------------------------------------------------------------
  // Work units
  // ---------------------------------------------------------------------------

  /** A run has a state of this work unit. */
  predicate HasUnit(runs: seq<LoadedRun>, k: Key) {
    exists lr :: lr in runs && lr.runId == k.runId && k.id in UnitIds(lr.states)
  }

  lemma UnitKeysAre(runs: seq<LoadedRun>, k: Key)
    ensures k in UnitKeys(runs) <==> HasUnit(runs, k)
  {
    InFlatMap(runs, RunUnitKeys, k);
    if HasUnit(runs, k) {
      var lr :| lr in runs && lr.runId == k.runId && k.id in UnitIds(lr.states);
      var i: nat :| i < |lr.states| && UnitIds(lr.states)[i] == k.id;
      assert RunUnitKeys(lr)[i] == k;
    }
    if k in FlatMap(runs, RunUnitKeys) {
      var lr :| lr in runs && k in RunUnitKeys(lr);
      var i: nat :| i < |lr.states| && RunUnitKeys(lr)[i] == k;
      assert UnitIds(lr.states)[i] == k.id;
    }
  }

  function RunLineKeys(lr: LoadedRun): seq<Key> { Sorting.Map(RunWorkUnits(lr), UnitKey) }

  lemma {:induction false} LineKeysAre(runs: seq<LoadedRun>)
    ensures Sorting.Map(WorkUnitLines(runs), UnitKey) == FlatMap(runs, RunLineKeys)
  {
    if runs != [] {
      LineKeysAre(runs[..|runs| - 1]);
      MapConcat(WorkUnitLines(runs[..|runs| - 1]), RunWorkUnits(runs[|runs| - 1]), UnitKey);
    }
  }

  /** The units of a run are its states' work units, once each. */
  lemma UnitsAre(ss: seq<State>)
    ensures forall u :: u in Units(ss) <==> u in UnitIds(ss)
    ensures forall i, j :: 0 <= i < j < |Units(ss)| ==> Units(ss)[i] != Units(ss)[j]
  {
    var seen := FirstSeen(UnitIds(ss));
    Sorting.SortKeeps(seen, StringLe);
    forall u ensures u in Units(ss) <==> u in seen { assert u in multiset(Units(ss)) <==> u in multiset(seen); }
    forall i, j | 0 <= i < j < |Units(ss)| ensures Units(ss)[i] != Units(ss)[j] {
      if Units(ss)[i] == Units(ss)[j] {
        OnceEach(seen, Units(ss)[i]);
        Twice(Units(ss), i, j);
      }
    }
  }

  lemma KeyOfUnitLine(lr: LoadedRun, u: Id)
    ensures UnitKey(UnitLine(lr, u)) == Key(lr.runId, u)
  {}

  lemma RunLineKeysAre(lr: LoadedRun, k: Key)
    ensures k in RunLineKeys(lr) <==> k.runId == lr.runId && k.id in UnitIds(lr.states)
    ensures forall i, j :: 0 <= i < j < |RunLineKeys(lr)| ==> RunLineKeys(lr)[i] != RunLineKeys(lr)[j]
  {
    UnitsAre(lr.states);
    forall i | 0 <= i < |RunLineKeys(lr)| ensures RunLineKeys(lr)[i] == Key(lr.runId, Units(lr.states)[i]) {
      KeyOfUnitLine(lr, Units(lr.states)[i]);
    }
    if k.runId == lr.runId && k.id in Units(lr.states) {
      var i: nat :| i < |Units(lr.states)| && Units(lr.states)[i] == k.id;
      assert RunLineKeys(lr)[i] == k;
    }
  }

  predicate RunHasUnit(lr: LoadedRun, k: Key) { lr.runId == k.runId && k.id in UnitIds(lr.states) }

  lemma RunLineKeysOnce(lr: LoadedRun, k: Key)
    ensures multiset(RunLineKeys(lr))[k] == if RunHasUnit(lr, k) then 1 else 0
  {
    RunLineKeysAre(lr, k);
    OnceEach(RunLineKeys(lr), k);
  }

  lemma HasUnitSnoc(init: seq<LoadedRun>, lr: LoadedRun, k: Key)
    requires DistinctRunIds(init + [lr])
    ensures HasUnit(init + [lr], k) <==> HasUnit(init, k) || RunHasUnit(lr, k)
    ensures !(HasUnit(init, k) && RunHasUnit(lr, k))
  {
    var runs := init + [lr];
    assert runs[|init|] == lr;
    forall a | a in init ensures a in runs && a.runId != lr.runId {
      var i: nat :| i < |init| && init[i] == a;
      assert runs[i] == a;
    }
    assert lr in runs;
  }

  lemma DistinctInit(runs: seq<LoadedRun>)
    requires DistinctRunIds(runs) && runs != []
    ensures DistinctRunIds(runs[..|runs| - 1]) && runs == runs[..|runs| - 1] + [runs[|runs| - 1]]
  {}

  /** Each work unit of the runs is the key of exactly one line. */
  lemma {:induction false} LineKeysOnce(runs: seq<LoadedRun>, k: Key)
    requires DistinctRunIds(runs)
    ensures multiset(FlatMap(runs, RunLineKeys))[k] == if HasUnit(runs, k) then 1 else 0
  {
    if runs != [] {
      var init, lr := runs[..|runs| - 1], runs[|runs| - 1];
      DistinctInit(runs);
      LineKeysOnce(init, k);
      RunLineKeysOnce(lr, k);
      HasUnitSnoc(init, lr, k);
      FlatMapSnoc(init, lr, RunLineKeys);
    }
  }

  lemma UnitsReconcile(runs: seq<LoadedRun>, m: MetricSet)
    requires DistinctRunIds(runs)
    ensures Holds(UnitIdentities, runs, ProjectionsOf(runs), m)
  {
    LineKeysAre(runs);
    forall k ensures multiset(UnitKeys(runs))[k] == multiset(FlatMap(runs, RunLineKeys))[k] {
      OnceEach(UnitKeys(runs), k);
      UnitKeysAre(runs, k);
      LineKeysOnce(runs, k);
    }
  }

  /** With distinct run ids a canonical group is the group of its one run. */
  lemma {:induction false} GroupOfOneRun(runs: seq<LoadedRun>, lr: LoadedRun, k: Key)
    requires DistinctRunIds(runs) && lr in runs && lr.runId == k.runId
    ensures GroupStates(runs, k) == Filter(lr.states, OfUnit(k.id))
  {
    var n := |runs| - 1;
    var init := runs[..n];
    assert runs == init + [runs[n]];
    if runs[n] == lr {
      forall a | a in init ensures a.runId != k.runId {
        var i: nat :| i < n && init[i] == a;
        assert runs[i] == a;
      }
      NoGroup(init, k);
    } else {
      assert lr in init;
      assert runs[n].runId != k.runId by {
        var i: nat :| i < n && init[i] == lr;
        assert runs[i] == lr;
      }
      GroupOfOneRun(init, lr, k);
    }
  }

  lemma {:induction false} NoGroup(runs: seq<LoadedRun>, k: Key)
    requires forall a :: a in runs ==> a.runId != k.runId
    ensures GroupStates(runs, k) == []
  {
    if runs != [] { NoGroup(runs[..|runs| - 1], k); }
  }

  /** A line of the work-unit projection has the class that its calls give by pairs. */
  lemma LineHasClass(runs: seq<LoadedRun>, l: WorkUnitLine)
    requires DistinctRunIds(runs) && l in WorkUnitLines(runs)
    ensures LineClass(l) == ClassOf(runs, UnitKey(l))
  {
    InFlatMap(runs, RunWorkUnits, l);
    var lr :| lr in runs && l in RunWorkUnits(lr);
    var i: nat :| i < |RunWorkUnits(lr)| && RunWorkUnits(lr)[i] == l;
    GroupOfOneRun(runs, lr, UnitKey(l));
  }

  lemma GroupIsDistinct(runs: seq<LoadedRun>, k: Key)
    requires WellLoaded(runs)
    ensures DistinctIds(GroupStates(runs, k))
  {
    if lr :| lr in runs && lr.runId == k.runId {
      assert OwnStates(lr);
      GroupOfOneRun(runs, lr, k);
      FilterDistinct(lr.states, OfUnit(k.id));
    } else {
      NoGroup(runs, k);
    }
  }

  /** The projection's code and the canonical code, each written on its own, agree on every line. */
  lemma LineHasCanonicalClass(runs: seq<LoadedRun>, l: WorkUnitLine)
    requires WellLoaded(runs) && l in WorkUnitLines(runs)
    ensures LineClass(l) == CanonicalClass(runs, UnitKey(l)) == ClassOf(runs, UnitKey(l))
  {
    LineHasClass(runs, l);
    GroupIsDistinct(runs, UnitKey(l));
    CanonicalClassIsByPairs(runs, UnitKey(l));
  }

  lemma ClassesReconcile(runs: seq<LoadedRun>, m: MetricSet)
    requires WellLoaded(runs)
    ensures Holds(UnitClasses, runs, ProjectionsOf(runs), m)
  {
    var lines := WorkUnitLines(runs);
    forall k | k in UnitKeys(runs) ensures HasClass(FirstLine(lines, k), CanonicalClass(runs, k)) {
      LineOfKey(runs, k);
      LineHasCanonicalClass(runs, FirstLine(lines, k).value);
    }
  }

  lemma LineOfKey(runs: seq<LoadedRun>, k: Key)
    requires k in UnitKeys(runs)
    ensures FirstLine(WorkUnitLines(runs), k).Some?
  {
    UnitKeysAre(runs, k);
    var lr :| lr in runs && lr.runId == k.runId && k.id in UnitIds(lr.states);
    UnitsAre(lr.states);
    var i: nat :| i < |Units(lr.states)| && Units(lr.states)[i] == k.id;
    var l := RunWorkUnits(lr)[i];
    InFlatMap(runs, RunWorkUnits, l);
    KeyOfUnitLine(lr, k.id);
    assert l in RunWorkUnits(lr);
  }

  // ---------------------------------------------------------------------------
  // Buckets
  // ---------------------------------------------------------------------------

  lemma MapTwice<A, B, C>(s: seq<A>, f: A -> B, g: B -> C, h: A -> C)
    requires forall x :: x in s ==> h(x) == g(f(x))
    ensures Sorting.Map(s, h) == Sorting.Map(Sorting.Map(s, f), g)
  {}

  lemma BucketsReconcile(runs: seq<LoadedRun>)
    requires WellLoaded(runs)
    ensures OutcomesOf(WorkUnitLines(runs)) == CanonicalBuckets(runs)
  {
    var lines, keys := WorkUnitLines(runs), UnitKeys(runs);
    var lineKeys := Sorting.Map(lines, UnitKey);
    assert multiset(keys) == multiset(lineKeys) by { UnitsReconcile(runs, MetricsOf([], [])); }
    forall l | l in lines ensures StatusOfLine(l) == StatusOfKey(runs)(UnitKey(l)) { LineHasCanonicalClass(runs, l); }
    MapTwice(lines, UnitKey, StatusOfKey(runs), StatusOfLine);
    MapPermuted(lineKeys, keys, StatusOfKey(runs));
    SameBuckets(|lines|, |keys|, Sorting.Map(lines, StatusOfLine), Sorting.Map(keys, StatusOfKey(runs))) by {
      assert |multiset(keys)| == |keys| && |multiset(lineKeys)| == |lines|;
    }
  }

  lemma SameBuckets(total: nat, total': nat, statuses: seq<WorkUnitStatus>, statuses': seq<WorkUnitStatus>)
    requires total == total' && multiset(statuses) == multiset(statuses')
    ensures BucketsOf(total, statuses) == BucketsOf(total', statuses')
  {}

  // ---------------------------------------------------------------------------
  // Counts
  // ---------------------------------------------------------------------------

  lemma {:induction false} SumStates(runs: seq<LoadedRun>, f: State -> nat, g: LoadedRun -> nat)
    requires forall lr :: lr in runs ==> g(lr) == Sum(lr.states, f)
    ensures SumRuns(runs, g) == Sum(AllStates(runs), f)
  {
    if runs != [] {
      var init, lr := runs[..|runs| - 1], runs[|runs| - 1];
      assert runs == init + [lr];
      SumStates(init, f, g);
      SumConcat(AllStates(init), lr.states, f);
    }
  }

  lemma LedgerReconciles(runs: seq<LoadedRun>, ps: ProjectionSet, m: MetricSet)
    requires AllDerived(runs)
    ensures Holds(StartCount, runs, ps, m) && Holds(CompletionCount, runs, ps, m) && Holds(AssessmentCount, runs, ps, m)
    ensures Holds(ReconciliationCount, runs, ps, m) && Holds(AssessedStates, runs, ps, m) && Holds(ReconciledStates, runs, ps, m)
  {
    forall lr | lr in runs
      ensures LedgerStarts(lr) == Sum(lr.states, Counter(L.START)) && LedgerCompletions(lr) == Sum(lr.states, Counter(L.COMPLETION))
      ensures LedgerAssessments(lr) == Sum(lr.states, Counter(L.ASSESSMENT)) == Sum(lr.states, IsAssessed)
      ensures LedgerReconciliations(lr) == Sum(lr.states, Counter(L.RECONCILIATION)) == Sum(lr.states, IsReconciled)
    {
      SummaryAgrees(lr);
    }
    SumStates(runs, Counter(L.START), LedgerStarts);
    SumStates(runs, Counter(L.COMPLETION), LedgerCompletions);
    SumStates(runs, Counter(L.ASSESSMENT), LedgerAssessments);
    SumStates(runs, Counter(L.RECONCILIATION), LedgerReconciliations);
    SumStates(runs, IsAssessed, LedgerAssessments);
    SumStates(runs, IsReconciled, LedgerReconciliations);
  }

  lemma StartsReconcile(runs: seq<LoadedRun>, ps: ProjectionSet, m: MetricSet)
    requires AllDerived(runs)
    ensures Holds(StartIdentities, runs, ps, m)
  {
    forall lr | lr in runs ensures LedgerStarts(lr) == Sum(lr.states, One) {
      SummaryAgrees(lr);
      SumOfOnes(lr.states);
    }
    SumStates(runs, One, LedgerStarts);
    SumOfOnes(AllStates(runs));
  }

  lemma {:induction false} EventsReconcile(runs: seq<LoadedRun>, ps: ProjectionSet, m: MetricSet)
    requires AllDerived(runs)
    ensures Holds(EventTotal, runs, ps, m)
  {
    if runs != [] {
      var init, lr := runs[..|runs| - 1], runs[|runs| - 1];
      assert runs == init + [lr] && lr in runs;
      EventsReconcile(init, ps, m);
      SummaryAgrees(lr);
    }
  }

  /** What a predicate on records counts as a sum over states. */
  ghost predicate Indicates<T(!new)>(f: State -> nat, record: State -> T, p: T -> bool) { forall st :: f(st) == if p(record(st)) then 1 else 0 }

  lemma {:induction false} RecordsCount<T(!new)>(ss: seq<State>, record: State -> T, p: T -> bool, f: State -> nat)
    requires Indicates(f, record, p)
    ensures |Filter(Sorting.Map(ss, record), p)| == Sum(ss, f)
  {
    if ss != [] {
      var init, st := ss[..|ss| - 1], ss[|ss| - 1];
      assert ss == init + [st];
      RecordsCount(init, record, p, f);
      Sorting.MapSnoc(init, st, record);
      FilterSnoc(Sorting.Map(init, record), record(st), p);
    }
  }

  ghost predicate RecordsOf<T(!new)>(perRun: LoadedRun -> seq<T>, record: State -> T) {
    forall lr :: perRun(lr) == Sorting.Map(Ordered(lr.states), record)
  }

  lemma {:induction false} LinesCount<T(!new)>(runs: seq<LoadedRun>, perRun: LoadedRun -> seq<T>, record: State -> T, p: T -> bool, f: State -> nat)
    requires RecordsOf(perRun, record) && Indicates(f, record, p)
    ensures |Filter(FlatMap(runs, perRun), p)| == Sum(AllStates(runs), f)
  {
    if runs != [] {
      var init, lr := runs[..|runs| - 1], runs[|runs| - 1];
      LinesCount(init, perRun, record, p, f);
      FilterConcat(FlatMap(init, perRun), perRun(lr), p);
      assert perRun(lr) == Sorting.Map(Ordered(lr.states), record);
      RecordsCount(Ordered(lr.states), record, p, f);
      Sorting.SortKeeps(lr.states, StartLe);
      SumForgetsOrder(Ordered(lr.states), lr.states, f);
      SumConcat(AllStates(init), lr.states, f);
    }
  }

  lemma SameCount<T(!new)>(s: seq<T>, t: seq<T>, p: T -> bool)
    requires multiset(s) == multiset(t)
    ensures |Filter(s, p)| == |Filter(t, p)|
  {
    forall x ensures multiset(Filter(s, p))[x] == multiset(Filter(t, p))[x] {
      FilterCounts(s, p, x);
      FilterCounts(t, p, x);
    }
    assert multiset(Filter(s, p)) == multiset(Filter(t, p));
    assert |multiset(Filter(s, p))| == |Filter(s, p)| && |multiset(Filter(t, p))| == |Filter(t, p)|;
  }

  /** Lines of a kind, counted over the sorted projection or over the states. */
  lemma SortedLinesCount<T(!new)>(runs: seq<LoadedRun>, perRun: LoadedRun -> seq<T>, record: State -> T, le: (T, T) -> bool, p: T -> bool, f: State -> nat)
    requires RecordsOf(perRun, record) && Indicates(f, record, p)
    ensures |Filter(Sorting.Sort(FlatMap(runs, perRun), le), p)| == Sum(AllStates(runs), f)
  {
    LinesCount(runs, perRun, record, p, f);
    Sorting.SortKeeps(FlatMap(runs, perRun), le);
    SameCount(Sorting.Sort(FlatMap(runs, perRun), le), FlatMap(runs, perRun), p);
  }

  lemma RejectionsReconcile(runs: seq<LoadedRun>, m: MetricSet)
    ensures Holds(RejectedStates, runs, ProjectionsOf(runs), m)
  {
    SortedLinesCount(runs, RunInvocations, InvocationRecord, InvocationLineLe, LineRejected, IsRejected);
  }

  function IsAccepted(st: State): nat { if WasAccepted(st) then 1 else 0 }

  lemma UsageIsSound(runs: seq<LoadedRun>)
    ensures forall l :: l in UsageLines(runs) ==> WasteIsRejection(l)
    ensures |UsageLines(runs)| == |AllStates(runs)|
  {
    var us := UsageLines(runs);
    forall l | l in us ensures WasteIsRejection(l) {
      LinesAreRecords(runs, RunUsage, UsageLineLe, UsageRecord, StatesOf, l);
    }
    IdentitiesReconcile(runs, MetricsOf([], []));
    assert |multiset(Sorting.Map(us, UsageKey))| == |us|;
    assert |multiset(Sorting.Map(AllStates(runs), KeyOf))| == |AllStates(runs)|;
  }

  lemma WasteIsRejected(runs: seq<LoadedRun>)
    ensures |Filter(UsageLines(runs), IsWaste)| == RejectionsOf(InvocationLines(runs)).total
  {
    SortedLinesCount(runs, RunUsage, UsageRecord, UsageLineLe, IsWaste, IsRejected);
    SortedLinesCount(runs, RunInvocations, InvocationRecord, InvocationLineLe, LineRejected, IsRejected);
  }

  lemma AcceptedAreAccepted(runs: seq<LoadedRun>)
    ensures |Filter(UsageLines(runs), AcceptedCall)| == Sum(AllStates(runs), IsAccepted)
  {
    SortedLinesCount(runs, RunUsage, UsageRecord, UsageLineLe, AcceptedCall, IsAccepted);
  }

  lemma ThreePartsOf(us: seq<UsageLine>)
    requires forall l :: l in us ==> WasteIsRejection(l)
    ensures |Filter(us, AcceptedCall)| + |Filter(us, IsWaste)| + Total(ByCategory(us), OTHER_CATEGORIES) == |us|
  {
    CallsPartition(us);
    CategoriesAddUp(us);
  }

  /**
   Over the usage lines of any runs: waste is what the rejection metric counts, accepted calls are the
   accepted states, and with the three remaining categories that is every state.
   */
  lemma UsageAddsUp(runs: seq<LoadedRun>)
    ensures var us := UsageLines(runs);
            && |Filter(us, IsWaste)| == RejectionsOf(InvocationLines(runs)).total
            && |Filter(us, AcceptedCall)| == Sum(AllStates(runs), IsAccepted)
            && |Filter(us, AcceptedCall)| + |Filter(us, IsWaste)| + Total(ByCategory(us), OTHER_CATEGORIES) == |AllStates(runs)|
  {
    UsageIsSound(runs);
    WasteIsRejected(runs);
    AcceptedAreAccepted(runs);
    ThreePartsOf(UsageLines(runs));
  }

  /** The tokens of any runs split the same way. */
  lemma TokensAddUp(runs: seq<LoadedRun>)
    ensures var us := UsageLines(runs);
            SumTokens(Filter(us, AcceptedCall)) + SumTokens(Filter(us, IsWaste)) + SumTokens(Filter(us, OtherNonAccepted)) == SumTokens(us)
  {
    UsageIsSound(runs);
    TokensPartition(UsageLines(runs));
  }

  // ---------------------------------------------------------------------------
  // The end-to-end theorem
  // ---------------------------------------------------------------------------

  /**
   For runs of the documented lifecycle with distinct run ids, the projections of any listing of the
   states and the metrics over them pass all eighteen checks.
   */
  lemma LifecycleRunsReconcile(runs: seq<LoadedRun>)
    requires AllDerived(runs) && DistinctRunIds(runs)
    ensures var ps := ProjectionsOf(runs); AllHold(runs, ps, MetricsOf(ps.invocations, ps.workUnits))
  {
    var ps := ProjectionsOf(runs);
    var m := MetricsOf(ps.invocations, ps.workUnits);
    DerivedIsWellLoaded(runs);
    IdentitiesReconcile(runs, m);
    ReviewsReconcile(runs, m);
    FactsReconcile(runs, m);
    RolesReconcile(runs, m);
    UnitsReconcile(runs, m);
    ClassesReconcile(runs, m);
    BucketsReconcile(runs);
    LedgerReconciles(runs, ps, m);
    StartsReconcile(runs, ps, m);
    EventsReconcile(runs, ps, m);
    RejectionsReconcile(runs, m);
    forall c ensures Holds(c, runs, ps, m) { EveryCheck(c); }
  }
}
