/**
 What a successful reconciliation excludes: for arbitrary projection lists, `ok` means one line per
 canonical identity, with the canonical facts and class, and nothing else.
 */
module Corruption {
  import opened Options
  import opened Lists
  import opened AuditRuns
  import opened Projections
  import opened ProjectionBuild
  import opened Metrics
  import opened Reconcile
  import opened EndToEnd
  import L = Ledger
  import Sorting

  function Keyed<T>(key: T -> Key, k: Key): T -> bool { (l: T) => key(l) == k }

  /** The lines with one key are counted by the multiset of keys. */
  lemma {:induction false} KeyCount<T(!new)>(lines: seq<T>, key: T -> Key, k: Key)
    ensures |Filter(lines, Keyed(key, k))| == multiset(Sorting.Map(lines, key))[k]
  {
    if lines != [] {
      var init, l := lines[..|lines| - 1], lines[|lines| - 1];
      assert lines == init + [l];
      KeyCount(init, key, k);
      FilterSnoc(init, l, Keyed(key, k));
      MapConcat(init, [l], key);
      assert Sorting.Map([l], key) == [key(l)];
    }
  }

  predicate HasState(ss: seq<State>, k: Key) { exists st :: st in ss && KeyOf(st) == k }

  /** Among well-loaded runs every key belongs to one state. */
  lemma {:induction false} StateKeysOnce(runs: seq<LoadedRun>, k: Key)
    requires WellLoaded(runs)
    ensures multiset(Sorting.Map(AllStates(runs), KeyOf))[k] == if HasState(AllStates(runs), k) then 1 else 0
  {
    if runs != [] {
      var init, lr := runs[..|runs| - 1], runs[|runs| - 1];
      assert runs == init + [lr] && lr in runs;
      forall a | a in init ensures OwnStates(a) { assert a in runs; }
      StateKeysOnce(init, k);
      MapConcat(AllStates(init), lr.states, KeyOf);
      RunKeysOnce(lr, k);
      if HasState(lr.states, k) { NotElsewhere(runs, k); }
    }
  }

  lemma RunKeysOnce(lr: LoadedRun, k: Key)
    requires OwnStates(lr)
    ensures multiset(Sorting.Map(lr.states, KeyOf))[k] == if HasState(lr.states, k) then 1 else 0
    ensures HasState(lr.states, k) ==> k.runId == lr.runId
  {
    var ks := Sorting.Map(lr.states, KeyOf);
    assert NoDuplicates(ks) by {
      forall i, j | 0 <= i < j < |ks| ensures ks[i] != ks[j] { assert lr.states[i].invocationId != lr.states[j].invocationId; }
    }
    OnceEach(ks, k);
    if HasState(lr.states, k) {
      var st :| st in lr.states && KeyOf(st) == k;
      var i: nat :| i < |lr.states| && lr.states[i] == st;
      assert ks[i] == k;
    }
    if k in ks {
      var i: nat :| i < |ks| && ks[i] == k;
      assert lr.states[i] in lr.states;
    }
  }

  /** A key of the last run belongs to no earlier one. */
  lemma NotElsewhere(runs: seq<LoadedRun>, k: Key)
    requires WellLoaded(runs) && runs != [] && HasState(runs[|runs| - 1].states, k)
    ensures !HasState(AllStates(runs[..|runs| - 1]), k)
  {
    var n := |runs| - 1;
    assert runs[n] in runs;
    forall st | st in AllStates(runs[..n]) ensures KeyOf(st) != k {
      InFlatMap(runs[..n], StatesOf, st);
      var a :| a in runs[..n] && st in StatesOf(a);
      var i: nat :| i < n && runs[..n][i] == a;
      assert runs[i] in runs && OwnStates(a);
    }
  }

  /** Exactly one line, and it states the canonical status, role, outcome, verdict and code. */
  predicate OneInvocationLine(lines: seq<InvocationLine>, st: State) {
    var mine := Filter(lines, Keyed(InvocationKey, KeyOf(st)));
    && |mine| == 1
    && mine[0].status == st.status && mine[0].role == st.role && mine[0].outcome == st.outcome
    && mine[0].assessmentResult == st.assessmentResult && mine[0].rejectionCode == st.rejectionCode
  }

  predicate OneUsageLine(lines: seq<UsageLine>, st: State) { |Filter(lines, Keyed(UsageKey, KeyOf(st)))| == 1 }

  predicate OneReviewLine(lines: seq<ReviewLine>, st: State) {
    var mine := Filter(lines, Keyed(ReviewKey, KeyOf(st)));
    |mine| == 1 && mine[0].role == st.role
  }

  predicate OneWorkUnitLine(runs: seq<LoadedRun>, lines: seq<WorkUnitLine>, k: Key) {
    var mine := Filter(lines, Keyed(UnitKey, k));
    |mine| == 1 && LineClass(mine[0]) == ClassOf(runs, k) == CanonicalClass(runs, k)
  }

  lemma OkMeansInvocations(runs: seq<LoadedRun>, ps: ProjectionSet, m: MetricSet)
    requires WellLoaded(runs) && Holds(InvocationIdentities, runs, ps, m) && Holds(InvocationFacts, runs, ps, m)
    ensures |ps.invocations| == |AllStates(runs)|
    ensures forall st :: st in AllStates(runs) ==> OneInvocationLine(ps.invocations, st)
  {
    var ss := AllStates(runs);
    assert |multiset(Sorting.Map(ss, KeyOf))| == |ss| && |multiset(Sorting.Map(ps.invocations, InvocationKey))| == |ps.invocations|;
    forall st | st in ss ensures OneInvocationLine(ps.invocations, st) {
      StateKeysOnce(runs, KeyOf(st));
      KeyCount(ps.invocations, InvocationKey, KeyOf(st));
      var l := Filter(ps.invocations, Keyed(InvocationKey, KeyOf(st)))[0];
      assert l in ps.invocations && InvocationKey(l) == KeyOf(st);
      KeysAreDistinct(runs, st, LastWith(ss, InvocationKey(l)).value);
    }
  }

  lemma OkMeansUsage(runs: seq<LoadedRun>, ps: ProjectionSet, m: MetricSet)
    requires WellLoaded(runs) && Holds(UsageIdentities, runs, ps, m)
    ensures |ps.usage| == |AllStates(runs)| && forall st :: st in AllStates(runs) ==> OneUsageLine(ps.usage, st)
  {
    var ss := AllStates(runs);
    assert |multiset(Sorting.Map(ss, KeyOf))| == |ss| && |multiset(Sorting.Map(ps.usage, UsageKey))| == |ps.usage|;
    forall st | st in ss ensures OneUsageLine(ps.usage, st) {
      StateKeysOnce(runs, KeyOf(st));
      KeyCount(ps.usage, UsageKey, KeyOf(st));
    }
  }

  /** The review states keep their keys, once each. */
  lemma ReviewKeysOnce(runs: seq<LoadedRun>, st: State)
    requires WellLoaded(runs) && st in Filter(AllStates(runs), IsReview)
    ensures multiset(Sorting.Map(Filter(AllStates(runs), IsReview), KeyOf))[KeyOf(st)] == 1
  {
    var ss, k := AllStates(runs), KeyOf(st);
    StateKeysOnce(runs, k);
    KeyCount(ss, KeyOf, k);
    KeyCount(Filter(ss, IsReview), KeyOf, k);
    FilterFewer(ss, IsReview, Keyed(KeyOf, k));
    assert st in Filter(Filter(ss, IsReview), Keyed(KeyOf, k));
  }

  lemma {:induction false} FilterFewer(ss: seq<State>, p: State -> bool, q: State -> bool)
    ensures |Filter(Filter(ss, p), q)| <= |Filter(ss, q)|
  {
    if ss != [] {
      var init, st := ss[..|ss| - 1], ss[|ss| - 1];
      assert ss == init + [st];
      FilterFewer(init, p, q);
      FilterSnoc(init, st, p);
      FilterSnoc(init, st, q);
      FilterSnoc(Filter(init, p), st, q);
    }
  }

  lemma OkMeansReviews(runs: seq<LoadedRun>, ps: ProjectionSet, m: MetricSet)
    requires WellLoaded(runs) && Holds(ReviewIdentities, runs, ps, m) && Holds(ReviewRoles, runs, ps, m)
    ensures |ps.reviews| == |Filter(AllStates(runs), IsReview)|
    ensures forall st :: st in AllStates(runs) && IsReview(st) ==> OneReviewLine(ps.reviews, st)
  {
    var rs := Filter(AllStates(runs), IsReview);
    assert |multiset(Sorting.Map(rs, KeyOf))| == |rs| && |multiset(Sorting.Map(ps.reviews, ReviewKey))| == |ps.reviews|;
    forall st | st in AllStates(runs) && IsReview(st) ensures OneReviewLine(ps.reviews, st) {
      ReviewKeysOnce(runs, st);
      KeyCount(ps.reviews, ReviewKey, KeyOf(st));
      var l := Filter(ps.reviews, Keyed(ReviewKey, KeyOf(st)))[0];
      assert l in ps.reviews && ReviewKey(l) == KeyOf(st);
      KeysAreDistinct(runs, st, LastWith(rs, ReviewKey(l)).value);
    }
  }

  lemma OkMeansWorkUnits(runs: seq<LoadedRun>, ps: ProjectionSet, m: MetricSet)
    requires WellLoaded(runs) && Holds(UnitIdentities, runs, ps, m) && Holds(UnitClasses, runs, ps, m)
    ensures |ps.workUnits| == |UnitKeys(runs)|
    ensures forall k :: HasUnit(runs, k) ==> OneWorkUnitLine(runs, ps.workUnits, k)
  {
    var ks := UnitKeys(runs);
    assert |multiset(ks)| == |ks| && |multiset(Sorting.Map(ps.workUnits, UnitKey))| == |ps.workUnits|;
    forall k | HasUnit(runs, k) ensures OneWorkUnitLine(runs, ps.workUnits, k) {
      UnitKeysAre(runs, k);
      GroupIsDistinct(runs, k);
      CanonicalClassIsByPairs(runs, k);
      OnceEach(ks, k);
      KeyCount(ps.workUnits, UnitKey, k);
      var mine := Filter(ps.workUnits, Keyed(UnitKey, k));
      var l := FirstLine(ps.workUnits, k).value;
      assert l in mine;
      assert mine == [mine[0]];
    }
  }

  /**
   A successful reconciliation of arbitrary projection lists: every canonical invocation has one
   invocation line with its facts and one usage line, every review one review line with its role,
   every work unit one line with its class, and no list holds anything else.
   */
  lemma OkExcludesCorruption(runs: seq<LoadedRun>, ps: ProjectionSet, m: MetricSet)
    requires WellLoaded(runs) && AllHold(runs, ps, m)
    ensures |ps.invocations| == |ps.usage| == |AllStates(runs)|
    ensures forall st :: st in AllStates(runs) ==> OneInvocationLine(ps.invocations, st) && OneUsageLine(ps.usage, st)
    ensures |ps.reviews| == |Filter(AllStates(runs), IsReview)|
    ensures forall st :: st in AllStates(runs) && (st.role == L.SOL || st.role == L.SOL_PRO) ==> OneReviewLine(ps.reviews, st)
    ensures |ps.workUnits| == |UnitKeys(runs)|
    ensures forall k :: HasUnit(runs, k) ==> OneWorkUnitLine(runs, ps.workUnits, k)
    ensures forall n :: n in CanonicalBuckets(runs) ==> n in m.workUnits && m.workUnits[n] == CanonicalBuckets(runs)[n]
    ensures m.rejections.total == Sum(AllStates(runs), IsRejected)
  {
    CallsAreCanonical(runs, ps, m);
    ReviewsAreCanonical(runs, ps, m);
    UnitsAreCanonical(runs, ps, m);
    MetricsAreCanonical(runs, ps, m);
  }

  lemma CallsAreCanonical(runs: seq<LoadedRun>, ps: ProjectionSet, m: MetricSet)
    requires WellLoaded(runs) && AllHold(runs, ps, m)
    ensures |ps.invocations| == |ps.usage| == |AllStates(runs)|
    ensures forall st :: st in AllStates(runs) ==> OneInvocationLine(ps.invocations, st) && OneUsageLine(ps.usage, st)
  {
    assert Holds(InvocationIdentities, runs, ps, m) && Holds(InvocationFacts, runs, ps, m) && Holds(UsageIdentities, runs, ps, m);
    OkMeansInvocations(runs, ps, m);
    OkMeansUsage(runs, ps, m);
  }

  lemma ReviewsAreCanonical(runs: seq<LoadedRun>, ps: ProjectionSet, m: MetricSet)
    requires WellLoaded(runs) && AllHold(runs, ps, m)
    ensures |ps.reviews| == |Filter(AllStates(runs), IsReview)|
    ensures forall st :: st in AllStates(runs) && IsReview(st) ==> OneReviewLine(ps.reviews, st)
  {
    assert Holds(ReviewIdentities, runs, ps, m) && Holds(ReviewRoles, runs, ps, m);
    OkMeansReviews(runs, ps, m);
  }

  lemma UnitsAreCanonical(runs: seq<LoadedRun>, ps: ProjectionSet, m: MetricSet)
    requires WellLoaded(runs) && AllHold(runs, ps, m)
    ensures |ps.workUnits| == |UnitKeys(runs)| && forall k :: HasUnit(runs, k) ==> OneWorkUnitLine(runs, ps.workUnits, k)
  {
    assert Holds(UnitIdentities, runs, ps, m) && Holds(UnitClasses, runs, ps, m);
    OkMeansWorkUnits(runs, ps, m);
  }

  lemma MetricsAreCanonical(runs: seq<LoadedRun>, ps: ProjectionSet, m: MetricSet)
    requires AllHold(runs, ps, m)
    ensures forall n :: n in CanonicalBuckets(runs) ==> n in m.workUnits && m.workUnits[n] == CanonicalBuckets(runs)[n]
    ensures m.rejections.total == Sum(AllStates(runs), IsRejected)
  {
    assert Holds(OutcomeBuckets, runs, ps, m) && Holds(RejectedStates, runs, ps, m) && Holds(RejectionMetric, runs, ps, m);
  }

  ghost predicate OnceOrNot(expected: multiset<Key>) { forall k :: expected[k] <= 1 }

  /** Lines whose keys are expected at most once each: writing one over another breaks the identities. */
  lemma DuplicateIsUnexpected<T>(lines: seq<T>, key: T -> Key, expected: multiset<Key>, i: nat, j: nat)
    requires OnceOrNot(expected) && i < |lines| && j < |lines| && i != j
    ensures |lines[i := lines[j]]| == |lines|
    ensures expected != multiset(Sorting.Map(lines[i := lines[j]], key))
  {
    var ks := Sorting.Map(lines[i := lines[j]], key);
    assert expected[ks[j]] <= 1;
    if i < j { Twice(ks, i, j); } else { Twice(ks, j, i); }
  }

  lemma StatesOnceOrNot(runs: seq<LoadedRun>)
    requires WellLoaded(runs)
    ensures OnceOrNot(multiset(Sorting.Map(AllStates(runs), KeyOf)))
    ensures OnceOrNot(multiset(Sorting.Map(Filter(AllStates(runs), IsReview), KeyOf)))
    ensures OnceOrNot(multiset(UnitKeys(runs)))
  {
    var ss := AllStates(runs);
    forall k ensures multiset(Sorting.Map(ss, KeyOf))[k] <= 1 { StateKeysOnce(runs, k); }
    forall k ensures multiset(Sorting.Map(Filter(ss, IsReview), KeyOf))[k] <= 1 {
      StateKeysOnce(runs, k);
      KeyCount(ss, KeyOf, k);
      KeyCount(Filter(ss, IsReview), KeyOf, k);
      FilterFewer(ss, IsReview, Keyed(KeyOf, k));
    }
    forall k ensures multiset(UnitKeys(runs))[k] <= 1 { OnceEach(UnitKeys(runs), k); }
  }

  /**
   Duplicating one line over another keeps every count; in each of the four projections it breaks the
   check of the identities, whatever the other lists hold.
   */
  lemma DuplicateForOmittedIsFound(runs: seq<LoadedRun>, ps: ProjectionSet, m: MetricSet, i: nat, j: nat)
    requires WellLoaded(runs) && i != j
    ensures i < |ps.invocations| && j < |ps.invocations| ==>
      !Holds(InvocationIdentities, runs, ps.(invocations := ps.invocations[i := ps.invocations[j]]), m)
    ensures i < |ps.usage| && j < |ps.usage| ==>
      !Holds(UsageIdentities, runs, ps.(usage := ps.usage[i := ps.usage[j]]), m)
    ensures i < |ps.reviews| && j < |ps.reviews| ==>
      !Holds(ReviewIdentities, runs, ps.(reviews := ps.reviews[i := ps.reviews[j]]), m)
    ensures i < |ps.workUnits| && j < |ps.workUnits| ==>
      !Holds(UnitIdentities, runs, ps.(workUnits := ps.workUnits[i := ps.workUnits[j]]), m)
  {
    StatesOnceOrNot(runs);
    var states, reviews := multiset(Sorting.Map(AllStates(runs), KeyOf)), multiset(Sorting.Map(Filter(AllStates(runs), IsReview), KeyOf));
    if i < |ps.invocations| && j < |ps.invocations| { DuplicateIsUnexpected(ps.invocations, InvocationKey, states, i, j); }
    if i < |ps.usage| && j < |ps.usage| { DuplicateIsUnexpected(ps.usage, UsageKey, states, i, j); }
    if i < |ps.reviews| && j < |ps.reviews| { DuplicateIsUnexpected(ps.reviews, ReviewKey, reviews, i, j); }
    if i < |ps.workUnits| && j < |ps.workUnits| { DuplicateIsUnexpected(ps.workUnits, UnitKey, multiset(UnitKeys(runs)), i, j); }
  }

  /** Another line for the same invocation, with another status, role, outcome, verdict or code. */
  predicate Falsifies(l: InvocationLine, other: InvocationLine) {
    && InvocationKey(other) == InvocationKey(l)
    && (|| other.status != l.status || other.role != l.role || other.outcome != l.outcome
        || other.assessmentResult != l.assessmentResult || other.rejectionCode != l.rejectionCode)
  }

  /** Changing one of the five facts of one line breaks the check of the facts. */
  lemma FalsifiedFactIsFound(runs: seq<LoadedRun>, ps: ProjectionSet, m: MetricSet, i: nat, other: InvocationLine)
    requires Holds(InvocationFacts, runs, ps, m) && i < |ps.invocations| && Falsifies(ps.invocations[i], other)
    ensures !Holds(InvocationFacts, runs, ps.(invocations := ps.invocations[i := other]), m)
  {
    var lines := ps.invocations[i := other];
    assert ps.invocations[i] in ps.invocations && lines[i] == other && other in lines;
  }

  /** A wrong outcome counter breaks the check of the counters. */
  lemma FalsifiedCounterIsFound(runs: seq<LoadedRun>, ps: ProjectionSet, m: MetricSet, n: string, value: nat)
    requires Holds(OutcomeBuckets, runs, ps, m) && n in CanonicalBuckets(runs) && value != m.workUnits[n]
    ensures !Holds(OutcomeBuckets, runs, ps, m.(workUnits := m.workUnits[n := value]))
  {}

  /** Changing the role of one review line breaks the check of the roles. */
  lemma FalsifiedRoleIsFound(runs: seq<LoadedRun>, ps: ProjectionSet, m: MetricSet, i: nat, other: ReviewLine)
    requires Holds(ReviewRoles, runs, ps, m) && i < |ps.reviews|
    requires ReviewKey(other) == ReviewKey(ps.reviews[i]) && other.role != ps.reviews[i].role
    ensures !Holds(ReviewRoles, runs, ps.(reviews := ps.reviews[i := other]), m)
  {
    var lines := ps.reviews[i := other];
    assert ps.reviews[i] in ps.reviews && lines[i] == other && other in lines;
  }

  /** Changing the status, the first pass or the repair flag of one work-unit line breaks the check of the classes. */
  lemma FalsifiedClassIsFound(runs: seq<LoadedRun>, ps: ProjectionSet, m: MetricSet, i: nat, other: WorkUnitLine)
    requires WellLoaded(runs) && Holds(UnitIdentities, runs, ps, m) && Holds(UnitClasses, runs, ps, m) && i < |ps.workUnits|
    requires var l := ps.workUnits[i];
             && UnitKey(other) == UnitKey(l)
             && (other.status != l.status || other.firstPassAccepted != l.firstPassAccepted || other.repairAccepted != l.repairAccepted)
    ensures !Holds(UnitClasses, runs, ps.(workUnits := ps.workUnits[i := other]), m)
  {
    var k := UnitKey(other);
    UnitOnce(UnitKeys(runs), ps.workUnits, i);
    OnlyLine(ps.workUnits, k, i);
    OnlyLine(ps.workUnits[i := other], k, i);
  }

  lemma UnitOnce(ks: seq<Key>, lines: seq<WorkUnitLine>, i: nat)
    requires NoDuplicates(ks) && multiset(ks) == multiset(Sorting.Map(lines, UnitKey)) && i < |lines|
    ensures UnitKey(lines[i]) in ks && forall j :: 0 <= j < |lines| && j != i ==> UnitKey(lines[j]) != UnitKey(lines[i])
  {
    var found := Sorting.Map(lines, UnitKey);
    assert found[i] in multiset(found);
    OnceEach(ks, found[i]);
    forall j | 0 <= j < |lines| && j != i ensures UnitKey(lines[j]) != UnitKey(lines[i]) {
      if found[j] == found[i] { if i < j { Twice(found, i, j); } else { Twice(found, j, i); } }
    }
  }

  /** The only line of a work unit is its first. */
  lemma {:induction false} OnlyLine(lines: seq<WorkUnitLine>, k: Key, i: nat)
    requires i < |lines| && UnitKey(lines[i]) == k && forall j :: 0 <= j < |lines| && j != i ==> UnitKey(lines[j]) != k
    ensures FirstLine(lines, k) == Some(lines[i])
  {
    if i > 0 {
      assert lines[0] != lines[i];
      OnlyLine(lines[1..], k, i - 1);
    }
  }
}
