/** Choosing the runs of an audit, and the whole audit over them. */
module RunSelection {
  import opened Options
  import opened Time
  import opened Texts
  import opened Lists
  import opened AuditRuns
  import opened Projections
  import opened ProjectionBuild
  import opened Metrics
  import opened Reconcile
  import opened EndToEnd
  import Sorting

  /** A run directory as loaded: a run, or only its identity when it could not be validated. */
  datatype Loaded = Valid(run: LoadedRun) | Invalid(runId: Id)

  datatype Selection = Selection(selected: seq<LoadedRun>, outOfWindow: seq<LoadedRun>, invalid: seq<Id>)

  function CreatedOf(lr: LoadedRun): Moment { Moment(InstantOf(lr.createdAt), lr.runId) }

  predicate CreatedLe(a: LoadedRun, b: LoadedRun) { MomentLe(CreatedOf(a), CreatedOf(b)) }

  function ValidRuns(ls: seq<Loaded>): seq<LoadedRun> {
    if ls == [] then [] else
      ValidRuns(ls[..|ls| - 1]) + if ls[|ls| - 1].Valid? then [ls[|ls| - 1].run] else []
  }

  function InvalidIds(ls: seq<Loaded>): seq<Id> {
    if ls == [] then [] else
      InvalidIds(ls[..|ls| - 1]) + if ls[|ls| - 1].Invalid? then [ls[|ls| - 1].runId] else []
  }

  /** All runs, or the newest `last` of them, in chronological order. */
  function SelectRuns(ls: seq<Loaded>, last: Option<nat>): Selection {
    Cut(Sorting.Sort(ValidRuns(ls), CreatedLe), Sorting.Sort(InvalidIds(ls), StringLe), last)
  }

  function Cut(valid: seq<LoadedRun>, invalid: seq<Id>, last: Option<nat>): Selection {
    var first := match last case None => 0 case Some(n) => if |valid| > n then |valid| - n else 0;
    Selection(valid[first..], valid[..first], invalid)
  }

  lemma CreatedOrdering()
    ensures Sorting.Ordering(CreatedLe)
    ensures forall a, b :: CreatedLe(a, b) && CreatedLe(b, a) ==> a.runId == b.runId
  {
    MomentsAreOrdered();
    forall a: LoadedRun, b: LoadedRun ensures CreatedLe(a, b) || CreatedLe(b, a) {
      assert MomentLe(CreatedOf(a), CreatedOf(b)) || MomentLe(CreatedOf(b), CreatedOf(a));
    }
    forall a: LoadedRun, b: LoadedRun, c: LoadedRun | CreatedLe(a, b) && CreatedLe(b, c) ensures CreatedLe(a, c) {
      MomentLeTransitive(CreatedOf(a), CreatedOf(b), CreatedOf(c));
    }
  }

  /**
   The selection cuts one sorted sequence: nothing is lost or added, everything selected is no older
   than everything left out, and exactly min(last, count) runs are selected.
   */
  lemma SelectionCuts(ls: seq<Loaded>, last: Option<nat>)
    ensures var s := SelectRuns(ls, last);
            && multiset(s.outOfWindow + s.selected) == multiset(ValidRuns(ls))
            && Sorting.Sorted(s.outOfWindow + s.selected, CreatedLe)
            && (forall a, b :: a in s.outOfWindow && b in s.selected ==> CreatedLe(a, b))
            && |s.selected| == (if last.Some? && last.value < |ValidRuns(ls)| then last.value else |ValidRuns(ls)|)
            && multiset(s.invalid) == multiset(InvalidIds(ls))
  {
    var valid, invalid := Sorting.Sort(ValidRuns(ls), CreatedLe), Sorting.Sort(InvalidIds(ls), StringLe);
    CreatedOrdering();
    Sorting.SortKeeps(ValidRuns(ls), CreatedLe);
    Sorting.SortSorts(ValidRuns(ls), CreatedLe);
    Sorting.SortKeeps(InvalidIds(ls), StringLe);
    CutSplits(valid, invalid, last);
  }

  lemma CutSplits(valid: seq<LoadedRun>, invalid: seq<Id>, last: Option<nat>)
    requires Sorting.Sorted(valid, CreatedLe)
    ensures var s := Cut(valid, invalid, last);
            && s.outOfWindow + s.selected == valid && s.invalid == invalid
            && (forall a, b :: a in s.outOfWindow && b in s.selected ==> CreatedLe(a, b))
            && |s.selected| == if last.Some? && last.value < |valid| then last.value else |valid|
  {
    PrefixIsOlder(valid, |Cut(valid, invalid, last).outOfWindow|);
  }

  lemma PrefixIsOlder(valid: seq<LoadedRun>, n: nat)
    requires Sorting.Sorted(valid, CreatedLe) && n <= |valid|
    ensures forall a, b :: a in valid[..n] && b in valid[n..] ==> CreatedLe(a, b)
  {
    forall a, b | a in valid[..n] && b in valid[n..] ensures CreatedLe(a, b) {
      var i: nat :| i < n && valid[..n][i] == a;
      var j: nat :| j < |valid| - n && valid[n..][j] == b;
      assert valid[i] == a && valid[n + j] == b;
    }
  }

  /** The order in which run directories are read does not matter. */
  lemma SelectionIgnoresReadOrder(ls: seq<Loaded>, others: seq<Loaded>, last: Option<nat>)
    requires multiset(ls) == multiset(others) && DistinctRunIds(ValidRuns(ls))
    ensures SelectRuns(ls, last) == SelectRuns(others, last)
  {
    ValidPermuted(ls, others);
    RunsSortOnce(ValidRuns(ls), ValidRuns(others));
    IdsSortOnce(InvalidIds(ls), InvalidIds(others));
  }

  lemma IdsSortOnce(ids: seq<Id>, others: seq<Id>)
    requires multiset(ids) == multiset(others)
    ensures Sorting.Sort(ids, StringLe) == Sorting.Sort(others, StringLe)
  {
    StringOrdering();
    Sorting.SortForgetsOrder(ids, others, StringLe);
  }

  /** Runs with distinct ids have one chronological order. */
  lemma RunsSortOnce(runs: seq<LoadedRun>, others: seq<LoadedRun>)
    requires multiset(runs) == multiset(others) && DistinctRunIds(runs)
    ensures Sorting.Sort(runs, CreatedLe) == Sorting.Sort(others, CreatedLe)
  {
    CreatedOrdering();
    forall a, b | a in runs && b in runs && CreatedLe(a, b) && CreatedLe(b, a) ensures a == b { SameRun(runs, a, b); }
    Sorting.SortForgetsOrder(runs, others, CreatedLe);
  }

  lemma ValidPermuted(ls: seq<Loaded>, others: seq<Loaded>)
    requires multiset(ls) == multiset(others)
    ensures multiset(ValidRuns(ls)) == multiset(ValidRuns(others)) && multiset(InvalidIds(ls)) == multiset(InvalidIds(others))
  {
    forall r ensures multiset(ValidRuns(ls))[r] == multiset(ValidRuns(others))[r] {
      ValidCount(ls, r);
      ValidCount(others, r);
    }
    forall id ensures multiset(InvalidIds(ls))[id] == multiset(InvalidIds(others))[id] {
      InvalidCount(ls, id);
      InvalidCount(others, id);
    }
    assert multiset(ValidRuns(ls)) == multiset(ValidRuns(others));
    assert multiset(InvalidIds(ls)) == multiset(InvalidIds(others));
  }

  lemma {:induction false} ValidCount(ls: seq<Loaded>, r: LoadedRun)
    ensures multiset(ValidRuns(ls))[r] == multiset(ls)[Valid(r)]
  {
    if ls != [] {
      ValidCount(ls[..|ls| - 1], r);
      assert ls == ls[..|ls| - 1] + [ls[|ls| - 1]];
    }
  }

  lemma {:induction false} InvalidCount(ls: seq<Loaded>, id: Id)
    ensures multiset(InvalidIds(ls))[id] == multiset(ls)[Invalid(id)]
  {
    if ls != [] {
      InvalidCount(ls[..|ls| - 1], id);
      assert ls == ls[..|ls| - 1] + [ls[|ls| - 1]];
    }
  }

  /** The whole audit of runs of the documented lifecycle reconciles. */
  method Audit(runs: seq<LoadedRun>) returns (ps: ProjectionSet, m: MetricSet, r: Report)
    requires Dated(runs) && AllDerived(runs) && DistinctRunIds(runs)
    ensures r.ok && ps == ProjectionsOf(runs) && m == MetricsOf(ps.invocations, ps.workUnits)
  {
    DerivedIsWellLoaded(runs);
    forall lr | lr in runs ensures DistinctIds(lr.states) { assert OwnStates(lr); }
    ps := BuildProjections(runs);
    m := ComputeMetrics(ps.invocations, ps.workUnits);
    r := BuildReconciliation(runs, ps, m);
    LifecycleRunsReconcile(runs);
  }
}
