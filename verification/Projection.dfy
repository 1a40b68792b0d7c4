/**
 The audit projections.  Everything is sorted by the exact start instant and identity before it is
 classified, so no projection depends on the order in which a state map lists its invocations.
 */
module Projections {
  import opened Options
  import opened Time
  import opened Texts
  import opened Lists
  import opened AuditRuns
  import L = Ledger
  import Sorting

  type Id = L.Id
  type State = L.State

  // ---------------------------------------------------------------------------
  // Chronological order
  // ---------------------------------------------------------------------------

  function InstantOf(at: string): Instant { match ParseTimestamp(at) case None => Instant(0, []) case Some(i) => i }

  function StartOf(st: State): Moment { Moment(InstantOf(st.startedAt), st.invocationId) }

  predicate StartLe(a: State, b: State) { MomentLe(StartOf(a), StartOf(b)) }

  function AssessedAt(st: State): Moment {
    Moment(if st.assessedAt.Some? then InstantOf(st.assessedAt.value) else Instant(0, []), st.invocationId)
  }

  predicate AssessedLe(a: State, b: State) { MomentLe(AssessedAt(a), AssessedAt(b)) }

  /** The latest known lifecycle time. */
  function LastEventOf(st: State): Moment {
    Moment(InstantOf(if st.assessedAt.Some? then st.assessedAt.value
                     else if st.completedAt.Some? then st.completedAt.value
                     else if st.reconciledAt.Some? then st.reconciledAt.value else st.startedAt), st.invocationId)
  }

  predicate LastEventLe(a: State, b: State) { MomentLe(LastEventOf(a), LastEventOf(b)) }

  /** A run is loaded only when every time in its states is real. */
  predicate DatedState(st: State) {
    && ParseTimestamp(st.startedAt).Some? && (st.completedAt.Some? ==> ParseTimestamp(st.completedAt.value).Some?)
    && (st.assessedAt.Some? ==> ParseTimestamp(st.assessedAt.value).Some?)
    && (st.reconciledAt.Some? ==> ParseTimestamp(st.reconciledAt.value).Some?)
  }

  predicate Dated(runs: seq<LoadedRun>) { forall lr, st :: lr in runs && st in lr.states ==> DatedState(st) }

  lemma StartOrdering()
    ensures Sorting.Ordering(StartLe)
    ensures forall a, b :: StartLe(a, b) && StartLe(b, a) ==> a.invocationId == b.invocationId
  {
    MomentsAreOrdered();
    forall a: State, b: State ensures StartLe(a, b) || StartLe(b, a) { assert MomentLe(StartOf(a), StartOf(b)) || MomentLe(StartOf(b), StartOf(a)); }
    forall a: State, b: State, c: State | StartLe(a, b) && StartLe(b, c) ensures StartLe(a, c) { MomentLeTransitive(StartOf(a), StartOf(b), StartOf(c)); }
  }

  function Ordered(ss: seq<State>): seq<State> { Sorting.Sort(ss, StartLe) }

  lemma StartStrict(ss: seq<State>)
    requires DistinctIds(ss)
    ensures Sorting.Strict(ss, StartLe)
  {
    StartOrdering();
    forall x, y | x in ss && y in ss && StartLe(x, y) && StartLe(y, x) ensures x == y { OncePerId(ss, x); }
  }

  /** The chronological order of a run is one sequence, however its states are listed. */
  lemma OrderedIsUnique(ss: seq<State>, ts: seq<State>)
    requires DistinctIds(ss) && multiset(ss) == multiset(ts)
    ensures Ordered(ss) == Ordered(ts)
  {
    StartOrdering();
    StartStrict(ss);
    Sorting.SortForgetsOrder(ss, ts, StartLe);
  }

  // ---------------------------------------------------------------------------
  // Classification of a work unit
  // ---------------------------------------------------------------------------

  datatype WorkUnitStatus = Accepted | Rejected | Reconciled | Incomplete | Unknown

  predicate IsWorker(st: State) { st.role == L.WORKER }
  predicate WasAccepted(st: State) { st.assessmentResult == Some(L.ACCEPTED) }
  predicate WasRejected(st: State) { st.assessmentResult == Some(L.REJECTED) }
  predicate WasReconciled(st: State) { st.status == L.ORPHANED || st.status == L.SUPERSEDED }

  /** The status that one accepted, one rejected, only reconciled, or some open implementation call gives. */
  function StatusOf(worker: seq<State>): WorkUnitStatus {
    if exists st :: st in worker && WasAccepted(st) then Accepted
    else if exists st :: st in worker && WasRejected(st) then Rejected
    else if worker != [] && forall st :: st in worker ==> WasReconciled(st) then Reconciled
    else if exists st :: st in worker && (st.status == L.STARTED || st.status == L.COMPLETED) then Incomplete
    else Unknown
  }

  /** Some rejected call started before some accepted one. */
  predicate RepairOf(worker: seq<State>) {
    exists x, y :: x in worker && y in worker && WasRejected(x) && WasAccepted(y) && StartLe(x, y)
  }

  /** No other call started before this one. */
  predicate Earliest(worker: seq<State>, st: State) { forall other :: other in worker ==> StartLe(st, other) }

  /** The verdict on a call that no other one precedes. */
  function FirstPassOf(worker: seq<State>): Option<bool> {
    if exists st :: st in worker && Earliest(worker, st) && WasAccepted(st) then Some(true)
    else if exists st :: st in worker && Earliest(worker, st) && WasRejected(st) then Some(false)
    else None
  }

  /** The verdict on the first call in chronological order. */
  function FirstInOrder(os: seq<State>): Option<bool> {
    if os == [] then None
    else if WasAccepted(os[0]) then Some(true)
    else if WasRejected(os[0]) then Some(false)
    else None
  }

  lemma HeadIsEarliest(worker: seq<State>, os: seq<State>)
    requires Sorting.Sorted(os, StartLe) && Sorting.Strict(os, StartLe) && os != []
    requires forall st :: st in os <==> st in worker
    ensures os[0] in worker && Earliest(worker, os[0])
    ensures forall st :: st in worker && Earliest(worker, st) ==> st == os[0]
  {
    StartOrdering();
    var head := os[0];
    assert head in os;
    forall st | st in worker ensures StartLe(head, st) {
      Sorting.HeadIsLeast(os, st, StartLe);
      assert StartLe(st, st);
    }
    forall st | st in worker && Earliest(worker, st) ensures st == head {
      assert head in worker;
      assert StartLe(st, head) && StartLe(head, st);
    }
  }

  /** Of calls under distinct identities the first in order is the only earliest one. */
  lemma FirstIsEarliest(worker: seq<State>)
    requires DistinctIds(worker)
    ensures FirstInOrder(Ordered(worker)) == FirstPassOf(worker)
    ensures Ordered(worker) != [] <==> worker != []
    ensures worker != [] ==> Ordered(worker)[0] in worker && Earliest(worker, Ordered(worker)[0])
  {
    OrderedFacts(worker);
    Sorting.SortKeeps(worker, StartLe);
    if worker != [] { HeadIsEarliest(worker, Ordered(worker)); }
  }

  method DeriveWorkUnitStatus(invocations: seq<State>) returns (status: WorkUnitStatus)
    ensures status == StatusOf(Filter(invocations, IsWorker))
  {
    var worker := Filter(invocations, IsWorker);
    if worker == [] { return Unknown; }
    if exists st :: st in worker && WasAccepted(st) { return Accepted; }
    if exists st :: st in worker && WasRejected(st) { return Rejected; }
    if forall st :: st in worker ==> WasReconciled(st) { return Reconciled; }
    status := if exists st :: st in worker && (st.status == L.STARTED || st.status == L.COMPLETED) then Incomplete else Unknown;
  }

  /** One pass in chronological order with a flag; the same as comparing all pairs. */
  method DeriveRepairAccepted(worker: seq<State>) returns (repaired: bool)
    requires DistinctIds(worker)
    ensures repaired == RepairOf(worker)
  {
    var os := Ordered(worker);
    var rejectedSeen := false;
    for i := 0 to |os|
      invariant rejectedSeen <==> exists j :: 0 <= j < i && WasRejected(os[j])
      invariant forall j, k :: 0 <= j < k < i && WasRejected(os[j]) ==> !WasAccepted(os[k])
    {
      if WasRejected(os[i]) { rejectedSeen := true; }
      if WasAccepted(os[i]) && rejectedSeen {
        RepairByPosition(worker);
        return true;
      }
    }
    RepairByPosition(worker);
    repaired := false;
  }

  predicate RepairInOrder(os: seq<State>) {
    exists j, k :: 0 <= j < k < |os| && WasRejected(os[j]) && WasAccepted(os[k])
  }

  /** Pairs by time are pairs by position in the chronological order. */
  lemma RepairByPosition(worker: seq<State>)
    requires DistinctIds(worker)
    ensures RepairOf(worker) <==> RepairInOrder(Ordered(worker))
  {
    OrderedFacts(worker);
    if RepairOf(worker) { PairHasPositions(worker, Ordered(worker)); }
    if RepairInOrder(Ordered(worker)) { PositionsArePair(worker, Ordered(worker)); }
  }

  lemma PairHasPositions(worker: seq<State>, os: seq<State>)
    requires RepairOf(worker) && Sorting.Sorted(os, StartLe) && Sorting.Strict(os, StartLe)
    requires forall st :: st in worker ==> st in os
    ensures RepairInOrder(os)
  {
    var x, y :| x in worker && y in worker && WasRejected(x) && WasAccepted(y) && StartLe(x, y);
    var j: nat :| j < |os| && os[j] == x;
    var k: nat :| k < |os| && os[k] == y;
    Sorting.SmallerStandsFirst(os, StartLe, j, k);
  }

  lemma PositionsArePair(worker: seq<State>, os: seq<State>)
    requires RepairInOrder(os) && Sorting.Sorted(os, StartLe) && forall st :: st in os ==> st in worker
    ensures RepairOf(worker)
  {
    var j, k :| 0 <= j < k < |os| && WasRejected(os[j]) && WasAccepted(os[k]);
    assert os[j] in worker && os[k] in worker && StartLe(os[j], os[k]);
  }

  lemma OrderedFacts(ss: seq<State>)
    requires DistinctIds(ss)
    ensures Sorting.Sorted(Ordered(ss), StartLe) && Sorting.Strict(Ordered(ss), StartLe)
    ensures forall st :: st in Ordered(ss) <==> st in ss
    ensures multiset(Ordered(ss)) == multiset(ss) && DistinctIds(Ordered(ss))
  {
    StartOrdering();
    Sorting.SortKeeps(ss, StartLe);
    Sorting.SortSorts(ss, StartLe);
    PermutedIds(ss, Ordered(ss));
    StartStrict(Ordered(ss));
  }

  method DeriveFirstPassAccepted(worker: seq<State>) returns (first: Option<bool>)
    requires DistinctIds(worker)
    ensures first == FirstPassOf(worker)
  {
    var os := Ordered(worker);
    FirstIsEarliest(worker);
    if os == [] { return None; }
    first := if WasAccepted(os[0]) then Some(true) else if WasRejected(os[0]) then Some(false) else None;
  }

  // ---------------------------------------------------------------------------
  // Lines
  // ---------------------------------------------------------------------------

  datatype InvocationLine = InvocationLine(
    runId: Id, invocationId: Id, workUnitId: Id, status: L.Status, role: L.Role, outcome: Option<L.Outcome>,
    usage: Option<L.Usage>, rejectionCode: Option<L.Code>, assessmentResult: Option<L.Verdict>, startedAt: string)

  datatype ReviewLine = ReviewLine(
    runId: Id, reviewInvocationId: Id, workUnitId: Id, role: L.Role, status: L.Status, outcome: Option<L.Outcome>,
    assessmentResult: Option<L.Verdict>, rejectionCode: Option<L.Code>, startedAt: string)

  datatype Category = REJECTED_CALL | ORPHANED_CALL | FAILED_UNASSESSED | UNASSESSED

  datatype UsageLine = UsageLine(
    runId: Id, invocationId: Id, workUnitId: Id, role: L.Role, status: L.Status, assessmentResult: Option<L.Verdict>,
    rejectionCode: Option<L.Code>, usage: Option<L.Usage>, rejectedWaste: bool, nonAcceptedCategory: Option<Category>,
    wasteTokens: Option<nat>)

  datatype TransportStatus = SCHEMA_MISMATCH | TRANSPORT_FAILURE | CALL_FAILURE | TRANSPORT_OK | TRANSPORT_UNKNOWN
  datatype ControllerValidation = ALL_ACCEPTED | ALL_REJECTED | MIXED | NO_ASSESSMENT | NO_INVOCATION

  datatype WorkUnitLine = WorkUnitLine(
    runId: Id, workUnitId: Id, invocationCount: nat, firstInvocationId: Option<Id>, acceptedInvocationId: Option<Id>,
    status: WorkUnitStatus, firstPassAccepted: Option<bool>, repairAccepted: bool, lastAssessmentResult: Option<L.Verdict>,
    lastRejectionCode: Option<L.Code>, transport: TransportStatus, validation: ControllerValidation, semanticRejected: bool)

  predicate FailedOutcome(o: L.Outcome) { o in {L.FAILURE, L.TIMEOUT, L.TRANSPORT_ERROR, L.CANCELED} }

  /** The label of a rejection: its code, or none for unknown. */
  type Label = Option<L.Code>

  const SEMANTIC_CODES: seq<Label> := [Some(L.SEMANTIC_CONFLATION), Some(L.UNRESOLVED_SEMANTICS), Some(L.UNSUPPORTED_CLAIM)]
  const TRANSPORT_CODES: seq<Label> := [Some(L.TRANSPORT_MALFORMED), Some(L.SCHEMA_MISMATCH)]

  predicate SemanticCode(c: Label) { c in SEMANTIC_CODES }

  function NonAcceptedCategory(st: State): Option<Category> {
    if WasRejected(st) then Some(REJECTED_CALL)
    else if WasAccepted(st) then None
    else if WasReconciled(st) then Some(ORPHANED_CALL)
    else if CallFailed(st) then Some(FAILED_UNASSESSED)
    else Some(UNASSESSED)
  }

  predicate HasSchemaMismatch(st: State) { st.rejectionCode == Some(L.SCHEMA_MISMATCH) }
  predicate HasTransportFailure(st: State) { st.rejectionCode == Some(L.TRANSPORT_MALFORMED) || st.outcome == Some(L.TRANSPORT_ERROR) }
  predicate CallFailed(st: State) { st.outcome.Some? && FailedOutcome(st.outcome.value) }
  predicate Assessed(st: State) { st.status == L.ASSESSED }
  predicate Coded(st: State) { st.rejectionCode.Some? }
  predicate RejectedSemantically(st: State) { WasRejected(st) && SemanticCode(st.rejectionCode) }

  function DeriveTransport(ss: seq<State>): TransportStatus {
    if exists st :: st in ss && HasSchemaMismatch(st) then SCHEMA_MISMATCH
    else if exists st :: st in ss && HasTransportFailure(st) then TRANSPORT_FAILURE
    else if exists st :: st in ss && CallFailed(st) then CALL_FAILURE
    else if ss != [] && forall st :: st in ss ==> Assessed(st) then TRANSPORT_OK
    else TRANSPORT_UNKNOWN
  }

  function DeriveControllerValidation(ss: seq<State>): ControllerValidation {
    var accepted := exists st :: st in ss && WasAccepted(st);
    var rejected := exists st :: st in ss && WasRejected(st);
    if accepted && rejected then MIXED else if accepted then ALL_ACCEPTED else if rejected then ALL_REJECTED
    else if ss != [] then NO_ASSESSMENT else NO_INVOCATION
  }

  function InvocationRecord(st: State): InvocationLine {
    InvocationLine(st.runId, st.invocationId, st.workUnitId, st.status, st.role, st.outcome, st.usage, st.rejectionCode,
                   st.assessmentResult, st.startedAt)
  }

  function ReviewRecord(st: State): ReviewLine {
    ReviewLine(st.runId, st.invocationId, st.workUnitId, st.role, st.status, st.outcome, st.assessmentResult, st.rejectionCode,
               st.startedAt)
  }

  function UsageRecord(st: State): UsageLine {
    UsageLine(st.runId, st.invocationId, st.workUnitId, st.role, st.status, st.assessmentResult, st.rejectionCode, st.usage,
              WasRejected(st), NonAcceptedCategory(st),
              if WasRejected(st) && st.usage.Some? then Some(st.usage.value.totalTokens) else None)
  }

  /** The last of a list in some order. */
  function Latest(ss: seq<State>, le: (State, State) -> bool): Option<State> {
    var os := Sorting.Sort(ss, le);
    if os == [] then None else Some(os[|os| - 1])
  }

  /** The latest is one of them, and none comes after it. */
  lemma LatestIsLast(ss: seq<State>, le: (State, State) -> bool)
    requires Sorting.Ordering(le)
    ensures Latest(ss, le).None? <==> ss == []
    ensures Latest(ss, le).Some? ==> Latest(ss, le).value in ss && forall st :: st in ss ==> le(st, Latest(ss, le).value)
  {
    Sorting.SortKeeps(ss, le);
    Sorting.SortSorts(ss, le);
    var os := Sorting.Sort(ss, le);
    if os != [] {
      forall st | st in ss ensures le(st, os[|os| - 1]) {
        assert st in os;
        var i: nat :| i < |os| && os[i] == st;
        assert le(os[|os| - 1], os[|os| - 1]);
      }
    }
  }

  /** One line from the chronologically ordered states of a work unit. */
  function WorkUnitRecord(runId: Id, workUnitId: Id, ordered: seq<State>): WorkUnitLine {
    var worker := Filter(ordered, IsWorker);
    var accepted, assessed, coded :=
      Latest(Filter(worker, WasAccepted), AssessedLe),
      Latest(Filter(worker, Assessed), AssessedLe),
      Latest(Filter(worker, Coded), LastEventLe);
    WorkUnitLine(
      runId, workUnitId, |ordered|, if ordered == [] then None else Some(ordered[0].invocationId),
      if accepted.Some? then Some(accepted.value.invocationId) else None,
      StatusOf(worker), FirstPassOf(worker), RepairOf(worker),
      if assessed.Some? then assessed.value.assessmentResult else None,
      if coded.Some? then coded.value.rejectionCode else None,
      DeriveTransport(ordered), DeriveControllerValidation(ordered),
      exists st :: st in ordered && RejectedSemantically(st))
  }

  /** Any of the calls, after which none of them comes. */
  ghost predicate IsLatest(ss: seq<State>, p: State -> bool, le: (State, State) -> bool, st: State) {
    st in ss && p(st) && forall other :: other in ss && p(other) ==> le(other, st)
  }

  /** A field is that of the latest call of a kind, or none when there is no such call. */
  ghost predicate FromLatest<T(!new)>(field: Option<T>, ss: seq<State>, p: State -> bool, le: (State, State) -> bool, f: State -> Option<T>) {
    (exists st :: IsLatest(ss, p, le, st) && field == f(st)) || (field == None && forall st :: st in ss ==> !p(st))
  }

  function IdOf(st: State): Option<Id> { Some(st.invocationId) }
  function VerdictOf(st: State): Option<L.Verdict> { st.assessmentResult }
  function CodeOf(st: State): Option<L.Code> { st.rejectionCode }

  predicate AnyCall(st: State) { true }
  predicate WorkerAccepted(st: State) { st.role == L.WORKER && WasAccepted(st) }
  predicate WorkerAssessed(st: State) { st.role == L.WORKER && Assessed(st) }
  predicate WorkerCoded(st: State) { st.role == L.WORKER && Coded(st) }
  predicate StartGe(a: State, b: State) { StartLe(b, a) }

  lemma EventOrdering()
    ensures Sorting.Ordering(AssessedLe) && Sorting.Ordering(LastEventLe)
  {
    MomentsAreOrdered();
    forall a: State, b: State ensures AssessedLe(a, b) || AssessedLe(b, a) ensures LastEventLe(a, b) || LastEventLe(b, a) {
      assert MomentLe(AssessedAt(a), AssessedAt(b)) || MomentLe(AssessedAt(b), AssessedAt(a));
      assert MomentLe(LastEventOf(a), LastEventOf(b)) || MomentLe(LastEventOf(b), LastEventOf(a));
    }
    forall a: State, b: State, c: State | AssessedLe(a, b) && AssessedLe(b, c) ensures AssessedLe(a, c) {
      MomentLeTransitive(AssessedAt(a), AssessedAt(b), AssessedAt(c));
    }
    forall a: State, b: State, c: State | LastEventLe(a, b) && LastEventLe(b, c) ensures LastEventLe(a, c) {
      MomentLeTransitive(LastEventOf(a), LastEventOf(b), LastEventOf(c));
    }
  }

  lemma LatestIsFrom<T(!new)>(ss: seq<State>, all: seq<State>, p: State -> bool, le: (State, State) -> bool, f: State -> Option<T>)
    requires Sorting.Ordering(le) && forall st :: st in ss <==> st in all && p(st)
    ensures var latest := Latest(ss, le);
            FromLatest(if latest.Some? then f(latest.value) else None, all, p, le, f)
  {
    LatestIsLast(ss, le);
    var latest := Latest(ss, le);
    if latest.Some? {
      assert IsLatest(all, p, le, latest.value);
    }
  }

  /** The same calls in another order. */
  ghost predicate SameCalls(ss: seq<State>, ts: seq<State>) { |ss| == |ts| && forall st :: st in ss <==> st in ts }

  lemma FlagsIgnoreOrder(ss: seq<State>, ts: seq<State>)
    requires SameCalls(ss, ts)
    ensures DeriveTransport(ss) == DeriveTransport(ts) && DeriveControllerValidation(ss) == DeriveControllerValidation(ts)
  {}

  lemma FirstCall(ss: seq<State>)
    requires DistinctIds(ss)
    ensures var os := Ordered(ss);
            FromLatest(if os == [] then None else Some(os[0].invocationId), ss, AnyCall, StartGe, IdOf)
  {
    FirstIsEarliest(ss);
    if ss != [] { assert IsLatest(ss, AnyCall, StartGe, Ordered(ss)[0]); }
  }

  /** The latest calls of their kinds among the workers. */
  ghost predicate LatestCalls(l: WorkUnitLine, ss: seq<State>) {
    && FromLatest(l.acceptedInvocationId, ss, WorkerAccepted, AssessedLe, IdOf)
    && FromLatest(l.lastAssessmentResult, ss, WorkerAssessed, AssessedLe, VerdictOf)
    && FromLatest(l.lastRejectionCode, ss, WorkerCoded, LastEventLe, CodeOf)
  }

  lemma LatestCallsOf(runId: Id, workUnitId: Id, ordered: seq<State>, ss: seq<State>)
    requires SameCalls(ordered, ss)
    ensures LatestCalls(WorkUnitRecord(runId, workUnitId, ordered), ss)
  {
    var worker := Filter(ordered, IsWorker);
    EventOrdering();
    LatestIsFrom(Filter(worker, WasAccepted), ss, WorkerAccepted, AssessedLe, IdOf);
    LatestIsFrom(Filter(worker, Assessed), ss, WorkerAssessed, AssessedLe, VerdictOf);
    LatestIsFrom(Filter(worker, Coded), ss, WorkerCoded, LastEventLe, CodeOf);
  }

  /**
   What a work-unit line says, without sorting or position: the first call is an earliest one, the
   accepted call, the last verdict and the last code belong to the latest worker calls of their kinds,
   and the flags ask whether some call is of a kind.
   */
  lemma WorkUnitRecordMeans(runId: Id, workUnitId: Id, ss: seq<State>)
    requires DistinctIds(ss)
    ensures var l := WorkUnitRecord(runId, workUnitId, Ordered(ss));
            && l.invocationCount == |ss|
            && FromLatest(l.firstInvocationId, ss, AnyCall, StartGe, IdOf)
            && LatestCalls(l, ss)
            && FlagsMean(l, ss)
  {
    FlagsOf(runId, workUnitId, Ordered(ss), ss) by { Sorting.SortKeeps(ss, StartLe); }
    Sorting.SortKeeps(ss, StartLe);
    FirstCall(ss);
    LatestCallsOf(runId, workUnitId, Ordered(ss), ss);
  }

  ghost predicate SomeCode(ss: seq<State>, c: L.Code) { exists st :: st in ss && st.rejectionCode == Some(c) }
  ghost predicate SomeOutcome(ss: seq<State>, o: L.Outcome) { exists st :: st in ss && st.outcome == Some(o) }
  ghost predicate SomeVerdict(ss: seq<State>, v: L.Verdict) { exists st :: st in ss && st.assessmentResult == Some(v) }

  /** Some call ended in any way but success. */
  ghost predicate SomeFailure(ss: seq<State>) { exists st :: st in ss && st.outcome.Some? && st.outcome != Some(L.SUCCESS) }

  /** What each value of the transport flag says about the calls. */
  ghost predicate TransportSays(t: TransportStatus, ss: seq<State>) {
    && (t == SCHEMA_MISMATCH <==> SomeCode(ss, L.SCHEMA_MISMATCH))
    && (t == TRANSPORT_FAILURE <==>
          !SomeCode(ss, L.SCHEMA_MISMATCH) && (SomeCode(ss, L.TRANSPORT_MALFORMED) || SomeOutcome(ss, L.TRANSPORT_ERROR)))
    && (t == CALL_FAILURE <==>
          && !SomeCode(ss, L.SCHEMA_MISMATCH) && !SomeCode(ss, L.TRANSPORT_MALFORMED) && !SomeOutcome(ss, L.TRANSPORT_ERROR)
          && SomeFailure(ss))
    && (t == TRANSPORT_OK <==>
          && !SomeCode(ss, L.SCHEMA_MISMATCH) && !SomeCode(ss, L.TRANSPORT_MALFORMED) && !SomeFailure(ss)
          && ss != [] && forall st :: st in ss ==> st.status == L.ASSESSED)
  }

  /** What each value of the verdict flag says about the calls. */
  ghost predicate ValidationSays(v: ControllerValidation, ss: seq<State>) {
    && (v == MIXED <==> SomeVerdict(ss, L.ACCEPTED) && SomeVerdict(ss, L.REJECTED))
    && (v == ALL_ACCEPTED <==> SomeVerdict(ss, L.ACCEPTED) && !SomeVerdict(ss, L.REJECTED))
    && (v == ALL_REJECTED <==> !SomeVerdict(ss, L.ACCEPTED) && SomeVerdict(ss, L.REJECTED))
    && (v == NO_INVOCATION <==> ss == [])
  }

  /** Some call was rejected with a code of meaning. */
  ghost predicate SomeSemanticRejection(ss: seq<State>) {
    exists st :: st in ss && st.assessmentResult == Some(L.REJECTED)
                 && st.rejectionCode in {Some(L.SEMANTIC_CONFLATION), Some(L.UNRESOLVED_SEMANTICS), Some(L.UNSUPPORTED_CLAIM)}
  }

  /** What the flags of a work-unit line say about its calls. */
  ghost predicate FlagsMean(l: WorkUnitLine, ss: seq<State>) {
    TransportSays(l.transport, ss) && ValidationSays(l.validation, ss) && (l.semanticRejected <==> SomeSemanticRejection(ss))
  }

  lemma FlagsOf(runId: Id, workUnitId: Id, ordered: seq<State>, ss: seq<State>)
    requires SameCalls(ordered, ss)
    ensures FlagsMean(WorkUnitRecord(runId, workUnitId, ordered), ss)
  {
    FlagsIgnoreOrder(ordered, ss);
    TransportFlag(ss);
    ValidationFlag(ss);
    SemanticFlag(ordered, ss);
  }

  lemma TransportFlag(ss: seq<State>)
    ensures TransportSays(DeriveTransport(ss), ss)
  {
    TransportMeans(ss);
  }

  lemma ValidationFlag(ss: seq<State>)
    ensures ValidationSays(DeriveControllerValidation(ss), ss)
  {
    if st :| st in ss && WasAccepted(st) { assert SomeVerdict(ss, L.ACCEPTED); }
    if st :| st in ss && WasRejected(st) { assert SomeVerdict(ss, L.REJECTED); }
  }

  lemma SemanticFlag(ordered: seq<State>, ss: seq<State>)
    requires SameCalls(ordered, ss)
    ensures (exists st :: st in ordered && RejectedSemantically(st)) <==> SomeSemanticRejection(ss)
  {
    forall st ensures RejectedSemantically(st) <==>
        st.assessmentResult == Some(L.REJECTED)
        && st.rejectionCode in {Some(L.SEMANTIC_CONFLATION), Some(L.UNRESOLVED_SEMANTICS), Some(L.UNSUPPORTED_CLAIM)} {}
  }

  lemma TransportMeans(ss: seq<State>)
    ensures (exists st :: st in ss && HasSchemaMismatch(st)) <==> SomeCode(ss, L.SCHEMA_MISMATCH)
    ensures (exists st :: st in ss && HasTransportFailure(st)) <==> SomeCode(ss, L.TRANSPORT_MALFORMED) || SomeOutcome(ss, L.TRANSPORT_ERROR)
    ensures (exists st :: st in ss && CallFailed(st)) <==> SomeFailure(ss)
    ensures SomeOutcome(ss, L.TRANSPORT_ERROR) ==> SomeFailure(ss)
  {
    forall st | st in ss ensures CallFailed(st) <==> st.outcome.Some? && st.outcome != Some(L.SUCCESS) {
      if st.outcome.Some? { FailureIsNotSuccess(st.outcome.value); }
    }
    forall st | st in ss && HasTransportFailure(st) ensures SomeCode(ss, L.TRANSPORT_MALFORMED) || SomeOutcome(ss, L.TRANSPORT_ERROR) {}
  }

  lemma FailureIsNotSuccess(o: L.Outcome)
    ensures FailedOutcome(o) <==> o != L.SUCCESS
  {}

  // ---------------------------------------------------------------------------
  // The four projections
  // ---------------------------------------------------------------------------

  predicate IsReview(st: State) { st.role == L.SOL || st.role == L.SOL_PRO }

  function OfUnit(workUnitId: Id): State -> bool { (st: State) => st.workUnitId == workUnitId }

  function UnitIds(ss: seq<State>): seq<Id> { Sorting.Map(ss, (st: State) => st.workUnitId) }

  /** The work units of a run, sorted. */
  function Units(ss: seq<State>): seq<Id> { Sorting.Sort(FirstSeen(UnitIds(ss)), StringLe) }

  predicate KeyLe(run: Id, id: Id, run': Id, id': Id) { if run != run' then StringLe(run, run') else StringLe(id, id') }

  predicate InvocationLineLe(a: InvocationLine, b: InvocationLine) { KeyLe(a.runId, a.invocationId, b.runId, b.invocationId) }
  predicate UsageLineLe(a: UsageLine, b: UsageLine) { KeyLe(a.runId, a.invocationId, b.runId, b.invocationId) }
  predicate ReviewLineLe(a: ReviewLine, b: ReviewLine) {
    MomentLe(StartOfReview(a), StartOfReview(b))
  }

  function RunInvocations(lr: LoadedRun): seq<InvocationLine> { Sorting.Map(Ordered(lr.states), InvocationRecord) }
  function RunUsage(lr: LoadedRun): seq<UsageLine> { Sorting.Map(Ordered(lr.states), UsageRecord) }
  function RunReviews(lr: LoadedRun): seq<ReviewLine> { Sorting.Map(Ordered(Filter(lr.states, IsReview)), ReviewRecord) }

  /** The line of one work unit of a run. */
  function UnitLine(lr: LoadedRun, workUnitId: Id): WorkUnitLine {
    WorkUnitRecord(lr.runId, workUnitId, Ordered(Filter(lr.states, OfUnit(workUnitId))))
  }

  function RunWorkUnits(lr: LoadedRun): seq<WorkUnitLine> {
    var us := Units(lr.states);
    seq(|us|, i requires 0 <= i < |us| => UnitLine(lr, us[i]))
  }

  function InvocationLines(runs: seq<LoadedRun>): seq<InvocationLine> { Sorting.Sort(FlatMap(runs, RunInvocations), InvocationLineLe) }
  function UsageLines(runs: seq<LoadedRun>): seq<UsageLine> { Sorting.Sort(FlatMap(runs, RunUsage), UsageLineLe) }
  function ReviewLines(runs: seq<LoadedRun>): seq<ReviewLine> { Sorting.Sort(FlatMap(runs, RunReviews), ReviewLineLe) }
  function WorkUnitLines(runs: seq<LoadedRun>): seq<WorkUnitLine> { FlatMap(runs, RunWorkUnits) }

  // ---------------------------------------------------------------------------
  // Enumeration order
  // ---------------------------------------------------------------------------

  /** The same runs with their state maps listed in other orders. */
  ghost predicate Relisted(runs: seq<LoadedRun>, others: seq<LoadedRun>) {
    && |runs| == |others|
    && forall i :: 0 <= i < |runs| ==> others[i].runId == runs[i].runId && multiset(others[i].states) == multiset(runs[i].states)
  }

  lemma FilterRelisted(ss: seq<State>, ts: seq<State>, p: State -> bool)
    requires multiset(ss) == multiset(ts)
    ensures multiset(Filter(ss, p)) == multiset(Filter(ts, p))
  {
    forall st ensures multiset(Filter(ss, p))[st] == multiset(Filter(ts, p))[st] {
      FilterCounts(ss, p, st);
      FilterCounts(ts, p, st);
    }
  }

  lemma {:induction false} FilterDistinct(ss: seq<State>, p: State -> bool)
    requires DistinctIds(ss)
    ensures DistinctIds(Filter(ss, p))
  {
    if ss != [] {
      var n := |ss| - 1;
      FilterDistinct(ss[..n], p);
      forall st | st in ss[..n] ensures st.invocationId != ss[n].invocationId {
        var i: nat :| i < n && ss[..n][i] == st;
        assert ss[i] == st;
      }
    }
  }

  lemma UnitsRelisted(ss: seq<State>, ts: seq<State>)
    requires multiset(ss) == multiset(ts)
    ensures Units(ss) == Units(ts)
  {
    var us, vs := FirstSeen(UnitIds(ss)), FirstSeen(UnitIds(ts));
    forall u ensures (u in us <==> u in vs) { SameUnits(ss, ts, u); }
    forall u ensures multiset(us)[u] == multiset(vs)[u] {
      OnceEach(us, u);
      OnceEach(vs, u);
    }
    StringOrdering();
    Sorting.SortForgetsOrder(us, vs, StringLe);
  }

  lemma SameUnits(ss: seq<State>, ts: seq<State>, u: Id)
    requires multiset(ss) == multiset(ts)
    ensures u in UnitIds(ss) <==> u in UnitIds(ts)
  {
    UnitOfState(ss, u);
    UnitOfState(ts, u);
    forall st ensures st in ss <==> st in ts { assert st in multiset(ss) <==> st in multiset(ts); }
  }

  lemma UnitOfState(ss: seq<State>, u: Id)
    ensures u in UnitIds(ss) <==> exists st :: st in ss && st.workUnitId == u
  {
    if u in UnitIds(ss) {
      var i: nat :| i < |ss| && UnitIds(ss)[i] == u;
      assert ss[i] in ss;
    }
    if exists st :: st in ss && st.workUnitId == u {
      var st :| st in ss && st.workUnitId == u;
      var i: nat :| i < |ss| && ss[i] == st;
      assert UnitIds(ss)[i] == u;
    }
  }

  lemma StringOrdering()
    ensures Sorting.Ordering(StringLe)
    ensures forall s: string, t: string :: StringLe(s, t) && StringLe(t, s) ==> s == t
  {
    forall s: string, t: string ensures StringLe(s, t) || StringLe(t, s) ensures StringLe(s, t) && StringLe(t, s) ==> s == t {
      StringLeTotal(s, t);
    }
    forall s: string, t: string, u: string | StringLe(s, t) && StringLe(t, u) ensures StringLe(s, u) {
      TextLeTransitive(Codes(s), Codes(t), Codes(u));
    }
  }

  /** By run, and within a run by identity. */
  ghost predicate Ascends(run: Id, id: Id, run': Id, id': Id) {
    (run != run' ==> StringLe(run, run')) && (run == run' ==> StringLe(id, id'))
  }

  lemma KeyOrdering()
    ensures Sorting.Ordering(InvocationLineLe) && Sorting.Ordering(UsageLineLe)
  {
    StringOrdering();
  }

  /** The order of the lines: invocations and usage by run and identity, reviews by the exact instant they started. */
  lemma LinesAscend(runs: seq<LoadedRun>, i: nat, j: nat)
    requires i < j
    ensures var ls := InvocationLines(runs); j < |ls| ==> Ascends(ls[i].runId, ls[i].invocationId, ls[j].runId, ls[j].invocationId)
    ensures var ls := UsageLines(runs); j < |ls| ==> Ascends(ls[i].runId, ls[i].invocationId, ls[j].runId, ls[j].invocationId)
    ensures var ls := ReviewLines(runs); j < |ls| ==> Exact(InstantOf(ls[i].startedAt)) <= Exact(InstantOf(ls[j].startedAt))
  {
    KeyOrdering();
    Sorting.SortSorts(FlatMap(runs, RunInvocations), InvocationLineLe);
    Sorting.SortSorts(FlatMap(runs, RunUsage), UsageLineLe);
    ReviewsAscend(runs, i, j);
  }

  lemma ReviewsAscend(runs: seq<LoadedRun>, i: nat, j: nat)
    requires i < j
    ensures var ls := ReviewLines(runs); j < |ls| ==> Exact(InstantOf(ls[i].startedAt)) <= Exact(InstantOf(ls[j].startedAt))
  {
    var ls := ReviewLines(runs);
    MomentsAreOrdered();
    forall a: ReviewLine, b: ReviewLine ensures ReviewLineLe(a, b) || ReviewLineLe(b, a) {
      assert MomentLe(StartOfReview(a), StartOfReview(b)) || MomentLe(StartOfReview(b), StartOfReview(a));
    }
    forall a: ReviewLine, b: ReviewLine, c: ReviewLine | ReviewLineLe(a, b) && ReviewLineLe(b, c) ensures ReviewLineLe(a, c) {
      MomentLeTransitive(StartOfReview(a), StartOfReview(b), StartOfReview(c));
    }
    Sorting.SortSorts(FlatMap(runs, RunReviews), ReviewLineLe);
    if j < |ls| {
      assert ReviewLineLe(ls[i], ls[j]);
      MomentLeIs(StartOfReview(ls[i]), StartOfReview(ls[j]));
    }
  }

  function StartOfReview(l: ReviewLine): Moment { Moment(InstantOf(l.startedAt), l.reviewInvocationId) }

  /** No projection depends on the order in which a map lists its states. */
  lemma ProjectionsIgnoreListing(runs: seq<LoadedRun>, others: seq<LoadedRun>)
    requires Relisted(runs, others) && forall lr :: lr in runs ==> DistinctIds(lr.states)
    ensures InvocationLines(runs) == InvocationLines(others) && UsageLines(runs) == UsageLines(others)
    ensures ReviewLines(runs) == ReviewLines(others) && WorkUnitLines(runs) == WorkUnitLines(others)
  {
    forall i | 0 <= i < |runs|
      ensures RunInvocations(runs[i]) == RunInvocations(others[i]) && RunUsage(runs[i]) == RunUsage(others[i])
      ensures RunReviews(runs[i]) == RunReviews(others[i]) && RunWorkUnits(runs[i]) == RunWorkUnits(others[i])
    {
      assert runs[i] in runs;
      OneRunRelisted(runs[i], others[i]);
    }
    FlatMapEqual(runs, others, RunInvocations, RunInvocations);
    FlatMapEqual(runs, others, RunUsage, RunUsage);
    FlatMapEqual(runs, others, RunReviews, RunReviews);
    FlatMapEqual(runs, others, RunWorkUnits, RunWorkUnits);
  }

  lemma OneRunRelisted(lr: LoadedRun, other: LoadedRun)
    requires other.runId == lr.runId && multiset(other.states) == multiset(lr.states) && DistinctIds(lr.states)
    ensures RunInvocations(lr) == RunInvocations(other) && RunUsage(lr) == RunUsage(other)
    ensures RunReviews(lr) == RunReviews(other) && RunWorkUnits(lr) == RunWorkUnits(other)
  {
    OrderedIsUnique(lr.states, other.states);
    PartRelisted(lr.states, other.states, IsReview);
    RunUnitsRelisted(lr, other);
  }

  lemma PartRelisted(ss: seq<State>, ts: seq<State>, p: State -> bool)
    requires DistinctIds(ss) && multiset(ss) == multiset(ts)
    ensures Ordered(Filter(ss, p)) == Ordered(Filter(ts, p))
  {
    FilterRelisted(ss, ts, p);
    FilterDistinct(ss, p);
    OrderedIsUnique(Filter(ss, p), Filter(ts, p));
  }

  lemma RunUnitsRelisted(lr: LoadedRun, other: LoadedRun)
    requires other.runId == lr.runId && multiset(other.states) == multiset(lr.states) && DistinctIds(lr.states)
    ensures RunWorkUnits(lr) == RunWorkUnits(other)
  {
    UnitsRelisted(lr.states, other.states);
    var ls, os := RunWorkUnits(lr), RunWorkUnits(other);
    forall i | 0 <= i < |ls| ensures ls[i] == os[i] { PartRelisted(lr.states, other.states, OfUnit(Units(lr.states)[i])); }
  }
}
