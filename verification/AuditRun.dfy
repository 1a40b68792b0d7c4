/**
 Loaded runs: the invocation states of a validated ledger, in whatever order the map lists them, with
 the ledger's own summary.
 */
module AuditRuns {
  import opened Options
  import opened Ledger
  import opened Time
  import Sorting
  import opened Lists

  datatype Summary = Summary(events: nat, invocations: nat, starts: nat, completions: nat, assessments: nat, reconciliations: nat)

  datatype LoadedRun = LoadedRun(runId: Id, createdAt: string, states: seq<State>, summary: Summary)

  function CountKind(events: seq<Event>, k: Kind): nat {
    if events == [] then 0 else CountKind(events[..|events| - 1], k) + if events[|events| - 1].Kind() == k then 1 else 0
  }

  /** The ledger's summary: how long it is, and the sums of the per-invocation counts. */
  function SummaryOf(runId: Id, events: seq<Event>): Summary {
    var ss := Listing(runId, events);
    Summary(|events|, |ss|, Sum(ss, Counter(START)), Sum(ss, Counter(COMPLETION)), Sum(ss, Counter(ASSESSMENT)),
            Sum(ss, Counter(RECONCILIATION)))
  }

  /** Where an invocation stands in a list of states. */
  function IndexOf(ss: seq<State>, id: Id): (i: nat)
    ensures i <= |ss| && (i < |ss| ==> ss[i].invocationId == id)
    ensures forall j :: 0 <= j < i ==> ss[j].invocationId != id
  {
    if ss == [] then 0 else if ss[0].invocationId == id then 0 else 1 + IndexOf(ss[1..], id)
  }

  /** The states of a ledger in the order of their STARTs. */
  function Listing(runId: Id, events: seq<Event>): seq<State> {
    if events == [] then [] else
      var before, ev := events[..|events| - 1], events[|events| - 1];
      var ss, states := Listing(runId, before), Fold(runId, before);
      if CheckTransition(states, ev).Some? then ss
      else Placed(ss, ApplyEvent(runId, states, ev))
  }

  /** The states and the summary are those of a ledger of the documented lifecycle, listed in any order. */
  ghost predicate Derived(lr: LoadedRun) {
    exists events :: DerivedFrom(lr, events)
  }

  ghost predicate DerivedFrom(lr: LoadedRun, events: seq<Event>) {
    Legal(lr.runId, events) && lr.summary == SummaryOf(lr.runId, events) && multiset(lr.states) == multiset(Listing(lr.runId, events))
  }

  predicate DistinctIds(ss: seq<State>) { forall i, j :: 0 <= i < j < |ss| ==> ss[i].invocationId != ss[j].invocationId }

  // ---------------------------------------------------------------------------
  // The listing and the fold
  // ---------------------------------------------------------------------------

  lemma {:induction false} ListingIsFold(runId: Id, events: seq<Event>)
    requires Legal(runId, events)
    ensures ListsAll(Listing(runId, events), Fold(runId, events))
  {
    if events != [] {
      var before, ev := events[..|events| - 1], events[|events| - 1];
      assert events == before + [ev];
      LegalStep(runId, before, ev);
      ListingIsFold(runId, before);
      FoldStep(runId, before, ev);
      FoldIds(runId, events);
      FoldMatchesTrace(runId, events, ev.id);
      PlaceState(Listing(runId, before), Fold(runId, before), ApplyEvent(runId, Fold(runId, before), ev));
    }
  }

  lemma FoldIds(runId: Id, events: seq<Event>)
    requires Legal(runId, events)
    ensures forall id :: id in Fold(runId, events) ==> Fold(runId, events)[id].invocationId == id && Fold(runId, events)[id].runId == runId
  {
    forall id | id in Fold(runId, events) ensures Fold(runId, events)[id].invocationId == id && Fold(runId, events)[id].runId == runId {
      FoldMatchesTrace(runId, events, id);
    }
  }

  /** A list lists a map. */
  ghost predicate ListsAll(ss: seq<State>, m: States) {
    && DistinctIds(ss)
    && (forall st :: st in ss ==> st.invocationId in m && m[st.invocationId] == st)
    && (forall id :: id in m ==> m[id].invocationId == id && m[id] in ss)
  }

  /** The list with one state put in its place. */
  function Placed(ss: seq<State>, st: State): seq<State> {
    var i := IndexOf(ss, st.invocationId);
    if i < |ss| then ss[i := st] else ss + [st]
  }

  lemma PlacedAt(ss: seq<State>, st: State)
    requires DistinctIds(ss)
    ensures var i, ts := IndexOf(ss, st.invocationId), Placed(ss, st);
            && i < |ts| && ts[i] == st && |ss| <= |ts| && (i < |ss| ==> |ts| == |ss|) && (i >= |ss| ==> i == |ss| && |ts| == i + 1)
            && forall j :: 0 <= j < |ts| && j != i ==> ts[j] == ss[j] && ss[j].invocationId != st.invocationId
  {}

  lemma PlaceState(ss: seq<State>, m: States, st: State)
    requires ListsAll(ss, m)
    ensures ListsAll(Placed(ss, st), m[st.invocationId := st])
  {
    PlacedAt(ss, st);
    PlacedDistinct(ss, st);
    var i, ts := IndexOf(ss, st.invocationId), Placed(ss, st);
    forall x | x in ts ensures x.invocationId in m[st.invocationId := st] && m[st.invocationId := st][x.invocationId] == x {
      var j: nat :| j < |ts| && ts[j] == x;
      if j != i { assert ss[j] in ss; }
    }
    forall k | k in m && k != st.invocationId ensures m[k] in ts {
      var j: nat :| j < |ss| && ss[j] == m[k];
      assert ts[j] == m[k];
    }
    assert ts[i] in ts;
  }

  lemma PlacedDistinct(ss: seq<State>, st: State)
    requires DistinctIds(ss)
    ensures DistinctIds(Placed(ss, st))
  {
    PlacedAt(ss, st);
  }

  // ---------------------------------------------------------------------------
  // Sums over states
  // ---------------------------------------------------------------------------

  function Sum(ss: seq<State>, f: State -> nat): nat {
    if ss == [] then 0 else Sum(ss[..|ss| - 1], f) + f(ss[|ss| - 1])
  }

  lemma {:induction false} SumConcat(ss: seq<State>, ts: seq<State>, f: State -> nat)
    ensures Sum(ss + ts, f) == Sum(ss, f) + Sum(ts, f)
  {
    if ts == [] {
      assert ss + ts == ss;
    } else {
      assert (ss + ts)[..|ss + ts| - 1] == ss + ts[..|ts| - 1];
      SumConcat(ss, ts[..|ts| - 1], f);
    }
  }

  lemma SumUpdate(ss: seq<State>, i: nat, st: State, f: State -> nat)
    requires i < |ss|
    ensures Sum(ss[i := st], f) == Sum(ss, f) - f(ss[i]) + f(st)
  {
    assert ss == ss[..i] + [ss[i]] + ss[i + 1..];
    assert ss[i := st] == ss[..i] + [st] + ss[i + 1..];
    SumConcat(ss[..i] + [ss[i]], ss[i + 1..], f);
    SumConcat(ss[..i] + [st], ss[i + 1..], f);
    SumConcat(ss[..i], [ss[i]], f);
    SumConcat(ss[..i], [st], f);
    assert [ss[i]][..0] == [] && [st][..0] == [];
  }

  /** A sum does not depend on the order. */
  lemma {:induction false} SumForgetsOrder(ss: seq<State>, ts: seq<State>, f: State -> nat)
    requires multiset(ss) == multiset(ts)
    ensures Sum(ss, f) == Sum(ts, f) && |ss| == |ts|
  {
    assert |multiset(ss)| == |ss| && |multiset(ts)| == |ts|;
    if ss != [] {
      var n := |ss| - 1;
      assert ss[n] in multiset(ts);
      var i: nat :| i < |ts| && ts[i] == ss[n];
      var rest := ts[..i] + ts[i + 1..];
      assert ts == ts[..i] + [ts[i]] + ts[i + 1..];
      assert ss == ss[..n] + [ss[n]];
      assert multiset(rest) == multiset(ts) - multiset{ts[i]};
      SumForgetsOrder(ss[..n], rest, f);
      SumConcat(ts[..i], ts[i + 1..], f);
      SumConcat(ts[..i] + [ts[i]], ts[i + 1..], f);
      SumConcat(ts[..i], [ts[i]], f);
      assert [ts[i]][..0] == [];
    }
  }

  lemma {:induction false} SumEqual(ss: seq<State>, f: State -> nat, g: State -> nat)
    requires forall st :: st in ss ==> f(st) == g(st)
    ensures Sum(ss, f) == Sum(ss, g)
  {
    if ss != [] { SumEqual(ss[..|ss| - 1], f, g); }
  }

  function One(st: State): nat { 1 }
  function IsAssessed(st: State): nat { if st.status == ASSESSED then 1 else 0 }
  function IsReconciled(st: State): nat { if st.status == ORPHANED || st.status == SUPERSEDED then 1 else 0 }
  function IsRejected(st: State): nat { if st.assessmentResult == Some(REJECTED) then 1 else 0 }

  /** How an event changes one count of its invocation. */
  function CountOf(c: Counts, k: Kind): nat {
    match k case START => c.starts case COMPLETION => c.completions case ASSESSMENT => c.assessments case RECONCILIATION => c.reconciliations
  }

  function Counter(k: Kind): State -> nat { (st: State) => CountOf(st.counts, k) }

  lemma KnownIffListed(ss: seq<State>, m: States, id: Id)
    requires ListsAll(ss, m)
    ensures IndexOf(ss, id) < |ss| <==> id in m
    ensures id in m ==> ss[IndexOf(ss, id)] == m[id]
  {
    var i := IndexOf(ss, id);
    if id in m {
      var j: nat :| j < |ss| && ss[j] == m[id];
      assert i <= j;
    }
    if i < |ss| { assert ss[i] in ss; }
  }

  lemma PlacedSum(ss: seq<State>, st: State, f: State -> nat)
    ensures var i := IndexOf(ss, st.invocationId);
            Sum(Placed(ss, st), f) == Sum(ss, f) + f(st) - if i < |ss| then f(ss[i]) else 0
  {
    var i := IndexOf(ss, st.invocationId);
    if i < |ss| {
      SumUpdate(ss, i, st, f);
    } else {
      SumConcat(ss, [st], f);
      assert [st][..0] == [];
    }
  }

  /** One more event adds one to the sum of its own kind. */
  lemma PlaceCounts(runId: Id, ss: seq<State>, states: States, ev: Event, k: Kind)
    requires ListsAll(ss, states) && CheckTransition(states, ev).None?
    ensures Sum(Placed(ss, ApplyEvent(runId, states, ev)), Counter(k)) == Sum(ss, Counter(k)) + if ev.Kind() == k then 1 else 0
  {
    var st := ApplyEvent(runId, states, ev);
    AppliedId(runId, states, ev);
    KnownIffListed(ss, states, ev.id);
    EventCounts(runId, states, ev, k);
    PlacedSum(ss, st, Counter(k));
  }

  lemma AppliedId(runId: Id, states: States, ev: Event)
    requires CheckTransition(states, ev).None?
    requires ev.id in states ==> states[ev.id].invocationId == ev.id
    ensures ApplyEvent(runId, states, ev).invocationId == ev.id
  {}

  /** The per-invocation counts add up to the events of the ledger, kind by kind. */
  lemma {:induction false} CountsAddUp(runId: Id, events: seq<Event>, k: Kind)
    requires Legal(runId, events)
    ensures Sum(Listing(runId, events), Counter(k)) == CountKind(events, k)
  {
    if events != [] {
      var before, ev := events[..|events| - 1], events[|events| - 1];
      assert events == before + [ev];
      LegalStep(runId, before, ev);
      CountsAddUp(runId, before, k);
      ListingIsFold(runId, before);
      PlaceCounts(runId, Listing(runId, before), Fold(runId, before), ev, k);
    }
  }

  /** One event counts once, for its own kind. */
  lemma EventCounts(runId: Id, states: States, ev: Event, k: Kind)
    requires CheckTransition(states, ev).None?
    ensures CountOf(ApplyEvent(runId, states, ev).counts, k)
            == (if ev.id in states then CountOf(states[ev.id].counts, k) else 0) + if ev.Kind() == k then 1 else 0
  {}

  lemma {:induction false} KindsPartition(events: seq<Event>)
    ensures |events| == CountKind(events, START) + CountKind(events, COMPLETION) + CountKind(events, ASSESSMENT) + CountKind(events, RECONCILIATION)
  {
    if events != [] { KindsPartition(events[..|events| - 1]); }
  }

  // ---------------------------------------------------------------------------
  // What the summary of a lifecycle ledger says about its states
  // ---------------------------------------------------------------------------

  /** Where the status of an invocation determines how often it was started, assessed and reconciled. */
  predicate StateCounts(st: State) {
    && st.counts.starts == 1 && st.counts.assessments == IsAssessed(st) && st.counts.reconciliations == IsReconciled(st)
    && (st.assessmentResult.Some? <==> st.status == ASSESSED)
  }

  lemma LedgerStateCounts(runId: Id, events: seq<Event>, id: Id)
    requires Legal(runId, events) && id in Fold(runId, events)
    ensures StateCounts(Fold(runId, events)[id]) && Fold(runId, events)[id].runId == runId
  {
    FoldMatchesTrace(runId, events, id);
    PhaseTraces(Trace(events, id));
  }

  /** The states of a run are its own, once each. */
  lemma StatesAgree(lr: LoadedRun)
    requires Derived(lr)
    ensures DistinctIds(lr.states) && forall st :: st in lr.states ==> StateCounts(st) && st.runId == lr.runId
  {
    var events :| DerivedFrom(lr, events);
    var ss := Listing(lr.runId, events);
    ListingIsFold(lr.runId, events);
    PermutedIds(ss, lr.states);
    forall st | st in lr.states ensures StateCounts(st) && st.runId == lr.runId {
      assert st in multiset(ss);
      LedgerStateCounts(lr.runId, events, st.invocationId);
    }
  }

  lemma SumsAgree(lr: LoadedRun, events: seq<Event>)
    requires DerivedFrom(lr, events)
    ensures lr.summary.starts == Sum(lr.states, Counter(START))
    ensures lr.summary.completions == Sum(lr.states, Counter(COMPLETION))
    ensures lr.summary.assessments == Sum(lr.states, Counter(ASSESSMENT))
    ensures lr.summary.reconciliations == Sum(lr.states, Counter(RECONCILIATION))
    ensures lr.summary.events == lr.summary.starts + lr.summary.completions + lr.summary.assessments + lr.summary.reconciliations
  {
    var ss := Listing(lr.runId, events);
    SumForgetsOrder(lr.states, ss, Counter(START));
    SumForgetsOrder(lr.states, ss, Counter(COMPLETION));
    SumForgetsOrder(lr.states, ss, Counter(ASSESSMENT));
    SumForgetsOrder(lr.states, ss, Counter(RECONCILIATION));
    EventsAddUp(lr.runId, events);
  }

  /** The summary agrees with the states, however they are listed. */
  lemma SummaryAgrees(lr: LoadedRun)
    requires Derived(lr)
    ensures lr.summary.starts == Sum(lr.states, Counter(START)) == |lr.states|
    ensures lr.summary.completions == Sum(lr.states, Counter(COMPLETION))
    ensures lr.summary.assessments == Sum(lr.states, Counter(ASSESSMENT)) == Sum(lr.states, IsAssessed)
    ensures lr.summary.reconciliations == Sum(lr.states, Counter(RECONCILIATION)) == Sum(lr.states, IsReconciled)
    ensures lr.summary.events == lr.summary.starts + lr.summary.completions + lr.summary.assessments + lr.summary.reconciliations
  {
    var events :| DerivedFrom(lr, events);
    SumsAgree(lr, events);
    StatesAgree(lr);
    SumEqual(lr.states, Counter(START), One);
    SumOfOnes(lr.states);
    SumEqual(lr.states, Counter(ASSESSMENT), IsAssessed);
    SumEqual(lr.states, Counter(RECONCILIATION), IsReconciled);
  }

  lemma EventsAddUp(runId: Id, events: seq<Event>)
    requires Legal(runId, events)
    ensures var s := SummaryOf(runId, events); s.events == s.starts + s.completions + s.assessments + s.reconciliations
  {
    CountsAddUp(runId, events, START);
    CountsAddUp(runId, events, COMPLETION);
    CountsAddUp(runId, events, ASSESSMENT);
    CountsAddUp(runId, events, RECONCILIATION);
    KindsPartition(events);
  }

  lemma {:induction false} SumOfOnes(ss: seq<State>)
    ensures Sum(ss, One) == |ss|
  {
    if ss != [] { SumOfOnes(ss[..|ss| - 1]); }
  }

  /** Distinct identities survive a rearrangement. */
  lemma PermutedIds(ss: seq<State>, ts: seq<State>)
    requires DistinctIds(ss) && multiset(ss) == multiset(ts)
    ensures DistinctIds(ts)
  {
    forall i, j | 0 <= i < j < |ts| ensures ts[i].invocationId != ts[j].invocationId {
      assert ts[i] in multiset(ss) && ts[j] in multiset(ss);
      if ts[i].invocationId == ts[j].invocationId {
        OncePerId(ss, ts[i]);
        Twice(ts, i, j);
      }
    }
  }

  lemma {:induction false} OncePerId(ss: seq<State>, st: State)
    requires DistinctIds(ss) && st in ss
    ensures multiset(ss)[st] == 1
    ensures forall x :: x in ss && x.invocationId == st.invocationId ==> x == st
  {
    var i: nat :| i < |ss| && ss[i] == st;
    assert ss == ss[..i] + [st] + ss[i + 1..];
    assert st !in ss[..i] && st !in ss[i + 1..];
  }
}
