/**
 The append-only invocation ledger: the transition check, the fold that derives
 invocation states, and the lifecycle contract that the fold implements.
 */
module Ledger {
  import opened Options

  type Id = string

  datatype Kind = START | COMPLETION | ASSESSMENT | RECONCILIATION
  datatype Status = STARTED | COMPLETED | ASSESSED | ORPHANED | SUPERSEDED
  datatype Role = WORKER | SOL | SOL_PRO
  datatype Outcome = SUCCESS | FAILURE | TIMEOUT | TRANSPORT_ERROR | CANCELED
  datatype Verdict = ACCEPTED | REJECTED
  datatype Reason = CRASH_AFTER_START | CRASH_AFTER_COMPLETION | DUPLICATE_LIFECYCLE | OTHER
  datatype Usage = Usage(inputTokens: nat, outputTokens: nat, totalTokens: nat)

  /** The shared rejection taxonomy. */
  datatype Code =
    | TRANSPORT_MALFORMED | SCHEMA_MISMATCH | SEMANTIC_CONFLATION | WRONG_BASE | SCOPE_VIOLATION
    | UNRESOLVED_SEMANTICS | UNSUPPORTED_CLAIM | INCOMPLETE_LEDGER | BUDGET_EXHAUSTED
    | SECRET_DENIED_PATH | SOL_ASK_INVALID

  datatype Event =
    | Start(id: Id, workUnitId: Id, role: Role, provider: string, model: string, at: string)
    | Completion(id: Id, outcome: Outcome, usage: Option<Usage>, code: Option<Code>, at: string)
    | Assessment(id: Id, verdict: Verdict, code: Option<Code>, at: string)
    | Reconciliation(id: Id, reason: Reason, replacement: Option<Id>, at: string)
  {
    function Kind(): Kind {
      match this
      case Start(_, _, _, _, _, _) => START
      case Completion(_, _, _, _, _) => COMPLETION
      case Assessment(_, _, _, _) => ASSESSMENT
      case Reconciliation(_, _, _, _) => RECONCILIATION
    }
  }

  datatype Counts = Counts(starts: nat, completions: nat, assessments: nat, reconciliations: nat)
  {
    function Total(): nat { starts + completions + assessments + reconciliations }
  }

  /** The per-invocation state that the fold maintains; absent fields are None. */
  datatype State = State(
    invocationId: Id, runId: Id, workUnitId: Id, status: Status, counts: Counts, role: Role,
    provider: string, model: string,
    startedAt: string, completedAt: Option<string>, assessedAt: Option<string>, reconciledAt: Option<string>,
    outcome: Option<Outcome>, usage: Option<Usage>, rejectionCode: Option<Code>,
    assessmentResult: Option<Verdict>, reconciliationReason: Option<Reason>, supersededBy: Option<Id>)

  type States = map<Id, State>

  datatype Problem =
    | DuplicateStart | CompletionWithoutStart | CompletionNotStarted | AssessmentWithoutStart
    | AssessmentNotCompleted | ReconciliationUnknown | ReconciliationClosed
    | ReplacementSelf | ReplacementNotStarted

  /** The fail-closed transition check: None when the event is legal. */
  function CheckTransition(states: States, ev: Event): Option<Problem> {
    match ev
    case Start(id, _, _, _, _, _) =>
      if id in states then Some(DuplicateStart) else None
    case Completion(id, _, _, _, _) =>
      if id !in states then Some(CompletionWithoutStart)
      else if states[id].status != STARTED then Some(CompletionNotStarted) else None
    case Assessment(id, _, _, _) =>
      if id !in states then Some(AssessmentWithoutStart)
      else if states[id].status != COMPLETED then Some(AssessmentNotCompleted) else None
    case Reconciliation(id, _, replacement, _) =>
      if id !in states then Some(ReconciliationUnknown)
      else if states[id].status != STARTED && states[id].status != COMPLETED then Some(ReconciliationClosed)
      else if replacement.Some? && replacement.value == id then Some(ReplacementSelf)
      else if replacement.Some? && replacement.value !in states then Some(ReplacementNotStarted)
      else None
  }

  /** The state of one invocation after a legal event. */
  function ApplyEvent(runId: Id, states: States, ev: Event): State
    requires CheckTransition(states, ev).None?
  {
    match ev
    case Start(id, wu, role, provider, model, at) =>
      State(id, runId, wu, STARTED, Counts(1, 0, 0, 0), role, provider, model,
            at, None, None, None, None, None, None, None, None, None)
    case Completion(id, outcome, usage, code, at) =>
      var st := states[id];
      st.(status := COMPLETED, counts := st.counts.(completions := st.counts.completions + 1),
          completedAt := Some(at), outcome := Some(outcome), usage := usage, rejectionCode := code)
    case Assessment(id, verdict, code, at) =>
      var st := states[id];
      st.(status := ASSESSED, counts := st.counts.(assessments := st.counts.assessments + 1),
          assessedAt := Some(at), assessmentResult := Some(verdict),
          rejectionCode := if code.Some? then code else st.rejectionCode)
    case Reconciliation(id, reason, replacement, at) =>
      var st := states[id];
      st.(status := if replacement.Some? then SUPERSEDED else ORPHANED,
          counts := st.counts.(reconciliations := st.counts.reconciliations + 1),
          reconciledAt := Some(at), reconciliationReason := Some(reason),
          supersededBy := replacement)
  }

  /** States derived from a ledger; an illegal event is skipped. */
  function Fold(runId: Id, events: seq<Event>): States {
    if events == [] then map[]
    else
      var before := Fold(runId, events[..|events| - 1]);
      var ev := events[|events| - 1];
      if CheckTransition(before, ev).None? then before[ev.id := ApplyEvent(runId, before, ev)] else before
  }

  /** Every event was legal when it was appended. */
  ghost predicate Legal(runId: Id, events: seq<Event>) {
    forall k: nat :: k < |events| ==> LegalAt(runId, events, k)
  }

  predicate LegalAt(runId: Id, events: seq<Event>, k: nat)
    requires k < |events|
  {
    CheckTransition(Fold(runId, events[..k]), events[k]).None?
  }

  /** The positions of the illegal events. */
  function IllegalAt(runId: Id, events: seq<Event>): seq<nat> {
    if events == [] then []
    else
      var before := events[..|events| - 1];
      IllegalAt(runId, before) +
      if CheckTransition(Fold(runId, before), events[|before|]).None? then [] else [|before|]
  }

  lemma {:induction false} IllegalEmpty(runId: Id, events: seq<Event>)
    ensures IllegalAt(runId, events) == [] <==> Legal(runId, events)
  {
    if events != [] {
      var before, ev := events[..|events| - 1], events[|events| - 1];
      assert events == before + [ev];
      IllegalEmpty(runId, before);
      LegalStep(runId, before, ev);
    }
  }

  /** The loop over a ledger: the states, and where the transition check failed. */
  method BuildInvocationStates(runId: Id, events: seq<Event>) returns (states: States, errors: seq<nat>)
    ensures states == Fold(runId, events)
    ensures errors == IllegalAt(runId, events)
    ensures errors == [] <==> Legal(runId, events)
  {
    states, errors := map[], [];
    for i := 0 to |events|
      invariant states == Fold(runId, events[..i])
      invariant errors == IllegalAt(runId, events[..i])
    {
      var ev := events[i];
      assert events[..i + 1][..i] == events[..i];
      if CheckTransition(states, ev).Some? {
        errors := errors + [i];
      } else {
        states := states[ev.id := ApplyEvent(runId, states, ev)];
      }
    }
    assert events[..|events|] == events;
    IllegalEmpty(runId, events);
  }

  // ---------------------------------------------------------------------------
  // The lifecycle contract, stated on the event kinds of one invocation
  // ---------------------------------------------------------------------------

  /** The kinds of the events that name an invocation, in ledger order. */
  function Trace(events: seq<Event>, id: Id): seq<Kind> {
    if events == [] then []
    else
      var before := Trace(events[..|events| - 1], id);
      var ev := events[|events| - 1];
      if ev.id == id then before + [ev.Kind()] else before
  }

  /** One START, at most one COMPLETION, then one ASSESSMENT or one RECONCILIATION. */
  predicate Lifecycle(t: seq<Kind>) {
    || t == []
    || t == [START]
    || t == [START, COMPLETION]
    || t == [START, COMPLETION, ASSESSMENT]
    || t == [START, RECONCILIATION]
    || t == [START, COMPLETION, RECONCILIATION]
  }

  ghost predicate AllLifecycles(events: seq<Event>) { forall id :: Lifecycle(Trace(events, id)) }

  /** A replacement is another invocation whose START is already in the ledger. */
  ghost predicate ReplacementsStarted(events: seq<Event>) {
    forall k :: 0 <= k < |events| ==> ReplacementOk(events, k)
  }

  ghost predicate ReplacementOk(events: seq<Event>, k: nat)
    requires k < |events|
  {
    events[k].Reconciliation? && events[k].replacement.Some? ==>
      events[k].replacement.value != events[k].id && Trace(events[..k], events[k].replacement.value) != []
  }

  /** Where an invocation stands after a trace; Broken when the trace is not a lifecycle. */
  datatype Phase = Absent | Running | Finished | Judged | Cut | CutLate | Broken

  function NextPhase(p: Phase, k: Kind): Phase {
    match (p, k)
    case (Absent, START) => Running
    case (Running, COMPLETION) => Finished
    case (Finished, ASSESSMENT) => Judged
    case (Running, RECONCILIATION) => Cut
    case (Finished, RECONCILIATION) => CutLate
    case _ => Broken
  }

  function PhaseOf(t: seq<Kind>): Phase {
    if t == [] then Absent else NextPhase(PhaseOf(t[..|t| - 1]), t[|t| - 1])
  }

  lemma PhaseStep(t: seq<Kind>, k: Kind)
    ensures PhaseOf(t + [k]) == NextPhase(PhaseOf(t), k)
  {
    assert (t + [k])[..|t|] == t;
  }

  lemma LastOf(t: seq<Kind>, u: seq<Kind>, k: Kind)
    requires t != []
    ensures t == u + [k] <==> t[..|t| - 1] == u && t[|t| - 1] == k
  {
    assert t == t[..|t| - 1] + [t[|t| - 1]];
  }

  /** The one trace of a phase. */
  function TraceOf(p: Phase): seq<Kind>
    requires p != Broken
  {
    match p
    case Absent => []
    case Running => [START]
    case Finished => [START, COMPLETION]
    case Judged => [START, COMPLETION, ASSESSMENT]
    case Cut => [START, RECONCILIATION]
    case CutLate => [START, COMPLETION, RECONCILIATION]
  }

  lemma {:induction false} PhaseIs(t: seq<Kind>, p: Phase)
    requires p != Broken
    ensures PhaseOf(t) == p <==> t == TraceOf(p)
  {
    if t != [] {
      var u := t[..|t| - 1];
      match p
      case Absent =>
      case Running => PhaseIs(u, Absent); LastOf(t, [], START);
      case Finished => PhaseIs(u, Running); LastOf(t, [START], COMPLETION);
      case Judged => PhaseIs(u, Finished); LastOf(t, [START, COMPLETION], ASSESSMENT);
      case Cut => PhaseIs(u, Running); LastOf(t, [START], RECONCILIATION);
      case CutLate => PhaseIs(u, Finished); LastOf(t, [START, COMPLETION], RECONCILIATION);
    }
  }

  /** The traces of each phase, written out. */
  lemma PhaseTraces(t: seq<Kind>)
    ensures PhaseOf(t) == Absent <==> t == []
    ensures PhaseOf(t) == Running <==> t == [START]
    ensures PhaseOf(t) == Finished <==> t == [START, COMPLETION]
    ensures PhaseOf(t) == Judged <==> t == [START, COMPLETION, ASSESSMENT]
    ensures PhaseOf(t) == Cut <==> t == [START, RECONCILIATION]
    ensures PhaseOf(t) == CutLate <==> t == [START, COMPLETION, RECONCILIATION]
    ensures Lifecycle(t) <==> PhaseOf(t) != Broken
  {
    PhaseIs(t, Absent);
    PhaseIs(t, Running);
    PhaseIs(t, Finished);
    PhaseIs(t, Judged);
    PhaseIs(t, Cut);
    PhaseIs(t, CutLate);
  }

  /** How many events of one kind an invocation has. */
  function Count(t: seq<Kind>, k: Kind): nat { multiset(t)[k] }

  function CountsOf(t: seq<Kind>): Counts {
    Counts(Count(t, START), Count(t, COMPLETION), Count(t, ASSESSMENT), Count(t, RECONCILIATION))
  }

  /** The states, one after the other, along a legal ledger. */
  ghost predicate IsTrail(runId: Id, trail: seq<States>, events: seq<Event>) {
    && |trail| == |events| + 1 && trail[0] == map[]
    && forall k: nat :: k < |events| ==> Linked(runId, trail, events, k)
  }

  ghost predicate Linked(runId: Id, trail: seq<States>, events: seq<Event>, k: nat)
    requires |trail| == |events| + 1 && k < |events|
  {
    && CheckTransition(trail[k], events[k]).None?
    && trail[k + 1] == trail[k][events[k].id := ApplyEvent(runId, trail[k], events[k])]
  }

  /** A legal ledger that folds to these states; the form in which a store carries it. */
  ghost predicate Folded(runId: Id, events: seq<Event>, states: States) {
    exists trail :: IsTrail(runId, trail, events) && trail[|events|] == states
  }

  lemma FoldedStep(runId: Id, events: seq<Event>, states: States, ev: Event)
    requires Folded(runId, events, states) && CheckTransition(states, ev).None?
    ensures Folded(runId, events + [ev], states[ev.id := ApplyEvent(runId, states, ev)])
  {
    var trail :| IsTrail(runId, trail, events) && trail[|events|] == states;
    var next := states[ev.id := ApplyEvent(runId, states, ev)];
    var longer, more := trail + [next], events + [ev];
    forall k: nat | k < |more| ensures Linked(runId, longer, more, k) {
      if k < |events| { assert Linked(runId, trail, events, k); }
    }
    assert IsTrail(runId, longer, more) && longer[|more|] == next;
  }

  lemma {:induction false} FoldedMeansLegal(runId: Id, events: seq<Event>, states: States)
    requires Folded(runId, events, states)
    ensures Legal(runId, events) && states == Fold(runId, events)
  {
    if events != [] {
      var n := |events| - 1;
      var trail :| IsTrail(runId, trail, events) && trail[|events|] == states;
      assert Linked(runId, trail, events, n);
      var shorter, less := trail[..n + 1], events[..n];
      forall k: nat | k < n ensures Linked(runId, shorter, less, k) { assert Linked(runId, trail, events, k); }
      assert IsTrail(runId, shorter, less) && shorter[n] == trail[n];
      FoldedMeansLegal(runId, less, trail[n]);
      assert events == less + [events[n]];
      LegalStep(runId, less, events[n]);
      FoldStep(runId, less, events[n]);
    }
  }

  /** How the fields of a state read off the invocation's trace. */
  ghost predicate StateMatches(st: State, t: seq<Kind>) {
    && st.status == (match PhaseOf(t)
                     case Running => STARTED
                     case Finished => COMPLETED
                     case Judged => ASSESSED
                     case _ => if st.supersededBy.Some? then SUPERSEDED else ORPHANED)
    && PhaseOf(t) != Absent && PhaseOf(t) != Broken
    && st.counts == CountsOf(t)
    && (st.assessmentResult.Some? <==> PhaseOf(t) == Judged)
    && (st.outcome.Some? <==> PhaseOf(t) == Finished || PhaseOf(t) == Judged || PhaseOf(t) == CutLate)
  }

  lemma LegalStep(runId: Id, events: seq<Event>, ev: Event)
    ensures Legal(runId, events + [ev]) <==> Legal(runId, events) && CheckTransition(Fold(runId, events), ev).None?
  {
    var es := events + [ev];
    assert es[..|events|] == events;
    forall k: nat | k < |events| ensures LegalAt(runId, es, k) <==> LegalAt(runId, events, k) {
      assert es[..k] == events[..k] && es[k] == events[k];
    }
    if Legal(runId, es) {
      assert LegalAt(runId, es, |events|);
      forall k: nat | k < |events| ensures LegalAt(runId, events, k) { assert LegalAt(runId, es, k); }
    }
  }

  /** In a legal ledger the folded states and the traces tell the same story. */
  lemma {:induction false} FoldMatchesTrace(runId: Id, events: seq<Event>, id: Id)
    requires Legal(runId, events)
    ensures id in Fold(runId, events) <==> Trace(events, id) != []
    ensures id in Fold(runId, events) ==> Fold(runId, events)[id].invocationId == id && Fold(runId, events)[id].runId == runId
    ensures id in Fold(runId, events) ==> StateMatches(Fold(runId, events)[id], Trace(events, id))
  {
    if events != [] {
      var before, ev := events[..|events| - 1], events[|events| - 1];
      assert events == before + [ev];
      LegalStep(runId, before, ev);
      FoldMatchesTrace(runId, before, id);
      TraceStep(before, ev, id);
      FoldStep(runId, before, ev);
      if ev.id == id {
        ApplyMatches(runId, Fold(runId, before), ev, Trace(before, id));
      }
    }
  }

  /** The last event of one kind that names an invocation. */
  function EventOf(events: seq<Event>, id: Id, k: Kind): (r: Option<Event>)
    ensures r.Some? ==> r.value in events && r.value.id == id && r.value.Kind() == k
    ensures r.None? ==> forall ev :: ev in events && ev.id == id ==> ev.Kind() != k
  {
    if events == [] then None
    else
      var ev := events[|events| - 1];
      assert events == events[..|events| - 1] + [ev];
      if ev.id == id && ev.Kind() == k then Some(ev) else EventOf(events[..|events| - 1], id, k)
  }

  /** The fields of a state are those of the events: absent where there is no such event. */
  ghost predicate FieldsMatch(st: State, start: Option<Event>, completion: Option<Event>, assessment: Option<Event>, reconciliation: Option<Event>) {
    // who, for what, and since when: from START
    && (start.Some? && start.value.Start?
        && st.workUnitId == start.value.workUnitId && st.role == start.value.role && st.provider == start.value.provider
        && st.model == start.value.model && st.startedAt == start.value.at)
    // how the provider ended, from COMPLETION
    && (completion.None? ==> st.completedAt.None? && st.outcome.None? && st.usage.None?)
    && (completion.Some? ==>
          && completion.value.Completion? && st.completedAt == Some(completion.value.at)
          && st.outcome == Some(completion.value.outcome) && st.usage == completion.value.usage)
    // the controller's verdict, from ASSESSMENT
    && (assessment.None? ==> st.assessedAt.None? && st.assessmentResult.None?)
    && (assessment.Some? ==>
          assessment.value.Assessment? && st.assessedAt == Some(assessment.value.at) && st.assessmentResult == Some(assessment.value.verdict))
    // the code of the assessment, or else that of the completion
    && (assessment.Some? && assessment.value.code.Some? ==> st.rejectionCode == assessment.value.code)
    && (!(assessment.Some? && assessment.value.code.Some?) ==>
          st.rejectionCode == if completion.Some? then completion.value.code else None)
    // why it was closed, from RECONCILIATION
    && (reconciliation.None? ==> st.reconciledAt.None? && st.reconciliationReason.None? && st.supersededBy.None?)
    && (reconciliation.Some? ==>
          && reconciliation.value.Reconciliation? && st.reconciledAt == Some(reconciliation.value.at)
          && st.reconciliationReason == Some(reconciliation.value.reason) && st.supersededBy == reconciliation.value.replacement)
  }

  ghost predicate ReadsEvents(st: State, events: seq<Event>, id: Id) {
    FieldsMatch(st, EventOf(events, id, START), EventOf(events, id, COMPLETION), EventOf(events, id, ASSESSMENT),
                EventOf(events, id, RECONCILIATION))
  }

  /** In a legal ledger every field of a folded state comes from the event of its kind. */
  lemma {:induction false} FoldReadsEvents(runId: Id, events: seq<Event>, id: Id)
    requires Legal(runId, events)
    ensures id in Fold(runId, events) ==> ReadsEvents(Fold(runId, events)[id], events, id)
  {
    if events != [] {
      var before, ev := events[..|events| - 1], events[|events| - 1];
      assert events == before + [ev];
      LegalStep(runId, before, ev);
      FoldReadsEvents(runId, before, id);
      FoldStep(runId, before, ev);
      EventsOf(before, ev, id);
      if ev.id == id {
        FoldMatchesTrace(runId, before, id);
        ApplyReads(runId, Fold(runId, before), before, ev);
      }
    }
  }

  lemma EventsOf(before: seq<Event>, ev: Event, id: Id)
    ensures forall k :: EventOf(before + [ev], id, k) == if ev.id == id && ev.Kind() == k then Some(ev) else EventOf(before, id, k)
  {
    assert (before + [ev])[..|before|] == before;
  }

  lemma {:induction false} NoEvents(events: seq<Event>, id: Id, k: Kind)
    requires Trace(events, id) == []
    ensures EventOf(events, id, k).None?
  {
    if events != [] {
      NoEvents(events[..|events| - 1], id, k);
    }
  }

  lemma ApplyReads(runId: Id, states: States, before: seq<Event>, ev: Event)
    requires CheckTransition(states, ev).None?
    requires ev.id in states <==> Trace(before, ev.id) != []
    requires ev.id in states ==> ReadsEvents(states[ev.id], before, ev.id) && StateMatches(states[ev.id], Trace(before, ev.id))
    ensures ReadsEvents(ApplyEvent(runId, states, ev), before + [ev], ev.id)
  {
    EventsOf(before, ev, ev.id);
    if ev.id !in states {
      NoEvents(before, ev.id, COMPLETION);
      NoEvents(before, ev.id, ASSESSMENT);
      NoEvents(before, ev.id, RECONCILIATION);
    }
  }

  lemma FoldStep(runId: Id, before: seq<Event>, ev: Event)
    requires CheckTransition(Fold(runId, before), ev).None?
    ensures Fold(runId, before + [ev]) == Fold(runId, before)[ev.id := ApplyEvent(runId, Fold(runId, before), ev)]
  {
    assert (before + [ev])[..|before|] == before;
  }

  /** One legal event moves a state that matches its trace to one that matches the longer trace. */
  lemma ApplyMatches(runId: Id, states: States, ev: Event, t: seq<Kind>)
    requires CheckTransition(states, ev).None?
    requires ev.id in states <==> t != []
    requires ev.id in states ==>
               states[ev.id].invocationId == ev.id && states[ev.id].runId == runId && StateMatches(states[ev.id], t)
    ensures StateMatches(ApplyEvent(runId, states, ev), t + [ev.Kind()])
    ensures ApplyEvent(runId, states, ev).invocationId == ev.id && ApplyEvent(runId, states, ev).runId == runId
  {
    PhaseStep(t, ev.Kind());
    CountsStep(t, ev.Kind());
  }

  lemma CountsStep(t: seq<Kind>, k: Kind)
    ensures CountsOf(t + [k]) ==
            var c := CountsOf(t);
            match k
            case START => c.(starts := c.starts + 1)
            case COMPLETION => c.(completions := c.completions + 1)
            case ASSESSMENT => c.(assessments := c.assessments + 1)
            case RECONCILIATION => c.(reconciliations := c.reconciliations + 1)
  {}

  /** The transition check, read off the phase of the named invocation. */
  lemma CheckByPhase(states: States, ev: Event, p: Phase)
    requires p != Broken && (ev.id in states <==> p != Absent)
    requires ev.id in states ==>
               && (states[ev.id].status == STARTED <==> p == Running) && (states[ev.id].status == COMPLETED <==> p == Finished)
    ensures CheckTransition(states, ev).None? <==>
            && NextPhase(p, ev.Kind()) != Broken
            && (ev.Reconciliation? && ev.replacement.Some? ==> ev.replacement.value != ev.id && ev.replacement.value in states)
  {}

  /** One more event: its lifecycle side condition is exactly the transition check. */
  lemma CheckIffPhase(runId: Id, before: seq<Event>, ev: Event)
    requires Legal(runId, before)
    ensures CheckTransition(Fold(runId, before), ev).None? <==>
            && PhaseOf(Trace(before, ev.id) + [ev.Kind()]) != Broken
            && ReplacementOk(before + [ev], |before|)
  {
    assert (before + [ev])[..|before|] == before;
    var t := Trace(before, ev.id);
    FoldMatchesTrace(runId, before, ev.id);
    PhaseStep(t, ev.Kind());
    PhaseTraces(t);
    if ev.Reconciliation? && ev.replacement.Some? { FoldMatchesTrace(runId, before, ev.replacement.value); }
    CheckByPhase(Fold(runId, before), ev, PhaseOf(t));
  }

  lemma TraceStep(events: seq<Event>, ev: Event, id: Id)
    ensures Trace(events + [ev], id) == Trace(events, id) + if ev.id == id then [ev.Kind()] else []
  {
    assert (events + [ev])[..|events|] == events;
  }

  /**
   The fail-closed check accepts exactly the ledgers of the documented lifecycle: each
   invocation's events form one START, one COMPLETION, one ASSESSMENT, or are cut short by one
   RECONCILIATION, and every replacement was started first.
   */
  lemma {:induction false} LegalIffLifecycle(runId: Id, events: seq<Event>)
    ensures Legal(runId, events) <==>
            AllLifecycles(events) && ReplacementsStarted(events)
  {
    if events != [] {
      var before, ev := events[..|events| - 1], events[|events| - 1];
      assert events == before + [ev];
      LegalStep(runId, before, ev);
      LegalIffLifecycle(runId, before);
      LifecycleStep(before, ev);
      if Legal(runId, before) { CheckIffPhase(runId, before, ev); }
    }
  }

  lemma LifecycleStep(before: seq<Event>, ev: Event)
    ensures AllLifecycles(before + [ev]) && ReplacementsStarted(before + [ev]) <==>
            && AllLifecycles(before) && ReplacementsStarted(before)
            && PhaseOf(Trace(before, ev.id) + [ev.Kind()]) != Broken && ReplacementOk(before + [ev], |before|)
  {
    TracesStep(before, ev);
    ReplacementsStep(before, ev);
  }

  lemma ReplacementsStep(before: seq<Event>, ev: Event)
    ensures ReplacementsStarted(before + [ev]) <==> ReplacementsStarted(before) && ReplacementOk(before + [ev], |before|)
  {
    var es := before + [ev];
    forall k: nat | k < |before| ensures ReplacementOk(es, k) <==> ReplacementOk(before, k) {
      assert es[..k] == before[..k] && es[k] == before[k];
    }
    if ReplacementsStarted(es) {
      forall k: nat | k < |before| ensures ReplacementOk(before, k) { assert ReplacementOk(es, k); }
    }
  }

  lemma TracesStep(before: seq<Event>, ev: Event)
    ensures AllLifecycles(before + [ev]) <==>
            AllLifecycles(before) && PhaseOf(Trace(before, ev.id) + [ev.Kind()]) != Broken
  {
    var es, last := before + [ev], Trace(before, ev.id) + [ev.Kind()];
    PhaseTraces(last);
    LifecyclePrefix(Trace(before, ev.id), ev.Kind());
    TraceStep(before, ev, ev.id);
    if AllLifecycles(es) {
      assert Lifecycle(Trace(es, ev.id));
      forall id ensures Lifecycle(Trace(before, id)) {
        TraceStep(before, ev, id);
        assert Lifecycle(Trace(es, id));
      }
    }
    if AllLifecycles(before) && PhaseOf(last) != Broken {
      forall id ensures Lifecycle(Trace(es, id)) {
        TraceStep(before, ev, id);
        assert Lifecycle(Trace(before, id));
      }
    }
  }

  lemma LifecyclePrefix(t: seq<Kind>, k: Kind)
    ensures Lifecycle(t + [k]) ==> Lifecycle(t)
  {
    PhaseTraces(t);
    PhaseTraces(t + [k]);
    PhaseStep(t, k);
  }

  /**
   At most one COMPLETION, at most one ASSESSMENT, never both an ASSESSMENT and a
   RECONCILIATION, for every invocation of every legal ledger.
   */
  lemma AtMostOnce(runId: Id, events: seq<Event>, id: Id)
    requires Legal(runId, events)
    ensures forall k :: Count(Trace(events, id), k) <= 1
    ensures !(ASSESSMENT in Trace(events, id) && RECONCILIATION in Trace(events, id))
    ensures ASSESSMENT in Trace(events, id) ==> COMPLETION in Trace(events, id)
  {
    LegalIffLifecycle(runId, events);
    assert Lifecycle(Trace(events, id));
  }

  predicate IsFinal(s: Status) { s == ASSESSED || s == ORPHANED || s == SUPERSEDED }

  /** The invocations that the finalizer would report as incomplete. */
  function Incomplete(states: States): set<Id> {
    set id | id in states && !IsFinal(states[id].status)
  }
}
