/**
 One worker attempt: the guarded provider region, its catch block, and the assessment that follows.
 Everything the outside world answers is a field of WorkerAnswers and is arbitrary.
 */
module WorkerAttempts {
  import opened Options
  import opened Ledger
  import opened RunStores

  /** An error code as it arrives: in the shared taxonomy or not. */
  datatype RawCode = Known(code: Code) | Unknown

  function CanonicalCode(raw: RawCode): Code {
    if raw.Known? then raw.code else UNSUPPORTED_CLAIM
  }

  datatype ItemKind = Test | SecretScan | OtherItem
  datatype Item = Item(kind: ItemKind, pass: bool)

  /** The optional semantic validator: absent, an answer, or something that is not an answer. */
  datatype SemanticAnswer = NoValidator | Decided(accepted: bool, code: Option<RawCode>) | Malformed

  datatype ProviderResult = ProviderResult(timedOut: bool, error: bool, processCompleted: bool, statusZero: bool)

  datatype Evidence = Evidence(changedPaths: nat, diffClean: bool, patchTextPresent: bool)

  datatype WorkerAnswers = WorkerAnswers(
    invocationId: Id, workUnitId: Id, external: bool, quiescenceVerified: bool, quiescenceKnown: bool,
    invocation: Option<ProviderResult>,
    safetyError: Option<RawCode>, evidenceError: Option<RawCode>, evidence: Option<Evidence>,
    validation: Option<seq<Item>>, secretScanPass: bool,
    schemaValid: bool, unitMatches: bool, transportDefect: Option<RawCode>,
    semantic: SemanticAnswer, configRejection: Option<RawCode>)

  const FAILED_CALL := ProviderResult(false, true, false, false)

  function OutcomeOf(p: ProviderResult): Outcome {
    if p.timedOut then TIMEOUT
    else if p.error || !p.processCompleted then TRANSPORT_ERROR
    else if p.statusZero then SUCCESS else FAILURE
  }

  /** The validation items of the base+patch copy; a validation that threw leaves one failing test. */
  function ValidationItems(a: WorkerAnswers): seq<Item> {
    if a.evidence.Some? && a.evidence.value.patchTextPresent then
      (if a.validation.Some? then a.validation.value else [Item(Test, false)]) + [Item(SecretScan, a.secretScanPass)]
    else []
  }

  predicate EveryPasses(items: seq<Item>, kind: ItemKind) {
    forall i :: 0 <= i < |items| && items[i].kind == kind ==> items[i].pass
  }

  predicate PatchValid(a: WorkerAnswers) {
    && a.safetyError.None? && a.evidenceError.None? && a.evidence.Some?
    && a.evidence.value.changedPaths > 0 && a.evidence.value.diffClean
    && EveryPasses(ValidationItems(a), Test) && EveryPasses(ValidationItems(a), SecretScan)
  }

  predicate TransportValid(a: WorkerAnswers) { a.schemaValid && a.unitMatches }

  /** The controller's own decision about an attempt, from facts it observed itself. */
  datatype Judgement = Judgement(accepted: bool, code: Option<Code>)

  function Judge(a: WorkerAnswers, p: ProviderResult): Judgement {
    var patchValid := PatchValid(a);
    var (semanticAccepted, semanticCode) :=
      if patchValid && a.configRejection.Some? then (false, a.configRejection)
      else if patchValid && a.semantic.Decided? then (a.semantic.accepted, if a.semantic.accepted then None else a.semantic.code)
      else (patchValid, None);
    var raw: Option<RawCode> :=
      if a.safetyError.Some? then a.safetyError
      else if a.evidenceError.Some? then a.evidenceError
      else if !TransportValid(a) then
        (if a.transportDefect.Some? then a.transportDefect
         else Some(Known(if p.statusZero then SCHEMA_MISMATCH else TRANSPORT_MALFORMED)))
      else if !patchValid then
        Some(Known(if EveryPasses(ValidationItems(a), SecretScan) then SCOPE_VIOLATION else SECRET_DENIED_PATH))
      else if !semanticAccepted then (if semanticCode.Some? then semanticCode else Some(Known(UNSUPPORTED_CLAIM)))
      else None;
    var accepted := patchValid && TransportValid(a) && semanticAccepted && p.statusZero;
    Judgement(accepted, if accepted then None else Some(CanonicalCode(if raw.Some? then raw.value else Known(UNSUPPORTED_CLAIM))))
  }

  // ---------------------------------------------------------------------------
  // The decision, read off the facts one by one
  // ---------------------------------------------------------------------------

  /** A validation result of this kind passes, or says nothing about it. */
  predicate Passes(item: Item, kind: ItemKind) { item.kind != kind || item.pass }

  /** The scan of the patch text, and every validation result of that kind, found no secret. */
  ghost predicate SecretsFound(a: WorkerAnswers) {
    && a.evidence.Some? && a.evidence.value.patchTextPresent
    && (!a.secretScanPass || (a.validation.Some? && exists item :: item in a.validation.value && !Passes(item, SecretScan)))
  }

  /** The exit was safe, the evidence was collected, changes something, is clean, and survived its validation. */
  ghost predicate SoundPatch(a: WorkerAnswers) {
    && a.safetyError.None? && a.evidenceError.None?
    && a.evidence.Some? && a.evidence.value.changedPaths > 0 && a.evidence.value.diffClean && !SecretsFound(a)
    && (a.evidence.value.patchTextPresent ==>
          a.validation.Some? && forall item :: item in a.validation.value ==> Passes(item, Test))
  }

  /** The validator, when there is one, accepted, and the configuration does not reject. */
  ghost predicate SemanticsPass(a: WorkerAnswers) {
    a.configRejection.None? && (a.semantic.Decided? ==> a.semantic.accepted)
  }

  /** Patch, handoff, semantics and a provider that exited with status zero. */
  ghost predicate Earned(a: WorkerAnswers) {
    && SoundPatch(a) && a.schemaValid && a.unitMatches && SemanticsPass(a)
    && a.invocation.Some? && a.invocation.value.statusZero
  }

  /** A raw code is recorded as itself when the taxonomy has it. */
  ghost predicate Records(code: Option<Code>, raw: RawCode) {
    code == Some(match raw case Known(c) => c case Unknown => UNSUPPORTED_CLAIM)
  }

  /** Which code a rejection carries: the first of these reasons that there is. */
  ghost predicate RejectedAs(a: WorkerAnswers, code: Option<Code>) {
    if a.safetyError.Some? then Records(code, a.safetyError.value)
    else if a.evidenceError.Some? then Records(code, a.evidenceError.value)
    else if !a.schemaValid || !a.unitMatches then
      if a.transportDefect.Some? then Records(code, a.transportDefect.value)
      else code == Some(if a.invocation.Some? && a.invocation.value.statusZero then SCHEMA_MISMATCH else TRANSPORT_MALFORMED)
    else if SecretsFound(a) then code == Some(SECRET_DENIED_PATH)
    else if !SoundPatch(a) then code == Some(SCOPE_VIOLATION)
    else if a.configRejection.Some? then Records(code, a.configRejection.value)
    else if a.semantic.Decided? && !a.semantic.accepted && a.semantic.code.Some? then Records(code, a.semantic.code.value)
    else code == Some(UNSUPPORTED_CLAIM)
  }

  /** The decision is acceptance exactly when it is earned; otherwise the code says why. */
  lemma DecisionIsEarned(a: WorkerAnswers)
    ensures RegionJudgement(a).accepted <==> Earned(a)
    ensures RegionJudgement(a).accepted <==> RegionJudgement(a).code.None?
    ensures !Earned(a) ==> RejectedAs(a, RegionJudgement(a).code)
  {
    PatchIsSound(a);
  }

  lemma PatchIsSound(a: WorkerAnswers)
    ensures PatchValid(a) <==> SoundPatch(a)
    ensures EveryPasses(ValidationItems(a), SecretScan) <==> !SecretsFound(a)
  {
    if a.evidence.Some? && a.evidence.value.patchTextPresent {
      var items, scan := ValidationItems(a), Item(SecretScan, a.secretScanPass);
      var given := if a.validation.Some? then a.validation.value else [Item(Test, false)];
      assert forall item :: item in items <==> item in given || item == scan;
      assert scan in items && given[..] == given && (a.validation.None? ==> given[0] in items);
      ItemsPass(items, SecretScan);
      ItemsPass(items, Test);
    }
  }

  lemma ItemsPass(items: seq<Item>, kind: ItemKind)
    ensures EveryPasses(items, kind) <==> forall item :: item in items ==> Passes(item, kind)
  {
    if EveryPasses(items, kind) {
      forall item | item in items ensures Passes(item, kind) {
        var i: nat :| i < |items| && items[i] == item;
      }
    } else {
      var i :| 0 <= i < |items| && items[i].kind == kind && !items[i].pass;
      assert items[i] in items;
    }
  }

  /** What the ledger says about how the provider ended. */
  lemma OutcomeMeans(p: ProviderResult)
    ensures OutcomeOf(p) == TIMEOUT <==> p.timedOut
    ensures OutcomeOf(p) == TRANSPORT_ERROR <==> !p.timedOut && (p.error || !p.processCompleted)
    ensures OutcomeOf(p) == SUCCESS <==> !p.timedOut && !p.error && p.processCompleted && p.statusZero
    ensures OutcomeOf(p) == FAILURE <==> !p.timedOut && !p.error && p.processCompleted && !p.statusZero
  {}

  /**
   A patch that adds a denied secret is never accepted and never reported as a scope problem
   unless an earlier, stronger rejection applies; and every rejection carries a taxonomy code.
   */
  lemma SecretNeverAccepted(a: WorkerAnswers, p: ProviderResult)
    requires a.evidence.Some? && a.evidence.value.patchTextPresent && !a.secretScanPass
    ensures !Judge(a, p).accepted
    ensures a.safetyError.None? && a.evidenceError.None? && TransportValid(a) ==>
              Judge(a, p).code == Some(SECRET_DENIED_PATH)
  {
    var items := ValidationItems(a);
    assert items[|items| - 1] == Item(SecretScan, false);
  }

  datatype AttemptResult = Threw | Returned(accepted: bool, code: Option<Code>)

  datatype RegionResult = RegionResult(threw: bool, completed: bool, provider: ProviderResult)

  /** Nothing but one invocation changed in the ledger. */
  twostate predicate OnlyAbout(store: RunStore, id: Id) reads store {
    forall x :: x != id ==>
      && (x in store.states <==> x in old(store.states))
      && (x in store.states ==> store.states[x] == old(store.states)[x])
  }

  /** The awaited operations of the region before a COMPLETION append. */
  function RegionTicks(a: WorkerAnswers): nat { if a.external then 4 else 2 }

  /** The awaited operations of the catch block before its reconciliation. */
  function CatchTicks(quiescenceKnown: bool): nat { if quiescenceKnown then 0 else 1 }

  /** Quiescence was not proven: a failed completion and a rejection, then the throw. */
  method RefuseLiveTree(store: RunStore, id: Id) returns (completed: bool)
    requires store.Valid() && store.Has(id, STARTED) && store.states[id].outcome.None?
    modifies store
    ensures store.Valid() && old(store.tick) < store.tick && OnlyAbout(store, id)
    ensures id in store.states && StartedAs(store.states[id], old(store.states[id]))
    ensures completed <==> !store.throws(old(store.tick))
    ensures completed ==> store.Has(id, COMPLETED) || store.Has(id, ASSESSED)
    ensures !completed ==> store.tick == old(store.tick) + 1 && (store.Has(id, STARTED) || store.Has(id, COMPLETED))
    ensures store.Has(id, STARTED) <==> store.throws(old(store.tick)) && !store.lands(old(store.tick))
    ensures store.states[id].outcome == if store.Has(id, STARTED) then None else Some(FAILURE)
    ensures store.Has(id, ASSESSED) ==> RecordedAs(store.states[id], REJECTED, Some(UNSUPPORTED_CLAIM))
    ensures completed ==> store.tick == old(store.tick) + if store.throws(old(store.tick) + 1) then 2 else 3
  {
    completed := store.Append(Completion(id, FAILURE, None, None, ""));
    if completed {
      var ok := store.Append(Assessment(id, REJECTED, Some(UNSUPPORTED_CLAIM), ""));
      if ok { ok := store.Effect(); }
    }
  }

  /**
   The guarded region: broker, boundary, provider call, quiescence.  `completed` is the attempt's own flag;
   it lags behind the ledger only when the COMPLETION line landed and the append still threw.
   */
  method GuardedRegion(store: RunStore, a: WorkerAnswers) returns (r: RegionResult)
    requires store.Valid() && store.Has(a.invocationId, STARTED) && store.states[a.invocationId].outcome.None?
    modifies store
    ensures store.Valid() && old(store.tick) <= store.tick && OnlyAbout(store, a.invocationId)
    ensures a.invocationId in store.states && StartedAs(store.states[a.invocationId], old(store.states[a.invocationId]))
    ensures !r.threw ==> !r.completed && a.quiescenceVerified && store.states == old(store.states)
    ensures !r.threw ==> r.provider == if a.invocation.Some? then a.invocation.value else FAILED_CALL
    ensures (forall t :: !store.throws(t)) ==> a.quiescenceVerified ==> !r.threw
    ensures r.completed ==> r.threw && !a.quiescenceVerified &&
                            (store.Has(a.invocationId, COMPLETED) || store.Has(a.invocationId, ASSESSED))
    ensures store.Has(a.invocationId, STARTED) ==> store.states[a.invocationId].outcome.None?
    ensures r.threw && !r.completed ==> store.Has(a.invocationId, STARTED) || store.Has(a.invocationId, COMPLETED)
    // exactly when the flag lags: the COMPLETION append was reached, threw, and had landed
    ensures var completion := old(store.tick) + RegionTicks(a);
            && (!r.completed && store.Has(a.invocationId, COMPLETED) <==>
                  !a.quiescenceVerified && store.QuietUntil(old(store.tick), completion) && store.LandsLate(completion))
            && (!r.completed && store.Has(a.invocationId, COMPLETED) ==>
                  store.tick == completion + 1 && store.states[a.invocationId].outcome == Some(FAILURE))
    ensures store.Has(a.invocationId, ASSESSED) ==> RecordedAs(store.states[a.invocationId], REJECTED, Some(UNSUPPORTED_CLAIM))
  {
    r := RegionResult(true, false, FAILED_CALL);
    var ok: bool;
    if a.external {
      ok := store.Effect();
      if !ok { return; }
    }
    ok := store.Effect();  // boundary authorization and prompt
    if !ok { return; }
    // A provider that throws becomes a failed result; it never escapes the region.
    if a.invocation.Some? { r := r.(provider := a.invocation.value); }
    if a.external {
      ok := store.Effect();
      if !ok { return; }
    }
    ok := store.Effect();  // quiesce and persist the process-lifetime evidence
    if !ok { return; }
    if a.quiescenceVerified { return r.(threw := false); }
    var completed := RefuseLiveTree(store, a.invocationId);
    r := r.(completed := completed);
  }

  /** The catch block: best effort, and one reconciliation when no completion was recorded. */
  method CatchRegion(store: RunStore, id: Id, completed: bool, quiescenceKnown: bool)
    requires store.Valid()
    requires !completed ==> store.Has(id, STARTED) || store.Has(id, COMPLETED)
    modifies store
    ensures store.Valid() && old(store.tick) <= store.tick && OnlyAbout(store, id)
    ensures id in old(store.states) ==> id in store.states && StartedAs(store.states[id], old(store.states[id]))
    ensures store.states == old(store.states)
            || (!completed && store.Has(id, ORPHANED)
                && store.states[id].outcome == old(store.states[id].outcome)
                && store.states[id].reconciliationReason == Some(CRASH_AFTER_START))
    ensures !completed ==> (store.Has(id, ORPHANED) <==> store.Lands(old(store.tick) + CatchTicks(quiescenceKnown)))
  {
    if !quiescenceKnown { var _ := store.Effect(); }
    if !completed {
      var _ := store.Append(Reconciliation(id, CRASH_AFTER_START, None, ""));
    }
  }

  /** After the region: completion, controller evidence, judgement, assessment. */
  method AssessAttempt(store: RunStore, id: Id, outcome: Outcome, validator: Option<bool>, j: Judgement) returns (r: AttemptResult)
    requires store.Valid() && store.Has(id, STARTED) && store.states[id].outcome.None?
    modifies store
    ensures store.Valid() && old(store.tick) < store.tick && OnlyAbout(store, id)
    ensures id in store.states && StartedAs(store.states[id], old(store.states[id]))
    ensures store.Has(id, STARTED) || store.Has(id, COMPLETED) || store.Has(id, ASSESSED)
    ensures store.states[id].outcome == if store.Has(id, STARTED) then None else Some(outcome)
    ensures r.Returned? ==> r == Returned(j.accepted, j.code) && store.Has(id, ASSESSED)
    // completion, raw output, the validator when there is one, assessment, event
    ensures r.Returned? ==> store.tick == old(store.tick) + if validator.Some? then 5 else 4
    ensures store.Has(id, ASSESSED) ==> RecordedAs(store.states[id], if j.accepted then ACCEPTED else REJECTED, j.code)
    ensures (forall t :: !store.throws(t)) ==> (r.Returned? <==> validator != Some(false))
  {
    var ok := store.Append(Completion(id, outcome, None, None, ""));
    if !ok { return Threw; }
    ok := store.Effect();  // raw output, handoff assessment, scratch reset
    if !ok { return Threw; }
    if validator.Some? {
      ok := store.Effect();
      if !ok || !validator.value { return Threw; }
    }
    ok := store.Append(Assessment(id, if j.accepted then ACCEPTED else REJECTED, j.code, ""));
    if !ok { return Threw; }
    ok := store.Effect();  // controller event
    if !ok { return Threw; }
    r := Returned(j.accepted, j.code);
  }

  /** What the ledger says about one invocation after an attempt. */
  ghost predicate RecordedAs(st: State, v: Verdict, code: Option<Code>) {
    st.status == ASSESSED && st.assessmentResult == Some(v) && st.rejectionCode == code
  }

  /** Closed by the attempt although the ledger has its COMPLETION. */
  ghost predicate ClosedAfterCompletion(store: RunStore, id: Id) reads store`states {
    store.Has(id, ORPHANED) && store.states[id].outcome.Some?
  }

  /** The tick of the COMPLETION append, after START, the supervisor and the region. */
  function WorkerCompletion(from: nat, a: WorkerAnswers): nat { from + 2 + RegionTicks(a) }

  function WorkerReconciliation(from: nat, a: WorkerAnswers): nat { WorkerCompletion(from, a) + 1 + CatchTicks(a.quiescenceKnown) }

  /** From the guarded region on, with the invocation started. */
  method WorkerAfterStart(store: RunStore, a: WorkerAnswers) returns (r: AttemptResult)
    requires store.Valid() && store.Has(a.invocationId, STARTED) && store.states[a.invocationId].outcome.None?
    modifies store
    ensures store.Valid() && old(store.tick) <= store.tick && OnlyAbout(store, a.invocationId) && a.invocationId in store.states
    ensures StartedAs(store.states[a.invocationId], old(store.states[a.invocationId]))
    ensures r.Returned? ==>
              && a.quiescenceVerified && Decided(a, r)
              && RecordedAs(store.states[a.invocationId], if r.accepted then ACCEPTED else REJECTED, r.code)
              && store.states[a.invocationId].outcome == Some(OutcomeOf(ProviderOf(a)))
    ensures store.Has(a.invocationId, ASSESSED) && store.states[a.invocationId].assessmentResult == Some(ACCEPTED) ==>
              a.quiescenceVerified && Earned(a)
    ensures store.Has(a.invocationId, ASSESSED) && !a.quiescenceVerified ==>
              RecordedAs(store.states[a.invocationId], REJECTED, Some(UNSUPPORTED_CLAIM))
    ensures store.Has(a.invocationId, ORPHANED) ==>
              r.Threw? && store.states[a.invocationId].reconciliationReason == Some(CRASH_AFTER_START)
    ensures var completion := old(store.tick) + RegionTicks(a);
            ClosedAfterCompletion(store, a.invocationId) <==>
            !a.quiescenceVerified && store.LateCompletion(old(store.tick), completion, completion + 1 + CatchTicks(a.quiescenceKnown))
    ensures (forall t :: !store.throws(t)) ==> (r.Returned? <==> a.quiescenceVerified && !(SoundPatch(a) && a.semantic == Malformed))
  {
    DecisionIsEarned(a);
    PatchIsSound(a);
    var region := GuardedRegion(store, a);
    if region.threw {
      CatchRegion(store, a.invocationId, region.completed, a.quiescenceKnown);
      return Threw;
    }
    // the semantic validator runs only on a valid patch; Some(false) is an answer that is not one
    var validator := if PatchValid(a) && a.semantic != NoValidator then Some(!a.semantic.Malformed?) else None;
    r := AssessAttempt(store, a.invocationId, OutcomeOf(region.provider), validator, Judge(a, region.provider));
  }

  /** The judgement over the provider's answer, or over a failed call when it threw. */
  function RegionJudgement(a: WorkerAnswers): Judgement { Judge(a, ProviderOf(a)) }

  function ProviderOf(a: WorkerAnswers): ProviderResult { if a.invocation.Some? then a.invocation.value else FAILED_CALL }

  /** A returned decision: acceptance exactly when it is earned, else a code that says why not. */
  ghost predicate Decided(a: WorkerAnswers, r: AttemptResult)
    requires r.Returned?
  {
    (r.accepted <==> Earned(a)) && (r.accepted <==> r.code.None?) && (!r.accepted ==> RejectedAs(a, r.code))
  }

  /** Without faults an attempt returns: a new identity, a proven quiescence, and a validator that answers when it is asked. */
  ghost predicate WorkerReturns(a: WorkerAnswers, known: States) {
    a.invocationId !in known && a.quiescenceVerified && !(SoundPatch(a) && a.semantic == Malformed)
  }

  /** What START recorded stays as it was. */
  predicate StartedAs(st: State, was: State) {
    st.workUnitId == was.workUnitId && st.role == was.role && st.provider == was.provider
  }

  method ExecuteWorkerAttempt(store: RunStore, a: WorkerAnswers) returns (r: AttemptResult)
    requires store.Valid()
    modifies store
    ensures store.Valid() && old(store.tick) <= store.tick && OnlyAbout(store, a.invocationId)
    // a normal return is a full lifecycle, and the ledger carries the decision that is returned
    ensures r.Returned? ==>
              && a.quiescenceVerified && a.invocationId !in old(store.states) && a.invocationId in store.states
              && RecordedAs(store.states[a.invocationId], if r.accepted then ACCEPTED else REJECTED, r.code)
              && store.states[a.invocationId].outcome == Some(OutcomeOf(ProviderOf(a)))
    // the decision, both ways, and why a rejection
    ensures r.Returned? ==> Decided(a, r)
    // what acceptance rests on
    ensures r.Returned? && r.accepted ==>
              && PatchValid(a) && TransportValid(a) && a.invocation.Some? && a.invocation.value.statusZero
    // an ACCEPTED line exists only for an attempt that earned it
    ensures a.invocationId !in old(store.states) && store.Has(a.invocationId, ASSESSED)
            && store.states[a.invocationId].assessmentResult == Some(ACCEPTED) ==>
              a.quiescenceVerified && Earned(a)
    // whatever the ledger has of the attempt, it has as a worker's for this work unit
    ensures a.invocationId !in old(store.states) && a.invocationId in store.states ==>
              store.states[a.invocationId].role == WORKER && store.states[a.invocationId].workUnitId == a.workUnitId
    // a live process tree is never accepted, and is rejected with the code of an unsupported claim
    ensures a.invocationId !in old(store.states) && store.Has(a.invocationId, ASSESSED) && !a.quiescenceVerified ==>
              RecordedAs(store.states[a.invocationId], REJECTED, Some(UNSUPPORTED_CLAIM))
    // the attempt closes its invocation with CRASH_AFTER_START only
    ensures a.invocationId !in old(store.states) && store.Has(a.invocationId, ORPHANED) ==>
              r.Threw? && store.states[a.invocationId].reconciliationReason == Some(CRASH_AFTER_START)
    // and so closes one that had completed, exactly when the COMPLETION append was the first to throw, and had landed
    ensures a.invocationId !in old(store.states) ==>
              (ClosedAfterCompletion(store, a.invocationId) <==>
               !a.quiescenceVerified && store.LateCompletion(old(store.tick), WorkerCompletion(old(store.tick), a), WorkerReconciliation(old(store.tick), a)))
    // an identity that was already used is refused before anything is written
    ensures a.invocationId in old(store.states) ==> r.Threw? && store.states == old(store.states)
    // without faults the attempt throws only for a live process tree or a validator that does not answer
    ensures (forall t :: !store.throws(t)) ==> (r.Returned? <==> WorkerReturns(a, old(store.states)))
  {
    var id := a.invocationId;
    var ok := store.Append(Start(id, a.workUnitId, WORKER, "pi", "", ""));
    if !ok { return Threw; }
    ok := store.Effect();  // creating the supervisor happens outside the guarded region
    if !ok { return Threw; }
    r := WorkerAfterStart(store, a);
    PatchIsSound(a);
  }

  /** A local worker whose process tree could not be proven gone. */
  const LIVE_TREE := WorkerAnswers(
    "i", "w", false, false, true, None, None, None, None, None, true, true, true, None, NoValidator, None)

  /** It happens: only the COMPLETION append of a first attempt throws, and its line has landed. */
  method CompletedInvocationIsClosed() returns (store: RunStore, r: AttemptResult)
    ensures fresh(store) && store.Valid() && r.Threw?
    ensures store.throws == ((t: nat) => t == 4) && store.lands == ((t: nat) => t == 4)
    ensures store.Has("i", ORPHANED) && store.states["i"].outcome.Some?
    ensures store.states["i"].reconciliationReason == Some(CRASH_AFTER_START)
  {
    store := new RunStore("run", (t: nat) => t == 4, (t: nat) => t == 4);
    r := ExecuteWorkerAttempt(store, LIVE_TREE);
    assert ClosedAfterCompletion(store, "i");
  }
}
