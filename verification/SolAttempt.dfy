/**
 One SOL attempt over the controller-side transport: exit, quiescence, raw credential scan, cleanup,
 first gate, persisted proof, parse, canonical scan, second gate, compilation, acceptance record.
 Everything the outside world answers is a field of SolAnswers and is arbitrary.
 */
module SolAttempts {
  import opened Options
  import opened Ledger
  import opened RunStores
  import opened WorkerAttempts

  datatype Scan = Scan(complete: bool, detected: bool)
  const CLEAN := Scan(true, false)

  /** What the attempt did, in order; only the steps the ordering contract speaks of. */
  datatype Step =
    | Quiesced | RawScanned(scan: Scan) | CleanedUp(verified: bool)
    | FirstGate(pass: bool) | ProofPersisted(gatePassed: bool)
    | Parsed | CanonicalScanned(scan: Scan) | SecondGate(pass: bool)
    | Compiled | AcceptancePersisted

  /** The step is allowed after the steps taken so far. */
  predicate Allowed(done: seq<Step>, s: Step) {
    match s
    case FirstGate(true) => Quiesced in done && RawScanned(CLEAN) in done && CleanedUp(true) in done
    case ProofPersisted(true) => FirstGate(true) in done
    case Parsed => ProofPersisted(true) in done
    case CanonicalScanned(_) => Parsed in done
    case SecondGate(true) => CanonicalScanned(CLEAN) in done
    case Compiled => SecondGate(true) in done
    case AcceptancePersisted => Compiled in done
    case _ => true
  }

  ghost predicate Ordered(steps: seq<Step>) {
    forall j: nat :: j < |steps| ==> InOrder(steps, j)
  }

  predicate InOrder(steps: seq<Step>, j: nat)
    requires j < |steps|
  {
    Allowed(steps[..j], steps[j])
  }

  /** Take one step; the ordering contract is its precondition. */
  function Take(done: seq<Step>, s: Step): (r: seq<Step>)
    requires Ordered(done) && Allowed(done, s)
    ensures Ordered(r) && r == done + [s]
    ensures forall x :: x in r <==> x in done || x == s
  {
    assert Ordered(done + [s]) by {
      forall j: nat | j < |done| + 1 ensures InOrder(done + [s], j) {
        if j < |done| {
          assert (done + [s])[..j] == done[..j] && InOrder(done, j);
        } else {
          assert (done + [s])[..j] == done;
        }
      }
    }
    done + [s]
  }

  lemma Earlier(steps: seq<Step>, j: nat, s: Step) returns (i: nat)
    requires j <= |steps| && s in steps[..j]
    ensures i < j && steps[i] == s
  {
    i :| 0 <= i < j && steps[..j][i] == s;
  }

  /**
   An acceptance record is preceded, in this order, by a clean raw scan, a passed first gate, its
   persisted proof, the parse, a clean canonical scan, a passed second gate and the compilation.
   */
  lemma AcceptanceChain(steps: seq<Step>, j: nat) returns (scan: nat, gate: nat, proof: nat, parse: nat, canonical: nat, second: nat, compile: nat)
    requires Ordered(steps) && j < |steps| && steps[j] == AcceptancePersisted
    ensures scan < gate < proof < parse < canonical < second < compile < j
    ensures steps[scan] == RawScanned(CLEAN) && steps[gate] == FirstGate(true) && steps[proof] == ProofPersisted(true)
    ensures steps[parse] == Parsed && steps[canonical] == CanonicalScanned(CLEAN)
    ensures steps[second] == SecondGate(true) && steps[compile] == Compiled
    ensures CleanedUp(true) in steps[..gate] && Quiesced in steps[..gate]
  {
    assert InOrder(steps, j);
    compile := Earlier(steps, j, Compiled);
    assert InOrder(steps, compile);
    second := Earlier(steps, compile, SecondGate(true));
    assert InOrder(steps, second);
    canonical := Earlier(steps, second, CanonicalScanned(CLEAN));
    assert InOrder(steps, canonical);
    parse := Earlier(steps, canonical, Parsed);
    assert InOrder(steps, parse);
    proof := Earlier(steps, parse, ProofPersisted(true));
    assert InOrder(steps, proof);
    gate := Earlier(steps, proof, FirstGate(true));
    assert InOrder(steps, gate);
    scan := Earlier(steps, gate, RawScanned(CLEAN));
  }

  datatype SolError =
    | CREDENTIAL_LEAK | OAUTH_RELOAD_FAILED | SURFACE_VIOLATION | CLEANUP_FAILED | SCAN_INCOMPLETE
    | OAUTH_UNAVAILABLE | REJECTED_TRANSPORT | RESPONSE_TOO_LARGE | EVIDENCE_FAILED
    | MALFORMED | MISMATCH | ASK_INVALID

  /** The ledger keeps the shared taxonomy: transport identities collapse to one code. */
  function LedgerCode(e: Option<SolError>): Code {
    match e
    case None => Code.SOL_ASK_INVALID
    case Some(ASK_INVALID) => Code.SOL_ASK_INVALID
    case Some(MISMATCH) => SCHEMA_MISMATCH
    case Some(_) => TRANSPORT_MALFORMED
  }

  datatype SolProvider = SolProvider(
    result: ProviderResult, truncated: bool, identityBefore: bool, identityAfter: bool)

  datatype CollectAnswer = Collected | TooLarge | CollectFailed
  datatype CompileAnswer = CompiledOk | CompileAskInvalid | CompileRejected

  datatype SolAnswers = SolAnswers(
    invocationId: Id, workUnitId: Id, external: bool, codexRoute: bool, askCompiled: bool, nonAuthoritative: bool,
    invocation: Option<SolProvider>, quiescenceVerified: bool, quiescenceKnown: bool, absenceVerified: bool,
    reloadOk: bool, surfaceOk: bool, rawScan: Scan, reauthRequired: bool,
    parseOk: bool, collect: CollectAnswer, canonicalScan: Scan,
    compile: CompileAnswer, artifactsPersisted: bool, acceptancePersists: bool)

  /** The positive proofs the strict gate compares one by one. */
  datatype Proof = Proof(
    provider: SolProvider, absence: bool, quiescence: bool, surface: bool, scanPassed: bool, cleanup: bool, nonAuthoritative: bool)

  /** The gate: every proof is explicit; a test seam passes only under its own override. */
  predicate GatePasses(p: Proof, allowSeam: bool) {
    && p.provider.result.statusZero && !p.provider.result.error && !p.provider.result.timedOut
    && !p.provider.truncated && p.provider.result.processCompleted
    && p.provider.identityBefore && p.provider.identityAfter
    && p.absence && p.quiescence && p.surface && p.scanPassed && p.cleanup
    && (!p.nonAuthoritative || allowSeam)
  }

  const FAILED_SOL_CALL := SolProvider(FAILED_CALL, true, false, false)

  /** The isolated surface: whether it exists, was removed, and what its cleanup proved. */
  datatype Surface = Surface(prepared: bool, removed: bool, failed: bool, verified: bool)

  /** Remove the surface at most once; an observed removal is the only success. */
  method CleanUp(store: RunStore, s: Surface) returns (r: Surface)
    requires s.removed ==> s.verified
    modifies store`tick
    ensures store.tick == old(store.tick) + if s.prepared && !s.removed then 1 else 0
    ensures (r.removed ==> r.verified) && r.prepared == s.prepared
    ensures s.failed ==> r.failed
    ensures s.prepared && !s.removed ==> (r.verified <==> r.removed) && (r.failed <==> s.failed || !r.removed)
    ensures !s.prepared || s.removed ==> r == s
    ensures s.prepared && !s.removed ==> (r.removed <==> !store.throws(old(store.tick)))
    ensures (forall t :: !store.throws(t)) && s.prepared ==> r.removed && r.failed == s.failed
  {
    if !s.prepared || s.removed { return s; }
    var ok := store.Effect();
    r := if ok then s.(removed := true, verified := true) else s.(failed := true, verified := false);
  }

  datatype SolRegion = SolRegion(
    threw: bool, completed: bool, surface: Surface, provider: SolProvider,
    error: Option<SolError>, parseOk: bool, steps: seq<Step>)

  /** The order in which a failed first gate is named. */
  function FirstGateError(a: SolAnswers, surface: Surface): SolError {
    if a.rawScan.detected then CREDENTIAL_LEAK
    else if !a.reloadOk then OAUTH_RELOAD_FAILED
    else if !a.surfaceOk then SURFACE_VIOLATION
    else if surface.failed then CLEANUP_FAILED
    else if !a.rawScan.complete then SCAN_INCOMPLETE
    else if a.reauthRequired then OAUTH_UNAVAILABLE
    else REJECTED_TRANSPORT
  }

  function ProofOf(a: SolAnswers, provider: SolProvider, scanPassed: bool, surface: Surface): Proof {
    Proof(provider, a.absenceVerified, a.quiescenceVerified, a.surfaceOk, scanPassed, surface.verified, a.nonAuthoritative)
  }

  function SolProviderOf(a: SolAnswers): SolProvider { if a.invocation.Some? then a.invocation.value else FAILED_SOL_CALL }

  // ---------------------------------------------------------------------------
  // The decision, read off the facts one by one
  // ---------------------------------------------------------------------------

  /** The provider was the pinned executable throughout, ended by itself with status zero, and nothing of it is left. */
  ghost predicate CleanExit(a: SolAnswers) {
    && a.invocation.Some?
    && a.invocation.value.identityBefore && a.invocation.value.identityAfter && !a.invocation.value.truncated
    && a.invocation.value.result.statusZero && a.invocation.value.result.processCompleted
    && !a.invocation.value.result.error && !a.invocation.value.result.timedOut
    && a.quiescenceVerified && a.absenceVerified
  }

  /** What the transport is judged as: the first of these reasons that there is, or no error. */
  ghost predicate JudgedAs(a: SolAnswers, cleaned: bool, e: Option<SolError>) {
    if a.rawScan.detected then e == Some(CREDENTIAL_LEAK)
    else if !a.reloadOk then e == Some(OAUTH_RELOAD_FAILED)
    else if !a.surfaceOk then e == Some(SURFACE_VIOLATION)
    else if !cleaned then e == Some(CLEANUP_FAILED)
    else if !a.rawScan.complete then e == Some(SCAN_INCOMPLETE)
    else if !CleanExit(a) then e == Some(if a.reauthRequired then OAUTH_UNAVAILABLE else REJECTED_TRANSPORT)
    else if a.collect == TooLarge then e == Some(RESPONSE_TOO_LARGE)
    else if a.collect == CollectFailed then e == Some(REJECTED_TRANSPORT)
    else if a.canonicalScan.detected then e == Some(CREDENTIAL_LEAK)
    else if !a.canonicalScan.complete then e == Some(SCAN_INCOMPLETE)
    else e == None
  }

  /** And the whole attempt: what the transport is judged as, then parse, compilation and the two records. */
  ghost predicate SettledAs(a: SolAnswers, cleaned: bool, e: Option<SolError>) {
    if !JudgedAs(a, cleaned, None) then JudgedAs(a, cleaned, e)
    else if !a.parseOk then e == Some(MALFORMED)
    else if a.compile == CompileAskInvalid then e == Some(ASK_INVALID)
    else if a.compile == CompileRejected || !a.artifactsPersisted then e == Some(MISMATCH)
    else if !a.acceptancePersists then e == Some(EVIDENCE_FAILED)
    else e == None
  }

  /** Everything that acceptance needs. */
  ghost predicate SolEarned(a: SolAnswers) {
    && CleanExit(a) && a.reloadOk && a.surfaceOk
    && a.rawScan.complete && !a.rawScan.detected && a.canonicalScan.complete && !a.canonicalScan.detected
    && a.collect == Collected && a.parseOk && a.compile == CompiledOk && a.artifactsPersisted && a.acceptancePersists
  }

  lemma SettledMeansEarned(a: SolAnswers, cleaned: bool)
    ensures SettledAs(a, cleaned, None) <==> SolEarned(a) && cleaned
  {}

  /** The code that the ledger gets for each error. */
  lemma LedgerCodeMeans(e: SolError)
    ensures LedgerCode(Some(e)) == SCHEMA_MISMATCH <==> e == MISMATCH
    ensures LedgerCode(Some(e)) == Code.SOL_ASK_INVALID <==> e == ASK_INVALID
    ensures LedgerCode(Some(e)) == TRANSPORT_MALFORMED <==> e != MISMATCH && e != ASK_INVALID
  {}

  /** The outcome of the provider; a leaked result is blanked first. */
  ghost predicate EndedAs(a: SolAnswers, cleaned: bool, outcome: Option<Outcome>) {
    var p := SolProviderOf(a).result;
    outcome == Some(if p.timedOut then TIMEOUT
                    else if p.error || !p.processCompleted || JudgedAs(a, cleaned, Some(CREDENTIAL_LEAK)) then TRANSPORT_ERROR
                    else if p.statusZero then SUCCESS else FAILURE)
  }

  /** After the parse: the canonical scan and the second gate. */
  method JudgeParsed(store: RunStore, a: SolAnswers, before: SolRegion) returns (r: SolRegion)
    requires Ordered(before.steps) && Parsed in before.steps && before.threw && before.error.None?
    requires Compiled !in before.steps && AcceptancePersisted !in before.steps
    requires SecondGate(true) !in before.steps && SecondGate(false) !in before.steps
    modifies store`tick
    ensures old(store.tick) <= store.tick
    ensures Ordered(r.steps) && Compiled !in r.steps && AcceptancePersisted !in r.steps && Parsed in r.steps
    ensures r == before.(threw := r.threw, error := r.error, steps := r.steps) && before.steps <= r.steps
    ensures !r.threw ==> (r.error.None? <==> SecondGate(true) in r.steps) && (r.error.Some? <==> SecondGate(false) in r.steps)
    ensures !r.threw ==> (r.error.None? <==>
              a.collect == Collected && GatePasses(ProofOf(a, before.provider, a.canonicalScan == CLEAN, before.surface), a.nonAuthoritative))
    ensures !r.threw && a.collect == Collected && a.canonicalScan.detected ==> r.error == Some(CREDENTIAL_LEAK)
    ensures !r.threw && a.collect != Collected ==> r.error == Some(if a.collect == TooLarge then RESPONSE_TOO_LARGE else REJECTED_TRANSPORT)
    ensures !r.threw && a.collect == Collected && !a.canonicalScan.detected && r.error.Some? ==>
              r.error == Some(if !a.canonicalScan.complete then SCAN_INCOMPLETE else REJECTED_TRANSPORT)
    ensures r.threw <==> a.collect == Collected && store.throws(old(store.tick))
    ensures (forall t :: !store.throws(t)) ==> !r.threw
  {
    r := before;
    var steps := before.steps;
    if a.collect != Collected {
      steps := Take(steps, SecondGate(false));
      return r.(threw := false, error := Some(if a.collect == TooLarge then RESPONSE_TOO_LARGE else REJECTED_TRANSPORT), steps := steps);
    }
    var ok := store.Effect();  // the canonical scan
    if !ok { return; }
    steps := Take(steps, CanonicalScanned(a.canonicalScan));
    var second := GatePasses(ProofOf(a, before.provider, a.canonicalScan.complete && !a.canonicalScan.detected, before.surface), a.nonAuthoritative);
    steps := Take(steps, SecondGate(second));
    r := r.(threw := false, steps := steps);
    if !second {
      r := r.(error := Some(if a.canonicalScan.detected then CREDENTIAL_LEAK
                            else if !a.canonicalScan.complete then SCAN_INCOMPLETE else REJECTED_TRANSPORT));
    }
  }

  /** The gate over one scan and one cleanup is the facts of both and of the exit. */
  lemma GateMeans(a: SolAnswers, scanPassed: bool, surface: Surface)
    ensures GatePasses(ProofOf(a, SolProviderOf(a), scanPassed, surface), a.nonAuthoritative) <==>
            CleanExit(a) && a.surfaceOk && scanPassed && surface.verified
  {}

  /** A transport that is only a test seam needs the override, and the override changes nothing else. */
  lemma SeamNeedsOverride(p: Proof)
    ensures GatePasses(p, false) <==> GatePasses(p, true) && !p.nonAuthoritative
  {}

  /** A failed first gate is named after the first fact that fails. */
  lemma FirstGateJudged(a: SolAnswers, surface: Surface)
    requires surface.verified == surface.removed && surface.failed == !surface.removed
    requires !(CleanExit(a) && a.surfaceOk && a.reloadOk && a.rawScan == CLEAN && surface.removed)
    ensures JudgedAs(a, surface.removed, Some(FirstGateError(a, surface)))
  {}

  /** After quiescence: scans, gates and the parse, in their fixed order. */
  method JudgeTransport(store: RunStore, a: SolAnswers, provider: SolProvider, done: seq<Step>) returns (r: SolRegion)
    requires Ordered(done) && done == [Quiesced] && provider == SolProviderOf(a)
    modifies store`tick
    ensures old(store.tick) <= store.tick
    // the exact identity of the error, which depends on the run only through the cleanup
    ensures !r.threw ==> JudgedAs(a, r.surface.removed, r.error) && (r.surface.removed <==> !store.throws(old(store.tick) + 1))
    ensures Ordered(r.steps) && Compiled !in r.steps && AcceptancePersisted !in r.steps && !r.completed
    ensures r.provider == provider && r.surface.prepared
    ensures r.surface.removed ==> r.surface.verified
    // no error identity means both gates passed, over complete and leak-free scans and a verified cleanup
    ensures !r.threw ==> (r.error.None? <==> SecondGate(true) in r.steps)
    ensures !r.threw && r.error.None? ==>
              && r.surface.verified && r.surface.removed && !r.surface.failed && r.parseOk == a.parseOk
              && a.rawScan == CLEAN && a.canonicalScan == CLEAN && a.reloadOk
              && GatePasses(ProofOf(a, provider, true, r.surface), a.nonAuthoritative)
    // a detected leak is never reported as anything else
    ensures !r.threw && a.rawScan.detected ==> r.error == Some(CREDENTIAL_LEAK) && Parsed !in r.steps
    ensures !r.threw && Parsed in r.steps && a.collect == Collected && a.canonicalScan.detected ==> r.error == Some(CREDENTIAL_LEAK)
    ensures (forall t :: !store.throws(t)) ==> !r.threw
  {
    r := SolRegion(true, false, Surface(true, false, false, false), provider, None, false, done);
    var ok := store.Effect();  // confirm absence, reload, inspect the surface, scan the raw output
    if !ok { return; }
    var gate, surface, steps := FirstGateOf(store, a, provider, done);
    GateMeans(a, true, surface);
    r := JudgeProof(store, a, gate, r.(surface := surface, steps := steps));
    GateMeans(a, true, r.surface);
  }

  /** After the first gate: its proof, the parse, and what follows it. */
  method JudgeProof(store: RunStore, a: SolAnswers, gate: bool, before: SolRegion) returns (r: SolRegion)
    requires Ordered(before.steps) && (gate ==> FirstGate(true) in before.steps)
    requires Parsed !in before.steps && SecondGate(true) !in before.steps && SecondGate(false) !in before.steps
    requires Compiled !in before.steps && AcceptancePersisted !in before.steps
    requires before.threw && before.error.None? && before.provider == SolProviderOf(a)
    requires before.surface.verified == before.surface.removed && before.surface.failed == !before.surface.removed
    requires gate <==> CleanExit(a) && a.surfaceOk && a.reloadOk && a.rawScan == CLEAN && before.surface.removed
    modifies store`tick
    ensures old(store.tick) <= store.tick
    ensures Ordered(r.steps) && Compiled !in r.steps && AcceptancePersisted !in r.steps
    ensures r.completed == before.completed && r.provider == before.provider && r.surface == before.surface
    ensures !r.threw ==> JudgedAs(a, r.surface.removed, r.error)
    ensures !r.threw ==> (r.error.None? <==> SecondGate(true) in r.steps) && (r.error.None? ==> r.parseOk == a.parseOk)
    ensures !r.threw ==> (Parsed in r.steps <==> gate) && ProofPersisted(gate) in r.steps
    ensures (forall t :: !store.throws(t)) ==> !r.threw
  {
    r := before;
    var ok := store.Effect();  // persist and fsync the exact-invocation proof, passed or failed
    if !ok { return r.(error := Some(EVIDENCE_FAILED)); }
    var steps := Take(before.steps, ProofPersisted(gate));
    if !gate {
      FirstGateJudged(a, before.surface);
      return r.(threw := false, error := Some(FirstGateError(a, before.surface)), steps := steps);
    }
    steps := Take(steps, Parsed);
    GateMeans(a, a.canonicalScan == CLEAN, before.surface);
    r := JudgeParsed(store, a, r.(parseOk := a.parseOk, steps := steps));
    if !r.threw { ParsedJudged(a, r.error); }
  }

  /** What the second gate says after the first one passed. */
  lemma ParsedJudged(a: SolAnswers, error: Option<SolError>)
    requires CleanExit(a) && a.surfaceOk && a.reloadOk && a.rawScan == CLEAN
    requires a.collect != Collected ==> error == Some(if a.collect == TooLarge then RESPONSE_TOO_LARGE else REJECTED_TRANSPORT)
    requires a.collect == Collected ==> (error.None? <==> a.canonicalScan == CLEAN)
    requires a.collect == Collected && a.canonicalScan.detected ==> error == Some(CREDENTIAL_LEAK)
    requires a.collect == Collected && !a.canonicalScan.detected && error.Some? ==> error == Some(if !a.canonicalScan.complete then SCAN_INCOMPLETE else REJECTED_TRANSPORT)
    ensures JudgedAs(a, true, error)
  {}

  /** The raw scan, the cleanup, and the gate over both. */
  method FirstGateOf(store: RunStore, a: SolAnswers, provider: SolProvider, done: seq<Step>)
    returns (gate: bool, surface: Surface, steps: seq<Step>)
    requires Ordered(done) && done == [Quiesced]
    modifies store`tick
    ensures old(store.tick) <= store.tick
    ensures surface.prepared && (surface.removed ==> surface.verified)
    ensures Ordered(steps) && steps == [Quiesced, RawScanned(a.rawScan), CleanedUp(surface.verified), FirstGate(gate)]
    ensures gate <==> a.reloadOk && a.rawScan == CLEAN && GatePasses(ProofOf(a, provider, true, surface), a.nonAuthoritative)
    ensures gate ==> surface.removed && !surface.failed
    ensures store.tick == old(store.tick) + 1 && (surface.removed <==> !store.throws(old(store.tick)))
    ensures surface.verified == surface.removed && surface.failed == !surface.removed
  {
    surface := CleanUp(store, Surface(true, false, false, false));
    var scanPassed := a.reloadOk && a.rawScan.complete && !a.rawScan.detected;
    gate := GatePasses(ProofOf(a, provider, scanPassed, surface), a.nonAuthoritative);
    steps := Take(done, RawScanned(a.rawScan));
    steps := Take(steps, CleanedUp(surface.verified));
    steps := Take(steps, FirstGate(gate));
  }

  /** The guarded region: transport preparation, provider call, quiescence, then the judged transport. */
  method SolGuardedRegion(store: RunStore, a: SolAnswers) returns (r: SolRegion)
    requires store.Valid() && store.Has(a.invocationId, STARTED) && store.states[a.invocationId].outcome.None?
    modifies store
    ensures store.Valid() && old(store.tick) <= store.tick && OnlyAbout(store, a.invocationId)
    ensures Ordered(r.steps) && Compiled !in r.steps && AcceptancePersisted !in r.steps
    ensures r.surface.removed ==> r.surface.verified
    ensures !r.threw ==> TransportJudged(a, r) && a.quiescenceVerified && store.states == old(store.states)
    ensures !r.threw ==> (r.surface.removed <==> !store.throws(old(store.tick) + 3))
    ensures a.invocationId in store.states && StartedAs(store.states[a.invocationId], old(store.states[a.invocationId]))
    ensures (forall t :: !store.throws(t)) ==> (a.quiescenceVerified <==> !r.threw)
    ensures r.completed ==> r.threw && (store.Has(a.invocationId, COMPLETED) || store.Has(a.invocationId, ASSESSED))
    ensures store.Has(a.invocationId, STARTED) ==> store.states[a.invocationId].outcome.None?
    ensures r.threw && !r.completed ==> store.Has(a.invocationId, STARTED) || store.Has(a.invocationId, COMPLETED)
    // exactly when the flag lags: the COMPLETION append was reached, threw, and had landed
    ensures var completion := old(store.tick) + 2;
            && (!r.completed && store.Has(a.invocationId, COMPLETED) <==>
                  !a.quiescenceVerified && store.QuietUntil(old(store.tick), completion) && store.LandsLate(completion))
            && (!r.completed && store.Has(a.invocationId, COMPLETED) ==>
                  && store.tick == completion + 1 && r.surface.prepared && !r.surface.removed
                  && store.states[a.invocationId].outcome == Some(FAILURE))
    ensures store.Has(a.invocationId, ASSESSED) ==> RecordedAs(store.states[a.invocationId], REJECTED, Some(UNSUPPORTED_CLAIM))
  {
    var provider := SolProviderOf(a);
    r := SolRegion(true, false, Surface(false, false, false, false), provider, None, false, []);
    var ok := store.Effect();  // acquire the store and prepare the isolated surface
    if !ok { return; }
    r := r.(surface := Surface(true, false, false, false));
    ok := store.Effect();  // quiesce and persist the process-lifetime evidence
    if !ok { return; }
    if !a.quiescenceVerified {
      var completed := RefuseLiveTree(store, a.invocationId);
      return r.(completed := completed);
    }
    r := JudgeTransport(store, a, provider, Take([], Quiesced));
  }

  /** What a judged transport means for the rest of the attempt. */
  ghost predicate TransportJudged(a: SolAnswers, r: SolRegion) {
    && !r.completed && r.provider == SolProviderOf(a) && JudgedAs(a, r.surface.removed, r.error)
    && (r.error.None? <==> SecondGate(true) in r.steps)
    && (r.error.None? ==>
          && r.surface.verified && r.surface.removed && !r.surface.failed && r.parseOk == a.parseOk
          && a.rawScan == CLEAN && a.canonicalScan == CLEAN && a.reloadOk
          && GatePasses(ProofOf(a, r.provider, true, r.surface), a.nonAuthoritative))
    && (a.rawScan.detected ==> r.error == Some(CREDENTIAL_LEAK))
  }

  datatype SolResult = SolThrew(steps: seq<Step>) | SolReturned(accepted: bool, error: Option<SolError>, steps: seq<Step>)

  /** Compile the response and persist the acceptance record; errors end in a rejection, never a throw. */
  method CompileResponse(a: SolAnswers, region: SolRegion, surface: Surface) returns (accepted: bool, error: Option<SolError>, steps: seq<Step>)
    requires Ordered(region.steps) && Compiled !in region.steps && AcceptancePersisted !in region.steps
    requires region.error.None? ==> SecondGate(true) in region.steps
    ensures Ordered(steps)
    ensures accepted <==> error.None?
    ensures accepted <==> AcceptancePersisted in steps
    ensures accepted <==>
              && region.error.None? && !surface.failed && region.parseOk
              && a.compile == CompiledOk && a.artifactsPersisted && a.acceptancePersists
    ensures region.error.Some? ==> error == region.error && steps == region.steps
    ensures region.error.None? && surface.failed ==> error == Some(CLEANUP_FAILED)
    ensures region.error.None? && !surface.failed ==>
              if !region.parseOk then error == Some(MALFORMED)
              else if a.compile == CompileAskInvalid then error == Some(ASK_INVALID)
              else if a.compile == CompileRejected || !a.artifactsPersisted then error == Some(MISMATCH)
              else error == if a.acceptancePersists then None else Some(EVIDENCE_FAILED)
  {
    steps, error, accepted := region.steps, region.error, false;
    if error.Some? { return; }
    if surface.failed { error := Some(CLEANUP_FAILED); return; }
    if !region.parseOk { error := Some(MALFORMED); return; }
    if a.compile != CompiledOk {
      error := Some(if a.compile == CompileAskInvalid then ASK_INVALID else MISMATCH);
      return;
    }
    steps := Take(steps, Compiled);
    if !a.artifactsPersisted { error := Some(MISMATCH); return; }
    if !a.acceptancePersists { error := Some(EVIDENCE_FAILED); return; }
    steps := Take(steps, AcceptancePersisted);
    accepted := true;
  }

  /** A provider result that carried a credential is blanked before anything later sees it. */
  function Blanked(region: SolRegion): ProviderResult {
    if region.error == Some(CREDENTIAL_LEAK) then region.provider.result.(error := true, statusZero := false)
    else region.provider.result
  }

  /** The assessment line and the controller event after it. */
  method AssessSol(store: RunStore, id: Id, accepted: bool, error: Option<SolError>) returns (ok: bool)
    requires store.Valid() && store.Has(id, COMPLETED) && store.states[id].rejectionCode.None?
    modifies store
    ensures store.Valid() && old(store.tick) <= store.tick && OnlyAbout(store, id)
    ensures ok ==> store.Has(id, ASSESSED)
    ensures store.Has(id, COMPLETED) || store.Has(id, ASSESSED)
    ensures store.states[id].outcome == old(store.states[id].outcome) && StartedAs(store.states[id], old(store.states[id]))
    ensures store.Has(id, ASSESSED) ==>
              RecordedAs(store.states[id], if accepted then ACCEPTED else REJECTED, if accepted then None else Some(LedgerCode(error)))
    ensures (forall t :: !store.throws(t)) ==> ok
  {
    ok := store.Append(Assessment(id, if accepted then ACCEPTED else REJECTED, if accepted then None else Some(LedgerCode(error)), ""));
    if ok { ok := store.Effect(); }
  }

  /** After the region: completion, compilation, acceptance record, assessment. */
  method FinishSol(store: RunStore, a: SolAnswers, region: SolRegion) returns (r: SolResult)
    requires store.Valid() && store.Has(a.invocationId, STARTED) && store.states[a.invocationId].outcome.None?
    requires Ordered(region.steps) && Compiled !in region.steps && AcceptancePersisted !in region.steps
    requires TransportJudged(a, region) && (region.surface.removed ==> region.surface.verified)
    modifies store
    ensures store.Valid() && old(store.tick) <= store.tick && OnlyAbout(store, a.invocationId)
    ensures Ordered(r.steps)
    ensures store.Has(a.invocationId, STARTED) || store.Has(a.invocationId, COMPLETED) || store.Has(a.invocationId, ASSESSED)
    ensures a.invocationId in store.states && StartedAs(store.states[a.invocationId], old(store.states[a.invocationId]))
    ensures r.SolReturned? ==>
              SettledAs(a, region.surface.removed, r.error) && EndedAs(a, region.surface.removed, store.states[a.invocationId].outcome)
    ensures r.SolReturned? ==>
              && store.Has(a.invocationId, ASSESSED) && (r.accepted <==> AcceptancePersisted in r.steps)
              && (r.accepted <==> r.error.None?)
              && RecordedAs(store.states[a.invocationId], if r.accepted then ACCEPTED else REJECTED,
                            if r.accepted then None else Some(LedgerCode(r.error)))
              && (a.rawScan.detected ==> r.error == Some(CREDENTIAL_LEAK))
    ensures r.SolReturned? && r.accepted ==> SolAcceptable(a, region)
    ensures r.SolThrew? && AcceptancePersisted in r.steps ==>
              store.Has(a.invocationId, COMPLETED) || store.Has(a.invocationId, ASSESSED)
    ensures store.Has(a.invocationId, ASSESSED) && store.states[a.invocationId].assessmentResult == Some(ACCEPTED) ==>
              AcceptancePersisted in r.steps
    ensures (forall t :: !store.throws(t)) ==> r.SolReturned? && (r.accepted <==> SolAcceptable(a, region))
  {
    var id := a.invocationId;
    var surface := CleanUp(store, region.surface);
    var outcome := OutcomeOf(Blanked(region));
    BlankedEnds(a, region);
    var ok := store.Append(Completion(id, outcome, None, None, ""));
    if !ok { return SolThrew(region.steps); }
    r := RecordAnswer(store, a, region, surface);
  }

  /** After the completion: compilation, acceptance record, assessment. */
  method RecordAnswer(store: RunStore, a: SolAnswers, region: SolRegion, surface: Surface) returns (r: SolResult)
    requires store.Valid() && store.Has(a.invocationId, COMPLETED) && store.states[a.invocationId].rejectionCode.None?
    requires Ordered(region.steps) && Compiled !in region.steps && AcceptancePersisted !in region.steps
    requires TransportJudged(a, region) && (region.error.None? ==> !surface.failed)
    modifies store
    ensures store.Valid() && old(store.tick) <= store.tick && OnlyAbout(store, a.invocationId) && Ordered(r.steps)
    ensures store.Has(a.invocationId, COMPLETED) || store.Has(a.invocationId, ASSESSED)
    ensures store.states[a.invocationId].outcome == old(store.states[a.invocationId].outcome)
    ensures StartedAs(store.states[a.invocationId], old(store.states[a.invocationId]))
    ensures r.SolReturned? ==>
              && store.Has(a.invocationId, ASSESSED) && SettledAs(a, region.surface.removed, r.error)
              && (r.accepted <==> r.error.None?) && (r.accepted <==> AcceptancePersisted in r.steps)
              && RecordedAs(store.states[a.invocationId], if r.accepted then ACCEPTED else REJECTED,
                            if r.accepted then None else Some(LedgerCode(r.error)))
              && (r.accepted ==> SolAcceptable(a, region))
              && (a.rawScan.detected ==> r.error == Some(CREDENTIAL_LEAK))
    ensures store.Has(a.invocationId, ASSESSED) && store.states[a.invocationId].assessmentResult == Some(ACCEPTED) ==>
              AcceptancePersisted in r.steps
    ensures (forall t :: !store.throws(t)) ==> r.SolReturned? && (r.accepted <==> SolAcceptable(a, region))
  {
    var accepted, error, steps := CompileResponse(a, region, surface);
    CompiledSettles(a, region, surface, error);
    var ok := AssessSol(store, a.invocationId, accepted, error);
    r := if ok then SolReturned(accepted, error, steps) else SolThrew(steps);
  }

  /** What compiling the response gives is what the whole attempt is settled as. */
  lemma CompiledSettles(a: SolAnswers, region: SolRegion, surface: Surface, error: Option<SolError>)
    requires TransportJudged(a, region) && (region.error.None? ==> !surface.failed)
    requires region.error.Some? ==> error == region.error
    requires region.error.None? ==>
               if !region.parseOk then error == Some(MALFORMED)
               else if a.compile == CompileAskInvalid then error == Some(ASK_INVALID)
               else if a.compile == CompileRejected || !a.artifactsPersisted then error == Some(MISMATCH)
               else error == if a.acceptancePersists then None else Some(EVIDENCE_FAILED)
    ensures SettledAs(a, region.surface.removed, error)
  {}

  lemma BlankedEnds(a: SolAnswers, region: SolRegion)
    requires TransportJudged(a, region)
    ensures EndedAs(a, region.surface.removed, Some(OutcomeOf(Blanked(region))))
  {}

  /** Everything an accepted SOL answer rests on. */
  ghost predicate SolAcceptable(a: SolAnswers, region: SolRegion) {
    && region.error.None? && a.rawScan == CLEAN && a.canonicalScan == CLEAN && a.reloadOk && region.surface.verified
    && GatePasses(ProofOf(a, region.provider, true, region.surface), a.nonAuthoritative)
    && a.parseOk && a.compile == CompiledOk && a.artifactsPersisted && a.acceptancePersists
  }

  /** The region with its catch block, then the finish. */
  method SolAfterStart(store: RunStore, a: SolAnswers) returns (r: SolResult)
    requires store.Valid() && store.Has(a.invocationId, STARTED) && store.states[a.invocationId].outcome.None?
    modifies store
    ensures store.Valid() && old(store.tick) <= store.tick && OnlyAbout(store, a.invocationId)
    ensures a.invocationId in store.states && Ordered(r.steps)
    ensures r.SolReturned? ==> SolSettled(store.states[a.invocationId], a, !store.throws(old(store.tick) + 3), r)
    ensures StartedAs(store.states[a.invocationId], old(store.states[a.invocationId]))
    ensures (forall t :: !store.throws(t)) ==> (r.SolReturned? <==> a.quiescenceVerified)
    ensures r.SolThrew? && AcceptancePersisted in r.steps ==>
              store.Has(a.invocationId, COMPLETED) || store.Has(a.invocationId, ASSESSED)
    ensures store.Has(a.invocationId, ASSESSED) ==>
              store.states[a.invocationId].assessmentResult == Some(ACCEPTED) ==> AcceptancePersisted in r.steps
    ensures store.Has(a.invocationId, ORPHANED) ==>
              r.SolThrew? && store.states[a.invocationId].reconciliationReason == Some(CRASH_AFTER_START)
    ensures ClosedAfterCompletion(store, a.invocationId) <==>
              && !a.quiescenceVerified
              && store.LateCompletion(old(store.tick), old(store.tick) + 2, old(store.tick) + 4 + CatchTicks(a.quiescenceKnown))
  {
    var region := SolGuardedRegion(store, a);
    if region.threw {
      var _ := CleanUp(store, region.surface);
      CatchRegion(store, a.invocationId, region.completed, a.quiescenceKnown);
      return SolThrew(region.steps);
    }
    r := FinishSol(store, a, region);
    SettledMeansEarned(a, region.surface.removed);
  }

  /** A returned attempt: the ledger line agrees, and acceptance has its whole basis. */
  ghost predicate SolSettled(st: State, a: SolAnswers, cleaned: bool, r: SolResult)
    requires r.SolReturned?
  {
    // the decision, both ways, the identity of the error, and how the provider ended
    && (r.accepted <==> SolEarned(a) && cleaned) && SettledAs(a, cleaned, r.error) && EndedAs(a, cleaned, st.outcome)
    && (r.accepted <==> AcceptancePersisted in r.steps) && (r.accepted <==> r.error.None?)
    && RecordedAs(st, if r.accepted then ACCEPTED else REJECTED, if r.accepted then None else Some(LedgerCode(r.error)))
    && (a.rawScan.detected ==> r.error == Some(CREDENTIAL_LEAK))
    // acceptance needs both scans complete and leak free, verified quiescence, and a provider that exited cleanly
    && (r.accepted ==>
          && a.rawScan == CLEAN && a.canonicalScan == CLEAN && a.quiescenceVerified && a.absenceVerified
          && a.reloadOk && a.surfaceOk && a.parseOk && a.compile == CompiledOk
          && a.invocation.Some? && a.invocation.value.result.statusZero && !a.invocation.value.truncated)
  }

  /** The tick of the COMPLETION append: after the ask, START, the supervisor, the transport and the quiescence. */
  function SolCompletion(from: nat): nat { from + 5 }

  /** The tick of the cleanup: after the quiescence and the raw scan. */
  function SolCleanup(from: nat): nat { from + 6 }

  /** The catch block cleans the surface up before it closes the invocation. */
  function SolReconciliation(from: nat, a: SolAnswers): nat { SolCompletion(from) + 2 + CatchTicks(a.quiescenceKnown) }

  /** Without faults an attempt returns: a new identity, a compiled ask, the one allowed route, and a proven quiescence. */
  ghost predicate SolReturns(a: SolAnswers, known: States) {
    a.invocationId !in known && a.askCompiled && a.codexRoute && a.external && a.quiescenceVerified
  }

  method ExecuteSolAttempt(store: RunStore, a: SolAnswers) returns (r: SolResult)
    requires store.Valid()
    modifies store
    ensures store.Valid() && old(store.tick) <= store.tick && OnlyAbout(store, a.invocationId)
    // the fixed order, on every path, thrown or not
    ensures Ordered(r.steps)
    // a normal return is a full lifecycle, recorded as decided
    ensures r.SolReturned? ==>
              && a.invocationId !in old(store.states) && a.invocationId in store.states
              && SolSettled(store.states[a.invocationId], a, !store.throws(SolCleanup(old(store.tick))), r) && a.codexRoute && a.external
    // without faults it returns unless the ask, the route or the process tree forbids it
    ensures (forall t :: !store.throws(t)) ==> (r.SolReturned? <==> SolReturns(a, old(store.states)))
    // whatever the ledger has of the attempt, it has as a SOL call for this work unit
    ensures a.invocationId !in old(store.states) && a.invocationId in store.states ==>
              store.states[a.invocationId].role == SOL && store.states[a.invocationId].workUnitId == a.workUnitId
    // an acceptance record can outlive its attempt only when the ledger append or the event after it threw
    ensures r.SolThrew? && AcceptancePersisted in r.steps ==>
              store.Has(a.invocationId, COMPLETED) || store.Has(a.invocationId, ASSESSED)
    // no ACCEPTED line without an acceptance record
    ensures a.invocationId !in old(store.states) && store.Has(a.invocationId, ASSESSED) ==>
              store.states[a.invocationId].assessmentResult == Some(ACCEPTED) ==> AcceptancePersisted in r.steps
    // an attempt closes its invocation with CRASH_AFTER_START only
    ensures a.invocationId !in old(store.states) && store.Has(a.invocationId, ORPHANED) ==>
              r.SolThrew? && store.states[a.invocationId].reconciliationReason == Some(CRASH_AFTER_START)
    // and so closes one that had completed, exactly when the COMPLETION append was the first to throw, and had landed
    ensures a.invocationId !in old(store.states) ==>
              (ClosedAfterCompletion(store, a.invocationId) <==>
               && a.askCompiled && a.codexRoute && a.external && !a.quiescenceVerified
               && store.LateCompletion(old(store.tick), SolCompletion(old(store.tick)), SolReconciliation(old(store.tick), a)))
    // a refused route throws after START and outside the catch: the invocation stays open for the sweep
    ensures (!a.codexRoute || !a.external) && a.invocationId !in old(store.states) && a.invocationId in store.states ==>
              r.SolThrew? && store.Has(a.invocationId, STARTED)
    ensures a.invocationId in old(store.states) ==> r.SolThrew? && store.states == old(store.states)
  {
    var started := StartSol(store, a);
    if !started { return SolThrew([]); }
    r := SolAfterStart(store, a);
  }

  /** The ask, START and the supervisor, all outside the catch block. */
  method StartSol(store: RunStore, a: SolAnswers) returns (started: bool)
    requires store.Valid()
    modifies store
    ensures store.Valid() && old(store.tick) <= store.tick && OnlyAbout(store, a.invocationId)
    ensures started <==>
              && a.invocationId !in old(store.states) && a.askCompiled && a.codexRoute && a.external
              && store.QuietUntil(old(store.tick), old(store.tick) + 3)
    ensures started ==> store.tick == old(store.tick) + 3 && a.invocationId in store.states
    ensures a.invocationId in old(store.states) ==> store.states == old(store.states)
    ensures a.invocationId !in old(store.states) && a.invocationId in store.states ==>
              && store.Has(a.invocationId, STARTED) && store.states[a.invocationId].outcome.None?
              && store.states[a.invocationId].role == SOL && store.states[a.invocationId].workUnitId == a.workUnitId
  {
    var ok := store.Effect();  // compile and persist the ask
    if !ok || !a.askCompiled { return false; }
    ok := store.Append(Start(a.invocationId, a.workUnitId, SOL, "pi", "", ""));
    if !ok { return false; }
    ok := store.Effect();  // the supervisor
    started := ok && a.codexRoute && a.external;
  }

  /** A controller-side attempt whose process tree could not be proven gone. */
  const LIVE_SOL_TREE := SolAnswers(
    "i", "w", true, true, true, false, None, false, true, false, true, true, CLEAN, false, true, Collected, CLEAN, CompiledOk, true, true)

  /** It happens: only the COMPLETION append of a first attempt throws, and its line has landed. */
  method CompletedSolInvocationIsClosed() returns (store: RunStore, r: SolResult)
    ensures fresh(store) && store.Valid() && r.SolThrew?
    ensures store.throws == ((t: nat) => t == 5) && store.lands == ((t: nat) => t == 5)
    ensures store.Has("i", ORPHANED) && store.states["i"].outcome.Some?
    ensures store.states["i"].reconciliationReason == Some(CRASH_AFTER_START)
  {
    store := new RunStore("run", (t: nat) => t == 5, (t: nat) => t == 5);
    r := ExecuteSolAttempt(store, LIVE_SOL_TREE);
    assert ClosedAfterCompletion(store, "i");
  }
}
