# LCIM control-plane model

LCIM runs a coding worker under a controller, asks a second model (SOL) to review the result, and
keeps an append-only ledger from which an audit is derived. This project models that control plane in
Dafny and proves what it promises. It has four parts.

**The run.** `Ledger`, `RunStores`, `WorkerAttempts`, `SolAttempts`, `ControllerMachine`, `Histories`,
`RepairTickets`, `Controllers`. The ledger's transition check is proved equal to the documented
lifecycle. An attempt is a method over a run store in which every awaited operation takes one tick and
may throw; an append that throws may or may not have reached the file. The controller is a class whose
methods are the branches of the run loop. Beside its variables it carries a ghost history of events;
`ControllerMachine` says which event the controller's own guards and the contract of SOL answers allow,
and safety is proved over all legal histories. Router, workers, SOL and faults are arbitrary functions,
and the number of steps is a parameter.

**The supervisor.** `ProcessTables`, `Supervisors`, `ProcessWorlds`. The descendant worklist runs on
adversarial tables. The supervisor is a class whose failure flags are proved to remember every bad
read. `ProcessWorlds` is the environment as a transition system: fork, exit, reap, adoption, leaving
the group, changing the marker, and foreign processes that do anything, with pids reused.

**Contracts.** `JsonStrings`, `CanonicalJson`, `SemanticDigests`, `Contracts`, `SemanticRules`,
`Compiler`, `Acceptance`, `Repair`. Canonical serialisation has a decoder. Each validator is a set of
one-pass loops whose reports are proved to be exactly the reports that are due by a pairwise
specification; builder and validator are separate and proved to agree.

**The audit.** `Calendar`, `Time`, `AuditRuns`, `Projections`, `ProjectionBuild`, `Metrics`,
`Reconcile`, `EndToEnd`, `Corruption`, `RunSelection`. Instants are exact, the order is total, and the
chain from ledger to projections to metrics to reconciliation is closed in both directions: lifecycle
runs always reconcile, and whatever reconciles carries the canonical facts. Reconciliation classifies
work units by code of its own, as the repository does; both sides are proved against one pairwise
specification.

`Options`, `Lists`, `Sorting` and `Texts` hold what several parts share.

## Results that differ from the code's own claims

- The worklist is described as finding every descendant. It does not follow links through pid 1, so it
  misses what hangs below pid 1 when a table puts pid 1 below the root. `ProcessTables.VisitsAllReachable`
  gives the exact condition, `InitIsNobodysChild` one that can be read off the rows, `InitHidesAProcess`
  a table.
- Survivors are looked up in an index where the last row of a pid wins, so a later zombie row of the
  same pid hides a live tracked process, and `quiesce` is positive over it
  (`Supervisors.VerdictOverLiveProcess`). `Supervisors.ListedAliveIsLive` gives the exact condition for a
  pid, `Supervisors.Supervisor.VerdictCoversTracked` for the verdict; one row for each pid is more than
  enough (`Supervisors.OneRowHidesNothing`).
- `quiesce` before `begin` caches a positive verdict for good (`Supervisors.Supervisor.Quiesce`).
- Compile warnings are attached after validation and are not validated again. A successful compile with
  nothing high-risk unresolved is authoritative exactly when every warning fits the schema's bounds
  (`Compiler.CompileSemanticContract`); concept names have no maximum length, so one can fail
  (`Compiler.LongNameLosesAuthority`).
- The repair builder's own checks are not enough for its validator. `Repair.BuildRepairContract` says
  exactly what is missing: non-empty lists, text lengths, generated test names with at most 96
  characters of gate, scope and count, no two user tests for one side effect, and no negative count in
  a test that names none. `Repair.LongGateIsRefused` is an input that fails.
- A failed review selects the first open record with one of its identities. The identity of an adjacent
  defect comes from its content and that of a finding from SOL, so both can repeat; then an earlier
  record is bound to the later review's exchange (`ControllerMachine.ReviewBindsItsOwnExchange` says
  exactly when, `Histories.RepeatedDefectBindsAnotherExchange` shows it).
- A repair is counted on the record that was selected, but a recheck looks its record up by identity, so
  with a repeated identity it can close another one (`ControllerMachine.RecheckGoesToFirstOpen`,
  `Histories.RepairedAndRecheckedDiffer`).
- A repair ticket is created exclusively and named after identity and exchange, so a record that is meant
  to be repaired later can be out of reach: selecting it would write a ticket that exists.
  `RepairTickets.CanBeSelectedIff` says exactly which records can still be selected,
  `RepeatedDefectIsNeverSelected` shows two that cannot.
- A diagnosis replaces the repair contract without touching the binding. The dispatch guard refuses
  exactly those runs (`ControllerMachine.GuardCatchesExactlyDiagnosis`), so a diagnosis' own contract
  never reaches a repair dispatch (`Histories.DiagnosisStopsTheRepair` is such a run).
- An invocation whose COMPLETION line was written in an append that threw is closed with
  CRASH_AFTER_START although it completed. `WorkerAttempts.ExecuteWorkerAttempt` and
  `SolAttempts.ExecuteSolAttempt` say exactly when; `CompletedInvocationIsClosed` and
  `CompletedSolInvocationIsClosed` reach the state.

## Model

| member | source | states |
|---|---|---|
| `Ledger.BuildInvocationStates` | src/logging/ledger.mjs:87-104 | the one-pass fold gives the states of the ledger and the positions of exactly the illegal events; no position means every event was legal when it was appended |
| `Ledger.LegalIffLifecycle` | docs/v2-logging-contract.md:81-91 | the fail-closed transition check accepts exactly the ledgers whose every invocation follows START, COMPLETION, ASSESSMENT or is cut short by one RECONCILIATION, and whose replacements were started first |
| `Ledger.FoldMatchesTrace` | src/logging/ledger.mjs:106-172 | status, counts, outcome and verdict of a folded state are read off the events of that invocation alone |
| `Ledger.FoldReadsEvents` | src/logging/ledger.mjs:106-172 | every field of a folded state is that of the event of its kind: work unit, role, provider, model and start from START; outcome, usage and time from COMPLETION; verdict from ASSESSMENT; the code from ASSESSMENT, else COMPLETION; the closing from RECONCILIATION; absent without such an event |
| `Ledger.PhaseTraces` | docs/v2-logging-contract.md:81-91 | the six lifecycles written out: each phase has exactly one trace |
| `Ledger.CheckIffPhase` | src/logging/ledger.mjs:43-79 | one event passes the check exactly when it continues its invocation's lifecycle and names a started replacement |
| `Ledger.AtMostOnce` | docs/v2-logging-contract.md:81-91 | in every legal ledger an invocation has at most one event of each kind, never both an ASSESSMENT and a RECONCILIATION, and no ASSESSMENT without COMPLETION |
| `RunStores.RunStore.Append` | src/runtime/run-store.mjs:434-457 | an illegal event is refused without a write; a legal one extends the ledger and the states, also when the append throws after the line landed |
| `RunStores.RunStore.ReconcileOrphans` | src/runtime/run-store.mjs:240-258 | the sweep appends only reconciliations of open invocations, with the reason of their state; it ends well exactly when no append of it throws, and then it made one for each open invocation and nothing is left STARTED or COMPLETED |
| `RunStores.RunStore.Finalize` | src/runtime/run-store.mjs:277-314 | the ledger is complete exactly when no invocation is open |
| `WorkerAttempts.SecretNeverAccepted` | src/controller/orchestrator.mjs:715-889 | a patch with a denied secret is never accepted and carries the secret code unless a stronger rejection applies |
| `WorkerAttempts.DecisionIsEarned` | src/controller/orchestrator.mjs:758-838 | read off the facts one by one: accepted exactly with a safe exit, collected and clean evidence that changes something, validation and secret scan passed, a valid handoff for the unit, no rejection by validator or configuration, and exit status zero; otherwise the code of the first reason there is: safety, evidence, transport, secret, scope, configuration, validator |
| `WorkerAttempts.OutcomeMeans` | src/controller/orchestrator.mjs:705-711 | the recorded outcome of the provider, each of the four exactly when |
| `WorkerAttempts.GuardedRegion` | src/controller/orchestrator.mjs:520-658 | the region ends without a throw only after verified quiescence, with the ledger untouched; the completion flag lags the ledger exactly when the process tree was alive, nothing had thrown before and the COMPLETION append threw with its line written |
| `WorkerAttempts.CatchRegion` | src/controller/orchestrator.mjs:659-704 | the catch block closes the invocation only when no completion was recorded, with CRASH_AFTER_START, exactly when the line of that append is written |
| `WorkerAttempts.ExecuteWorkerAttempt` | src/controller/orchestrator.mjs:502-889 | for an exception at any await: without faults it returns exactly for a new identity, a proven quiescence and a validator that answers; a normal return is a full lifecycle whose ledger line is the decision returned; that decision is acceptance exactly when it is earned, else a rejection whose code says why; an ACCEPTED line exists only if it is earned; an invocation that has its COMPLETION is closed with CRASH_AFTER_START exactly when the tree was alive, the COMPLETION append was the first to throw, its line was written, and so is the reconciliation's |
| `WorkerAttempts.RefuseLiveTree` | src/controller/orchestrator.mjs:622-657 | the flag says completed exactly when the append did not throw; the invocation is still STARTED exactly when the append threw and its line was not written |
| `WorkerAttempts.CompletedInvocationIsClosed` | src/controller/orchestrator.mjs:622-704 | a run store and an attempt in which only the COMPLETION append throws, after writing: the invocation ends ORPHANED with CRASH_AFTER_START and an outcome |
| `SolAttempts.AcceptanceChain` | src/controller/orchestrator.mjs:1144-1298 | an acceptance record is preceded, in order, by a clean raw scan, a passed first gate, its persisted proof, the parse, a clean canonical scan, a passed second gate and the compilation |
| `SolAttempts.FirstGateOf` | src/controller/orchestrator.mjs:1147-1215 | the first gate passes exactly when the reload succeeded, the raw scan is complete and leak free, and every proof of the strict gate holds, over a removed surface |
| `SolAttempts.GateMeans` | src/controller/orchestrator.mjs:1147-1215 | the gate passes exactly for the pinned executable, ended by itself with status zero and untruncated, nothing of it left, over a sound surface, a passed scan and a verified cleanup |
| `SolAttempts.SeamNeedsOverride` | src/controller/orchestrator.mjs:1147-1215 | a transport that is only a test seam passes exactly with the override, and the override changes nothing else |
| `SolAttempts.JudgeParsed` | src/controller/orchestrator.mjs:1216-1298 | after the parse, no error means a collected output and a second gate over a clean canonical scan; a leak is reported as a leak |
| `SolAttempts.JudgeTransport` | src/controller/orchestrator.mjs:1147-1298 | no error identity exactly when both gates passed; otherwise the identity of the first failing fact, which depends on the run only through the cleanup; a raw leak stops before the parse and is never reported as anything else |
| `SolAttempts.SolGuardedRegion` | src/controller/orchestrator.mjs:962-1298 | as for workers: no throw means verified quiescence and an untouched ledger |
| `SolAttempts.CompileResponse` | src/controller/orchestrator.mjs:1386-1446 | accepted exactly when nothing failed before, the parse and the compilation succeeded and the acceptance record was persisted; otherwise the identity of the first failure |
| `SolAttempts.ExecuteSolAttempt` | src/controller/orchestrator.mjs:891-1493 | on every path, thrown or not, the steps keep their fixed order; without faults it returns exactly for a new identity, a compiled ask, the allowed route and a proven quiescence; a normal return is a full lifecycle recorded as decided, accepted exactly when it is earned and the surface was removed, else with the identity of the first failing fact; no ACCEPTED line without an acceptance record; a record outlives its attempt only when the ledger append after it threw; an invocation that has its COMPLETION is closed with CRASH_AFTER_START under exactly the condition for workers, on a route that was not refused |
| `SolAttempts.SettledMeansEarned` | src/controller/orchestrator.mjs:1144-1446 | no error identity at all exactly when everything that acceptance needs is there: exit, scans, surface, collection, parse, compilation and both records |
| `SolAttempts.LedgerCodeMeans` | src/controller/orchestrator.mjs:1386-1493 | the ledger code of each error identity |
| `SolAttempts.CompletedSolInvocationIsClosed` | src/controller/orchestrator.mjs:1124-1378 | the same state reached by a SOL attempt |
| `ControllerMachine.CyclesAreDispatches` | src/controller/orchestrator.mjs:1800-1844 | after every history the repair cycles of all records sum to the number of dispatched repairs |
| `ControllerMachine.NeverReopens` | src/controller/orchestrator.mjs:2037-2065 | records keep their place, item and origin along every history; a closed record never changes again |
| `ControllerMachine.ClosedIffResolved` | src/controller/orchestrator.mjs:2037-2042 | a record is CLOSED exactly when some recheck bound to its own originating exchange answered RESOLVED for it |
| `ControllerMachine.NothingOpenMeansAllResolved` | src/controller/orchestrator.mjs:1963-2012 | with no open record, every finding and adjacent defect of every accepted review has its own record, closed by a recheck over that review's exchange |
| `ControllerMachine.BindingAlwaysHolds` | src/controller/orchestrator.mjs:1801-1837 | an active identity is always bound and names an open record, until a resolved recheck is settled |
| `ControllerMachine.ContractInHand` | src/controller/orchestrator.mjs:1944-1951 | the contract in hand is the last diagnosis' since the binding, else the binding's own |
| `ControllerMachine.GuardCatchesExactlyDiagnosis` | src/controller/orchestrator.mjs:1801-1805 | with an active finding the dispatch guard refuses exactly the runs in which a diagnosis replaced the contract by one with another repair id |
| `Histories.DiagnosisStopsTheRepair` | src/controller/orchestrator.mjs:1801-1956 | a legal run in which a diagnosis replaces the contract and every repair dispatch is refused |
| `ControllerMachine.DispatchIsBound` | src/controller/orchestrator.mjs:1801-1844 | at every repair dispatch the active id names an open record, the binding carries it, and the contract has the binding's repair id |
| `ControllerMachine.ReviewBindsItsOwnExchange` | src/controller/orchestrator.mjs:2021-2025 | a failed review binds the record's own exchange exactly when no record left open by an earlier review shares an identity with it |
| `Histories.RepeatedDefectBindsAnotherExchange` | src/controller/orchestrator.mjs:1985-2025 | a legal run of two failed final reviews, each with a finding of its own, that report one adjacent defect: the first review's record of it is bound to the second review's exchange |
| `ControllerMachine.RecheckGoesToFirstOpen` | src/controller/orchestrator.mjs:1884-1892 | a recheck goes to the first open record with the active identity: the repaired one exactly when no earlier open record shares that identity |
| `Histories.RepairedAndRecheckedDiffer` | src/controller/orchestrator.mjs:1815-1892 | a legal run of three failed reviews in which finding identities repeat: the repair is counted on one record and the recheck closes another |
| `RepairTickets.TicketsAreMade` | src/controller/orchestrator.mjs:485-491 | the repair tickets on disk are those that some selection or some failed review wrote |
| `RepairTickets.TicketsOnce` | src/controller/orchestrator.mjs:451-491 | a ticket is named by finding, ask and response, and no run writes one twice |
| `RepairTickets.CanBeSelectedIff` | src/controller/orchestrator.mjs:1806-1837 | between two steps of any run, some continuation selects a record for repair exactly when it is open, was never repaired, and no ticket of its identity and its own exchange exists |
| `RepairTickets.BoundByReviewIsNeverSelected` | src/controller/orchestrator.mjs:1806-2025 | once a failed review has bound some record of an identity to its exchange, its own record of that identity is never selected in any continuation |
| `RepairTickets.RepeatedDefectIsNeverSelected` | src/controller/orchestrator.mjs:1806-2025 | after two reviews of one defect the second record of it is open, unrepaired and never selectable; so is the finding whose binding was displaced; the first record of the defect can still be selected |
| `ControllerMachine.CriteriaAlwaysHold` | src/sol/contracts/validate.mjs:966-1025 | in every run each record of a finished review names its requirement, a finding through the checklist of its exchange and a defect by its own reference, because a failed review carries checklist findings and at most one defect with a requirement of its own |
| `Controllers.Controller.DispatchBound` | src/controller/orchestrator.mjs:1802-1844 | the guard refuses exactly when the active record, the binding and the contract do not agree; otherwise one cycle is counted, on the first open record with the active identity |
| `Controllers.Controller.SelectRepair` | src/controller/orchestrator.mjs:1806-1837 | an unbound repair route binds the first open record that was never repaired, by its own exchange, whose ticket must be new; then the guard holds, and that very record is the one to be dispatched |
| `Controllers.Controller.DispatchRepair` | src/controller/orchestrator.mjs:1800-1844 | a targeted repair counts one cycle on exactly one record: the selected one when nothing was bound, and then its own ticket is new, else the first open one with the active identity |
| `Controllers.Controller.WorkerStep` | src/controller/orchestrator.mjs:1799-1881 | a worker route counts a cycle exactly when it is a targeted repair; without faults it goes on exactly when the dispatch is not refused and the attempt returns; it goes on with the verdict that the ledger shows for its invocation; a refused dispatch leaves the refusing state behind |
| `Controllers.Controller.AskSol` | src/controller/orchestrator.mjs:1900-1941 | a SOL answer counts only with an ACCEPTED ledger line and when it is one that the response contract admits for its route; without faults that is exactly when the attempt returns and is earned; a thrown or rejected attempt rejects the run for the code of what was thrown or of the error it was settled as, and nothing assessed before changes |
| `Controllers.Controller.EndRoute` | src/controller/orchestrator.mjs:1750-1776 | what each route without an action decides, and its reason: the exhausted budget, or the rejection the run was stuck on |
| `Controllers.Controller.RecordReview` | src/controller/orchestrator.mjs:1963-2012 | an accepted final review records every finding and then every adjacent defect, all OPEN, before anything else is decided |
| `Controllers.Controller.BindReview` | src/controller/orchestrator.mjs:2019-2036 | a failed review binds one of its open records by a new ticket; there always is one, because an answer that reports nothing does not compile |
| `Controllers.Controller.MarkRecheck` | src/controller/orchestrator.mjs:2037-2043 | an accepted recheck changes the selected record only: one recheck more, CLOSED exactly on RESOLVED |
| `Controllers.Controller.SettleRecheck` | src/controller/orchestrator.mjs:2052-2065 | only a passed recheck releases the active id, the binding and the contract |
| `Controllers.Controller.DiagnoseStep` | src/controller/orchestrator.mjs:1944-1956 | a diagnosis replaces the repair contract and leaves binding and active id alone |
| `Controllers.Controller.SolStep` | src/controller/orchestrator.mjs:1884-2066 | no SOL route ever accepts; only a contract check asks for review; a recheck needs an open active record |
| `Controllers.Controller.LoopStep` | src/controller/orchestrator.mjs:1725-2067 | without faults one iteration does exactly what the decision, the variables, the ledger and the answers say: go on, stop, or throw one named error; it accepts exactly when it routed to completion with no open finding; a stop carries its own reason |
| `Controllers.Controller.Loop` | src/controller/orchestrator.mjs:1725-2067 | for any bound on the steps: out of steps is never an acceptance, the routes are the router's decisions in order, and every completed review step left its review in the history |
| `Controllers.Controller.TerminalGuards` | src/controller/orchestrator.mjs:2072-2163 | what is left of a disposition after the seam downgrade, the store removal, the terminal cleanup and the open-finding recheck, and that exactly its records are written; without faults store and cleanup are settled |
| `Controllers.RecordsMean` | src/controller/orchestrator.mjs:2131-2165 | which records each disposition leaves and in which order: a candidate exactly after acceptance, an approval last and only for an approved run, a rejection before its disposition |
| `Controllers.SolReasonMeans` | src/controller/orchestrator.mjs:1930-1941 | which identity of a rejected SOL attempt is recorded under which code |
| `Controllers.Controller.Conclude` | src/controller/orchestrator.mjs:2180-2219 | the sweep fails exactly when an append of it throws; the finalizer says whether the ledger is complete exactly when neither it nor the cleanup before it throws |
| `Controllers.Controller.Close` | src/controller/orchestrator.mjs:2072-2179 | terminal guards unless something threw, then the outer catch: disposition, records and reason after both |
| `Controllers.Controller.Decide` | src/controller/orchestrator.mjs:1724-2179 | everything that decides the disposition, with the outer catch: the exact condition of acceptance, and a rejection as the last record after any throw |
| `Controllers.Controller.Run` | src/controller/orchestrator.mjs:1627-2270 | for every router, worker and SOL behaviour and an exception at any effect: accepted exactly when nothing threw, the last route is completion, no finding is open, no test seam unless low risk, the store is gone and cleanup was verified; then every reported item of every routed review was resolved over its own exchange and every step has its assessed ledger line; a rejection carries a taxonomy code that says why; cycles equal dispatches; the ledger is a lifecycle ledger; the run is reported good exactly when it accepted, the ledger is complete and neither the terminal cleanup nor the finalization threw; without faults everything is recorded, removed and swept |
| `ProcessTables.Descendants` | src/controller/process-supervisor.mjs:258-288 | the worklist ends on every table, cyclic or with repeated rows, and visits exactly the pids above 1 on a path of followed child links from the root |
| `ProcessTables.VisitsAllReachable` | src/controller/process-supervisor.mjs:267-284 | it visits every reachable pid above 1 exactly when pid 1 is not reachable from the root or nothing unvisited hangs below pid 1 |
| `ProcessTables.InitIsNobodysChild` | src/controller/process-supervisor.mjs:258-288 | if no row gives pid 1 a parent above 1, the pids above 1 that are visited are exactly the reachable ones |
| `ProcessTables.InitHidesAProcess` | src/controller/process-supervisor.mjs:272 | a table in which pid 1 hides a reachable process |
| `Supervisors.ListedAliveIsLive` | src/controller/process-supervisor.mjs:316-325 | the index by pid agrees with the table on whether a pid lives exactly when every live row of it that a zombie row follows has a later live row |
| `Supervisors.VerdictOverLiveProcess` | src/controller/process-supervisor.mjs:316-332 | begin and quiesce over tables that list a tracked child alive and then, in one later row, as a zombie: the verdict is positive over the live row |
| `Supervisors.Supervisor.VerdictCoversTracked` | src/controller/process-supervisor.mjs:316-456 | a positive proof leaves no live row of a tracked process exactly when no such row of a process that is tracked, but neither root nor in the group, is hidden in the last table |
| `Supervisors.TerminateProcessesByMarker` | src/controller/process-supervisor.mjs:545-625 | SIGTERM goes to exactly the processes identified first, SIGKILL to exactly those whom the last read of the grace period still shows; what remains is what the last read shows |
| `Supervisors.Supervisor.ReadRows` | src/controller/process-supervisor.mjs:247-256 | an unreadable or malformed table is no rows and a failure that stays |
| `Supervisors.Supervisor.MarkerCandidates` | src/controller/process-supervisor.mjs:290-308 | without a marker the empty set without a read; an unreadable listing is unknown, never empty, and a failure that stays |
| `Supervisors.Supervisor.Scan` | src/controller/process-supervisor.mjs:258-288 | a successful scan adds exactly the processes it visits to `tracked`; nothing is ever removed |
| `Supervisors.Supervisor.Begin` | src/controller/process-supervisor.mjs:349-361 | begin records the root and the group its first row shows, tracks at once, and refuses pids up to 1 |
| `Supervisors.Supervisor.SurvivorsFrom` | src/controller/process-supervisor.mjs:316-332 | survivors are the root, tracked and group processes that are listed alive, and every marker match |
| `Supervisors.Supervisor.WaitForAbsence` | src/controller/process-supervisor.mjs:334-346 | the answer is exactly what the last look shows, unknown when it cannot be read; it polls on exactly while somebody is left |
| `Supervisors.Supervisor.Terminate` | src/controller/process-supervisor.mjs:413-435 | without a kill function the verdict can no longer be positive; SIGTERM goes to exactly the survivors, SIGKILL to exactly those whom the grace period leaves |
| `Supervisors.Supervisor.Sweep` | src/controller/process-supervisor.mjs:400-435 | somebody is signalled exactly when it was asked for and the first look finds somebody: SIGTERM to all whom it finds, by what was known or by their place below the root, SIGKILL to those whom the grace period leaves; marker matches of the first look are tracked |
| `Supervisors.Supervisor.VerifyAbsence` | src/controller/process-supervisor.mjs:437-456 | every field of the evidence, from the flags of the whole life and the two last reads; verified exactly when the whole life had no bad read and these show nobody |
| `Supervisors.Supervisor.Quiesce` | src/controller/process-supervisor.mjs:367-501 | the first verdict stands; before begin it is positive without a look; otherwise the evidence is exactly the proof, one bad read at any time excludes it, and it says whether and whom it signalled: exactly when asked to and somebody was there |
| `ProcessWorlds.IdentitiesLast` | src/controller/process-supervisor.mjs:247-361 | in every history of the world, gone stays gone, dead stays dead, and a process keeps its pid although pids are reused |
| `ProcessWorlds.ActionsDo` | src/controller/process-supervisor.mjs:258-361 | what each step of the world changes and keeps: a child takes group, marker and origin from its parent, a dead process keeps everything else, a reaped one is gone |
| `ProcessWorlds.GroupLivedBefore` | src/controller/process-supervisor.mjs:325-329 | nobody of the invocation enters the group from outside: a later member means an earlier one |
| `ProcessWorlds.VerdictIsSound` | src/controller/process-supervisor.mjs:367-501 | if every living process of the invocation has the group, or the marker, or was chained to the root at some scan, and the last table hides no live row of a process that only the tracking knows, a verified quiescence means none is alive at the last read; tables may hold stale and repeated rows |
| `JsonStrings.EscapeRoundTrip` | src/logging/digest.mjs:26 | every string, lone surrogates included, is decoded from its literal by the grammar of section 7 of RFC 8259 |
| `JsonStrings.EscapedIsClean` | src/logging/digest.mjs:26 | a literal has no control character, and surrogates only in pairs |
| `JsonStrings.PairedMeans` | src/logging/digest.mjs:26 | surrogates in pairs, read locally: a lead is followed by a trail and a trail follows a lead |
| `JsonStrings.EscapeIsShortest` | src/logging/digest.mjs:26 | no shorter literal stands for a unit that is not a surrogate |
| `JsonStrings.EscapeDigits` | src/logging/digest.mjs:26 | an escape by number has four lower-case digits, the highest first |
| `CanonicalJson.DecodeSer` | src/logging/digest.mjs:24-34 | decoding the canonical text gives the normal form: members sorted, undefined members dropped, undefined elements null |
| `CanonicalJson.SerEqualIffNormEqual` | src/logging/digest.mjs:24-34 | two values have one canonical text exactly when they have one normal form |
| `CanonicalJson.InsertionOrderIsForgotten` | src/logging/digest.mjs:29-33 | the insertion order of members does not change the text |
| `CanonicalJson.MembersAscend` | src/logging/digest.mjs:29-33 | members are written by key: where two keys first differ the smaller unit comes first |
| `CanonicalJson.ExampleText` | src/logging/digest.mjs:24-34 | the text of one object, unit by unit: sorted keys, no blanks, an undefined member dropped |
| `Texts.TextLeIsLexical` | src/logging/digest.mjs:29-33 | the order of texts is decided by the first unit in which they differ |
| `SemanticDigests.CanonicalizeJson` | src/contracts/digest.mjs:48-60 | the loop over sorted keys computes the recursive canonical structure |
| `SemanticDigests.StringifyCanon` | src/contracts/digest.mjs:48-79 | canonicalising and stringifying writes the same text as the logging serialisation |
| `SemanticDigests.SemanticPreimage` | src/contracts/digest.mjs:89-105 | the loop over the fields builds exactly the specified preimage |
| `SemanticDigests.PreimageEqualIff` | src/contracts/digest.mjs:67-105 | equal preimages exactly for equal contract key and risk class and equal multisets of canonical members in the six set-like collections |
| `SemanticDigests.InnerListsKeepOrder` | src/contracts/digest.mjs:18-21 | a list inside a member keeps its authored order |
| `SemanticRules.ScanDuplicates` | src/contracts/validate.mjs:199-209 | the scan with a set finds exactly the positions with an equal earlier key |
| `SemanticRules.ScanOwners` | src/contracts/validate.mjs:263-291 | the scan with a map finds exactly the claims on a word that a differently named list claimed first |
| `SemanticRules.ApplySemanticRules` | src/contracts/validate.mjs:189-380 | every report is made exactly when it is due, code by code, and so is every warning |
| `SemanticRules.NothingDueIffValid` | src/contracts/validate.mjs:189-380 | no report is due exactly when the document is valid pairwise: distinct keys and names, fields owned once, pairs distinct and unambiguous, counts natural, identities unique and content-bound, status and digest recomputed |
| `SemanticRules.OverlapIffShared` | src/contracts/validate.mjs:263-275 | FIELD_NAME_OVERLAP is reported exactly when two differently named concepts share a field |
| `SemanticRules.RequirementsAreDistinct` | src/contracts/validate.mjs:343-367 | in a valid document no two side effects state one requirement |
| `SemanticRules.AuthorityFailureReason` | src/contracts/validate.mjs:158-187 | no reason exactly when schema, rules and compile status all hold; a reported rule problem is a due one |
| `Compiler.DerivedPartsAreRight` | src/contracts/compiler.mjs:131-160 | status, counts, identities and digest of a compiled document are never what is wrong with it |
| `Compiler.CompileSemanticContract` | src/contracts/compiler.mjs:78-178 | compiles exactly when the input is well formed, the schema accepts it and its own lists keep the rules: distinct keys and names, fields owned once, pairs unambiguous; the result carries the input field by field, is valid and carries exactly the due warnings; it is authoritative exactly when nothing high-risk is unresolved and every warning fits the schema's bounds |
| `Compiler.ChecksAreOnInput` | src/contracts/compiler.mjs:78-166 | the checks on the stamped document are checks on the input: assertions, schema and rules |
| `Compiler.FitsIffShort` | schemas/semantic-contract.v2.schema.json:216-228 | the bounds on a warning as lengths that can be read off the input |
| `Compiler.LongNameLosesAuthority` | src/contracts/compiler.mjs:163-177 | a concept with a long name compiles to a document that is not authoritative, because warnings are attached after validation |
| `Acceptance.ApplyAcceptanceRules` | src/contracts/validate.mjs:406-638 | every rejection is made exactly when it is due |
| `Acceptance.NothingDueIffAcceptable` | src/contracts/validate.mjs:406-638 | for a schema-valid document nothing is due exactly when it is acceptable: source authoritative, key and digest bound, references unique and known, targets in scope, side effects a permutation of the source's, one pinned test each, frozen parts exact |
| `Acceptance.ValidateAcceptanceContract` | src/contracts/validate.mjs:394-404 | valid exactly when the schema and the pairwise specification hold |
| `Acceptance.SchemaRefusesFaults` | schemas/acceptance-contract.v2.schema.json:1-320 | the schema refuses a document exactly for one of the listed faults: a text out of bounds, a malformed identity or digest, an empty list, a side effect or a test out of shape |
| `Acceptance.CarryClean` | src/contracts/validate.mjs:527-576 | no carry complaint exactly when the carried list is a permutation of the source's |
| `Acceptance.TestsClean` | src/contracts/validate.mjs:578-616 | no test complaint exactly when one test names each side effect and pins its scope and count |
| `Acceptance.FrozenAndRejectedAreAll` | src/contracts/validate.mjs:621 | frozen and rejected side effects together are the source's list |
| `Repair.GuardFitsIff` | src/contracts/repair.mjs:226-238 | a generated test meets the schema exactly when gate, scope and count have at most 96 characters together |
| `Contracts.DigitsMean` | src/contracts/repair.mjs:231 | the count in a guard name is a decimal numeral without a leading zero that stands for the count |
| `Contracts.ShapesAre` | src/shared/ids.mjs:22-27 | the identities of findings and side effects and the digests: prefix, length and lower-case digits, place by place |
| `Repair.AddGuards` | src/contracts/repair.mjs:221-239 | the loop adds one guard test for exactly the side effects that no user test names |
| `Repair.SchemaIffFits` | src/contracts/repair.mjs:257-287 | the built document meets the schema exactly when the texts and the guard names fit |
| `Repair.RulesIffTestsAgree` | src/contracts/repair.mjs:191-239 | the rules accept the built document exactly when no two user tests name one side effect and no unnamed test expects a negative count |
| `Repair.BuildRepairContract` | src/contracts/repair.mjs:97-290 | returns exactly when its own checks hold, the texts fit and the user tests agree; what it returns carries the input field by field and the validator accepts it; every other failure is an own check |
| `Repair.DocumentCarriesInput` | src/contracts/repair.mjs:216-277 | the built document: the input's own words, the source it is bound to, the user's tests followed by a guard for exactly the side effects they do not name, and everything else of the source frozen |
| `Repair.LongGuardIsRefused` | src/contracts/repair.mjs:97-290 | for every authoritative contract with a side effect whose generated name is too long, the plainest repair of it passes the builder's own checks and is then refused |
| `Repair.LongGateIsRefused` | src/contracts/repair.mjs:226-290 | a contract, with gate, scope and count of 97 characters, to which that happens |
| `Calendar.EpochIsZero` | src/audit/time.mjs:57-65 | 1970-01-01 is day zero |
| `Calendar.NextIsOneMore` | src/audit/time.mjs:24-65 | the calendar successor of every valid date is valid and counts one more |
| `Calendar.DaysGrow` | src/audit/time.mjs:57-65 | the count is strictly increasing along the calendar |
| `Calendar.DaysInjective` | src/audit/time.mjs:57-65 | different valid dates have different counts |
| `Calendar.DaysOnto` | src/audit/time.mjs:57-65 | every integer is the count of some valid date |
| `Time.CompareFractionIsExact` | src/audit/time.mjs:76-84 | fractions of any lengths are compared as exact values |
| `Time.NormalizedIsUnique` | src/audit/time.mjs:72-74 | fractions of one value have one normal form |
| `Time.ParseAcceptsRealTimes` | src/audit/time.mjs:22-118 | parsing accepts exactly the texts of real local times and gives their instant |
| `Time.RealMeans` | src/audit/time.mjs:102-108 | the real local times: the ranges written out, with the lengths of the months and the leap rule |
| `Time.OffsetMeans` | src/audit/time.mjs:109-117 | an offset ahead of UTC is subtracted, one behind it is added |
| `Time.AuthoredOrder` | src/audit/time.mjs:120-132 | authored times are ordered by exact instants across offsets and fractions, ids breaking ties |
| `Time.MomentsAreOrdered` | src/audit/time.mjs:120-137 | a total order in which different identities are never equal |
| `AuditRuns.SummaryAgrees` | src/logging/ledger.mjs:180-200 | for a lifecycle ledger, in any listing of the states: starts are the states, assessments the assessed ones, reconciliations the reconciled ones, and the four kinds add up to the events |
| `AuditRuns.CountsAddUp` | src/logging/ledger.mjs:180-200 | the per-invocation counts sum to the events of each kind |
| `Projections.OrderedIsUnique` | src/audit/project.mjs:61-64 | the chronological order of a run is one sequence however its states are listed |
| `Projections.FirstIsEarliest` | src/audit/project.mjs:166-172 | the first call in order is the only one that no other call precedes, so its verdict is that of the earliest call |
| `Projections.LatestIsLast` | src/audit/project.mjs:74-77 | the latest of some calls is one of them and none comes after it |
| `Projections.WorkUnitRecordMeans` | src/audit/project.mjs:183-231 | a work-unit line without sorting or positions: its first call is an earliest one; accepted call, last verdict and last code are those of the latest worker calls of their kinds; and what each value of the transport flag, the verdict flag and the semantic flag says about all its calls |
| `Projections.DeriveRepairAccepted` | src/audit/project.mjs:153-160 | the one-pass flag is the pairwise question: some rejected call started before some accepted one |
| `Projections.DeriveWorkUnitStatus` | src/audit/project.mjs:142-150 | the work-unit status is decided by the implementation calls alone |
| `Projections.ProjectionsIgnoreListing` | src/audit/project.mjs:120-363 | no projection depends on the order in which a map lists its states |
| `Projections.LinesAscend` | src/audit/project.mjs:120-363 | invocation and usage lines ascend by run and invocation, review lines by exact start |
| `ProjectionBuild.BuildWorkUnitLine` | src/audit/project.mjs:183-231 | every field is computed from the group by its own code, in any listing: sort and last, the transport cascade, the set of verdicts, the three classifiers |
| `ProjectionBuild.DeriveValidation` | src/audit/project.mjs:175-180 | counting the set of verdicts answers whether there are accepted and rejected calls |
| `ProjectionBuild.BuildProjections` | src/audit/project.mjs:366-373 | the loops build exactly the specified projections |
| `Metrics.TallyConserves` | src/audit/metrics.mjs:26-33 | dimension counts are multiplicities and add up to the number of lines |
| `Metrics.BucketsPartition` | src/audit/metrics.mjs:135-139 | the counters named after the statuses are exactly the five and the total, and the five add up to the total |
| `Metrics.CountOutcomes` | src/audit/metrics.mjs:135-139 | bumping a counter found by the lower-case name of the status counts every status under its own name and makes no new counter |
| `Metrics.RejectionsPartition` | src/audit/metrics.mjs:156-171 | the sums over the five code lists add up to the rejections |
| `Metrics.ListsPartitionTheCodes` | src/audit/metrics.mjs:156-171 | no code is in two of the five lists or twice in one, and every code of the ledger and the unknown one is in one |
| `Metrics.FamilyCountsLines` | src/audit/metrics.mjs:157-162 | the sum of the counts over a list is the number of rejected lines whose code is listed |
| `Metrics.CountRejections` | src/audit/metrics.mjs:156-171 | tally, lists and sums computed by loops |
| `Metrics.CompleteTokens` | src/audit/metrics.mjs:72-88 | a token total is a number exactly when every line has its usage; the known part is always the sum |
| `Metrics.UsageRecordsAreSound` | src/audit/project.mjs:306-312 | waste is exactly an explicit rejection |
| `Metrics.CallsPartition` | src/audit/metrics.mjs:213-254 | usage lines split into accepted calls, waste and the rest |
| `Metrics.TokensPartition` | src/audit/metrics.mjs:213-254 | and so do their tokens |
| `Metrics.CategoriesAddUp` | src/audit/metrics.mjs:223-250 | the calls that are neither accepted nor rejected fall in three categories whose counts add up to them |
| `Reconcile.MultisetDiff` | src/audit/reconcile.mjs:21-35 | missing and unexpected are the multiset differences; ok exactly when the multisets are equal |
| `Reconcile.DifferenceConserves` | src/audit/reconcile.mjs:21-35 | expected and unexpected equal actual and missing, and nothing is both |
| `Reconcile.CanonicalGroups` | src/audit/reconcile.mjs:37-48 | the loop over runs and states gives the work units in order of first occurrence, each with its states in chronological order |
| `Reconcile.CanonicalWorkUnitClasses` | src/audit/reconcile.mjs:55-92 | code of its own classifies every group: the some/every cascade, the first of the sorted calls, the rejected-before-accepted flag |
| `Reconcile.CanonicalClassIsByPairs` | src/audit/reconcile.mjs:55-92 | under distinct identities that classification is the pairwise one: no position, only who started before whom |
| `Reconcile.CountClasses` | src/audit/reconcile.mjs:185-189 | the expected outcome counters, bumped by name, are the multiplicities of the canonical statuses |
| `Reconcile.BuildReconciliation` | src/audit/reconcile.mjs:118-253 | the failed checks are exactly those of the eighteen statements that do not hold |
| `EndToEnd.LifecycleRunsReconcile` | src/audit/reconcile.mjs:118-253 | for runs of the documented lifecycle with distinct run ids, projections and metrics pass all eighteen checks |
| `EndToEnd.LineHasCanonicalClass` | src/audit/reconcile.mjs:81-92 | the projection's code and the canonical code, each on its own, give every work unit one class, the pairwise one |
| `EndToEnd.LinesStateTheirCalls` | src/audit/project.mjs:85-359 | the projected invocation, usage and review lines of a call, wherever the sorting put them, state that call: identity, status, verdict, code, usage, waste tokens and category; there is a review line exactly for a SOL or SOL_PRO call |
| `EndToEnd.UsageAddsUp` | src/audit/metrics.mjs:213-254 | over the usage lines of any runs: waste is what the rejection metric counts, accepted calls are the accepted states, and with the three other categories that is every state |
| `EndToEnd.TokensAddUp` | src/audit/metrics.mjs:213-254 | the tokens of the usage lines of any runs split the same way |
| `Corruption.OkExcludesCorruption` | src/audit/reconcile.mjs:162-230 | for arbitrary lists, ok means one invocation, usage, review and work-unit line for each canonical identity, with its status, role, outcome, verdict and code, and its class, nothing else, and every outcome counter right |
| `Corruption.DuplicateForOmittedIsFound` | src/audit/reconcile.mjs:21-35 | in each of the four projections, writing one line over another keeps every count and breaks the identity check |
| `Corruption.FalsifiedFactIsFound` | src/audit/reconcile.mjs:163-175 | another status, role, outcome, verdict or code in one invocation line breaks the check of the facts |
| `Corruption.FalsifiedRoleIsFound` | src/audit/reconcile.mjs:178-182 | another role in one review line breaks the check of the roles |
| `Corruption.FalsifiedClassIsFound` | src/audit/reconcile.mjs:192-205 | another status, first pass or repair flag in one work-unit line breaks the check of the classes |
| `Corruption.FalsifiedCounterIsFound` | src/audit/reconcile.mjs:206-209 | a wrong outcome counter breaks the check of the counters |
| `RunSelection.SelectionCuts` | src/audit/runs.mjs:132-141 | the selection cuts one sorted sequence into an older prefix and the newest min(last, count) runs, losing nothing |
| `RunSelection.SelectionIgnoresReadOrder` | src/audit/runs.mjs:132-141 | the order in which run directories are read does not matter |
| `RunSelection.Audit` | src/audit/index.mjs:96-100 | the whole audit of lifecycle runs reconciles |

## Left out

- Router decisions, worker patches and SOL answers are inputs of the model; only the controller's guards are verified, so nothing is claimed about which route is chosen.
- Variables that only the router reads (failure history, stuck evidence, the review summary, the routing state) and the budget counters.
- Evidence files, prompts, error messages, candidate and patch contents, the worktree and its cleanup after the run.
- Controllers.Controller.AnswerOk: of the response contract only verdicts and reported items are modelled; evidence references, texts and schema versions belong to the arbitrary verdict of the compiler.
- RepairTickets.CanBeSelectedIff: the continuation may take any routes, and may review identities again; whether the router would take them, and whether a checklist names a requirement of the contract, is outside the machine.
- Controllers.Controller.Run: a run is modelled from the first loop step; startup checks, loading of the project and creation of the run store come before it.
- RunStores.RunStore.ReconcileOrphans: the order in which orphans are closed is arbitrary; the code closes them by identity.
- RunStores.RunStore.Append: the digest chain, locking and the re-synchronisation of concurrent writers are not modelled; the ledger is the sequence of its events.
- WorkerAttempts.ExecuteWorkerAttempt: the checks that make up a patch's validity are facts of the attempt, not recomputed from files.
- Supervisors.Supervisor.WaitForAbsence: the deadlines become numbers of polls; clocks and sleeping are not modelled.
- Supervisors.Supervisor.Terminate: a kill function that throws, and delivery of signals, are outside the model.
- ProcessWorlds.VerdictIsSound: the invocation's processes are assumed not to enter the recorded group from outside; table and marker are read one after the other, so a process that rejoins in between could be missed.
- CanonicalJson.SerEqualIffNormEqual: numbers are their printed tokens; functions, symbols, `toJSON`, cyclic values, integer-like keys and `__proto__` are not modelled.
- SemanticDigests.PreimageEqualIff: stated on the text that is hashed, for collections without undefined members, which no parsed document has; SHA-256 is not modelled.
- SemanticDigests.StringifyCanon: a top-level undefined, for which there is no text, is written as null.
- Compiler.CompileSemanticContract: the schema engine is an arbitrary verdict on the parts that no rule reads; the input assertions on those parts (ownership, references, evidence, invented answers) are left out with them.
- Repair.BuildRepairContract: the repair id and the time are inputs; counts are printed in plain decimal, as the language does below ten to the power of twenty-one.
- Reports are compared as sets of codes with positions; their texts and the order among codes are not modelled.
- Projections.ProjectionsIgnoreListing: labels, summaries, evidence references and costs are left out, so floating-point rounding plays no part; identities are ordered by character code.
- Metrics.ComputeMetrics: escalation, transport and ledger-status counters, rates and the historical version identity are left out; they are counts of the same kind.
- Projections.InstantOf: a time that is not real gives a fixed instant; the building methods require runs that were loaded, where every time was parsed.
- RunSelection.SelectRuns: discovery of run directories, validation of run records and file output are not modelled.
- Sandbox profiles, spawning, credential scanning, file locks, Git, renderers, command line and version reporting.
