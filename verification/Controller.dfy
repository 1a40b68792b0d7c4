/**
 The controller run loop.  The class holds the variables of one run; each method is one branch of
 the loop, and `history` records what the run did in the terms of ControllerMachine.  The answers of
 the router, the workers and SOL are arbitrary, and any effect may throw.
 */
module Controllers {
  import opened Options
  import L = Ledger
  import opened RunStores
  import W = WorkerAttempts
  import S = SolAttempts
  import opened ControllerMachine

  datatype Verdict = PASS | FAIL | RESOLVED | NOT_RESOLVED | CAUSE_IDENTIFIED | OTHER_VERDICT

  /** An accepted and compiled SOL response with the ask it answers. */
  datatype Response = Response(
    exchange: Exchange, verdict: Verdict, findings: seq<Item>, adjacentCriticalDefects: seq<Item>, conversion: Option<Id>)

  /** Everything the outside world says during one loop step. */
  datatype StepAnswers = StepAnswers(
    decision: Decision, reasonCode: W.RawCode, permitted: bool, worker: W.WorkerAnswers, sol: S.SolAnswers,
    thrownCode: W.RawCode, response: Response, repairBuilds: bool, holdsStore: bool)

  /** What an accepted final review reports, in the order of its records. */
  function ItemsOf(r: Response): seq<Item> { r.findings + r.adjacentCriticalDefects }

  /** What the compiler of SOL answers asks of an answer to a route: its verdict, and what goes with it. */
  predicate AnswerOk(d: Decision, r: Response) {
    match d
    case FINAL_REVIEW =>
      || (r.verdict == PASS && ItemsOf(r) == [])
      || (r.verdict == FAIL && FailAnswer(r.findings, r.adjacentCriticalDefects, r.exchange))
    case RECHECK =>
      r.verdict in {RESOLVED, NOT_RESOLVED} && (r.verdict == RESOLVED <==> r.findings == []) && r.adjacentCriticalDefects == []
    case DIAGNOSE => r.verdict in {CAUSE_IDENTIFIED, OTHER_VERDICT} && |r.findings| <= 1 && r.adjacentCriticalDefects == []
    case _ => r.verdict == OTHER_VERDICT && r.adjacentCriticalDefects == []
  }

  /** What every accepted answer looks like: only a review reports defects, and a verdict fits what is reported. */
  ghost predicate AnswerShape(d: Decision, r: Response) {
    && (d != FINAL_REVIEW ==> r.adjacentCriticalDefects == [])
    && (d == FINAL_REVIEW ==> (r.verdict == PASS || r.verdict == FAIL) && (r.verdict == PASS <==> r.findings == []) && |r.adjacentCriticalDefects| <= 1)
    && (d == FINAL_REVIEW && r.verdict == PASS ==> r.adjacentCriticalDefects == [])
    && (d == FINAL_REVIEW ==>
          && |r.findings| <= 16
          && (forall item :: item in r.findings ==>
                item.kind == FINDING && item.invariantRef.Some? && item.invariantRef.value in r.exchange.checklist && item.lockedRef.None?)
          && (forall item :: item in r.adjacentCriticalDefects ==>
                item.kind == ADJACENT_CRITICAL_DEFECT && item.invariantRef.None? && item.lockedRef.Some? && item.critical)
          && (r.verdict == FAIL ==> exists item :: item in ItemsOf(r) && item.critical))
    && (d == RECHECK ==> (r.verdict == RESOLVED || r.verdict == NOT_RESOLVED) && (r.verdict == RESOLVED <==> r.findings == []))
    && (d == DIAGNOSE ==> (r.verdict == CAUSE_IDENTIFIED || r.verdict == OTHER_VERDICT) && |r.findings| < 2)
    && (d !in {FINAL_REVIEW, RECHECK, DIAGNOSE} ==> r.verdict == OTHER_VERDICT)
  }

  lemma AnswersHaveShape(d: Decision, r: Response)
    ensures AnswerOk(d, r) <==> AnswerShape(d, r)
  {
    if d == FINAL_REVIEW {
      var items := ItemsOf(r);
      assert forall item :: item in items <==> item in r.findings || item in r.adjacentCriticalDefects;
      if r.adjacentCriticalDefects != [] { assert r.adjacentCriticalDefects[0] in items; }
    }
  }

  lemma FreshIsOpen(fs: seq<Finding>, items: seq<Item>, origin: Exchange)
    requires RecordedAll(fs, items, origin)
    ensures FindFirst(fs, OpenAmong(IdsOf(items))).Some? <==> items != []
  {
    if items != [] {
      var f := fs[|fs| - |items|];
      assert f == Fresh(items, origin)[0] && IdsOf(items)[0] in IdsOf(items);
      assert OpenAmong(IdsOf(items)).Fits(f);
    }
  }

  datatype Disposition = SEMANTICALLY_ACCEPTED | REVIEW_APPROVED | REVIEW_REQUIRED | REJECTED

  predicate IsAccepting(d: Disposition) { d == SEMANTICALLY_ACCEPTED || d == REVIEW_APPROVED }

  /** Why the outer catch was entered. */
  datatype Cause =
    | Fault | WorkerFailed | TicketRefused | TicketTaken
    | UnboundRepair | NothingToRepair | NoCriterion | UnboundRecheck
  {
    /** Raised by the controller itself, with a code of the taxonomy. */
    predicate IsOwn() { !Fault? && !WorkerFailed? && !TicketRefused? && !TicketTaken? }
  }

  /** The run-level code of a rejected SOL attempt; transport identities are outside the taxonomy. */
  function SolReason(e: Option<S.SolError>): W.RawCode {
    match e
    case None => W.Known(L.Code.SOL_ASK_INVALID)
    case Some(ASK_INVALID) => W.Known(L.Code.SOL_ASK_INVALID)
    case Some(MISMATCH) => W.Known(L.SCHEMA_MISMATCH)
    case Some(MALFORMED) => W.Known(L.TRANSPORT_MALFORMED)
    case Some(_) => W.Unknown
  }

  /** Four reasons have codes of their own; every other identity is recorded as an unsupported claim. */
  lemma SolReasonMeans(e: S.SolError)
    ensures SolReason(Some(e)) == W.Known(L.Code.SOL_ASK_INVALID) <==> e == S.ASK_INVALID
    ensures SolReason(Some(e)) == W.Known(L.SCHEMA_MISMATCH) <==> e == S.MISMATCH
    ensures SolReason(Some(e)) == W.Known(L.TRANSPORT_MALFORMED) <==> e == S.MALFORMED
    ensures SolReason(Some(e)) == W.Unknown <==> e !in {S.ASK_INVALID, S.MISMATCH, S.MALFORMED}
  {}

  datatype Flow = Continue | Stop | Throw(cause: Cause)

  /** A disposition record of the run, in the order of writing. */
  datatype Persisted = PatchValidRecord | AcceptedRecord | CandidateRecord | ApprovedRecord | ReviewRequiredRecord | RejectionRecord | RejectedRecord

  function RecordsOf(d: Disposition): seq<Persisted> {
    match d
    case REJECTED => [RejectionRecord, RejectedRecord]
    case REVIEW_REQUIRED => [ReviewRequiredRecord]
    case SEMANTICALLY_ACCEPTED => [PatchValidRecord, AcceptedRecord, CandidateRecord]
    case REVIEW_APPROVED => [PatchValidRecord, AcceptedRecord, CandidateRecord, ApprovedRecord]
  }

  /** Which records a disposition leaves, and in which order. */
  lemma RecordsMean(d: Disposition)
    ensures CandidateRecord in RecordsOf(d) <==> IsAccepting(d)
    ensures ApprovedRecord in RecordsOf(d) <==> d == REVIEW_APPROVED
    ensures ReviewRequiredRecord in RecordsOf(d) <==> d == REVIEW_REQUIRED
    ensures RejectionRecord in RecordsOf(d) <==> d == REJECTED
    // acceptance: valid, accepted, and only then a candidate, before any approval
    ensures IsAccepting(d) ==> RecordsOf(d)[..3] == [PatchValidRecord, AcceptedRecord, CandidateRecord]
    ensures d == REVIEW_APPROVED ==> RecordsOf(d)[3..] == [ApprovedRecord]
    // rejection: the rejection itself, then the disposition
    ensures d == REJECTED ==> RecordsOf(d) == [RejectionRecord, RejectedRecord]
    ensures |RecordsOf(d)| == match d case REJECTED => 2 case REVIEW_REQUIRED => 1 case SEMANTICALLY_ACCEPTED => 3 case REVIEW_APPROVED => 4
  {}

  datatype Report = Report(
    disposition: Disposition, rejectionCode: Option<L.Code>, ok: bool, cause: Option<Cause>, storeGone: bool, terminalClean: bool, recorded: bool, swept: bool)

  class Controller {
    const store: RunStore
    const world: nat -> StepAnswers
    const requirements: set<Id>
    const lowRisk: bool
    const hasTestSeam: bool
    const repairIdOf: Ticket -> Id
    const faultCode: W.RawCode  // of an error that the controller does not raise itself

    var solFindings: seq<Finding>
    var activeFindingId: Option<Id>
    var repairBinding: Option<Binding>
    var repairContract: Option<Id>
    var repairsDispatched: nat
    var tickets: set<Ticket>  // the repair tickets on disk
    var resultAccepted: bool
    var finalDisposition: Disposition
    var finalReason: Option<W.RawCode>
    var latestRejection: Option<L.Code>
    var solStoreHeld: bool
    var persisted: seq<Persisted>

    ghost var history: seq<Event>
    ghost var control: Control  // what the history leads to

    constructor (store: RunStore, world: nat -> StepAnswers, requirements: set<Id>, lowRisk: bool, hasTestSeam: bool,
                 repairIdOf: Ticket -> Id, faultCode: W.RawCode)
      requires store.Valid()
      ensures Between() && history == [] && control == INITIAL && finalDisposition == REJECTED && persisted == []
      ensures this.store == store && this.world == world && this.requirements == requirements
      ensures this.lowRisk == lowRisk && this.hasTestSeam == hasTestSeam && this.repairIdOf == repairIdOf
      ensures this.faultCode == faultCode && finalReason == Some(W.Known(L.UNSUPPORTED_CLAIM)) && !solStoreHeld && latestRejection.None?
    {
      this.store, this.world, this.requirements := store, world, requirements;
      this.lowRisk, this.hasTestSeam, this.repairIdOf := lowRisk, hasTestSeam, repairIdOf;
      this.faultCode, latestRejection := faultCode, None;
      solFindings, activeFindingId, repairBinding, repairContract := [], None, None, None;
      repairsDispatched, resultAccepted, solStoreHeld, tickets := 0, false, false, {};
      persisted := [];
      finalDisposition, finalReason := REJECTED, Some(W.Known(L.UNSUPPORTED_CLAIM));
      history, control := [], INITIAL;
      assert IsTrail([INITIAL], []);
    }

    /** The history is legal and the variables are what it says, the loop-only ones excepted. */
    ghost predicate Valid()
      reads this`history, this`control, this`solFindings, this`activeFindingId, this`repairBinding, this`repairContract,
            this`repairsDispatched, this`resultAccepted, this`tickets, store
    {
      && store.Valid() && Reached(history, control)
      && solFindings == control.findings && activeFindingId == control.active && repairBinding == control.binding
      && repairContract == control.contract && repairsDispatched == control.dispatched && resultAccepted == control.resultAccepted
      && (repairBinding.Some? ==> repairBinding.value.criterion in requirements)
      && tickets == control.tickets
    }

    /** A ticket's file is named by the hash of finding, ask and response. */
    predicate FileExists(repairId: Id) reads this`tickets { exists t :: t in tickets && repairIdOf(t) == repairId }

    /** Some effect of this run throws. */
    ghost predicate Faulty() { exists t: nat :: store.throws(t) }

    ghost predicate Between()
      reads this`history, this`control, this`solFindings, this`activeFindingId, this`repairBinding, this`repairContract,
            this`repairsDispatched, this`resultAccepted, this`tickets, store
    {
      Valid() && control.phase == Idle
    }

    /** The ledger line of an assessed invocation. */
    ghost predicate LedgerSays(id: L.Id, v: L.Verdict) reads store`states {
      store.Has(id, L.ASSESSED) && store.states[id].assessmentResult == Some(v)
    }

    /** What the ledger shows for a step that went on: an assessed worker attempt, an accepted SOL attempt. */
    ghost predicate StepSettled(j: nat) reads store`states {
      match world(j).decision
      case IMPLEMENT => store.Has(world(j).worker.invocationId, L.ASSESSED)
      case REPAIR => store.Has(world(j).worker.invocationId, L.ASSESSED)
      case DIAGNOSE => LedgerSays(world(j).sol.invocationId, L.ACCEPTED)
      case FINAL_REVIEW => LedgerSays(world(j).sol.invocationId, L.ACCEPTED)
      case RECHECK => LedgerSays(world(j).sol.invocationId, L.ACCEPTED)
      case _ => true
    }

    ghost predicate StepsSettled(steps: nat) reads store`states { forall j: nat :: j < steps ==> StepSettled(j) }

    /** Note an event that has just happened. */
    ghost method Note(ev: Event)
      requires Reached(history, control) && Enabled(control, ev)
      modifies this`history, this`control
      ensures history == old(history) + [ev] && Reached(history, control)
      ensures control == Apply(old(control), ev)
      ensures control.routes == old(control).routes + if ev.Routed? then [ev.decision] else []
    {
      ReachedStep(history, control, ev);
      history, control := history + [ev], Apply(control, ev);
    }

    // -----------------------------------------------------------------------
    // What a step does when nothing throws
    // -----------------------------------------------------------------------

    /** Why a record cannot be bound to an exchange. */
    ghost function Refusal(k: nat, f: Finding, source: Exchange, written: set<Ticket>): Option<Cause> {
      var criterion := Criterion(source, f.item);
      if criterion.None? || criterion.value !in requirements then Some(NoCriterion)
      else if !world(k).repairBuilds then Some(TicketRefused)
      else if exists t :: t in written && repairIdOf(t) == repairIdOf(TicketFor(f.item.findingId, source)) then Some(TicketTaken)
      else None
    }

    ghost function RefusedOr(refusal: Option<Cause>, flow: Flow): Flow { if refusal.Some? then Throw(refusal.value) else flow }

    /** Why a repair route cannot be dispatched. */
    ghost function RepairRefusal(k: nat, c: Control): Option<Cause> {
      if c.active.Some? then if RepairGuard(c) then None else Some(UnboundRepair)
      else match FindFirst(c.findings, Unrepaired)
           case None => Some(NothingToRepair)
           case Some(i) => Refusal(k, c.findings[i], c.findings[i].origin, c.tickets)
    }

    ghost function WorkerFlow(k: nat, known: L.States): Flow {
      if W.WorkerReturns(world(k).worker, known) then Continue else Throw(WorkerFailed)
    }

    /** The SOL attempt of a step returns and is accepted. */
    ghost predicate SolAccepts(k: nat, known: L.States) {
      && S.SolReturns(world(k).sol, known) && S.SolEarned(world(k).sol) && AnswerOk(world(k).decision, world(k).response)
    }

    /** Why a failed review cannot bind the first open record that it names. */
    ghost function ReviewRefusal(k: nat, c: Control, r: Response): Option<Cause> {
      var fs := c.findings + Fresh(ItemsOf(r), r.exchange);
      match FindFirst(fs, OpenAmong(IdsOf(ItemsOf(r))))
      case None => None
      case Some(i) => Refusal(k, fs[i], r.exchange, c.tickets)
    }

    /** What an accepted answer leads to. */
    ghost function AnswerFlow(k: nat, c: Control): Flow {
      var r := world(k).response;
      match world(k).decision
      case DIAGNOSE => if r.verdict == CAUSE_IDENTIFIED && r.conversion.Some? then Continue else Stop
      case FINAL_REVIEW => if r.verdict == PASS then Continue else RefusedOr(ReviewRefusal(k, c, r), Continue)
      case RECHECK => Continue
      case _ => Stop
    }

    ghost function SolFlow(k: nat, c: Control, known: L.States): Flow {
      if world(k).decision == RECHECK && (c.active.None? || FindFirst(c.findings, OpenWithId(c.active.value)).None?) then Throw(UnboundRecheck)
      else if world(k).decision == UNKNOWN_SOL || !SolAccepts(k, known) then Stop
      else AnswerFlow(k, c)
    }

    /** The whole step. */
    ghost function StepFlow(k: nat, c: Control, known: L.States): Flow {
      if !IsAction(world(k).decision) || !world(k).permitted then Stop
      else match world(k).decision
           case IMPLEMENT => WorkerFlow(k, known)
           case REPAIR => RefusedOr(RepairRefusal(k, c), WorkerFlow(k, known))
           case _ => SolFlow(k, c, known)
    }

    /** The repair id of a record that is bound to an exchange. */
    function RepairId(record: nat, source: Exchange): Id
      reads this`solFindings
      requires record < |solFindings|
    {
      repairIdOf(TicketFor(solFindings[record].item.findingId, source))
    }

    /** Bind one record to an exchange: None when the binding is refused, its ticket exists, or an effect throws. */
    method BindRepair(k: nat, record: nat, source: Exchange) returns (b: Option<Binding>, why: Cause)
      requires store.Valid() && record < |solFindings|
      modifies store`tick
      ensures old(store.tick) <= store.tick
      ensures b.Some? ==> b.value == Binding(solFindings[record].item.findingId, RepairId(record, source), source, b.value.criterion)
                          && BindsRecord(b.value, solFindings[record]) && b.value.criterion in requirements
                          && Some(b.value.criterion) == Criterion(source, solFindings[record].item)
                          && !FileExists(RepairId(record, source))
      ensures var refusal := Refusal(k, solFindings[record], source, tickets);
              if refusal.Some? then b.None? && why == refusal.value && store.tick == old(store.tick)
              else (b.None? <==> store.throws(old(store.tick))) && (b.None? ==> why == Fault)
    {
      var f := solFindings[record];
      var criterion := Criterion(source, f.item);
      if criterion.None? || criterion.value !in requirements { return None, NoCriterion; }
      if !world(k).repairBuilds { return None, TicketRefused; }
      var repairId := repairIdOf(TicketFor(f.item.findingId, source));
      if FileExists(repairId) { return None, TicketTaken; }  // the file is created exclusively
      why := Fault;
      var ok := store.Effect();  // persist the binding ticket
      b := if ok then Some(Binding(f.item.findingId, repairId, source, criterion.value)) else None;
    }

    /** The binding was made for its own ticket, which is new. */
    predicate NewlyBound(b: Binding) reads this`tickets { b.repairId == repairIdOf(TicketOf(b)) && !FileExists(b.repairId) }

    lemma TicketIsNew(b: Binding)
      requires NewlyBound(b)
      ensures TicketOf(b) !in tickets
    {}

    /** Choose what an unbound repair route repairs: the first open record that was never repaired. */
    method SelectRepair(k: nat) returns (flow: Flow, record: nat)
      requires Valid() && control.phase == Awaiting && control.At(REPAIR) && activeFindingId.None?
      modifies this, store`tick
      ensures Valid() && Unsettled() && old(store.tick) <= store.tick
      ensures flow == Continue || flow.Throw?
      ensures flow == Continue ==>
                && solFindings == old(solFindings) && repairsDispatched == old(repairsDispatched)
                && FindFirst(solFindings, Unrepaired) == Some(record) && OwnTicket(solFindings[record]) !in old(control).tickets
                && Enabled(control, Dispatched(record))
                && activeFindingId == Some(solFindings[record].item.findingId) && RepairGuard(control)
      ensures flow == Throw(Fault) || flow == RefusedOr(old(RepairRefusal(k, control)), Continue)
      ensures flow == Throw(Fault) ==> Faulty()
    {
      record := 0;
      var i := FindFirst(solFindings, Unrepaired);
      if i.None? { return Throw(NothingToRepair), 0; }
      var b, why := BindRepair(k, i.value, solFindings[i.value].origin);
      if b.None? { return Throw(why), 0; }
      record := i.value;
      TakeSelection(record, b.value);
      var ok := store.Effect();  // event
      flow := if ok then Continue else Throw(Fault);
    }

    /** The selected record's binding becomes the run's binding. */
    method TakeSelection(record: nat, b: Binding)
      requires Valid() && control.phase == Awaiting && control.At(REPAIR) && activeFindingId.None?
      requires FindFirst(solFindings, Unrepaired) == Some(record)
      requires BindsRecord(b, solFindings[record]) && b.source == solFindings[record].origin && b.criterion in requirements
      requires NewlyBound(b)
      modifies this
      ensures Valid() && Unsettled() && Enabled(control, Dispatched(record)) && RepairGuard(control)
      ensures solFindings == old(solFindings) && repairsDispatched == old(repairsDispatched)
      ensures activeFindingId == Some(b.findingId)
    {
      TicketIsNew(b);
      SelectionArms(control, record, b);
      activeFindingId, repairContract, repairBinding := Some(b.findingId), Some(b.repairId), Some(b);
      tickets := tickets + {TicketOf(b)};
      Note(Selected(record, b));
    }

    /** One record's cycles with one repair more. */
    function CycleCounted(fs: seq<Finding>, record: nat): seq<Finding>
      requires record < |fs|
    {
      fs[record := fs[record].(repairCycles := fs[record].repairCycles + 1)]
    }

    /** Count the dispatch on one record; then the worker may run. */
    method CountDispatch(record: nat) returns (flow: Flow)
      requires Valid() && Enabled(control, Dispatched(record))
      modifies this, store`tick
      ensures Valid() && Unsettled() && old(store.tick) <= store.tick && control.phase == Armed
      ensures record < |old(solFindings)| && solFindings == CycleCounted(old(solFindings), record)
      ensures repairsDispatched == old(repairsDispatched) + 1
      ensures flow == if store.throws(old(store.tick)) then Throw(Fault) else Continue
    {
      solFindings, repairsDispatched := CycleCounted(solFindings, record), repairsDispatched + 1;
      Note(Dispatched(record));
      var ok := store.Effect();  // event
      flow := if ok then Continue else Throw(Fault);
    }

    /** The targeted repair dispatch of the bound record: the guard, then the counters. */
    method DispatchBound() returns (flow: Flow)
      requires Valid() && control.phase == Awaiting && control.At(REPAIR) && activeFindingId.Some?
      modifies this, store`tick
      ensures Valid() && Unsettled() && old(store.tick) <= store.tick
      ensures flow in {Continue, Throw(UnboundRepair), Throw(Fault)}
      ensures flow == Throw(UnboundRepair) <==> !RepairGuard(old(control))
      ensures flow == Throw(UnboundRepair) ==> control == old(control)
      ensures flow != Throw(UnboundRepair) ==>
                && FindFirst(old(solFindings), OpenWithId(old(activeFindingId).value)).Some?
                && solFindings == CycleCounted(old(solFindings), FindFirst(old(solFindings), OpenWithId(old(activeFindingId).value)).value)
                && repairsDispatched == old(repairsDispatched) + 1 && control.phase == Armed
      ensures flow == Throw(Fault) ==> Faulty()
    {
      var i := FindFirst(solFindings, OpenWithId(activeFindingId.value));
      if i.None? || repairBinding.None? || repairBinding.value.findingId != activeFindingId.value
         || repairContract != Some(repairBinding.value.repairId) {
        return Throw(UnboundRepair);
      }
      flow := CountDispatch(i.value);
    }

    /** The record that a repair route repairs: the selected one when nothing is bound, else the first open one of the active identity. */
    function ToRepair(fs: seq<Finding>, active: Option<Id>): Option<nat> {
      FindFirst(fs, if active.None? then Unrepaired else OpenWithId(active.value))
    }

    /** A repair route: bind a record first when none is bound. */
    method DispatchRepair(k: nat) returns (flow: Flow)
      requires Valid() && control.phase == Awaiting && control.At(REPAIR)
      modifies this, store`tick
      ensures Valid() && Unsettled() && old(store.tick) <= store.tick
      ensures flow == Continue || flow.Throw?
      ensures flow == Continue ==>
                && ToRepair(old(solFindings), old(activeFindingId)).Some?
                && solFindings == CycleCounted(old(solFindings), ToRepair(old(solFindings), old(activeFindingId)).value)
                && control.phase == Armed && repairsDispatched == old(repairsDispatched) + 1
      ensures flow == Throw(UnboundRepair) <==> old(activeFindingId).Some? && !RepairGuard(old(control))
      ensures flow == Throw(UnboundRepair) ==> control == old(control)
      ensures flow == Throw(Fault) || flow == RefusedOr(old(RepairRefusal(k, control)), Continue)
      // a record whose own ticket exists is never repaired from here: the route throws
      ensures flow == Continue && old(activeFindingId).None? ==>
                OwnTicket(old(solFindings)[ToRepair(old(solFindings), None).value]) !in old(control).tickets
      ensures flow == Throw(Fault) ==> Faulty()
    {
      if activeFindingId.Some? {
        flow := DispatchBound();
      } else {
        var record;
        flow, record := SelectRepair(k);
        if flow != Continue { return; }
        flow := CountDispatch(record);
      }
    }

    /** A method of the loop body never touches what only the end of the run decides. */
    twostate predicate Unsettled() reads this {
      && finalDisposition == old(finalDisposition)
      && control.routes == old(control).routes && old(history) <= history && persisted == old(persisted)
    }

    /** The repair guard has refused the variables the run now has. */
    ghost predicate Refused() reads this`activeFindingId, this`control { activeFindingId.Some? && control.phase == Awaiting && !RepairGuard(control) }

    /** A worker route: the repair guard when it is one, then the attempt. */
    method WorkerStep(k: nat, decision: Decision) returns (flow: Flow)
      requires Valid() && control.phase == Awaiting && control.At(decision)
      requires decision == IMPLEMENT || decision == REPAIR
      modifies this, store
      ensures Valid() && Unsettled() && old(store.tick) <= store.tick
      ensures flow == Continue || flow.Throw?
      ensures flow == Continue ==> Between()
      ensures flow == Continue ==> repairsDispatched == old(repairsDispatched) + if decision == REPAIR then 1 else 0
      ensures store.KeepsFinal() && (flow == Continue ==> WorkerRecorded(k, resultAccepted))
      ensures flow == Throw(Fault) ==> Faulty()
      ensures flow == Throw(UnboundRepair) ==> Refused()
      ensures Faulty() || flow == if decision == REPAIR then RefusedOr(old(RepairRefusal(k, control)), old(WorkerFlow(k, store.states)))
                                  else old(WorkerFlow(k, store.states))
    {
      if decision == REPAIR {
        flow := DispatchRepair(k);
        if flow != Continue { return; }
      }
      var returned, accepted := AskWorker(k);
      if !returned { return Throw(WorkerFailed); }
      TakeWorker(accepted);
      flow := Continue;
    }

    /** The returned attempt's decision becomes the run's. */
    method TakeWorker(accepted: bool)
      requires Valid() && Enabled(control, WorkerReturned(accepted))
      modifies this`resultAccepted, this`history, this`control
      ensures Between() && resultAccepted == accepted
      ensures control.routes == old(control).routes && old(history) <= history
    {
      resultAccepted := accepted;
      Note(WorkerReturned(accepted));
    }

    /** What a completed worker attempt leaves behind: its ledger line, and a reason when it was rejected. */
    ghost predicate WorkerRecorded(k: nat, accepted: bool) reads this`latestRejection, this`finalReason, store`states {
      && LedgerSays(world(k).worker.invocationId, if accepted then L.ACCEPTED else L.REJECTED)
      && latestRejection == (if accepted then None else store.states[world(k).worker.invocationId].rejectionCode)
      && (!accepted ==> latestRejection.Some? && finalReason == Some(W.Known(latestRejection.value)))
    }

    /** The worker attempt; a rejected one leaves its reason behind. */
    method AskWorker(k: nat) returns (returned: bool, accepted: bool)
      requires store.Valid()
      modifies this`finalReason, this`latestRejection, store
      ensures store.Valid() && old(store.tick) <= store.tick && store.KeepsFinal()
      ensures returned ==> WorkerRecorded(k, accepted)
      ensures returned ==> (accepted <==> W.Earned(world(k).worker))
      ensures Faulty() || (returned <==> old(W.WorkerReturns(world(k).worker, store.states)))
      ensures !returned || accepted ==> finalReason == old(finalReason)
    {
      var attempt := W.ExecuteWorkerAttempt(store, world(k).worker);
      if attempt.Threw? { return false, false; }
      latestRejection := attempt.code;
      if !attempt.accepted { finalReason := Some(W.Known(attempt.code.value)); }
      returned, accepted := true, attempt.accepted;
    }

    /** Record the items of one accepted final review, one persisted finding at a time. */
    method RecordItems(items: seq<Item>, origin: Exchange) returns (ok: bool)
      requires Valid() && control.phase == Awaiting && control.At(FINAL_REVIEW)
      modifies this, store`tick
      ensures Valid() && Unsettled() && old(store.tick) <= store.tick
      ensures control.phase == Awaiting && control.At(FINAL_REVIEW)
      ensures tickets == old(tickets)
      ensures ok ==> solFindings == old(solFindings) + Fresh(items, origin) && control.recording == old(control).recording + |items|
      ensures !ok ==> Faulty()
    {
      for n := 0 to |items|
        invariant Valid() && Unsettled() && old(store.tick) <= store.tick
        invariant control.phase == Awaiting && control.At(FINAL_REVIEW) && tickets == old(tickets)
        invariant solFindings == old(solFindings) + Fresh(items[..n], origin) && control.recording == old(control).recording + n
      {
        ok := store.Effect();
        if !ok { return; }
        solFindings := solFindings + [Finding(items[n], OPEN, 0, 0, origin)];
        Note(Recorded(items[n], origin));
        assert Fresh(items[..n + 1], origin) == Fresh(items[..n], origin) + [Finding(items[n], OPEN, 0, 0, origin)];
      }
      assert items[..|items|] == items;
      ok := true;
    }

    /** Record a whole accepted final review: its findings, then its adjacent critical defects. */
    method RecordReview(response: Response) returns (ok: bool)
      requires Valid() && control.phase == Awaiting && control.At(FINAL_REVIEW)
      modifies this, store`tick
      ensures Valid() && Unsettled() && old(store.tick) <= store.tick
      ensures control.phase == Awaiting && control.At(FINAL_REVIEW)
      ensures tickets == old(tickets)
      ensures ok ==> solFindings == old(solFindings) + Fresh(ItemsOf(response), response.exchange)
      ensures ok ==> RecordedAll(solFindings, ItemsOf(response), response.exchange)
      ensures ok ==> control.recording == old(control).recording + |ItemsOf(response)|
      ensures !ok ==> Faulty()
    {
      var origin := response.exchange;
      ok := RecordItems(response.findings, origin);
      if !ok { return; }
      ok := RecordItems(response.adjacentCriticalDefects, origin);
      if !ok { return; }
      assert Fresh(ItemsOf(response), origin) == Fresh(response.findings, origin) + Fresh(response.adjacentCriticalDefects, origin);
      assert solFindings == old(solFindings) + Fresh(ItemsOf(response), origin);
    }

    /** The refusal of a recorded review. */
    ghost function BindRefusal(k: nat, items: seq<Item>, origin: Exchange): Option<Cause> reads this`solFindings, this`tickets {
      match FindFirst(solFindings, OpenAmong(IdsOf(items)))
      case None => None
      case Some(i) => Refusal(k, solFindings[i], origin, tickets)
    }

    /**
     A failed review selects the first open record with one of its identities and binds it to this
     exchange.  There always is one: an answer that reports nothing does not compile.
     */
    method BindReview(k: nat, items: seq<Item>, origin: Exchange) returns (flow: Flow)
      requires Valid() && control.phase == Awaiting && control.At(FINAL_REVIEW) && RecordedAll(solFindings, items, origin)
      requires FailItems(items, origin) && control.recording == |items|
      modifies this, store`tick
      ensures Valid() && Unsettled() && old(store.tick) <= store.tick && solFindings == old(solFindings)
      ensures flow == Throw(Fault) || flow == RefusedOr(old(BindRefusal(k, items, origin)), Continue)
      ensures flow == Continue ==> Between() && !resultAccepted && Announced(Some((items, origin)))
      ensures flow == Throw(Fault) ==> Faulty()
    {
      FreshIsOpen(solFindings, items, origin);
      var i := FindFirst(solFindings, OpenAmong(IdsOf(items))).value;
      var b, why := BindRepair(k, i, origin);
      if b.None? { return Throw(why); }
      TakeReview(items, i, b.value);
      var ok := store.Effect();  // event
      flow := if ok then Continue else Throw(Fault);
    }

    /** The failed review's binding becomes the run's binding. */
    method TakeReview(items: seq<Item>, record: nat, b: Binding)
      requires Valid() && control.phase == Awaiting && control.At(FINAL_REVIEW) && RecordedAll(solFindings, items, b.source)
      requires FailItems(items, b.source) && control.recording == |items|
      requires FindFirst(solFindings, OpenAmong(IdsOf(items))) == Some(record)
      requires BindsRecord(b, solFindings[record]) && b.criterion in requirements && NewlyBound(b)
      modifies this
      ensures Valid() && Unsettled() && solFindings == old(solFindings)
      ensures Between() && !resultAccepted && Announced(Some((items, b.source)))
    {
      TicketIsNew(b);
      activeFindingId, repairContract, repairBinding := Some(b.findingId), Some(b.repairId), Some(b);
      resultAccepted, tickets := false, tickets + {TicketOf(b)};
      Note(ReviewFailed(items, record, b));
    }

    /** The last event is the end of this accepted review. */
    ghost predicate Announced(review: Option<(seq<Item>, Exchange)>) reads this`history {
      history != [] && ReviewOf(history[|history| - 1]) == review
    }

    /** A passed review, which has recorded nothing. */
    method PassReview(origin: Exchange)
      requires Valid() && control.phase == Awaiting && control.At(FINAL_REVIEW) && control.recording == 0
      modifies this`resultAccepted, this`history, this`control
      ensures Between() && Unsettled() && resultAccepted && Announced(Some(([], origin)))
    {
      resultAccepted := true;
      Note(ReviewPassed([], origin));
    }

    /** An accepted final review: record everything, then pass, or bind one record for repair. */
    method ReviewStep(k: nat, response: Response) returns (flow: Flow)
      requires Valid() && control.phase == Awaiting && control.At(FINAL_REVIEW) && control.recording == 0
      requires AnswerOk(FINAL_REVIEW, response)
      modifies this, store`tick
      ensures Valid() && Unsettled() && old(store.tick) <= store.tick
      ensures flow == Throw(Fault) ||
              flow == if response.verdict == PASS then Continue else RefusedOr(old(ReviewRefusal(k, control, response)), Continue)
      ensures flow == Continue ==> Between() && resultAccepted == (response.verdict == PASS)
      ensures flow == Continue ==> Announced(Some((ItemsOf(response), response.exchange)))
      ensures flow == Continue ==> solFindings == old(solFindings) + Fresh(ItemsOf(response), response.exchange)
      ensures flow == Throw(Fault) ==> Faulty()
    {
      var ok := RecordReview(response);
      if !ok { return Throw(Fault); }
      if response.verdict == PASS {
        PassReview(response.exchange);
        return Continue;
      }
      FailAnswerItems(response.findings, response.adjacentCriticalDefects, response.exchange);
      flow := BindReview(k, ItemsOf(response), response.exchange);
    }

    /** An accepted recheck answers for the selected record only. */
    method MarkRecheck(record: nat, passed: bool)
      requires Valid() && control.phase == Awaiting && control.At(RECHECK) && activeFindingId.Some?
      requires FindFirst(solFindings, OpenWithId(activeFindingId.value)) == Some(record)
      modifies this
      ensures Valid() && Unsettled() && control.phase == Answered(passed) && control.At(RECHECK)
      ensures activeFindingId == old(activeFindingId) && record < |old(solFindings)|
      ensures solFindings == old(solFindings)[record := old(solFindings)[record].(
                rechecks := old(solFindings)[record].rechecks + 1, status := if passed then CLOSED else OPEN)]
    {
      var f := solFindings[record];
      solFindings := solFindings[record := f.(rechecks := f.rechecks + 1, status := if passed then CLOSED else OPEN)];
      Note(Rechecked(record, f.origin, passed));
    }

    /** The rest of a recheck: a passed one releases the binding. */
    method SettleRecheck(passed: bool) returns (flow: Flow)
      requires Valid() && control.phase == Answered(passed) && control.At(RECHECK)
      modifies this, store`tick
      ensures Valid() && Unsettled() && old(store.tick) <= store.tick && solFindings == old(solFindings)
      ensures flow == if store.throws(old(store.tick)) then Throw(Fault) else Continue
      ensures flow == Continue ==>
                && Between() && resultAccepted == passed
                && activeFindingId == (if passed then None else old(activeFindingId))
                && (passed ==> repairBinding.None? && repairContract.None?)
      ensures flow == Throw(Fault) ==> Faulty()
    {
      var ok := store.Effect();  // the response's own findings and the event
      if !ok { return Throw(Fault); }
      resultAccepted := passed;
      if passed { activeFindingId, repairBinding, repairContract := None, None, None; }
      Note(Settled(passed));
      flow := Continue;
    }

    /** The attempt's answers, with what compiling the response of this route gives. */
    function Compiled(k: nat, decision: Decision): S.SolAnswers {
      var sol := world(k).sol;
      if sol.compile == S.CompiledOk && !AnswerOk(decision, world(k).response) then sol.(compile := S.CompileRejected) else sol
    }

    /** The reason is that of an error which the attempt is settled as. */
    ghost predicate SettledWith(a: S.SolAnswers, reason: Option<W.RawCode>) {
      exists e: S.SolError, cleaned: bool :: SettledBy(a, cleaned, e, reason)
    }

    ghost predicate SettledBy(a: S.SolAnswers, cleaned: bool, e: S.SolError, reason: Option<W.RawCode>) {
      S.SettledAs(a, cleaned, Some(e)) && reason == Some(SolReason(Some(e)))
    }

    /** The SOL attempt and what the controller makes of its failure; a thrown attempt is caught here. */
    method AskSol(k: nat, decision: Decision) returns (answered: bool)
      requires Valid()
      modifies this`solStoreHeld, this`finalDisposition, this`finalReason, store
      ensures Valid() && old(store.tick) <= store.tick && store.KeepsFinal()
      ensures answered ==> LedgerSays(world(k).sol.invocationId, L.ACCEPTED) && AnswerOk(decision, world(k).response)
      ensures answered ==> AnswerShape(decision, world(k).response)
      ensures answered ==> finalDisposition == old(finalDisposition) && finalReason == old(finalReason)
      ensures !answered ==> finalDisposition == REJECTED
      ensures decision == world(k).decision ==> Faulty() || (answered <==> old(SolAccepts(k, store.states)))
      // why it is rejected: the identity of the error, or the code of what was thrown
      ensures !answered ==>
                finalReason == Some(world(k).thrownCode) || SettledWith(Compiled(k, decision), finalReason)
      ensures Faulty() || (!answered && !old(S.SolReturns(world(k).sol, store.states)) ==> finalReason == Some(world(k).thrownCode))
      ensures solStoreHeld == (old(solStoreHeld) || world(k).holdsStore)
    {
      var attempt := CallSol(k, decision);
      solStoreHeld := solStoreHeld || world(k).holdsStore;
      answered := attempt.SolReturned? && attempt.accepted;
      if answered { AnswersHaveShape(decision, world(k).response); }
      if !answered {
        finalDisposition := REJECTED;
        finalReason := Some(if attempt.SolThrew? then world(k).thrownCode else SolReason(attempt.error));
      }
    }

    /** The SOL attempt itself. */
    method CallSol(k: nat, decision: Decision) returns (attempt: S.SolResult)
      requires store.Valid()
      modifies store
      ensures store.Valid() && old(store.tick) <= store.tick && store.KeepsFinal()
      ensures attempt.SolReturned? && attempt.accepted ==>
                LedgerSays(world(k).sol.invocationId, L.ACCEPTED) && AnswerOk(decision, world(k).response)
      ensures attempt.SolReturned? && !attempt.accepted ==> SettledWith(Compiled(k, decision), Some(SolReason(attempt.error)))
      ensures Faulty() || (attempt.SolReturned? <==> old(S.SolReturns(world(k).sol, store.states)))
      ensures decision == world(k).decision ==> Faulty() || (attempt.SolReturned? && attempt.accepted <==> old(SolAccepts(k, store.states)))
    {
      if decision == world(k).decision { CompiledEarned(k); }
      var a := Compiled(k, decision);
      attempt := S.ExecuteSolAttempt(store, a);
      if attempt.SolReturned? && !attempt.accepted {
        assert SettledBy(a, !store.throws(S.SolCleanup(old(store.tick))), attempt.error.value, Some(SolReason(attempt.error)));
      }
    }

    /** A recheck needs an open record of the active identity. */
    method FindRecheck(decision: Decision) returns (flow: Flow, record: Option<nat>)
      modifies store`tick
      ensures old(store.tick) <= store.tick
      ensures flow in {Continue, Throw(UnboundRecheck), Throw(Fault)} && (flow == Throw(Fault) ==> Faulty())
      ensures flow == Continue && decision == RECHECK ==>
                record.Some? && activeFindingId.Some? && record == FindFirst(solFindings, OpenWithId(activeFindingId.value))
      ensures flow == Throw(UnboundRecheck) <==>
                decision == RECHECK && (activeFindingId.None? || FindFirst(solFindings, OpenWithId(activeFindingId.value)).None?)
    {
      flow, record := Continue, None;
      if decision == RECHECK {
        if activeFindingId.None? { return Throw(UnboundRecheck), None; }
        record := FindFirst(solFindings, OpenWithId(activeFindingId.value));
        if record.None? { return Throw(UnboundRecheck), None; }
        var ok := store.Effect();  // event
        if !ok { flow := Throw(Fault); }
      }
    }

    lemma CompiledEarned(k: nat)
      ensures S.SolEarned(Compiled(k, world(k).decision)) <==> S.SolEarned(world(k).sol) && AnswerOk(world(k).decision, world(k).response)
      ensures forall known :: S.SolReturns(Compiled(k, world(k).decision), known) <==> S.SolReturns(world(k).sol, known)
    {}

    /** A SOL route, up to the accepted answer. */
    method SolStep(k: nat, decision: Decision) returns (flow: Flow)
      requires Valid() && control.phase == Awaiting && control.At(decision)
      requires decision in {CONTRACT_CHECK, DIAGNOSE, FINAL_REVIEW, RECHECK, UNKNOWN_SOL} && finalDisposition == REJECTED
      requires control.recording == 0
      modifies this, store
      ensures Valid() && old(store.tick) <= store.tick && control.routes == old(control).routes && old(history) <= history && persisted == old(persisted)
      ensures !IsAccepting(finalDisposition) && (flow != Stop ==> finalDisposition == REJECTED)
      ensures finalDisposition == REVIEW_REQUIRED ==> decision == CONTRACT_CHECK
      ensures flow == Continue ==> Between() && decision in {DIAGNOSE, FINAL_REVIEW, RECHECK}
      ensures flow == Continue && decision == FINAL_REVIEW ==>
                Announced(Some((ItemsOf(world(k).response), world(k).response.exchange)))
      ensures flow == Throw(Fault) ==> Faulty()
      ensures flow != Throw(UnboundRepair) && store.KeepsFinal()
      ensures flow == Continue ==> LedgerSays(world(k).sol.invocationId, L.ACCEPTED)
      ensures decision == world(k).decision ==> Faulty() || flow == old(SolFlow(k, control, store.states))
      ensures flow == Stop && decision == UNKNOWN_SOL ==> finalReason == Some(W.Known(L.Code.SOL_ASK_INVALID))
      ensures flow == Stop && decision != UNKNOWN_SOL && finalDisposition == REJECTED && decision == world(k).decision ==> SolStopReason(k, finalReason)
    {
      var record;
      flow, record := FindRecheck(decision);
      if flow != Continue { return; }
      if decision == UNKNOWN_SOL {
        finalReason := Some(W.Known(L.Code.SOL_ASK_INVALID));
        return Stop;
      }
      var answered := AskSol(k, decision);
      if !answered { return Stop; }
      flow := UseAnswer(k, decision, record);
    }

    /** What an accepted answer does. */
    method UseAnswer(k: nat, decision: Decision, record: Option<nat>) returns (flow: Flow)
      requires Valid() && control.phase == Awaiting && control.At(decision) && control.recording == 0
      requires decision in {CONTRACT_CHECK, DIAGNOSE, FINAL_REVIEW, RECHECK} && finalDisposition == REJECTED
      requires AnswerOk(decision, world(k).response)
      requires decision == RECHECK ==>
                 record.Some? && activeFindingId.Some? && record == FindFirst(solFindings, OpenWithId(activeFindingId.value))
      modifies this, store`tick
      ensures Valid() && old(store.tick) <= store.tick && control.routes == old(control).routes && old(history) <= history && persisted == old(persisted)
      ensures !IsAccepting(finalDisposition) && (flow != Stop ==> finalDisposition == REJECTED)
      ensures finalDisposition == REVIEW_REQUIRED ==> decision == CONTRACT_CHECK
      ensures flow == Continue ==> Between() && decision in {DIAGNOSE, FINAL_REVIEW, RECHECK}
      ensures flow == Continue && decision == FINAL_REVIEW ==>
                Announced(Some((ItemsOf(world(k).response), world(k).response.exchange)))
      ensures flow == Throw(Fault) ==> Faulty()
      ensures decision == world(k).decision ==> Faulty() || flow == old(AnswerFlow(k, control))
      ensures flow == Stop && finalDisposition == REJECTED ==> decision == DIAGNOSE && finalReason == Some(W.Known(L.UNSUPPORTED_CLAIM))
      ensures flow != Throw(UnboundRepair)
    {
      var response := world(k).response;
      if decision == DIAGNOSE {
        flow := DiagnoseStep(response);
      } else if decision == FINAL_REVIEW {
        flow := ReviewStep(k, response);
      } else if decision == RECHECK {
        MarkRecheck(record.value, response.verdict == RESOLVED);
        flow := SettleRecheck(response.verdict == RESOLVED);
      } else {
        flow := ContractCheckStep();
      }
    }

    /** A contract check ends the run for a human review. */
    method ContractCheckStep() returns (flow: Flow)
      modifies this`finalDisposition, this`finalReason, store`tick
      ensures old(store.tick) <= store.tick
      ensures flow in {Stop, Throw(Fault)} && (flow == Throw(Fault) ==> Faulty())
      ensures finalDisposition == if flow == Stop then REVIEW_REQUIRED else REJECTED
    {
      finalDisposition, finalReason := REVIEW_REQUIRED, Some(W.Known(L.UNRESOLVED_SEMANTICS));
      flow := Stop;
      var ok := store.Effect();  // event
      if !ok { finalDisposition, flow := REJECTED, Throw(Fault); }  // as the outer catch does
    }

    /** An accepted diagnosis hands over its repair contract, whatever the binding says. */
    method DiagnoseStep(response: Response) returns (flow: Flow)
      requires Valid() && control.phase == Awaiting && control.At(DIAGNOSE)
      modifies this
      ensures Valid() && finalDisposition == old(finalDisposition) && control.routes == old(control).routes && old(history) <= history && persisted == old(persisted)
      ensures flow == if response.verdict == CAUSE_IDENTIFIED && response.conversion.Some? then Continue else Stop
      ensures flow == Stop ==> finalReason == Some(W.Known(L.UNSUPPORTED_CLAIM))
      ensures flow == Continue ==> Between() && repairContract == response.conversion && !resultAccepted && latestRejection == None
                                   && repairBinding == old(repairBinding) && activeFindingId == old(activeFindingId)
    {
      if response.verdict != CAUSE_IDENTIFIED || response.conversion.None? {
        finalReason := Some(W.Known(L.UNSUPPORTED_CLAIM));
        return Stop;
      }
      repairContract, resultAccepted, latestRejection := response.conversion, false, None;
      Note(Diagnosed(response.conversion.value));
      flow := Continue;
    }

    // -----------------------------------------------------------------------
    // One step of the loop, and the run
    // -----------------------------------------------------------------------

    predicate HasOpen() reads this`solFindings { exists f :: f in solFindings && f.status == OPEN }

    /** The reason that a route without an action gives. */
    function EndReason(k: nat): Option<W.RawCode> reads this`latestRejection, this`solFindings {
      match world(k).decision
      case ROUTE_COMPLETE => if HasOpen() then Some(W.Known(L.UNSUPPORTED_CLAIM)) else None
      case STOP_BUDGET => Some(W.Known(L.BUDGET_EXHAUSTED))
      case STOP_STUCK => Some(if latestRejection.Some? then W.Known(latestRejection.value) else world(k).reasonCode)
      case _ => Some(W.Known(L.UNSUPPORTED_CLAIM))
    }

    /** A route that ends the loop without an action. */
    method EndRoute(k: nat)
      requires Valid() && !IsAction(world(k).decision) && finalDisposition == REJECTED
      modifies this`finalDisposition, this`finalReason
      ensures Valid() && finalReason == EndReason(k)
      ensures finalDisposition == if world(k).decision != ROUTE_COMPLETE || HasOpen() then REJECTED
                                  else if lowRisk then SEMANTICALLY_ACCEPTED else REVIEW_APPROVED
    {
      finalReason := EndReason(k);
      if world(k).decision == ROUTE_COMPLETE && !HasOpen() {
        finalDisposition := if lowRisk then SEMANTICALLY_ACCEPTED else REVIEW_APPROVED;
      }
    }

    /** Why a step that stopped the loop rejects the run. */
    ghost predicate StopReason(k: nat, reason: Option<W.RawCode>) reads this`latestRejection, this`solFindings {
      if !IsAction(world(k).decision) then reason == EndReason(k)
      else if !world(k).permitted then reason == Some(W.Known(L.UNSUPPORTED_CLAIM))
      else if world(k).decision == UNKNOWN_SOL then reason == Some(W.Known(L.Code.SOL_ASK_INVALID))
      else SolStopReason(k, reason)
    }

    /** A SOL attempt that threw, one that was settled as an error, or a diagnosis that found nothing to do. */
    ghost predicate SolStopReason(k: nat, reason: Option<W.RawCode>) {
      || reason == Some(world(k).thrownCode)
      || SettledWith(Compiled(k, world(k).decision), reason)
      || (world(k).decision == DIAGNOSE && reason == Some(W.Known(L.UNSUPPORTED_CLAIM)))
    }

    /** A routed action: the worktree and the budget, then a worker or SOL. */
    method Act(k: nat) returns (flow: Flow)
      requires Valid() && control.phase == Awaiting && control.recording == 0 && finalDisposition == REJECTED
      requires control.At(world(k).decision) && IsAction(world(k).decision)
      modifies this, store
      ensures Valid() && old(store.tick) <= store.tick && old(history) <= history && persisted == old(persisted)
      ensures control.routes == old(control).routes && !IsAccepting(finalDisposition)
      ensures flow == Continue ==> Between() && StepSettled(k)
      ensures flow == Continue && world(k).decision == FINAL_REVIEW ==>
                Announced(Some((ItemsOf(world(k).response), world(k).response.exchange)))
      ensures flow != Stop ==> finalDisposition == REJECTED
      ensures finalDisposition == REVIEW_REQUIRED ==> flow == Stop && world(k).decision == CONTRACT_CHECK
      ensures flow == Throw(Fault) ==> Faulty()
      ensures flow == Throw(UnboundRepair) ==> Refused()
      ensures store.KeepsFinal()
      ensures world(k).permitted ==> Faulty() || flow == old(StepFlow(k, control, store.states))
      ensures world(k).permitted && flow == Stop && finalDisposition == REJECTED ==> StopReason(k, finalReason)
      ensures flow == Continue ==> world(k).decision != UNKNOWN_SOL
    {
      var decision := world(k).decision;
      var ok := store.Effect();
      if !ok { return Throw(Fault); }
      if decision == IMPLEMENT || decision == REPAIR {
        flow := WorkerStep(k, decision);
      } else {
        flow := SolStep(k, decision);
      }
    }

    /** Between two steps no review is half recorded. */
    lemma NothingRecorded()
      requires Between()
      ensures control.recording == 0
    {
      ReachedMeansRun(history, control);
      CriteriaAlwaysHold(history);
    }

    /** The router's decision, and its record. */
    method Route(k: nat) returns (ok: bool)
      requires Between()
      modifies this`history, this`control, store`tick
      ensures Valid() && old(history) <= history && store.tick <= old(store.tick) + 2
      ensures old(store.tick) < store.tick && (!ok ==> Faulty())
      ensures ok ==> store.tick == old(store.tick) + 2 && control == Apply(old(control), Routed(world(k).decision)) && control.recording == 0
      ensures control.routes == old(control).routes + [world(k).decision] || (!ok && control.routes == old(control).routes)
    {
      NothingRecorded();
      ok := store.Effect();  // the router itself may throw
      if !ok { return; }
      Note(Routed(world(k).decision));
      ok := store.Effect();  // persist the route decision
    }

    lemma RoutingChangesNothing(k: nat, c: Control, known: L.States)
      requires Enabled(c, Routed(world(k).decision))
      ensures StepFlow(k, Apply(c, Routed(world(k).decision)), known) == StepFlow(k, c, known)
    {}

    /** One iteration: route, then the action of the route. */
    method LoopStep(k: nat) returns (flow: Flow)
      requires Between() && finalDisposition == REJECTED
      modifies this, store
      ensures Valid() && old(store.tick) <= store.tick && old(history) <= history && persisted == old(persisted)
      ensures control.routes == old(control).routes + [world(k).decision] || (flow.Throw? && control.routes == old(control).routes)
      ensures flow == Continue ==> Between() && IsAction(world(k).decision)
      ensures flow == Continue && world(k).decision == FINAL_REVIEW ==>
                Announced(Some((ItemsOf(world(k).response), world(k).response.exchange)))
      ensures flow != Stop ==> finalDisposition == REJECTED
      ensures IsAccepting(finalDisposition) <==> flow == Stop && world(k).decision == ROUTE_COMPLETE && !HasOpen()
      ensures finalDisposition == REVIEW_APPROVED ==> !lowRisk
      ensures finalDisposition == SEMANTICALLY_ACCEPTED ==> lowRisk
      ensures finalDisposition == REVIEW_REQUIRED ==> flow == Stop && world(k).decision == CONTRACT_CHECK
      ensures flow == Throw(Fault) ==> Faulty()
      ensures flow == Throw(UnboundRepair) ==> Refused()
      ensures store.KeepsFinal() && (flow == Continue ==> StepSettled(k))
      ensures flow == Stop && finalDisposition == REJECTED ==> StopReason(k, finalReason)
      ensures flow == Stop && !IsAction(world(k).decision) ==> finalReason == EndReason(k) && store.tick == old(store.tick) + 2
      ensures flow == Continue ==> world(k).permitted && world(k).decision != UNKNOWN_SOL
      // without a fault the step does exactly what decision, variables and ledger say
      ensures Faulty() || flow == old(StepFlow(k, control, store.states))
    {
      var decision := world(k).decision;
      RoutingChangesNothing(k, control, store.states);
      var ok := Route(k);
      if !ok { return Throw(Fault); }
      if !IsAction(decision) {
        EndRoute(k);
        return Stop;
      }
      if !world(k).permitted {
        finalReason := Some(W.Known(L.UNSUPPORTED_CLAIM));
        return Stop;
      }
      flow := Act(k);
    }

    /** Every completed step that routed to a final review left its review in the history. */
    ghost predicate ReviewsKept(steps: nat) reads this`history {
      forall j: nat :: j < steps && world(j).decision == FINAL_REVIEW ==> StepReviewed(j)
    }

    ghost predicate StepReviewed(j: nat) reads this`history {
      Reviewed(history, ItemsOf(world(j).response), world(j).response.exchange)
    }

    ghost predicate RoutesAre(steps: nat) reads this`control {
      |control.routes| == steps && forall j :: 0 <= j < steps ==> control.routes[j] == world(j).decision
    }

    twostate lemma ReviewsStay(k: nat)
      requires old(ReviewsKept(k)) && old(history) <= history
      ensures ReviewsKept(k)
    {
      forall j: nat | j < k && world(j).decision == FINAL_REVIEW ensures StepReviewed(j) {
        assert old(StepReviewed(j));
        var items, origin := ItemsOf(world(j).response), world(j).response.exchange;
        var e: nat :| ReviewEndsAt(old(history), e, items, origin);
        assert ReviewEndsAt(history, e, items, origin);
      }
    }

    lemma ReviewAdded(k: nat)
      requires ReviewsKept(k)
      requires world(k).decision == FINAL_REVIEW ==> Announced(Some((ItemsOf(world(k).response), world(k).response.exchange)))
      ensures ReviewsKept(k + 1)
    {
      forall j: nat | j < k + 1 && world(j).decision == FINAL_REVIEW ensures StepReviewed(j) {
        if j == k {
          assert ReviewEndsAt(history, |history| - 1, ItemsOf(world(j).response), world(j).response.exchange);
        }
      }
    }

    /** The last route, if any, was an action. */
    ghost predicate RoutedToAction() reads this`control { control.routes != [] ==> IsAction(control.routes[|control.routes| - 1]) }

    /** One iteration, with what the run keeps about its routes and reviews. */
    method Iterate(k: nat) returns (flow: Flow)
      requires Between() && finalDisposition == REJECTED && RoutesAre(k) && ReviewsKept(k) && StepsSettled(k)
      modifies this, store
      ensures Valid() && old(store.tick) <= store.tick && persisted == old(persisted)
      ensures flow.Throw? ==> |control.routes| <= k + 1
      ensures !flow.Throw? ==> RoutesAre(k + 1) && ReviewsKept(if flow == Stop then k else k + 1)
      ensures flow == Continue ==> Between() && RoutedToAction()
      ensures flow != Stop ==> finalDisposition == REJECTED
      ensures IsAccepting(finalDisposition) <==> flow == Stop && control.At(ROUTE_COMPLETE) && !HasOpen()
      ensures finalDisposition == REVIEW_APPROVED ==> !lowRisk
      ensures finalDisposition == SEMANTICALLY_ACCEPTED ==> lowRisk
      ensures finalDisposition == REVIEW_REQUIRED ==> control.At(CONTRACT_CHECK)
      ensures flow == Throw(Fault) ==> Faulty()
      ensures flow == Throw(UnboundRepair) ==> Refused()
      ensures StepsSettled(if flow == Continue then k + 1 else k)
      ensures flow == Stop && finalDisposition == REJECTED ==> StopReason(k, finalReason)
      ensures flow == Continue ==> world(k).permitted && world(k).decision != UNKNOWN_SOL
    {
      flow := LoopStep(k);
      ReviewsStay(k);
      if flow == Continue { ReviewAdded(k); }
      StepsStaySettled(k);
    }

    /** Assessed lines stay as they are. */
    twostate lemma StepsStaySettled(k: nat)
      requires old(StepsSettled(k)) && store.KeepsFinal()
      ensures StepsSettled(k)
    {
      forall j: nat | j < k ensures StepSettled(j) { assert old(StepSettled(j)); }
    }

    /** At most maxSteps iterations. */
    method Loop(maxSteps: nat) returns (flow: Flow, steps: nat)
      requires Between() && history == [] && control == INITIAL && finalDisposition == REJECTED
      modifies this, store
      ensures Valid() && old(store.tick) <= store.tick && steps <= maxSteps && persisted == old(persisted)
      ensures flow == Continue ==> steps == maxSteps && finalDisposition == REJECTED && RoutedToAction()
      ensures flow == Stop ==> RoutesAre(steps) && steps > 0 && ReviewsKept(steps - 1) && StepsSettled(steps - 1)
      ensures flow == Stop && finalDisposition == REJECTED ==> StopReason(steps - 1, finalReason)
      ensures flow == Continue ==> RoutesAre(steps) && (steps > 0 ==> world(steps - 1).permitted && world(steps - 1).decision != UNKNOWN_SOL)
      ensures |control.routes| <= maxSteps
      ensures flow != Stop ==> finalDisposition == REJECTED
      ensures IsAccepting(finalDisposition) <==> flow == Stop && control.At(ROUTE_COMPLETE) && !HasOpen()
      ensures finalDisposition == REVIEW_APPROVED ==> !lowRisk
      ensures finalDisposition == SEMANTICALLY_ACCEPTED ==> lowRisk
      ensures finalDisposition == REVIEW_REQUIRED ==> control.At(CONTRACT_CHECK)
      ensures flow == Throw(Fault) ==> Faulty()
      ensures flow == Throw(UnboundRepair) ==> Refused()
    {
      steps, flow := 0, Continue;
      while steps < maxSteps
        invariant Between() && flow == Continue && finalDisposition == REJECTED && old(store.tick) <= store.tick && persisted == old(persisted)
        invariant steps > 0 ==> world(steps - 1).permitted && world(steps - 1).decision != UNKNOWN_SOL
        invariant steps <= maxSteps && RoutesAre(steps) && ReviewsKept(steps) && StepsSettled(steps) && RoutedToAction()
      {
        flow := Iterate(steps);
        steps := steps + 1;
        if flow != Continue { return; }
      }
    }

    // -----------------------------------------------------------------------
    // The end of the run
    // -----------------------------------------------------------------------

    /** Write one disposition record; a throwing write may still have landed. */
    method Persist(p: Persisted) returns (ok: bool)
      modifies this`persisted, store`tick
      ensures store.tick == old(store.tick) + 1 && ok == !store.throws(old(store.tick))
      ensures persisted == if ok || store.lands(old(store.tick)) then old(persisted) + [p] else old(persisted)
    {
      var t := store.tick;
      ok := store.Effect();
      if ok || store.lands(t) { persisted := persisted + [p]; }
    }

    /** The records of the final disposition, in order; the first failure stops them. */
    method PersistDisposition() returns (ok: bool)
      modifies this`persisted, store`tick
      ensures old(store.tick) <= store.tick && old(persisted) <= persisted
      ensures ok ==> persisted == old(persisted) + RecordsOf(finalDisposition)
      ensures ok ==> store.tick == old(store.tick) + |RecordsOf(finalDisposition)| + 1
      ensures !ok ==> Faulty()
    {
      var records := RecordsOf(finalDisposition);
      ok := true;
      for n := 0 to |records|
        invariant ok && store.tick == old(store.tick) + n && persisted == old(persisted) + records[..n]
      {
        ok := Persist(records[n]);
        if !ok { return; }
        assert records[..n] + [records[n]] == records[..n + 1];
      }
      ok := store.Effect();  // the work unit
    }

    /** The reason as it is recorded: always a code of the taxonomy. */
    function Reason(): L.Code reads this`finalReason { if finalReason.Some? then W.CanonicalCode(finalReason.value) else L.UNSUPPORTED_CLAIM }

    /** The run-scoped credential store goes before anything is accepted. */
    method RemoveStore() returns (ok: bool)
      modifies this`finalDisposition, this`finalReason, this`solStoreHeld, store`tick
      ensures old(store.tick) <= store.tick
      ensures ok ==> finalDisposition == if solStoreHeld then REJECTED else old(finalDisposition)
      ensures ok ==> finalReason == if solStoreHeld then Some(W.Unknown) else old(finalReason)
      ensures !ok ==> Faulty()
      ensures ok ==> store.tick == old(store.tick) + if old(solStoreHeld) then 2 else 0
      ensures Faulty() || !solStoreHeld
    {
      ok := true;
      if solStoreHeld {
        ok := store.Effect();  // verify that the real credential source is unchanged
        if !ok { return; }
        var removed := store.Effect();
        if removed { solStoreHeld := false; } else { finalDisposition, finalReason := REJECTED, Some(W.Unknown); }
      }
    }

    /** The guards between the loop and the first record of the disposition. */
    method TerminalGuards() returns (ok: bool, clean: bool)
      modifies this`finalDisposition, this`finalReason, this`solStoreHeld, this`persisted, store`tick
      ensures old(store.tick) <= store.tick
      ensures ok ==> finalDisposition == Guarded(old(finalDisposition), clean)
      ensures ok && finalDisposition == REJECTED ==>
                Reason() == if old(finalDisposition) == REJECTED && !solStoreHeld && clean then old(Reason()) else L.UNSUPPORTED_CLAIM
      ensures ok ==> persisted == old(persisted) + RecordsOf(finalDisposition)
      ensures !ok ==> Faulty()
      ensures Faulty() || (clean && !solStoreHeld)
    {
      clean := false;
      if finalDisposition == REVIEW_APPROVED && hasTestSeam { finalDisposition, finalReason := REJECTED, Some(W.Unknown); }
      ok := RemoveStore();
      if !ok { return; }
      clean := store.Effect();
      if !clean { finalDisposition, finalReason := REJECTED, Some(W.Unknown); }
      if IsAccepting(finalDisposition) && HasOpen() { finalDisposition, finalReason := REJECTED, Some(W.Known(L.UNSUPPORTED_CLAIM)); }
      if finalDisposition == REJECTED && finalReason.None? { finalReason := Some(W.Known(L.UNSUPPORTED_CLAIM)); }
      ok := PersistDisposition();
    }

    /** The disposition that is left of d. */
    ghost function Guarded(d: Disposition, clean: bool): Disposition reads this {
      if solStoreHeld || !clean || (d == REVIEW_APPROVED && hasTestSeam) || (IsAccepting(d) && HasOpen()) then REJECTED else d
    }

    /** A diagnosis replaced the repair contract after the binding was made. */
    ghost predicate ForeignDiagnosis() reads this`repairBinding, this`history {
      && repairBinding.Some? && DiagnosedSinceBinding(history).Some?
      && DiagnosedSinceBinding(history) != Some(repairBinding.value.repairId)
    }

    lemma RefusalMeansDiagnosis()
      requires Valid() && Refused()
      ensures ForeignDiagnosis()
    {
      ReachedMeansRun(history, control);
      GuardCatchesExactlyDiagnosis(history);
    }

    lemma CyclesConserved()
      requires Valid()
      ensures SumCycles(solFindings) == repairsDispatched == Dispatches(history)
    {
      ReachedMeansRun(history, control);
      CyclesAreDispatches(history);
    }

    /** Everything that the reviews of these steps reported was resolved by a recheck over the same exchange. */
    ghost predicate ReviewsResolved(steps: nat) reads this`history {
      forall j: nat :: j < steps && world(j).decision == FINAL_REVIEW ==> StepResolved(j)
    }

    ghost predicate StepResolved(j: nat) reads this`history {
      forall item :: item in ItemsOf(world(j).response) ==> ItemResolved(history, item, world(j).response.exchange)
    }

    /** The code of an error that ends the run. */
    function CauseCode(cause: Cause): W.RawCode { if cause.IsOwn() then W.Known(L.Code.SOL_ASK_INVALID) else faultCode }

    lemma AcceptedMeansResolved()
      requires Valid() && control.At(ROUTE_COMPLETE) && !HasOpen()
      requires RoutesAre(|control.routes|) && ReviewsKept(|control.routes| - 1)
      ensures ReviewsResolved(|control.routes|)
    {
      var steps := |control.routes|;
      assert world(steps - 1).decision == ROUTE_COMPLETE;
      ReachedMeansRun(history, control);
      assert forall f :: f in solFindings ==> f.status == CLOSED;
      forall j: nat | j < steps && world(j).decision == FINAL_REVIEW ensures StepResolved(j) {
        assert StepReviewed(j);
        ReviewedMeansResolved(history, ItemsOf(world(j).response), world(j).response.exchange);
      }
    }

    /** The outer catch. */
    method Catch(cause: Option<Cause>) returns (recorded: bool)
      modifies this`finalDisposition, this`finalReason, this`persisted, store`tick
      ensures old(store.tick) <= store.tick && (!recorded ==> cause.Some? && Faulty())
      ensures cause.None? ==> finalDisposition == old(finalDisposition) && finalReason == old(finalReason) && persisted == old(persisted)
      ensures cause.Some? ==> finalDisposition == REJECTED && finalReason == Some(CauseCode(cause.value))
      ensures cause.Some? && recorded ==> EndsRejected()
    {
      recorded := true;
      if cause.Some? {
        finalDisposition, finalReason := REJECTED, Some(CauseCode(cause.value));
        recorded := Persist(RejectedRecord);
      }
    }

    /** The newest record is a rejection. */
    predicate EndsRejected() reads this`persisted { persisted != [] && persisted[|persisted| - 1] == RejectedRecord }

    /** What an accepting disposition says about the run. */
    ghost predicate Accepts(clean: bool) reads this`control, this`solFindings, this`solStoreHeld {
      control.At(ROUTE_COMPLETE) && !HasOpen() && (lowRisk || !hasTestSeam) && !solStoreHeld && clean
    }

    /** The last route has no action that could fail, or was not permitted. */
    ghost predicate LastRefused() reads this`control {
      || control.At(ROUTE_COMPLETE) || control.At(FAIL_NO_SUBSTITUTE)
      || (control.routes != [] && IsAction(control.routes[|control.routes| - 1]) && !world(|control.routes| - 1).permitted)
    }

    /** What the recorded reason says: the error, the exhausted budget, or the rejection a stuck run was stuck on. */
    ghost predicate ReasonFits(cause: Option<Cause>, clean: bool) reads this`control, this`latestRejection, this`finalReason, this`solStoreHeld {
      && (cause.Some? ==> Reason() == W.CanonicalCode(CauseCode(cause.value)))
      && (cause.None? && !solStoreHeld && clean ==> CodeOfStop(Reason()))
      && (cause.None? && (solStoreHeld || !clean || LastRefused()) ==> Reason() == L.UNSUPPORTED_CLAIM)
    }

    /** The code of a run that was rejected where its last route stopped it. */
    ghost predicate CodeOfStop(code: L.Code) reads this`control, this`latestRejection {
      && (control.At(STOP_BUDGET) ==> code == L.BUDGET_EXHAUSTED)
      && (control.At(STOP_STUCK) && latestRejection.Some? ==> code == latestRejection.value)
      && (LastRefused() ==> code == L.UNSUPPORTED_CLAIM)
      && (!LastRefused() && control.At(UNKNOWN_SOL) ==> code == L.Code.SOL_ASK_INVALID)
    }

    /** The loop's reason is that of the last route. */
    lemma StopHasCode(flow: Flow, steps: nat)
      requires flow == Stop || flow == Continue
      requires RoutesAre(steps) && (flow == Stop ==> steps > 0 && (finalDisposition == REJECTED ==> StopReason(steps - 1, finalReason)))
      requires flow == Continue && steps > 0 ==> world(steps - 1).permitted && world(steps - 1).decision != UNKNOWN_SOL
      requires flow == Continue ==> RoutedToAction()
      ensures finalDisposition == REJECTED ==> CodeOfStop(Reason())
    {}

    /** The loop, the terminal guards and the outer catch: everything that decides the disposition. */
    method Decide(maxSteps: nat) returns (cause: Option<Cause>, clean: bool, recorded: bool)
      requires Between() && history == [] && control == INITIAL && finalDisposition == REJECTED && persisted == []
      modifies this, store
      ensures Valid() && old(store.tick) <= store.tick && |control.routes| <= maxSteps
      ensures IsAccepting(finalDisposition) <==> cause.None? && Accepts(clean)
      ensures IsAccepting(finalDisposition) ==>
              finalDisposition == (if lowRisk then SEMANTICALLY_ACCEPTED else REVIEW_APPROVED)
              && RoutesAre(|control.routes|) && ReviewsKept(|control.routes| - 1) && StepsSettled(|control.routes| - 1)
      ensures finalDisposition == REJECTED ==> ReasonFits(cause, clean)
      ensures finalDisposition == REVIEW_REQUIRED ==> cause.None? && control.At(CONTRACT_CHECK)
      ensures cause.None? ==> persisted == RecordsOf(finalDisposition)
      ensures cause.Some? && recorded ==> EndsRejected()
      ensures cause == Some(Fault) || !recorded ==> Faulty()
      ensures cause == Some(UnboundRepair) ==> Refused()
      ensures Faulty() || (cause.None? ==> clean && !solStoreHeld)
    {
      var thrown := LoopToEnd(maxSteps);
      cause, clean, recorded := Close(thrown);
    }

    /** The loop, and what it leaves for the guards after it. */
    method LoopToEnd(maxSteps: nat) returns (thrown: Option<Cause>)
      requires Between() && history == [] && control == INITIAL && finalDisposition == REJECTED && persisted == []
      modifies this, store
      ensures Valid() && old(store.tick) <= store.tick && |control.routes| <= maxSteps && persisted == []
      ensures thrown.None? && finalDisposition == REJECTED ==> CodeOfStop(Reason())
      ensures IsAccepting(finalDisposition) <==> thrown.None? && control.At(ROUTE_COMPLETE) && !HasOpen()
      ensures IsAccepting(finalDisposition) ==>
              finalDisposition == (if lowRisk then SEMANTICALLY_ACCEPTED else REVIEW_APPROVED)
              && RoutesAre(|control.routes|) && ReviewsKept(|control.routes| - 1) && StepsSettled(|control.routes| - 1)
      ensures finalDisposition == REVIEW_REQUIRED ==> control.At(CONTRACT_CHECK)
      ensures thrown.Some? ==> finalDisposition == REJECTED
      ensures thrown == Some(Fault) ==> Faulty()
      ensures thrown == Some(UnboundRepair) ==> Refused()
    {
      var flow, steps := Loop(maxSteps);
      if !flow.Throw? { StopHasCode(flow, steps); }
      thrown := if flow.Throw? then Some(flow.cause) else None;
    }

    /** After the loop: the terminal guards unless something threw, then the outer catch. */
    method Close(thrown: Option<Cause>) returns (cause: Option<Cause>, clean: bool, recorded: bool)
      requires thrown.None? && finalDisposition == REJECTED ==> CodeOfStop(Reason())
      requires thrown.None? && IsAccepting(finalDisposition) ==> control.At(ROUTE_COMPLETE)
      modifies this`finalDisposition, this`finalReason, this`solStoreHeld, this`persisted, store`tick
      ensures old(store.tick) <= store.tick
      ensures cause == thrown || (thrown.None? && cause == Some(Fault) && Faulty())
      ensures cause.None? ==> finalDisposition == Guarded(old(finalDisposition), clean)
      ensures cause.None? ==> persisted == old(persisted) + RecordsOf(finalDisposition)
      ensures cause.None? && finalDisposition == REJECTED ==>
                Reason() == if old(finalDisposition) == REJECTED && !solStoreHeld && clean then old(Reason()) else L.UNSUPPORTED_CLAIM
      ensures cause.Some? ==> finalDisposition == REJECTED && finalReason == Some(CauseCode(cause.value))
      ensures cause.Some? && recorded ==> EndsRejected()
      ensures finalDisposition == REJECTED ==> ReasonFits(cause, clean)
      ensures !recorded ==> cause.Some? && Faulty()
      ensures Faulty() || (thrown.None? ==> clean && !solStoreHeld)
    {
      cause, clean := thrown, false;
      if cause.None? {
        var ok;
        ok, clean := TerminalGuards();
        if !ok { cause := Some(Fault); }
      }
      recorded := Catch(cause);
    }

    /** The outer finally and the finalizer; neither can change the disposition. */
    method Conclude() returns (swept: bool, complete: Option<bool>, ghost closing: nat)
      requires store.Valid()
      modifies this`solStoreHeld, store
      ensures store.Valid() && store.KeepsFinal()
      ensures solStoreHeld <==> old(solStoreHeld) && store.throws(old(store.tick))
      // the sweep ends at `closing`; it failed exactly when an append of it threw
      ensures SweepStart(old(solStoreHeld), old(store.tick)) <= closing < store.tick
      ensures swept <==> store.QuietUntil(SweepStart(old(solStoreHeld), old(store.tick)), closing)
      ensures swept ==> L.Incomplete(store.states) == {}
      // then the terminal cleanup and the finalization, which says whether the ledger is complete
      ensures complete == if store.throws(closing) || store.throws(closing + 1) then None else Some(L.Incomplete(store.states) == {})
    {
      if solStoreHeld {
        var removed := store.Effect();
        solStoreHeld := !removed;
      }
      swept := store.ReconcileOrphans();
      closing := store.tick;
      complete := None;
      var clean := store.Effect();
      if clean { complete := store.Finalize(); }
    }

    /** The removal of a credential store that is still held comes before the sweep. */
    function SweepStart(held: bool, tick: nat): nat { if held then tick + 1 else tick }

    /** The ledger a run leaves is one of the documented lifecycle, whatever threw and where. */
    lemma LedgerIsLifecycle()
      requires store.Valid()
      ensures L.AllLifecycles(store.events) && L.ReplacementsStarted(store.events)
    {
      L.FoldedMeansLegal(store.runId, store.events, store.states);
      L.LegalIffLifecycle(store.runId, store.events);
    }

    /** Only a rejection has a code: the controller's own error, the exhausted budget, or what the run was stuck on. */
    ghost predicate CodeFits(r: Report) reads this`control, this`latestRejection {
      && (r.rejectionCode.Some? <==> r.disposition == REJECTED)
      && (r.cause.Some? && r.cause.value in {UnboundRepair, NothingToRepair, NoCriterion, UnboundRecheck} ==>
            r.rejectionCode == Some(L.Code.SOL_ASK_INVALID))
      && (r.cause.Some? && r.cause.value in {Fault, WorkerFailed, TicketRefused, TicketTaken} ==>
            r.rejectionCode == Some(W.CanonicalCode(faultCode)))
      && (r.cause.None? && r.storeGone && r.terminalClean && control.At(STOP_BUDGET) ==> r.rejectionCode == Some(L.BUDGET_EXHAUSTED))
      && (r.cause.None? && r.storeGone && r.terminalClean && control.At(STOP_STUCK) && latestRejection.Some? ==>
            r.rejectionCode == latestRejection)
      && (r.disposition == REJECTED && r.cause.None? && LastRefused() ==> r.rejectionCode == Some(L.UNSUPPORTED_CLAIM))
      && (r.disposition == REJECTED && r.cause.None? && r.storeGone && r.terminalClean && !LastRefused() && control.At(UNKNOWN_SOL) ==>
            r.rejectionCode == Some(L.Code.SOL_ASK_INVALID))
    }

    /** The report, as far as it is decided before the outer finally. */
    method Judge(maxSteps: nat) returns (r: Report)
      requires Between() && history == [] && control == INITIAL && finalDisposition == REJECTED && persisted == []
      modifies this, store
      ensures Valid() && |control.routes| <= maxSteps && r.disposition == finalDisposition
      ensures IsAccepting(r.disposition) <==>
              && r.cause.None? && control.At(ROUTE_COMPLETE) && !HasOpen()
              && (lowRisk || !hasTestSeam) && r.storeGone && r.terminalClean
      ensures IsAccepting(r.disposition) ==>
              r.disposition == (if lowRisk then SEMANTICALLY_ACCEPTED else REVIEW_APPROVED)
              && RoutesAre(|control.routes|) && ReviewsResolved(|control.routes|) && StepsSettled(|control.routes| - 1)
      ensures r.cause.None? ==> persisted == RecordsOf(r.disposition)
      ensures r.disposition == REVIEW_REQUIRED ==> r.cause.None? && control.At(CONTRACT_CHECK)
      ensures r.disposition == REJECTED && r.recorded ==> EndsRejected()
      ensures r.cause == Some(Fault) || !r.recorded ==> Faulty()
      ensures CodeFits(r)
      ensures r.cause == Some(UnboundRepair) ==> ForeignDiagnosis()
      ensures Faulty() || (r.cause.None? ==> r.terminalClean && r.storeGone)
    {
      var cause, clean, recorded := Decide(maxSteps);
      if cause == Some(UnboundRepair) { RefusalMeansDiagnosis(); }
      if IsAccepting(finalDisposition) { AcceptedMeansResolved(); }
      r := Report(finalDisposition, if finalDisposition == REJECTED then Some(Reason()) else None, false, cause, !solStoreHeld, clean,
                  recorded, false);
    }

    /** A whole run. */
    method Run(maxSteps: nat) returns (r: Report, ghost sweeping: nat, ghost closing: nat)
      requires Between() && history == [] && control == INITIAL && finalDisposition == REJECTED && persisted == []
      modifies this, store
      ensures Valid() && |control.routes| <= maxSteps && r.disposition == finalDisposition
      // exactly when a run accepts
      ensures IsAccepting(r.disposition) <==>
              && r.cause.None? && control.At(ROUTE_COMPLETE) && !HasOpen()
              && (lowRisk || !hasTestSeam) && r.storeGone && r.terminalClean
      // what acceptance means: the kind of acceptance, every review that the run was routed to, every step's ledger line
      ensures IsAccepting(r.disposition) ==>
              r.disposition == (if lowRisk then SEMANTICALLY_ACCEPTED else REVIEW_APPROVED)
              && RoutesAre(|control.routes|) && ReviewsResolved(|control.routes|) && StepsSettled(|control.routes| - 1)
      // the records, and a rejection as the last of them, also after acceptance records had been begun
      ensures r.cause.None? ==> persisted == RecordsOf(r.disposition)
      ensures r.disposition == REVIEW_REQUIRED ==> r.cause.None? && control.At(CONTRACT_CHECK)
      ensures r.disposition == REJECTED && r.recorded ==> EndsRejected()
      ensures r.cause == Some(Fault) || !r.recorded ==> Faulty()
      // the code of a rejection is one of the taxonomy and says why
      ensures CodeFits(r)
      // the guard of a repair dispatch refuses for one reason only
      ensures r.cause == Some(UnboundRepair) ==> ForeignDiagnosis()
      ensures SumCycles(solFindings) == repairsDispatched == Dispatches(history)
      // the ledger when the run is over
      ensures L.AllLifecycles(store.events)
      // the orphan sweep, then the terminal cleanup and the finalization; when the run is reported as good
      ensures sweeping <= closing && (r.swept <==> store.QuietUntil(sweeping, closing))
      ensures r.swept ==> L.Incomplete(store.states) == {}
      ensures r.ok <==>
              IsAccepting(r.disposition) && L.Incomplete(store.states) == {} && !store.throws(closing) && !store.throws(closing + 1)
      // without faults everything is recorded, removed, clean and swept, so a run that was not stopped is reported as it ended
      ensures Faulty() || (r.recorded && r.swept && (r.cause.None? ==> r.terminalClean && r.storeGone) && (r.ok <==> IsAccepting(r.disposition)))
    {
      r := Judge(maxSteps);
      label judged:
      var swept, complete;
      sweeping := SweepStart(solStoreHeld, store.tick);
      swept, complete, closing := Conclude();
      if IsAccepting(r.disposition) { StepsStaySettled@judged(|control.routes| - 1); }
      CyclesConserved();
      LedgerIsLifecycle();
      r := Reported(r, swept, complete);
    }

    /** A run is good when it accepted and the finalizer found the ledger complete. */
    function Reported(r: Report, swept: bool, complete: Option<bool>): (r': Report)
      ensures r'.disposition == r.disposition && r'.cause == r.cause && r'.rejectionCode == r.rejectionCode
      ensures r'.storeGone == r.storeGone && r'.terminalClean == r.terminalClean && r'.recorded == r.recorded
      ensures r'.swept == swept && (r'.ok <==> IsAccepting(r.disposition) && complete == Some(true))
    {
      r.(ok := IsAccepting(r.disposition) && complete == Some(true), swept := swept)
    }
  }
}
