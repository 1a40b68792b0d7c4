/**
 The controller run as a machine over events.  The router, the workers and the SOL answers are
 arbitrary; what an event may do to the run is fixed by the controller's own guards.
 */
module ControllerMachine {
  import opened Options

  type Id = string

  datatype Decision =
    | ROUTE_COMPLETE | STOP_BUDGET | STOP_STUCK | FAIL_NO_SUBSTITUTE
    | IMPLEMENT | REPAIR | CONTRACT_CHECK | DIAGNOSE | FINAL_REVIEW | RECHECK | UNKNOWN_SOL

  /** The ask and response that an accepted SOL answer is bound to, with the ask's invariant checklist. */
  datatype Exchange = Exchange(askId: Id, responseId: Id, checklist: map<Id, Id>)

  datatype FindingStatus = OPEN | CLOSED
  datatype DefectKind = FINDING | ADJACENT_CRITICAL_DEFECT

  /** One item of an accepted final review. */
  datatype Item = Item(findingId: Id, kind: DefectKind, critical: bool, invariantRef: Option<Id>, lockedRef: Option<Id>)

  /** The locked requirement an item binds to: through the ask's checklist, else its own reference. */
  function Criterion(source: Exchange, item: Item): Option<Id> {
    if item.invariantRef.Some? && item.invariantRef.value in source.checklist
    then Some(source.checklist[item.invariantRef.value])
    else item.lockedRef
  }

  /** A finding fails an invariant of the ask's checklist; an adjacent defect violates a requirement of its own. */
  predicate ItemOk(item: Item, source: Exchange) {
    match item.kind
    case FINDING => item.invariantRef.Some? && item.invariantRef.value in source.checklist && item.lockedRef.None?
    case ADJACENT_CRITICAL_DEFECT => item.invariantRef.None? && item.lockedRef.Some? && item.critical
  }

  const MAX_FINDINGS: nat := 16

  /** What a compiled FAIL answer carries: findings, at most one adjacent defect, and something critical among them. */
  predicate FailAnswer(findings: seq<Item>, adjacent: seq<Item>, source: Exchange) {
    && 1 <= |findings| <= MAX_FINDINGS && |adjacent| <= 1
    && (forall item :: item in findings ==> item.kind == FINDING && ItemOk(item, source))
    && (forall item :: item in adjacent ==> item.kind == ADJACENT_CRITICAL_DEFECT && ItemOk(item, source))
    && (adjacent == [] ==> exists item :: item in findings && item.critical)
  }

  /** The same of the items in the order of their records: the findings first. */
  predicate FailItems(items: seq<Item>, source: Exchange) {
    var n := if items != [] && items[|items| - 1].kind == ADJACENT_CRITICAL_DEFECT then |items| - 1 else |items|;
    FailAnswer(items[..n], items[n..], source)
  }

  lemma FailAnswerItems(findings: seq<Item>, adjacent: seq<Item>, source: Exchange)
    requires FailAnswer(findings, adjacent, source)
    ensures FailItems(findings + adjacent, source)
  {
    var items := findings + adjacent;
    assert items[..|findings|] == findings && items[|findings|..] == adjacent;
    if adjacent == [] {
      assert items == findings && items[|items| - 1] in findings;
    } else {
      assert items[|items| - 1] == adjacent[0];
    }
  }

  datatype Finding = Finding(item: Item, status: FindingStatus, repairCycles: nat, rechecks: nat, origin: Exchange)

  datatype Binding = Binding(findingId: Id, repairId: Id, source: Exchange, criterion: Id)

  /** What the file of a repair ticket is named after. */
  datatype Ticket = Ticket(findingId: Id, askId: Id, responseId: Id)

  function TicketFor(findingId: Id, source: Exchange): Ticket { Ticket(findingId, source.askId, source.responseId) }

  function TicketOf(b: Binding): Ticket { TicketFor(b.findingId, b.source) }

  /** The ticket that selecting a record for repair would write. */
  function OwnTicket(f: Finding): Ticket { TicketFor(f.item.findingId, f.origin) }

  /** The binding is for this record. */
  predicate BindsRecord(b: Binding, f: Finding) {
    b.findingId == f.item.findingId && Criterion(b.source, f.item) == Some(b.criterion)
  }

  /** Idle between steps; Awaiting once an action is routed; then what the action has done so far. */
  datatype Phase = Idle | Awaiting | Chosen(record: nat) | Armed | Answered(resolved: bool)

  /**
   The variables of the run; `routes` are the router's decisions so far, `tickets` the repair tickets on
   disk, `recording` the items of the current review that have a record.
   */
  datatype Control = Control(
    routes: seq<Decision>, phase: Phase, findings: seq<Finding>, active: Option<Id>,
    binding: Option<Binding>, contract: Option<Id>, dispatched: nat, resultAccepted: bool, tickets: set<Ticket>, recording: nat)
  {
    predicate At(d: Decision) { routes != [] && routes[|routes| - 1] == d }
  }

  const INITIAL := Control([], Idle, [], None, None, None, 0, false, {}, 0)

  datatype Event =
    | Routed(decision: Decision)
    | Selected(record: nat, bound: Binding)
    | Dispatched(record: nat)
    | WorkerReturned(accepted: bool)
    | Diagnosed(repairId: Id)
    | Recorded(item: Item, origin: Exchange)
    | ReviewPassed(items: seq<Item>, origin: Exchange)
    | ReviewFailed(items: seq<Item>, record: nat, bound: Binding)
    | Rechecked(record: nat, origin: Exchange, resolved: bool)
    | Settled(resolved: bool)

  /** What the controller looks a record up by. */
  datatype Sought = OpenWithId(id: Id) | OpenAmong(ids: seq<Id>) | Unrepaired
  {
    predicate Fits(f: Finding) {
      f.status == OPEN
      && match this
         case OpenWithId(id) => f.item.findingId == id
         case OpenAmong(ids) => f.item.findingId in ids
         case Unrepaired => f.repairCycles == 0
    }
  }

  /** The first record that fits. */
  function FindFirst(fs: seq<Finding>, p: Sought): (r: Option<nat>)
    ensures r.Some? ==> r.value < |fs| && p.Fits(fs[r.value]) && forall j :: 0 <= j < r.value ==> !p.Fits(fs[j])
    ensures r.None? ==> forall j :: 0 <= j < |fs| ==> !p.Fits(fs[j])
  {
    if fs == [] then None
    else if p.Fits(fs[0]) then Some(0)
    else match FindFirst(fs[1..], p) case None => None case Some(i) => Some(i + 1)
  }

  function IdsOf(items: seq<Item>): seq<Id> { seq(|items|, i requires 0 <= i < |items| => items[i].findingId) }

  function Fresh(items: seq<Item>, origin: Exchange): seq<Finding> {
    seq(|items|, i requires 0 <= i < |items| => Finding(items[i], OPEN, 0, 0, origin))
  }

  predicate IsAction(d: Decision) {
    d !in {ROUTE_COMPLETE, STOP_BUDGET, STOP_STUCK, FAIL_NO_SUBSTITUTE}
  }

  /** The guard of a targeted repair dispatch. */
  predicate RepairGuard(c: Control) {
    && c.active.Some? && FindFirst(c.findings, OpenWithId(c.active.value)).Some?
    && c.binding.Some? && c.binding.value.findingId == c.active.value
    && c.contract == Some(c.binding.value.repairId)
  }

  /** The last records are exactly the items of one review, all recorded by it. */
  predicate RecordedAll(fs: seq<Finding>, items: seq<Item>, origin: Exchange) {
    |items| <= |fs| && fs[|fs| - |items|..] == Fresh(items, origin)
  }

  /** What the controller's guards allow next. */
  predicate Enabled(c: Control, ev: Event) {
    match ev
    case Routed(_) => c.phase == Idle
    case Selected(i, b) =>
      && c.phase == Awaiting && c.At(REPAIR) && c.active.None?
      && FindFirst(c.findings, Unrepaired) == Some(i)
      && BindsRecord(b, c.findings[i]) && b.source == c.findings[i].origin && TicketOf(b) !in c.tickets
    case Dispatched(i) =>
      && c.At(REPAIR) && i < |c.findings| && c.findings[i].status == OPEN
      && (c.phase == Chosen(i)
          || (c.phase == Awaiting && RepairGuard(c) && FindFirst(c.findings, OpenWithId(c.active.value)) == Some(i)))
    case WorkerReturned(_) =>
      (c.phase == Awaiting && c.At(IMPLEMENT)) || (c.phase == Armed && c.At(REPAIR))
    case Diagnosed(_) => c.phase == Awaiting && c.At(DIAGNOSE)
    case Recorded(_, _) => c.phase == Awaiting && c.At(FINAL_REVIEW)
    case ReviewPassed(items, _) => c.phase == Awaiting && c.At(FINAL_REVIEW) && items == [] && c.recording == 0
    case ReviewFailed(items, i, b) =>
      && c.phase == Awaiting && c.At(FINAL_REVIEW)
      && FailItems(items, b.source) && RecordedAll(c.findings, items, b.source) && c.recording == |items|
      && FindFirst(c.findings, OpenAmong(IdsOf(items))) == Some(i) && BindsRecord(b, c.findings[i]) && TicketOf(b) !in c.tickets
    case Rechecked(i, origin, _) =>
      && c.phase == Awaiting && c.At(RECHECK) && c.active.Some?
      && FindFirst(c.findings, OpenWithId(c.active.value)) == Some(i) && origin == c.findings[i].origin
    case Settled(resolved) => c.phase == Answered(resolved) && c.At(RECHECK)
  }

  function Apply(c: Control, ev: Event): Control
    requires Enabled(c, ev)
  {
    match ev
    case Routed(d) => c.(routes := c.routes + [d], phase := if IsAction(d) then Awaiting else Idle)
    case Selected(i, b) =>
      c.(phase := Chosen(i), active := Some(b.findingId), binding := Some(b), contract := Some(b.repairId),
         tickets := c.tickets + {TicketOf(b)})
    case Dispatched(i) =>
      c.(findings := c.findings[i := c.findings[i].(repairCycles := c.findings[i].repairCycles + 1)],
         dispatched := c.dispatched + 1, phase := Armed)
    case WorkerReturned(accepted) => c.(phase := Idle, resultAccepted := accepted)
    case Diagnosed(repairId) => c.(phase := Idle, contract := Some(repairId), resultAccepted := false)
    case Recorded(item, origin) => c.(findings := c.findings + [Finding(item, OPEN, 0, 0, origin)], recording := c.recording + 1)
    case ReviewPassed(_, _) => c.(phase := Idle, resultAccepted := true)
    case ReviewFailed(_, _, b) =>
      c.(phase := Idle, active := Some(b.findingId), binding := Some(b), contract := Some(b.repairId), resultAccepted := false,
         tickets := c.tickets + {TicketOf(b)}, recording := 0)
    case Rechecked(i, _, resolved) =>
      c.(findings := c.findings[i := c.findings[i].(rechecks := c.findings[i].rechecks + 1,
                                                    status := if resolved then CLOSED else OPEN)],
         phase := Answered(resolved))
    case Settled(resolved) =>
      if resolved then c.(phase := Idle, resultAccepted := true, active := None, binding := None, contract := None)
      else c.(phase := Idle, resultAccepted := false)
  }

  /** The run's variables after a history. */
  function Run(h: seq<Event>): Control {
    if h == [] then INITIAL
    else
      var c := Run(h[..|h| - 1]);
      if Enabled(c, h[|h| - 1]) then Apply(c, h[|h| - 1]) else c
  }

  predicate EnabledAt(h: seq<Event>, k: nat)
    requires k < |h|
  {
    Enabled(Run(h[..k]), h[k])
  }

  /** A history of a run: every event passed the guards when it happened. */
  ghost predicate Legal(h: seq<Event>) { forall k: nat :: k < |h| ==> EnabledAt(h, k) }

  lemma Step(h: seq<Event>, ev: Event)
    ensures Legal(h + [ev]) <==> Legal(h) && Enabled(Run(h), ev)
    ensures Enabled(Run(h), ev) ==> Run(h + [ev]) == Apply(Run(h), ev)
  {
    var more := h + [ev];
    assert more[..|h|] == h;
    forall k: nat | k < |h| ensures EnabledAt(more, k) <==> EnabledAt(h, k) {
      assert more[..k] == h[..k] && more[k] == h[k];
    }
    if Legal(more) {
      assert EnabledAt(more, |h|);
      forall k: nat | k < |h| ensures EnabledAt(h, k) { assert EnabledAt(more, k); }
    }
  }

  /** The run's variables, one after the other, along a history. */
  ghost predicate IsTrail(trail: seq<Control>, h: seq<Event>) {
    && |trail| == |h| + 1 && trail[0] == INITIAL
    && forall k: nat :: k < |h| ==> Linked(trail, h, k)
  }

  predicate Linked(trail: seq<Control>, h: seq<Event>, k: nat)
    requires |trail| == |h| + 1 && k < |h|
  {
    Enabled(trail[k], h[k]) && trail[k + 1] == Apply(trail[k], h[k])
  }

  /** A legal history that leads to these variables; the form in which the run carries it. */
  ghost predicate Reached(h: seq<Event>, c: Control) {
    exists trail :: IsTrail(trail, h) && trail[|h|] == c
  }

  lemma ReachedStep(h: seq<Event>, c: Control, ev: Event)
    requires Reached(h, c) && Enabled(c, ev)
    ensures Reached(h + [ev], Apply(c, ev))
  {
    var trail :| IsTrail(trail, h) && trail[|h|] == c;
    var longer, more := trail + [Apply(c, ev)], h + [ev];
    forall k: nat | k < |more| ensures Linked(longer, more, k) {
      if k < |h| { assert Linked(trail, h, k); }
    }
    assert IsTrail(longer, more) && longer[|more|] == Apply(c, ev);
  }

  lemma {:induction false} ReachedMeansRun(h: seq<Event>, c: Control)
    requires Reached(h, c)
    ensures Legal(h) && c == Run(h)
  {
    if h != [] {
      var n := |h| - 1;
      var trail :| IsTrail(trail, h) && trail[|h|] == c;
      assert Linked(trail, h, n);
      var shorter, less := trail[..n + 1], h[..n];
      forall k: nat | k < n ensures Linked(shorter, less, k) { assert Linked(trail, h, k); }
      assert IsTrail(shorter, less) && shorter[n] == trail[n];
      ReachedMeansRun(h[..n], trail[n]);
      assert h == h[..n] + [h[n]];
      Step(h[..n], h[n]);
    }
  }

  lemma Prefix(h: seq<Event>, k: nat)
    requires Legal(h) && k <= |h|
    ensures Legal(h[..k])
  {
    forall j: nat | j < k ensures EnabledAt(h[..k], j) {
      assert h[..k][..j] == h[..j] && EnabledAt(h, j);
    }
  }

  // ---------------------------------------------------------------------------
  // Repair cycles are conserved
  // ---------------------------------------------------------------------------

  function SumCycles(fs: seq<Finding>): nat {
    if fs == [] then 0 else SumCycles(fs[..|fs| - 1]) + fs[|fs| - 1].repairCycles
  }

  lemma {:induction false} SumUpdate(fs: seq<Finding>, i: nat, f: Finding)
    requires i < |fs|
    ensures SumCycles(fs[i := f]) == SumCycles(fs) - fs[i].repairCycles + f.repairCycles
  {
    var n := |fs| - 1;
    if i < n {
      assert fs[i := f][..n] == fs[..n][i := f];
      SumUpdate(fs[..n], i, f);
    } else {
      assert fs[i := f][..n] == fs[..n];
    }
  }

  function Dispatches(h: seq<Event>): nat {
    if h == [] then 0 else Dispatches(h[..|h| - 1]) + if h[|h| - 1].Dispatched? then 1 else 0
  }

  /** The sum of repairCycles over all records is the number of dispatched repairs, at every point of every run. */
  lemma {:induction false} CyclesAreDispatches(h: seq<Event>)
    requires Legal(h)
    ensures SumCycles(Run(h).findings) == Run(h).dispatched == Dispatches(h)
  {
    if h != [] {
      var before, ev := h[..|h| - 1], h[|h| - 1];
      assert h == before + [ev];
      Step(before, ev);
      CyclesAreDispatches(before);
      CyclesStep(Run(before), ev);
    }
  }

  lemma CyclesStep(c: Control, ev: Event)
    requires Enabled(c, ev)
    ensures var d := Apply(c, ev);
            SumCycles(d.findings) - SumCycles(c.findings) == d.dispatched - c.dispatched == if ev.Dispatched? then 1 else 0
  {
    match ev
    case Dispatched(i) => SumUpdate(c.findings, i, c.findings[i].(repairCycles := c.findings[i].repairCycles + 1));
    case Rechecked(i, _, resolved) =>
      SumUpdate(c.findings, i, c.findings[i].(rechecks := c.findings[i].rechecks + 1, status := if resolved then CLOSED else OPEN));
    case Recorded(item, origin) =>
      assert (c.findings + [Finding(item, OPEN, 0, 0, origin)])[..|c.findings|] == c.findings;
    case _ =>
  }

  // ---------------------------------------------------------------------------
  // The life of a finding record
  // ---------------------------------------------------------------------------

  /** Records keep their place, their item and their origin, and a closed record stays closed. */
  ghost predicate Grows(fs: seq<Finding>, gs: seq<Finding>) {
    && |fs| <= |gs|
    && forall i :: 0 <= i < |fs| ==>
         && gs[i].item == fs[i].item && gs[i].origin == fs[i].origin
         && gs[i].repairCycles >= fs[i].repairCycles && gs[i].rechecks >= fs[i].rechecks
         && (fs[i].status == CLOSED ==> gs[i] == fs[i])
  }

  lemma {:induction false} NeverReopens(h: seq<Event>, k: nat)
    requires Legal(h) && k <= |h|
    ensures Grows(Run(h[..k]).findings, Run(h).findings)
  {
    if k < |h| {
      var before, ev := h[..|h| - 1], h[|h| - 1];
      assert h == before + [ev] && before[..k] == h[..k];
      Step(before, ev);
      NeverReopens(before, k);
      GrowsStep(Run(before), ev);
      GrowsTransitive(Run(h[..k]).findings, Run(before).findings, Run(h).findings);
    } else {
      assert h[..k] == h;
    }
  }

  lemma GrowsStep(c: Control, ev: Event)
    requires Enabled(c, ev)
    ensures Grows(c.findings, Apply(c, ev).findings)
  {}

  lemma GrowsTransitive(fs: seq<Finding>, gs: seq<Finding>, hs: seq<Finding>)
    requires Grows(fs, gs) && Grows(gs, hs)
    ensures Grows(fs, hs)
  {}

  /** The recheck that answered RESOLVED for one record, over the exchange the record came from. */
  predicate ResolvedAt(h: seq<Event>, k: nat, i: nat, origin: Exchange) {
    k < |h| && h[k] == Rechecked(i, origin, true)
  }

  /** A record is CLOSED exactly when some recheck bound to its own originating exchange resolved it. */
  lemma {:induction false} ClosedIffResolved(h: seq<Event>, i: nat)
    requires Legal(h) && i < |Run(h).findings|
    ensures Run(h).findings[i].status == CLOSED <==> exists k: nat :: ResolvedAt(h, k, i, Run(h).findings[i].origin)
  {
    var before, ev := h[..|h| - 1], h[|h| - 1];
    assert h == before + [ev];
    Step(before, ev);
    var c, d := Run(before), Run(h);
    if i < |c.findings| {
      ClosedIffResolved(before, i);
      NeverReopens(h, |before|);
      var origin := d.findings[i].origin;
      if d.findings[i].status == CLOSED {
        if c.findings[i].status == CLOSED {
          var k: nat :| ResolvedAt(before, k, i, origin);
          assert ResolvedAt(h, k, i, origin);
        } else {
          assert ResolvedAt(h, |before|, i, origin);
        }
      } else if exists k: nat :: ResolvedAt(h, k, i, origin) {
        var k: nat :| ResolvedAt(h, k, i, origin);
        if k < |before| {
          assert ResolvedAt(before, k, i, origin);
        }
        assert false;
      }
    } else {
      forall k: nat ensures !ResolvedAt(h, k, i, d.findings[i].origin) {
        if ResolvedAt(h, k, i, d.findings[i].origin) {
          assert EnabledAt(h, k);
          if k < |before| {
            assert before[..k] == h[..k];
            NeverReopens(before, k);
          }
          assert false;
        }
      }
    }
  }

  /** The items of the accepted final review at one point of the history, and its exchange. */
  function ReviewOf(ev: Event): Option<(seq<Item>, Exchange)> {
    match ev
    case ReviewPassed(items, origin) => Some((items, origin))
    case ReviewFailed(items, _, b) => Some((items, b.source))
    case _ => None
  }

  /**
   When no record is open, every finding and every adjacent defect of every accepted final review
   has its own record, and that record was closed by a RESOLVED recheck over that review's exchange.
   */
  lemma NothingOpenMeansAllResolved(h: seq<Event>, k: nat, n: nat)
    requires Legal(h) && k < |h| && ReviewOf(h[k]).Some? && n < |ReviewOf(h[k]).value.0|
    requires forall f :: f in Run(h).findings ==> f.status == CLOSED
    ensures exists i: nat, r: nat ::
              && i < |Run(h).findings| && Run(h).findings[i].item == ReviewOf(h[k]).value.0[n]
              && ResolvedAt(h, r, i, ReviewOf(h[k]).value.1)
  {
    var (items, origin) := ReviewOf(h[k]).value;
    assert EnabledAt(h, k);
    var fs := Run(h[..k]).findings;
    var i := |fs| - |items| + n;
    assert fs[|fs| - |items|..][n] == Fresh(items, origin)[n];
    NeverReopens(h, k);
    ClosedIffResolved(h, i);
    assert Run(h).findings[i] in Run(h).findings;
    var r: nat :| ResolvedAt(h, r, i, origin);
  }

  /** Some record for this item, made by this exchange, was closed by a recheck over this exchange. */
  ghost predicate ItemResolved(h: seq<Event>, item: Item, origin: Exchange) {
    exists i: nat, r: nat :: i < |Run(h).findings| && Run(h).findings[i].item == item && ResolvedAt(h, r, i, origin)
  }

  /** The accepted review with these items and this exchange ended in this history. */
  ghost predicate Reviewed(h: seq<Event>, items: seq<Item>, origin: Exchange) {
    exists k: nat :: ReviewEndsAt(h, k, items, origin)
  }

  predicate ReviewEndsAt(h: seq<Event>, k: nat, items: seq<Item>, origin: Exchange) {
    k < |h| && ReviewOf(h[k]) == Some((items, origin))
  }

  lemma ReviewedMeansResolved(h: seq<Event>, items: seq<Item>, origin: Exchange)
    requires Legal(h) && Reviewed(h, items, origin)
    requires forall f :: f in Run(h).findings ==> f.status == CLOSED
    ensures forall item :: item in items ==> ItemResolved(h, item, origin)
  {
    var k: nat :| ReviewEndsAt(h, k, items, origin);
    forall item | item in items ensures ItemResolved(h, item, origin) {
      var n: nat :| n < |items| && items[n] == item;
      NothingOpenMeansAllResolved(h, k, n);
    }
  }

  // ---------------------------------------------------------------------------
  // Every record of a finished review names its requirement
  // ---------------------------------------------------------------------------

  predicate HasCriterion(f: Finding) { Criterion(f.origin, f.item).Some? }

  /** The requirement of an item: what its exchange's checklist lists its invariant under, or its own reference. */
  predicate RequirementIs(item: Item, source: Exchange, id: Option<Id>) {
    match item.kind
    case FINDING =>
      item.invariantRef.Some? && item.invariantRef.value in source.checklist && id == Some(source.checklist[item.invariantRef.value])
    case ADJACENT_CRITICAL_DEFECT => item.lockedRef.Some? && id == item.lockedRef
  }

  predicate NamesRequirement(f: Finding) { RequirementIs(f.item, f.origin, Criterion(f.origin, f.item)) }

  ghost predicate CriteriaHold(c: Control) {
    && c.recording <= |c.findings| && (c.recording > 0 ==> c.phase == Awaiting && c.At(FINAL_REVIEW))
    && forall i :: 0 <= i < |c.findings| - c.recording ==> NamesRequirement(c.findings[i])
  }

  lemma ItemsHaveCriterion(items: seq<Item>, source: Exchange)
    requires FailItems(items, source)
    ensures forall i :: 0 <= i < |items| ==> RequirementIs(items[i], source, Criterion(source, items[i]))
  {
    var n := if items != [] && items[|items| - 1].kind == ADJACENT_CRITICAL_DEFECT then |items| - 1 else |items|;
    forall i | 0 <= i < |items| ensures RequirementIs(items[i], source, Criterion(source, items[i])) {
      if i < n { assert items[i] == items[..n][i]; } else { assert items[i] == items[n..][i - n]; }
    }
  }

  lemma CriteriaStep(c: Control, ev: Event)
    requires CriteriaHold(c) && Enabled(c, ev)
    ensures CriteriaHold(Apply(c, ev))
  {
    if ev.ReviewFailed? {
      var items, source := ev.items, ev.bound.source;
      ItemsHaveCriterion(items, source);
      var m := |c.findings| - |items|;
      forall i | m <= i < |c.findings| ensures NamesRequirement(c.findings[i]) {
        assert c.findings[i] == c.findings[m..][i - m] == Fresh(items, source)[i - m];
      }
    }
  }

  lemma {:induction false} CriteriaAlwaysHold(h: seq<Event>)
    requires Legal(h)
    ensures CriteriaHold(Run(h))
  {
    if h != [] {
      var before, ev := h[..|h| - 1], h[|h| - 1];
      assert h == before + [ev];
      Step(before, ev);
      CriteriaAlwaysHold(before);
      CriteriaStep(Run(before), ev);
    }
  }

  // ---------------------------------------------------------------------------
  // The repair binding
  // ---------------------------------------------------------------------------

  /** The active identity is bound, and names an open record until a resolved recheck is settled. */
  predicate BindingHolds(c: Control) {
    && (c.active.Some? <==> c.binding.Some?)
    && (c.active.Some? ==>
          && c.binding.value.findingId == c.active.value
          && (c.phase != Answered(true) ==> FindFirst(c.findings, OpenWithId(c.active.value)).Some?))
    && (c.phase != Idle ==> c.routes != [] && IsAction(c.routes[|c.routes| - 1]))
    && (c.phase.Answered? ==> c.At(RECHECK) && c.active.Some?)
    && (c.phase == Armed || c.phase.Chosen? ==> c.At(REPAIR) && RepairGuard(c))
    && (c.phase.Chosen? ==> c.phase.record < |c.findings| && OpenWithId(c.active.value).Fits(c.findings[c.phase.record]))
  }

  lemma StillOpen(fs: seq<Finding>, gs: seq<Finding>, id: Id)
    requires |fs| <= |gs| && forall i :: 0 <= i < |fs| ==> gs[i].item == fs[i].item && gs[i].status == fs[i].status
    requires FindFirst(fs, OpenWithId(id)).Some?
    ensures FindFirst(gs, OpenWithId(id)).Some?
  {
    var i := FindFirst(fs, OpenWithId(id)).value;
    assert OpenWithId(id).Fits(gs[i]);
  }

  lemma {:induction false} BindingAlwaysHolds(h: seq<Event>)
    requires Legal(h)
    ensures BindingHolds(Run(h))
  {
    if h != [] {
      var before, ev := h[..|h| - 1], h[|h| - 1];
      assert h == before + [ev];
      Step(before, ev);
      BindingAlwaysHolds(before);
      BindingStep(Run(before), ev);
    }
  }

  lemma BindingStep(c: Control, ev: Event)
    requires BindingHolds(c) && Enabled(c, ev)
    ensures BindingHolds(Apply(c, ev))
  {
    var d := Apply(c, ev);
    match ev
    case Selected(i, b) => assert OpenWithId(b.findingId).Fits(c.findings[i]);
    case ReviewFailed(_, i, b) => assert OpenWithId(b.findingId).Fits(c.findings[i]);
    case Rechecked(i, _, resolved) => if !resolved { StillOpen(c.findings, d.findings, c.active.value); }
    case Dispatched(_) => StillOpen(c.findings, d.findings, c.active.value);
    case Recorded(_, _) => if c.active.Some? { StillOpen(c.findings, d.findings, c.active.value); }
    case _ =>
  }

  /** A selected record is bound at once, and then may be dispatched. */
  lemma SelectionArms(c: Control, i: nat, b: Binding)
    requires Enabled(c, Selected(i, b))
    ensures var d := Apply(c, Selected(i, b)); Enabled(d, Dispatched(i)) && RepairGuard(d)
  {
    assert OpenWithId(b.findingId).Fits(c.findings[i]);
  }

  /** The repair id of a diagnosis that replaced the contract after the last binding, if any. */
  function DiagnosedSinceBinding(h: seq<Event>): Option<Id> {
    if h == [] then None
    else match h[|h| - 1]
         case Diagnosed(r) => Some(r)
         case Selected(_, _) => None
         case ReviewFailed(_, _, _) => None
         case Settled(true) => None
         case _ => DiagnosedSinceBinding(h[..|h| - 1])
  }

  lemma {:induction false} ContractInHand(h: seq<Event>)
    requires Legal(h)
    ensures ContractIs(Run(h), DiagnosedSinceBinding(h))
  {
    if h != [] {
      var before, ev := h[..|h| - 1], h[|h| - 1];
      assert h == before + [ev];
      Step(before, ev);
      ContractInHand(before);
      ContractStep(before, Run(before), ev);
    }
  }

  /** The contract in hand: the diagnosis', if there is one, else the binding's own. */
  predicate ContractIs(c: Control, diagnosed: Option<Id>) {
    c.contract == if diagnosed.Some? then diagnosed else if c.binding.Some? then Some(c.binding.value.repairId) else None
  }

  lemma ContractStep(h: seq<Event>, c: Control, ev: Event)
    requires ContractIs(c, DiagnosedSinceBinding(h)) && Enabled(c, ev)
    ensures ContractIs(Apply(c, ev), DiagnosedSinceBinding(h + [ev]))
  {
    assert (h + [ev])[..|h|] == h;
  }

  /**
   With an active finding, the dispatch guard refuses exactly the runs in which a diagnosis replaced
   the repair contract after the binding was made: the other two clauses of the guard cannot fail.
   */
  lemma GuardCatchesExactlyDiagnosis(h: seq<Event>)
    requires Legal(h) && Run(h).active.Some? && !Run(h).phase.Answered?
    ensures Run(h).binding.Some?
    ensures RepairGuard(Run(h)) <==>
            DiagnosedSinceBinding(h) == None || DiagnosedSinceBinding(h) == Some(Run(h).binding.value.repairId)
  {
    BindingAlwaysHolds(h);
    ContractInHand(h);
  }

  /**
   At every repair dispatch of every run the active identity names an open record, the binding
   carries it, and the contract in hand has the binding's repair id; so a contract that came from a
   diagnosis never reaches a repair dispatch under an identity of its own.
   */
  lemma DispatchIsBound(h: seq<Event>, k: nat)
    requires Legal(h) && k < |h| && h[k].Dispatched?
    ensures var c := Run(h[..k]);
            && h[k].record < |c.findings| && c.findings[h[k].record].status == OPEN
            && c.active == Some(c.findings[h[k].record].item.findingId)
            && c.binding.Some? && Some(c.binding.value.findingId) == c.active && c.contract == Some(c.binding.value.repairId)
            && DiagnosedSinceBinding(h[..k]) in {None, c.contract}
  {
    assert EnabledAt(h, k);
    Prefix(h, k);
    BindingAlwaysHolds(h[..k]);
    ContractInHand(h[..k]);
  }

  // ---------------------------------------------------------------------------
  // Repeated identities
  // ---------------------------------------------------------------------------

  /**
   A failed review binds the first open record that has one of its identities.  The binding's
   exchange is that record's own exchange exactly when no record left open by an earlier review
   shares an identity with this review.
   */
  lemma ReviewBindsItsOwnExchange(c: Control, items: seq<Item>, i: nat, b: Binding)
    requires Enabled(c, ReviewFailed(items, i, b))
    requires forall j :: 0 <= j < |c.findings| - |items| ==> c.findings[j].origin != b.source
    ensures b.source == c.findings[i].origin <==>
            forall j :: 0 <= j < |c.findings| - |items| && c.findings[j].status == OPEN ==>
                          c.findings[j].item.findingId !in IdsOf(items)
  {
    var m := |c.findings| - |items|;
    assert c.findings[m..] == Fresh(items, b.source);
    if i >= m {
      assert c.findings[i] == c.findings[m..][i - m];
      forall j | 0 <= j < m && c.findings[j].status == OPEN ensures c.findings[j].item.findingId !in IdsOf(items) {
        assert !OpenAmong(IdsOf(items)).Fits(c.findings[j]);
      }
    }
  }

  /**
   A recheck looks its record up by identity alone: it goes to the first open record with the active
   identity, which is the repaired one exactly when no earlier open record shares that identity.
   */
  lemma RecheckGoesToFirstOpen(c: Control, repaired: nat, rechecked: nat, origin: Exchange, resolved: bool)
    requires Enabled(c, Rechecked(rechecked, origin, resolved))
    requires repaired < |c.findings| && OpenWithId(c.active.value).Fits(c.findings[repaired])
    ensures rechecked <= repaired && c.findings[rechecked].item.findingId == c.findings[repaired].item.findingId
    ensures rechecked == repaired <==>
            forall m :: 0 <= m < repaired && c.findings[m].status == OPEN ==>
                          c.findings[m].item.findingId != c.findings[repaired].item.findingId
  {
    if rechecked < repaired {
      assert c.findings[rechecked].status == OPEN;
    } else {
      assert forall m :: 0 <= m < repaired ==> !OpenWithId(c.active.value).Fits(c.findings[m]);
    }
  }
}
