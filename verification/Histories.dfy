/**
 Runs of the controller built one loop step at a time, and the runs that show what a repeated identity
 and a diagnosis can do.  The router decides freely here; every answer is one that its contract admits.
 */
module Histories {
  import opened Options
  import opened ControllerMachine

  // ---------------------------------------------------------------------------
  // Loop steps
  // ---------------------------------------------------------------------------

  lemma Start()
    ensures Reached([], INITIAL)
  {
    assert IsTrail([INITIAL], []);
  }

  /** What one more event makes of a reached history. */
  lemma Extend(h: seq<Event>, c: Control, ev: Event, d: Control)
    requires Reached(h, c) && Enabled(c, ev) && d == Apply(c, ev)
    ensures Reached(h + [ev], d)
  {
    ReachedStep(h, c, ev);
  }

  function Reported(item: Item, origin: Exchange): Finding { Finding(item, OPEN, 0, 0, origin) }

  function Cycled(f: Finding): Finding { f.(repairCycles := f.repairCycles + 1) }

  function ClosedBy(f: Finding): Finding { f.(rechecks := f.rechecks + 1, status := CLOSED) }

  /** The events that record some items. */
  function Recordings(items: seq<Item>, origin: Exchange): seq<Event> {
    if items == [] then [] else Recordings(items[..|items| - 1], origin) + [Recorded(items[|items| - 1], origin)]
  }

  /** A final review that fails, from its route to its binding. */
  function FailedReview(items: seq<Item>, record: nat, b: Binding): seq<Event> {
    [Routed(FINAL_REVIEW)] + Recordings(items, b.source) + [ReviewFailed(items, record, b)]
  }

  function BoundRepair(record: nat): seq<Event> { [Routed(REPAIR), Dispatched(record), WorkerReturned(true)] }

  function SelectedRepair(record: nat, b: Binding): seq<Event> {
    [Routed(REPAIR), Selected(record, b), Dispatched(record), WorkerReturned(true)]
  }

  function ResolvedRecheck(record: nat, origin: Exchange): seq<Event> {
    [Routed(RECHECK), Rechecked(record, origin, true), Settled(true)]
  }

  lemma {:induction false} RecordingsRun(h: seq<Event>, c: Control, items: seq<Item>, origin: Exchange) returns (d: Control)
    requires Reached(h, c) && c.phase == Awaiting && c.At(FINAL_REVIEW)
    ensures Reached(h + Recordings(items, origin), d)
    ensures d == c.(findings := c.findings + Fresh(items, origin), recording := c.recording + |items|)
  {
    if items == [] {
      d := c;
      assert h + [] == h && c.findings + Fresh(items, origin) == c.findings;
    } else {
      var init, item := items[..|items| - 1], items[|items| - 1];
      var c1 := RecordingsRun(h, c, init, origin);
      d := Apply(c1, Recorded(item, origin));
      Extend(h + Recordings(init, origin), c1, Recorded(item, origin), d);
      assert h + Recordings(init, origin) + [Recorded(item, origin)] == h + Recordings(items, origin);
      assert c.findings + Fresh(init, origin) + [Reported(item, origin)] == c.findings + Fresh(items, origin);
    }
  }

  /** The variables after a failed review. */
  function AfterFailed(c: Control, items: seq<Item>, b: Binding): Control {
    c.(routes := c.routes + [FINAL_REVIEW], findings := c.findings + Fresh(items, b.source), active := Some(b.findingId),
       binding := Some(b), contract := Some(b.repairId), resultAccepted := false, tickets := c.tickets + {TicketOf(b)})
  }

  lemma FailedReviewRun(h: seq<Event>, c: Control, items: seq<Item>, record: nat, b: Binding)
    requires Reached(h, c) && c.phase == Idle && c.recording == 0
    requires FailItems(items, b.source) && TicketOf(b) !in c.tickets
    requires var fs := c.findings + Fresh(items, b.source);
             FindFirst(fs, OpenAmong(IdsOf(items))) == Some(record) && BindsRecord(b, fs[record])
    ensures Reached(h + FailedReview(items, record, b), AfterFailed(c, items, b))
  {
    var c1 := Apply(c, Routed(FINAL_REVIEW));
    Extend(h, c, Routed(FINAL_REVIEW), c1);
    var c2 := RecordingsRun(h + [Routed(FINAL_REVIEW)], c1, items, b.source);
    var ev := ReviewFailed(items, record, b);
    assert c2.findings[|c2.findings| - |items|..] == Fresh(items, b.source);
    Extend(h + [Routed(FINAL_REVIEW)] + Recordings(items, b.source), c2, ev, Apply(c2, ev));
    assert h + [Routed(FINAL_REVIEW)] + Recordings(items, b.source) + [ev] == h + FailedReview(items, record, b);
  }

  function AfterRepair(c: Control, record: nat): Control
    requires record < |c.findings|
  {
    c.(routes := c.routes + [REPAIR], findings := c.findings[record := Cycled(c.findings[record])],
       dispatched := c.dispatched + 1, resultAccepted := true)
  }

  /** A repair of the bound record. */
  lemma BoundRepairRun(h: seq<Event>, c: Control, i: nat)
    requires Reached(h, c) && c.phase == Idle && RepairGuard(c) && FindFirst(c.findings, OpenWithId(c.active.value)) == Some(i)
    ensures Reached(h + BoundRepair(i), AfterRepair(c, i))
  {
    var c1 := Apply(c, Routed(REPAIR));
    Extend(h, c, Routed(REPAIR), c1);
    var c2 := Apply(c1, Dispatched(i));
    Extend(h + [Routed(REPAIR)], c1, Dispatched(i), c2);
    Extend(h + [Routed(REPAIR)] + [Dispatched(i)], c2, WorkerReturned(true), AfterRepair(c, i));
    assert h + [Routed(REPAIR)] + [Dispatched(i)] + [WorkerReturned(true)] == h + BoundRepair(i);
  }

  function AfterSelected(c: Control, record: nat, b: Binding): Control
    requires record < |c.findings|
  {
    AfterRepair(c, record).(active := Some(b.findingId), binding := Some(b), contract := Some(b.repairId),
                            tickets := c.tickets + {TicketOf(b)})
  }

  /** A repair of the first record that was never repaired. */
  lemma SelectedRepairRun(h: seq<Event>, c: Control, i: nat, b: Binding)
    requires Reached(h, c) && c.phase == Idle && c.active.None? && FindFirst(c.findings, Unrepaired) == Some(i)
    requires BindsRecord(b, c.findings[i]) && b.source == c.findings[i].origin && TicketOf(b) !in c.tickets
    ensures Reached(h + SelectedRepair(i, b), AfterSelected(c, i, b))
  {
    var c1 := Apply(c, Routed(REPAIR));
    Extend(h, c, Routed(REPAIR), c1);
    var c2 := Apply(c1, Selected(i, b));
    Extend(h + [Routed(REPAIR)], c1, Selected(i, b), c2);
    var c3 := Apply(c2, Dispatched(i));
    Extend(h + [Routed(REPAIR)] + [Selected(i, b)], c2, Dispatched(i), c3);
    Extend(h + [Routed(REPAIR)] + [Selected(i, b)] + [Dispatched(i)], c3, WorkerReturned(true), AfterSelected(c, i, b));
    assert h + [Routed(REPAIR)] + [Selected(i, b)] + [Dispatched(i)] + [WorkerReturned(true)] == h + SelectedRepair(i, b);
  }

  function AfterRecheck(c: Control, record: nat): Control
    requires record < |c.findings|
  {
    c.(routes := c.routes + [RECHECK], findings := c.findings[record := ClosedBy(c.findings[record])],
       active := None, binding := None, contract := None, resultAccepted := true)
  }

  /** A recheck that resolves the first open record of the active identity. */
  lemma ResolvedRecheckRun(h: seq<Event>, c: Control, i: nat)
    requires Reached(h, c) && c.phase == Idle && c.active.Some?
    requires FindFirst(c.findings, OpenWithId(c.active.value)) == Some(i)
    ensures Reached(h + ResolvedRecheck(i, c.findings[i].origin), AfterRecheck(c, i))
  {
    var ev := Rechecked(i, c.findings[i].origin, true);
    var c1 := Apply(c, Routed(RECHECK));
    Extend(h, c, Routed(RECHECK), c1);
    var c2 := Apply(c1, ev);
    Extend(h + [Routed(RECHECK)], c1, ev, c2);
    Extend(h + [Routed(RECHECK)] + [ev], c2, Settled(true), AfterRecheck(c, i));
    assert h + [Routed(RECHECK)] + [ev] + [Settled(true)] == h + ResolvedRecheck(i, c.findings[i].origin);
  }

  lemma FirstIs(fs: seq<Finding>, p: Sought, i: nat)
    requires i < |fs| && p.Fits(fs[i]) && forall j :: 0 <= j < i ==> !p.Fits(fs[j])
    ensures FindFirst(fs, p) == Some(i)
  {}

  // ---------------------------------------------------------------------------
  // Runs
  // ---------------------------------------------------------------------------

  const CHECKLIST: map<Id, Id> := map["invariant1" := "se_1"]
  const FIRST_REVIEW := Exchange("ask1", "response1", CHECKLIST)
  const SECOND_REVIEW := Exchange("ask2", "response2", CHECKLIST)
  const THIRD_REVIEW := Exchange("ask3", "response3", CHECKLIST)

  /** A critical finding on the invariant of the checklist. */
  function Failing(id: Id): Item { Item(id, FINDING, true, Some("invariant1"), None) }

  const DEFECT := Item("lcim_finding_d", ADJACENT_CRITICAL_DEFECT, true, None, Some("se_1"))
  const FIRST_ITEMS: seq<Item> := [Failing("lcim_finding_f"), DEFECT]
  const SECOND_ITEMS: seq<Item> := [Failing("lcim_finding_g"), DEFECT]

  const BOUND_FINDING := Binding("lcim_finding_f", "lcim_repair_1", FIRST_REVIEW, "se_1")
  const BOUND_DEFECT := Binding("lcim_finding_d", "lcim_repair_2", SECOND_REVIEW, "se_1")

  /** Two failed reviews, each with a finding of its own, that report the same adjacent defect. */
  const REPORTED_TWICE: seq<Event> := FailedReview(FIRST_ITEMS, 0, BOUND_FINDING) + FailedReview(SECOND_ITEMS, 1, BOUND_DEFECT)

  /**
   An adjacent defect is identified by its content, so two reviews can record it twice; the second
   review then binds the first review's record of it to the second review's exchange.
   */
  lemma RepeatedDefectBindsAnotherExchange()
    ensures Legal(REPORTED_TWICE)
    ensures var c := Run(REPORTED_TWICE);
            && c.findings == Fresh(FIRST_ITEMS, FIRST_REVIEW) + Fresh(SECOND_ITEMS, SECOND_REVIEW)
            && c.binding == Some(BOUND_DEFECT) && c.active == Some(c.findings[1].item.findingId)
            && c.findings[1].origin == FIRST_REVIEW && c.binding.value.source == SECOND_REVIEW
            && c.phase == Idle && c.tickets == {TicketOf(BOUND_FINDING), TicketOf(BOUND_DEFECT)}
  {
    var c := FirstOfTwo();
    var all := c.findings + Fresh(SECOND_ITEMS, SECOND_REVIEW);
    assert IdsOf(SECOND_ITEMS) == ["lcim_finding_g", "lcim_finding_d"];
    NamesDiffer();
    ItemsFail();
    FirstIs(all, OpenAmong(IdsOf(SECOND_ITEMS)), 1);
    FailedReviewRun(FailedReview(FIRST_ITEMS, 0, BOUND_FINDING), c, SECOND_ITEMS, 1, BOUND_DEFECT);
    ReachedMeansRun(REPORTED_TWICE, AfterFailed(c, SECOND_ITEMS, BOUND_DEFECT));
  }

  lemma FirstOfTwo() returns (c: Control)
    ensures Reached(FailedReview(FIRST_ITEMS, 0, BOUND_FINDING), c) && c == AfterFailed(INITIAL, FIRST_ITEMS, BOUND_FINDING)
    ensures c.findings == [Reported(FIRST_ITEMS[0], FIRST_REVIEW), Reported(DEFECT, FIRST_REVIEW)]
  {
    Start();
    ItemsFail();
    var first := Fresh(FIRST_ITEMS, FIRST_REVIEW);
    assert INITIAL.findings + first == first;
    assert IdsOf(FIRST_ITEMS) == ["lcim_finding_f", "lcim_finding_d"];
    FirstIs(first, OpenAmong(IdsOf(FIRST_ITEMS)), 0);
    FailedReviewRun([], INITIAL, FIRST_ITEMS, 0, BOUND_FINDING);
    c := AfterFailed(INITIAL, FIRST_ITEMS, BOUND_FINDING);
    assert [] + FailedReview(FIRST_ITEMS, 0, BOUND_FINDING) == FailedReview(FIRST_ITEMS, 0, BOUND_FINDING);
  }

  lemma NamesDiffer()
    ensures "lcim_finding_f" != "lcim_finding_d" && "lcim_finding_f" != "lcim_finding_g" && "lcim_finding_d" != "lcim_finding_g"
  {
    assert "lcim_finding_f"[13] == 'f' && "lcim_finding_d"[13] == 'd' && "lcim_finding_g"[13] == 'g';
  }

  lemma ItemsFail()
    ensures FailItems(FIRST_ITEMS, FIRST_REVIEW) && FailItems(SECOND_ITEMS, SECOND_REVIEW)
  {
    FailAnswerItems([Failing("lcim_finding_f")], [DEFECT], FIRST_REVIEW);
    FailAnswerItems([Failing("lcim_finding_g")], [DEFECT], SECOND_REVIEW);
  }

  const F := Failing("lcim_finding_f")
  const G := Failing("lcim_finding_g")

  const G_BY_FIRST := Binding("lcim_finding_g", "lcim_repair_1", FIRST_REVIEW, "se_1")
  const F_BY_SECOND := Binding("lcim_finding_f", "lcim_repair_2", SECOND_REVIEW, "se_1")
  const G_BY_THIRD := Binding("lcim_finding_g", "lcim_repair_3", THIRD_REVIEW, "se_1")
  const F_BY_THIRD := Binding("lcim_finding_f", "lcim_repair_4", THIRD_REVIEW, "se_1")

  /** Three failed reviews, of G, of F, and of both again; F is repaired after the second. */
  const REPEATED_FINDINGS: seq<Event> :=
    FailedReview([G], 0, G_BY_FIRST) + FailedReview([F], 1, F_BY_SECOND) + BoundRepair(1) + FailedReview([F, G], 0, G_BY_THIRD)
    + ResolvedRecheck(0, FIRST_REVIEW)

  /** Then the second record of F is repaired, and a recheck is resolved. */
  const CLOSES_ANOTHER: seq<Event> := REPEATED_FINDINGS + SelectedRepair(2, F_BY_THIRD) + ResolvedRecheck(1, SECOND_REVIEW)

  lemma SingleFails(item: Item, origin: Exchange)
    requires item == F || item == G
    requires origin.checklist == CHECKLIST
    ensures FailItems([item], origin) && IdsOf([item]) == [item.findingId] && Fresh([item], origin) == [Reported(item, origin)]
  {
    assert item in [item];
    FailAnswerItems([item], [], origin);
    assert [item] + [] == [item];
  }

  lemma BothFail()
    ensures FailItems([F, G], THIRD_REVIEW) && IdsOf([F, G]) == ["lcim_finding_f", "lcim_finding_g"]
    ensures Fresh([F, G], THIRD_REVIEW) == [Reported(F, THIRD_REVIEW), Reported(G, THIRD_REVIEW)]
  {
    assert F in [F, G];
    FailAnswerItems([F, G], [], THIRD_REVIEW);
    assert [F, G] + [] == [F, G];
  }

  /** The variables when every review of the run has been made and the first record of G is closed. */
  ghost predicate Repeated(c: Control) {
    && c.findings == [ClosedBy(Reported(G, FIRST_REVIEW)), Cycled(Reported(F, SECOND_REVIEW)), Reported(F, THIRD_REVIEW), Reported(G, THIRD_REVIEW)]
    && c.active.None? && c.phase == Idle && c.recording == 0
    && c.tickets == {TicketOf(G_BY_FIRST), TicketOf(F_BY_SECOND), TicketOf(G_BY_THIRD)}
  }

  lemma TwoReviews() returns (c: Control)
    ensures Reached(FailedReview([G], 0, G_BY_FIRST) + FailedReview([F], 1, F_BY_SECOND) + BoundRepair(1), c)
    ensures c.findings == [Reported(G, FIRST_REVIEW), Cycled(Reported(F, SECOND_REVIEW))] && c.phase == Idle && c.recording == 0
    ensures c.tickets == {TicketOf(G_BY_FIRST), TicketOf(F_BY_SECOND)}
  {
    Start();
    NamesDiffer();
    SingleFails(G, FIRST_REVIEW);
    SingleFails(F, SECOND_REVIEW);
    var r0, r1 := Reported(G, FIRST_REVIEW), Reported(F, SECOND_REVIEW);
    assert INITIAL.findings + [r0] == [r0];
    FirstIs([r0], OpenAmong(["lcim_finding_g"]), 0);
    FailedReviewRun([], INITIAL, [G], 0, G_BY_FIRST);
    var h := FailedReview([G], 0, G_BY_FIRST);
    assert [] + h == h;
    c := AfterFailed(INITIAL, [G], G_BY_FIRST);
    assert c.findings + [r1] == [r0, r1];
    FirstIs([r0, r1], OpenAmong(["lcim_finding_f"]), 1);
    FailedReviewRun(h, c, [F], 1, F_BY_SECOND);
    c := AfterFailed(c, [F], F_BY_SECOND);
    FirstIs([r0, r1], OpenWithId("lcim_finding_f"), 1);
    BoundRepairRun(h + FailedReview([F], 1, F_BY_SECOND), c, 1);
    c := AfterRepair(c, 1);
  }

  lemma ThirdReview() returns (c: Control)
    ensures Reached(REPEATED_FINDINGS, c) && Repeated(c)
  {
    c := TwoReviews();
    var h := FailedReview([G], 0, G_BY_FIRST) + FailedReview([F], 1, F_BY_SECOND) + BoundRepair(1);
    NamesDiffer();
    BothFail();
    var fs := [Reported(G, FIRST_REVIEW), Cycled(Reported(F, SECOND_REVIEW)), Reported(F, THIRD_REVIEW), Reported(G, THIRD_REVIEW)];
    assert c.findings + Fresh([F, G], THIRD_REVIEW) == fs;
    FirstIs(fs, OpenAmong(["lcim_finding_f", "lcim_finding_g"]), 0);
    FailedReviewRun(h, c, [F, G], 0, G_BY_THIRD);
    c := AfterFailed(c, [F, G], G_BY_THIRD);
    FirstIs(fs, OpenWithId("lcim_finding_g"), 0);
    ResolvedRecheckRun(h + FailedReview([F, G], 0, G_BY_THIRD), c, 0);
    c := AfterRecheck(c, 0);
  }

  /**
   A run that repairs one record and closes another: the earlier open record of the same identity has
   been repaired before, so the selection passes it over, and the recheck does not.
   */
  lemma RepairedAndRecheckedDiffer()
    ensures Legal(CLOSES_ANOTHER)
    ensures var fs := Run(CLOSES_ANOTHER).findings;
            && |fs| == 4 && fs[1].item.findingId == fs[2].item.findingId
            && fs[1].status == CLOSED && fs[2].status == OPEN && fs[2].repairCycles == 1 && fs[2].rechecks == 0
            && Run(CLOSES_ANOTHER).active.None?
  {
    var c := ThirdReview();
    NamesDiffer();
    FirstIs(c.findings, Unrepaired, 2);
    SelectedRepairRun(REPEATED_FINDINGS, c, 2, F_BY_THIRD);
    c := AfterSelected(c, 2, F_BY_THIRD);
    FirstIs(c.findings, OpenWithId("lcim_finding_f"), 1);
    ResolvedRecheckRun(REPEATED_FINDINGS + SelectedRepair(2, F_BY_THIRD), c, 1);
    ReachedMeansRun(CLOSES_ANOTHER, AfterRecheck(c, 1));
  }

  /** A failed review, a diagnosis with a repair of its own, and a repair route. */
  const DIAGNOSED: seq<Event> :=
    FailedReview([G], 0, G_BY_FIRST) + [Routed(DIAGNOSE), Diagnosed("lcim_repair_2"), Routed(REPAIR)]

  /** It happens: the active finding is open and bound, and the guard refuses every dispatch. */
  lemma DiagnosisStopsTheRepair()
    ensures Legal(DIAGNOSED)
    ensures var c := Run(DIAGNOSED);
            && c.phase == Awaiting && c.At(REPAIR) && c.binding == Some(G_BY_FIRST)
            && |c.findings| == 1 && c.active == Some(c.findings[0].item.findingId) && c.findings[0].status == OPEN
            && !RepairGuard(c) && forall i :: !Enabled(c, Dispatched(i))
  {
    Start();
    SingleFails(G, FIRST_REVIEW);
    assert INITIAL.findings + [Reported(G, FIRST_REVIEW)] == [Reported(G, FIRST_REVIEW)];
    FirstIs([Reported(G, FIRST_REVIEW)], OpenAmong(["lcim_finding_g"]), 0);
    FailedReviewRun([], INITIAL, [G], 0, G_BY_FIRST);
    var h := FailedReview([G], 0, G_BY_FIRST);
    assert [] + h == h;
    var c := AfterFailed(INITIAL, [G], G_BY_FIRST);
    var c1 := Apply(c, Routed(DIAGNOSE));
    Extend(h, c, Routed(DIAGNOSE), c1);
    var c2 := Apply(c1, Diagnosed("lcim_repair_2"));
    Extend(h + [Routed(DIAGNOSE)], c1, Diagnosed("lcim_repair_2"), c2);
    var c3 := Apply(c2, Routed(REPAIR));
    Extend(h + [Routed(DIAGNOSE)] + [Diagnosed("lcim_repair_2")], c2, Routed(REPAIR), c3);
    assert h + [Routed(DIAGNOSE)] + [Diagnosed("lcim_repair_2")] + [Routed(REPAIR)] == DIAGNOSED;
    ReachedMeansRun(DIAGNOSED, c3);
    RepairIdsDiffer();
  }

  lemma RepairIdsDiffer()
    ensures "lcim_repair_1" != "lcim_repair_2"
  {
    assert "lcim_repair_1"[12] == '1';
  }
}
