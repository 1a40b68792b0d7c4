/**
 Repair tickets are created once: selecting a record for repair writes the ticket of its identity and
 its own exchange, and fails when a review has written that ticket before.  The main result says
 which records can still be selected in some continuation of a run.
 */
module RepairTickets {
  import opened Options
  import opened ControllerMachine
  import opened Histories

  function TicketMade(ev: Event): Option<Ticket> {
    match ev
    case Selected(_, b) => Some(TicketOf(b))
    case ReviewFailed(_, _, b) => Some(TicketOf(b))
    case _ => None
  }

  predicate MadeAt(h: seq<Event>, k: nat, t: Ticket) { k < |h| && TicketMade(h[k]) == Some(t) }

  /** The tickets on disk are those that some selection or some failed review wrote. */
  lemma {:induction false} TicketsAreMade(h: seq<Event>, t: Ticket)
    requires Legal(h)
    ensures t in Run(h).tickets <==> exists k: nat :: MadeAt(h, k, t)
  {
    if h != [] {
      var before, ev := h[..|h| - 1], h[|h| - 1];
      assert h == before + [ev];
      Step(before, ev);
      TicketsAreMade(before, t);
      if exists k: nat :: MadeAt(before, k, t) {
        var k: nat :| MadeAt(before, k, t);
        assert MadeAt(h, k, t);
      }
      if TicketMade(ev) == Some(t) { assert MadeAt(h, |before|, t); }
      if exists k: nat :: MadeAt(h, k, t) {
        var k: nat :| MadeAt(h, k, t);
        assert k < |before| ==> MadeAt(before, k, t);
      }
    }
  }

  /** No ticket is written twice in a run. */
  lemma TicketsOnce(h: seq<Event>, j: nat, k: nat, t: Ticket)
    requires Legal(h) && MadeAt(h, j, t) && MadeAt(h, k, t)
    ensures j == k
  {
    if j != k {
      var first, second := if j < k then j else k, if j < k then k else j;
      assert EnabledAt(h, second);
      Prefix(h, second);
      assert MadeAt(h[..second], first, t);
      TicketsAreMade(h[..second], t);
      assert false;
    }
  }

  lemma TicketsStay(h: seq<Event>, k: nat)
    requires Legal(h) && k <= |h|
    ensures Run(h[..k]).tickets <= Run(h).tickets
  {
    Prefix(h, k);
    forall t | t in Run(h[..k]).tickets ensures t in Run(h).tickets {
      TicketsAreMade(h[..k], t);
      var j: nat :| MadeAt(h[..k], j, t);
      assert MadeAt(h, j, t);
      TicketsAreMade(h, t);
    }
  }

  lemma {:induction false} LegalIsReached(h: seq<Event>)
    requires Legal(h)
    ensures Reached(h, Run(h))
  {
    if h == [] {
      Start();
    } else {
      var before, ev := h[..|h| - 1], h[|h| - 1];
      assert h == before + [ev];
      Step(before, ev);
      LegalIsReached(before);
      ReachedStep(before, Run(before), ev);
    }
  }

  // ---------------------------------------------------------------------------
  // Which records can be selected
  // ---------------------------------------------------------------------------

  /** In some continuation of the run this record is selected for repair. */
  ghost predicate CanBeSelected(h: seq<Event>, i: nat) { exists g, b :: Legal(h + g + [Selected(i, b)]) }

  /** Open, never repaired, and nothing has written the ticket of its identity and its own exchange. */
  predicate Selectable(c: Control, i: nat) {
    && i < |c.findings| && c.findings[i].status == OPEN && c.findings[i].repairCycles == 0
    && OwnTicket(c.findings[i]) !in c.tickets
  }

  lemma SelectedWasSelectable(h: seq<Event>, g: seq<Event>, i: nat, b: Binding)
    requires Legal(h + g + [Selected(i, b)]) && i < |Run(h).findings|
    ensures Selectable(Run(h), i)
  {
    var more := h + g;
    Step(more, Selected(i, b));
    assert more[..|h|] == h;
    NeverReopens(more, |h|);
    TicketsStay(more, |h|);
  }

  /** A string that is longer than the ask of every ticket. */
  lemma {:induction false} FreshAsk(ts: set<Ticket>) returns (ask: Id)
    ensures forall t :: t in ts ==> |t.askId| < |ask|
  {
    if ts == {} {
      ask := "";
    } else {
      var t :| t in ts;
      var shorter := FreshAsk(ts - {t});
      ask := shorter + t.askId + "a";
      forall u | u in ts ensures |u.askId| < |ask| { assert u == t || u in ts - {t}; }
    }
  }

  lemma {:induction false} FreshIdentity(fs: seq<Finding>) returns (id: Id)
    ensures forall f :: f in fs ==> |f.item.findingId| < |id|
  {
    if fs == [] {
      id := "";
    } else {
      var shorter := FreshIdentity(fs[1..]);
      id := shorter + fs[0].item.findingId + "a";
      forall f | f in fs ensures |f.item.findingId| < |id| { assert f == fs[0] || f in fs[1..]; }
    }
  }

  /** A finding with this identity, and an exchange through which a record of it can be bound. */
  lemma Reviewable(id: Id, f: Finding, ask: Id) returns (item: Item, b: Binding)
    requires HasCriterion(f) && f.item.findingId == id
    ensures item.findingId == id && FailItems([item], b.source) && b.findingId == id && b.source.askId == ask
    ensures BindsRecord(b, f) && BindsRecord(b, Reported(item, b.source))
  {
    var invariantRef := if f.item.invariantRef.Some? then f.item.invariantRef.value else "invariant1";
    var criterion := if f.item.invariantRef.Some? then "se_1" else f.item.lockedRef.value;
    item := Item(id, FINDING, true, Some(invariantRef), None);
    b := Binding(id, "lcim_repair", Exchange(ask, "response", map[invariantRef := criterion]), criterion);
    assert item in [item];
    FailAnswerItems([item], [], b.source);
    assert [item] + [] == [item];
  }

  /** One more review of an identity, over a new exchange, and a recheck that closes its first open record. */
  lemma ReviewAndClose(h: seq<Event>, c: Control, item: Item, b: Binding, m: nat) returns (g: seq<Event>, d: Control)
    requires Reached(h, c) && c.phase == Idle && c.recording == 0
    requires FailItems([item], b.source) && b.findingId == item.findingId && TicketOf(b) !in c.tickets
    requires var fs := c.findings + [Reported(item, b.source)];
             m < |fs| && OpenWithId(item.findingId).Fits(fs[m]) && (forall j :: 0 <= j < m ==> !OpenWithId(item.findingId).Fits(fs[j]))
             && BindsRecord(b, fs[m])
    ensures Reached(h + g, d) && d.phase == Idle && d.recording == 0 && d.active.None?
    ensures var fs := c.findings + [Reported(item, b.source)]; d.findings == fs[m := ClosedBy(fs[m])]
    ensures d.tickets == c.tickets + {TicketOf(b)}
  {
    var fs := c.findings + [Reported(item, b.source)];
    assert Fresh([item], b.source) == [Reported(item, b.source)] && IdsOf([item]) == [item.findingId];
    FirstIs(fs, OpenAmong([item.findingId]), m);
    FirstIs(fs, OpenWithId(item.findingId), m);
    FailedReviewRun(h, c, [item], m, b);
    var c1 := AfterFailed(c, [item], b);
    ResolvedRecheckRun(h + FailedReview([item], m, b), c1, m);
    d := AfterRecheck(c1, m);
    g := FailedReview([item], m, b) + ResolvedRecheck(m, fs[m].origin);
    assert h + g == h + FailedReview([item], m, b) + ResolvedRecheck(m, fs[m].origin);
  }

  /** Between two steps, with this record selectable and every record bindable. */
  ghost predicate Ready(h: seq<Event>, c: Control, i: nat) {
    && Reached(h, c) && c.phase == Idle && c.recording == 0 && Selectable(c, i)
    && forall f :: f in c.findings ==> HasCriterion(f)
  }

  ghost predicate ClosedBelow(c: Control, n: nat) { forall j :: 0 <= j < n && j < |c.findings| ==> c.findings[j].status == CLOSED }

  /** A new review of the first open record, or of a new identity, closes that record and releases the run. */
  lemma CloseOne(h: seq<Event>, c: Control, i: nat, m: nat, id: Id, sample: Finding) returns (g: seq<Event>, d: Control)
    requires Ready(h, c, i) && m != i && m <= |c.findings| && HasCriterion(sample) && sample.item.findingId == id
    requires m < |c.findings| ==> sample == c.findings[m] && sample.status == OPEN
    requires forall j :: 0 <= j < m ==> !OpenWithId(id).Fits(c.findings[j])
    ensures Ready(h + g, d, i) && d.active.None?
    ensures |d.findings| == |c.findings| + 1
    ensures forall j :: 0 <= j < |c.findings| && j != m ==> d.findings[j] == c.findings[j]
    ensures m < |c.findings| ==> d.findings[m].status == CLOSED
  {
    var own := OwnTicket(c.findings[i]);
    var ask := FreshAsk(c.tickets + {own});
    assert own in c.tickets + {own};
    var item, b := Reviewable(id, sample, ask);
    assert TicketOf(b) !in c.tickets + {own};
    g, d := ReviewAndClose(h, c, item, b, m);
    forall f | f in d.findings ensures HasCriterion(f) {
      var j: nat :| j < |d.findings| && d.findings[j] == f;
      if j < |c.findings| { assert HasCriterion(c.findings[j]); }
    }
  }

  /** Nothing is active: at once, or after a review of an identity that no record has. */
  lemma Release(h: seq<Event>, c: Control, i: nat) returns (g: seq<Event>, d: Control)
    requires Ready(h, c, i)
    ensures Ready(h + g, d, i) && d.active.None?
  {
    if c.active.None? {
      g, d := [], c;
      assert h + g == h;
    } else {
      var id := FreshIdentity(c.findings);
      g, d := CloseOne(h, c, i, |c.findings|, id, Reported(Failing(id), FIRST_REVIEW));
    }
  }

  /** The open records before this one are closed, one after the other. */
  lemma {:induction false} CloseBelow(h: seq<Event>, c: Control, i: nat, n: nat) returns (g: seq<Event>, d: Control)
    requires Ready(h, c, i) && c.active.None? && n <= i && ClosedBelow(c, n)
    ensures Ready(h + g, d, i) && d.active.None? && ClosedBelow(d, i)
    decreases i - n
  {
    g, d := [], c;
    assert h + g == h;
    if n < i {
      if c.findings[n].status == OPEN {
        assert c.findings[n] in c.findings;
        g, d := CloseOne(h, c, i, n, c.findings[n].item.findingId, c.findings[n]);
      }
      var more;
      more, d := CloseBelow(h + g, d, i, n + 1);
      assert h + g + more == h + (g + more);
      g := g + more;
    }
  }

  lemma SelectNow(h: seq<Event>, c: Control, i: nat) returns (b: Binding)
    requires Ready(h, c, i) && c.active.None? && ClosedBelow(c, i)
    ensures Legal(h + [Routed(REPAIR)] + [Selected(i, b)])
  {
    var f := c.findings[i];
    assert HasCriterion(f);
    b := Binding(f.item.findingId, "lcim_repair", f.origin, Criterion(f.origin, f.item).value);
    var c1 := Apply(c, Routed(REPAIR));
    Extend(h, c, Routed(REPAIR), c1);
    FirstIs(c.findings, Unrepaired, i);
    Extend(h + [Routed(REPAIR)], c1, Selected(i, b), Apply(c1, Selected(i, b)));
    ReachedMeansRun(h + [Routed(REPAIR)] + [Selected(i, b)], Apply(c1, Selected(i, b)));
  }

  lemma ReadyCanBe(h: seq<Event>, c: Control, i: nat) returns (g: seq<Event>, b: Binding)
    requires Ready(h, c, i)
    ensures Legal(h + g + [Selected(i, b)])
  {
    var g1, c1 := Release(h, c, i);
    var g2, c2 := CloseBelow(h + g1, c1, i, 0);
    b := SelectNow(h + g1 + g2, c2, i);
    g := g1 + g2 + [Routed(REPAIR)];
    assert h + g + [Selected(i, b)] == h + g1 + g2 + [Routed(REPAIR)] + [Selected(i, b)];
  }

  lemma SelectableCanBe(h: seq<Event>, i: nat)
    requires Legal(h) && Run(h).phase == Idle && Selectable(Run(h), i)
    ensures CanBeSelected(h, i)
  {
    LegalIsReached(h);
    CriteriaAlwaysHold(h);
    var g, b := ReadyCanBe(h, Run(h), i);
  }

  /**
   Between two steps of any run, a record can still be selected for repair exactly when it is open,
   was never repaired, and no ticket of its identity and its own exchange exists.
   */
  lemma CanBeSelectedIff(h: seq<Event>, i: nat)
    requires Legal(h) && Run(h).phase == Idle && i < |Run(h).findings|
    ensures CanBeSelected(h, i) <==> Selectable(Run(h), i)
  {
    if CanBeSelected(h, i) {
      var g, b :| Legal(h + g + [Selected(i, b)]);
      SelectedWasSelectable(h, g, i, b);
    }
    if Selectable(Run(h), i) { SelectableCanBe(h, i); }
  }

  /**
   A failed review that bound a record of some identity to its exchange: no record of that identity
   which comes from that exchange is ever selected afterwards, the review's own record least of all.
   */
  lemma BoundByReviewIsNeverSelected(h: seq<Event>, k: nat, i: nat)
    requires Legal(h) && k < |h| && h[k].ReviewFailed? && i < |Run(h).findings|
    requires OwnTicket(Run(h).findings[i]) == TicketOf(h[k].bound)
    ensures !CanBeSelected(h, i)
  {
    assert MadeAt(h, k, TicketOf(h[k].bound));
    TicketsAreMade(h, TicketOf(h[k].bound));
    if CanBeSelected(h, i) {
      var g, b :| Legal(h + g + [Selected(i, b)]);
      SelectedWasSelectable(h, g, i, b);
    }
  }

  /**
   After two reviews of one defect the second review's own record of it can never be selected, although
   it is open and was never repaired; nor can the finding of the first review, whose binding was
   displaced. The first review's record of the defect still can.
   */
  lemma RepeatedDefectIsNeverSelected()
    ensures Legal(REPORTED_TWICE) && |Run(REPORTED_TWICE).findings| == 4
    ensures forall f :: f in Run(REPORTED_TWICE).findings ==> f.status == OPEN && f.repairCycles == 0
    ensures !CanBeSelected(REPORTED_TWICE, 3) && !CanBeSelected(REPORTED_TWICE, 0)
    ensures CanBeSelected(REPORTED_TWICE, 1) && CanBeSelected(REPORTED_TWICE, 2)
  {
    RepeatedDefectBindsAnotherExchange();
    NamesDiffer();
    var h, fs := REPORTED_TWICE, Run(REPORTED_TWICE).findings;
    assert fs[0] == Reported(FIRST_ITEMS[0], FIRST_REVIEW) && fs[1] == Reported(DEFECT, FIRST_REVIEW);
    assert fs[2] == Reported(SECOND_ITEMS[0], SECOND_REVIEW) && fs[3] == Reported(DEFECT, SECOND_REVIEW);
    assert "ask1"[3] == '1' && "ask2"[3] == '2';
    CanBeSelectedIff(h, 0);
    CanBeSelectedIff(h, 1);
    CanBeSelectedIff(h, 2);
    CanBeSelectedIff(h, 3);
  }
}
