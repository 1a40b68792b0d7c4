/**
 The run store: the only writer of the ledger.  Every awaited operation of the controller takes
 one tick; `throws(t)` says whether the operation at tick t throws, and `lands(t)` whether a
 throwing append had already reached the file (the projection refresh comes after the write).
 Both are arbitrary, so every theorem holds for an exception at any await.
 */
module RunStores {
  import opened Options
  import opened Ledger

  /** What the orphan sweep may add: reconciliations of open invocations, each with the reason of its state. */
  ghost predicate SweptFrom(before: seq<Event>, after: seq<Event>) {
    && before <= after
    && forall k: nat :: |before| <= k < |after| ==> SweepEvent(after[..k], after[k])
  }

  ghost predicate SweepEvent(prefix: seq<Event>, ev: Event) {
    && ev.Reconciliation? && ev.replacement.None?
    && (ev.reason == CRASH_AFTER_START <==> Trace(prefix, ev.id) == [START])
    && (ev.reason == CRASH_AFTER_COMPLETION <==> Trace(prefix, ev.id) == [START, COMPLETION])
    && (ev.reason == CRASH_AFTER_START || ev.reason == CRASH_AFTER_COMPLETION)
  }

  lemma SweptMore(before: seq<Event>, mid: seq<Event>, ev: Event)
    requires SweptFrom(before, mid) && SweepEvent(mid, ev)
    ensures SweptFrom(before, mid + [ev])
  {
    var after := mid + [ev];
    forall k: nat | |before| <= k < |after| ensures SweepEvent(after[..k], after[k]) {
      if k < |mid| {
        assert after[..k] == mid[..k];
      } else {
        assert after[..k] == mid;
      }
    }
  }

  class RunStore {
    const runId: Id
    const throws: nat -> bool
    const lands: nat -> bool
    var tick: nat
    var events: seq<Event>
    var states: States

    constructor (runId: Id, throws: nat -> bool, lands: nat -> bool)
      ensures Valid() && events == [] && tick == 0
      ensures this.runId == runId && this.throws == throws && this.lands == lands
    {
      this.runId, this.throws, this.lands := runId, throws, lands;
      tick, events, states := 0, [], map[];
      assert IsTrail(runId, [map[]], []);
    }

    ghost predicate Valid() reads this { Folded(runId, events, states) }

    /** Nothing throws in a span of ticks. */
    ghost predicate QuietUntil(from: nat, to: nat) { forall t: nat :: from <= t < to ==> !throws(t) }

    /** A legal append at this tick throws although its line has been written. */
    predicate LandsLate(t: nat) { throws(t) && lands(t) }

    /** The line of a legal append at this tick is written. */
    predicate Lands(t: nat) { throws(t) ==> lands(t) }

    /**
     The first throw of an attempt is that of its COMPLETION append, after the line landed, and the
     line of the reconciliation that follows lands too.
     */
    ghost predicate LateCompletion(from: nat, completion: nat, reconciliation: nat) {
      QuietUntil(from, completion) && LandsLate(completion) && Lands(reconciliation)
    }

    predicate Has(id: Id, status: Status) reads this`states { id in states && states[id].status == status }

    /** An invocation that reached a final state is never written again. */
    twostate predicate KeepsFinal() reads this`states {
      forall id :: id in old(states) && IsFinal(old(states)[id].status) ==> id in states && states[id] == old(states)[id]
    }

    /** Any operation that does not touch the ledger. */
    method Effect() returns (ok: bool)
      modifies this`tick
      ensures tick == old(tick) + 1 && ok == !throws(old(tick))
    {
      ok := !throws(tick);
      tick := tick + 1;
    }

    /** Append one event: refused without a write when illegal; the old ledger stays a prefix. */
    method Append(ev: Event) returns (ok: bool)
      requires Valid()
      modifies this
      ensures Valid() && tick == old(tick) + 1
      ensures var legal := CheckTransition(old(states), ev).None?;
              && ok == (legal && !throws(old(tick)))
              && if legal && (throws(old(tick)) ==> lands(old(tick)))
                 then events == old(events) + [ev] && states == old(states)[ev.id := ApplyEvent(runId, old(states), ev)]
                 else events == old(events) && states == old(states)
    {
      var t := tick;
      tick := tick + 1;
      if CheckTransition(states, ev).Some? { return false; }
      if throws(t) && !lands(t) { return false; }
      FoldedStep(runId, events, states, ev);
      events, states := events + [ev], states[ev.id := ApplyEvent(runId, states, ev)];
      ok := !throws(t);
    }

    /** One step of the orphan sweep. */
    method ReconcileOrphan(id: Id) returns (ok: bool)
      requires Valid() && id in Incomplete(states)
      modifies this
      ensures Valid() && tick == old(tick) + 1 && ok == !throws(old(tick)) && KeepsFinal()
      ensures forall before :: SweptFrom(before, old(events)) ==> SweptFrom(before, events)
      ensures ok ==> Incomplete(states) == old(Incomplete(states)) - {id}
    {
      var ev := Reconciliation(id, if states[id].status == STARTED then CRASH_AFTER_START else CRASH_AFTER_COMPLETION, None, "");
      ghost var was := events;
      FoldedMeansLegal(runId, was, states);
      FoldMatchesTrace(runId, was, id);
      PhaseTraces(Trace(was, id));
      assert SweepEvent(was, ev);
      forall before | SweptFrom(before, was) ensures SweptFrom(before, was + [ev]) { SweptMore(before, was, ev); }
      ok := Append(ev);
    }

    /** Close every invocation that is still STARTED or COMPLETED; stops at the first failure. */
    method ReconcileOrphans() returns (ok: bool)
      requires Valid()
      modifies this
      ensures Valid() && old(tick) <= tick && KeepsFinal()
      ensures SweptFrom(old(events), events)
      ensures ok ==> Incomplete(states) == {} && tick == old(tick) + |old(Incomplete(states))|
      ensures ok <==> QuietUntil(old(tick), tick)
    {
      var rest := Incomplete(states);
      while rest != {}
        invariant Valid() && old(tick) <= tick && KeepsFinal()
        invariant SweptFrom(old(events), events)
        invariant rest == Incomplete(states)
        invariant QuietUntil(old(tick), tick) && tick + |rest| == old(tick) + |old(Incomplete(states))|
      {
        var id :| id in rest;
        ok := ReconcileOrphan(id);
        if !ok { return; }
        rest := rest - {id};
      }
      ok := true;
    }

    /** The finalizer's verdict on the ledger: None when finalizing throws. */
    method Finalize() returns (complete: Option<bool>)
      requires Valid()
      modifies this`tick
      ensures tick == old(tick) + 1
      ensures complete == if throws(old(tick)) then None else Some(Incomplete(states) == {})
    {
      var ok := Effect();
      if !ok { return None; }
      complete := Some(Incomplete(states) == {});
    }
  }
}
