/**
 The process supervisor: ancestry capture, the process-group sweep and the environment-marker scan.
 Every read of the process table or of the markers takes one tick and may give any answer or none.
 */
module Supervisors {
  import opened Options
  import opened ProcessTables

  /** One line of the marker listing: whether it carries the marker, and its first field as a number. */
  datatype MarkerLine = MarkerLine(carries: bool, pid: Option<int>)

  predicate LineOk(l: MarkerLine) { l.carries ==> l.pid.Some? && l.pid.value > 1 }

  predicate Readable(t: Option<Table>) { t.Some? && WellFormed(t.value) }

  predicate MarkersReadable(m: Option<seq<MarkerLine>>) { m.Some? && forall l :: l in m.value ==> LineOk(l) }

  function MarkedPids(lines: seq<MarkerLine>): (pids: set<Pid>)
    requires forall l :: l in lines ==> LineOk(l)
    ensures forall p :: p in pids <==> exists l :: l in lines && l.carries && l.pid == Some(p as int)
  {
    set l | l in lines && LineOk(l) && l.carries :: l.pid.value as Pid
  }

  /** The row a pid has in an index built row by row: the last one wins. */
  function RowOf(rows: Table, pid: Pid): Option<Row> {
    if rows == [] then None
    else if rows[|rows| - 1].pid == pid then Some(rows[|rows| - 1])
    else RowOf(rows[..|rows| - 1], pid)
  }

  /** The first row of a pid. */
  function FirstRow(rows: Table, pid: Pid): (r: Option<Row>)
    ensures r.None? <==> forall row :: row in rows ==> row.pid != pid
    ensures r.Some? ==> exists i :: 0 <= i < |rows| && rows[i] == r.value && r.value.pid == pid && forall j :: 0 <= j < i ==> rows[j].pid != pid
  {
    if rows == [] then None else if rows[0].pid == pid then Some(rows[0]) else FirstRow(rows[1..], pid)
  }

  /** The group of a new root: what its first row shows, else its own pid. */
  function GroupOfRoot(t: Option<Table>, pid: Pid): Pid {
    if Readable(t) && FirstRow(t.value, pid).Some? then FirstRow(t.value, pid).value.pgid else pid
  }

  predicate ListedAlive(rows: Table, pid: Pid) { RowOf(rows, pid).Some? && !RowOf(rows, pid).value.Zombie() }

  predicate OneRowEach(rows: Table) {
    forall i, j :: 0 <= i < j < |rows| ==> rows[i].pid != rows[j].pid
  }

  lemma {:induction false} RowOfIsARow(rows: Table, pid: Pid)
    ensures RowOf(rows, pid).Some? ==> RowOf(rows, pid).value in rows && RowOf(rows, pid).value.pid == pid
    ensures RowOf(rows, pid).None? <==> forall r :: r in rows ==> r.pid != pid
  {
    if rows != [] {
      assert rows == rows[..|rows| - 1] + [rows[|rows| - 1]];
      RowOfIsARow(rows[..|rows| - 1], pid);
    }
  }

  /** A row that shows a living process of this pid. */
  predicate LiveRow(r: Row, pid: Pid) { r.pid == pid && !r.Zombie() }

  predicate HasLiveRow(rows: Table, pid: Pid) { exists r :: r in rows && LiveRow(r, pid) }

  predicate ZombieRow(r: Row, pid: Pid) { r.pid == pid && r.Zombie() }

  /** A live row of the pid that a zombie row of it follows has another live row after that one. */
  predicate NeverHidden(rows: Table, pid: Pid) {
    forall i, j :: 0 <= i < j < |rows| && LiveRow(rows[i], pid) && ZombieRow(rows[j], pid) ==> LiveAfter(rows, j, pid)
  }

  predicate LiveAfter(rows: Table, j: nat, pid: Pid) { exists k :: j < k < |rows| && LiveRow(rows[k], pid) }

  /** Where the entry of the index comes from. */
  lemma {:induction false} RowOfIsLast(rows: Table, pid: Pid) returns (n: nat)
    requires RowOf(rows, pid).Some?
    ensures n < |rows| && rows[n] == RowOf(rows, pid).value && rows[n].pid == pid
    ensures forall k :: n < k < |rows| ==> rows[k].pid != pid
  {
    var last := |rows| - 1;
    if rows[last].pid == pid { n := last; } else { n := RowOfIsLast(rows[..last], pid); }
  }

  /** The index and the table agree on whether a pid lives exactly when no zombie row hides a live one. */
  lemma ListedAliveIsLive(rows: Table, pid: Pid)
    ensures (ListedAlive(rows, pid) <==> HasLiveRow(rows, pid)) <==> NeverHidden(rows, pid)
  {
    RowOfIsARow(rows, pid);
    if RowOf(rows, pid).Some? {
      var n := RowOfIsLast(rows, pid);
      if rows[n].Zombie() && HasLiveRow(rows, pid) {
        var r :| r in rows && LiveRow(r, pid);
        var i: nat :| i < |rows| && rows[i] == r;
        assert LiveRow(rows[i], pid) && ZombieRow(rows[n], pid);
        assert !(n < i);
        assert i != n;
        assert !LiveAfter(rows, n, pid);
      }
      if !rows[n].Zombie() {
        forall i, j | 0 <= i < j < |rows| && LiveRow(rows[i], pid) && ZombieRow(rows[j], pid) ensures LiveAfter(rows, j, pid) {
          assert j < n && LiveRow(rows[n], pid);
        }
      }
    }
  }

  /** One row for each pid is more than enough. */
  lemma OneRowHidesNothing(rows: Table, pid: Pid)
    requires OneRowEach(rows)
    ensures NeverHidden(rows, pid)
  {}

  datatype Source = Ancestry | EnvMarker

  datatype Access = ReadTable | ReadMarkers

  /** A scan that succeeded: when, and from which root. */
  datatype Scanned = Scanned(tick: nat, root: Pid)

  datatype Evidence = Evidence(
    verified: bool, processTableReadable: bool, markerScanVerified: bool, rootPidAbsent: bool, processGroupAbsent: bool,
    markerAbsent: bool, remaining: Option<set<Pid>>, terminationAttempted: bool, lastScanAt: Option<nat>)

  const NOTHING_SPAWNED := Evidence(true, true, true, true, true, true, Some({}), false, None)

  // ---------------------------------------------------------------------------
  // The crash-recovery sweep by marker
  // ---------------------------------------------------------------------------

  /** One reading of the marker listing; None when it cannot be read. */
  function MarkerScan(lines: Option<seq<MarkerLine>>): (r: Option<set<Pid>>)
    ensures r.Some? <==> lines.Some? && forall l :: l in lines.value && l.carries ==> l.pid.Some? && l.pid.value > 1
    ensures r.Some? ==> forall p :: p in r.value <==> exists l :: l in lines.value && l.carries && l.pid == Some(p as int)
  {
    if MarkersReadable(lines) then Some(MarkedPids(lines.value)) else None
  }

  datatype SweepReport = SweepReport(
    identified: Option<set<Pid>>, sigterm: set<Pid>, sigkill: set<Pid>, remaining: Option<set<Pid>>, lastRead: nat)

  /** Poll for the targets only; here an unreadable poll is waited out, and only the last read decides. */
  method AwaitTargets(markers: nat -> Option<seq<MarkerLine>>, from: nat, targets: set<Pid>, polls: nat)
    returns (left: Option<set<Pid>>, next: nat)
    ensures from < next <= from + polls + 1
    ensures left == match MarkerScan(markers(next - 1)) case None => None case Some(pids) => Some(pids * targets)
    ensures next <= from + polls ==> left == Some({})
  {
    next := from;
    for n := 0 to polls
      invariant next == from + n
    {
      var current := MarkerScan(markers(next));
      next := next + 1;
      if current.Some? && current.value * targets == {} { return Some({}), next; }
    }
    var current := MarkerScan(markers(next));
    next := next + 1;
    left := match current case None => None case Some(pids) => Some(pids * targets);
  }

  /** Whom the read at this tick shows of the targets. */
  ghost predicate StillThere(markers: nat -> Option<seq<MarkerLine>>, t: nat, targets: set<Pid>, p: Pid) {
    MarkerScan(markers(t)).Some? && p in MarkerScan(markers(t)).value && p in targets
  }

  /**
   Signals go only to processes identified first: SIGTERM to all of them, SIGKILL to those whom the last
   read of the grace period still shows; what remains is what the last read shows, nothing inferred.
   */
  method TerminateProcessesByMarker(markers: nat -> Option<seq<MarkerLine>>, delivered: (nat, Pid) -> bool, termPolls: nat, killPolls: nat)
    returns (r: SweepReport, ghost grace: nat)
    ensures r.identified == MarkerScan(markers(0)) && r.lastRead > 0 && r.remaining == MarkerScan(markers(r.lastRead))
    ensures r.identified.None? || r.identified == Some({}) ==> r.sigterm == {} && r.sigkill == {} && r.lastRead == 1
    ensures r.identified.Some? && r.identified != Some({}) ==>
              && r.sigterm == (set p | p in r.identified.value && delivered(15, p))
              && 1 <= grace <= 1 + termPolls && grace < r.lastRead
              && (grace < 1 + termPolls ==> MarkerScan(markers(grace)).Some? && forall p :: !StillThere(markers, grace, r.identified.value, p))
              && (forall p :: p in r.sigkill <==> StillThere(markers, grace, r.identified.value, p) && delivered(9, p))
              // and whoever was still there gets time again
              && ((exists p :: StillThere(markers, grace, r.identified.value, p)) ==> grace + 2 <= r.lastRead)
  {
    var identified := MarkerScan(markers(0));
    var sigterm, sigkill, next := {}, {}, 1;
    grace := 0;
    if identified.Some? && identified.value != {} {
      sigterm := set p | p in identified.value && delivered(15, p);
      var left;
      left, next := AwaitTargets(markers, 1, identified.value, termPolls);
      grace := next - 1;
      assert left.Some? ==> forall p :: p in left.value <==> StillThere(markers, grace, identified.value, p);
      if left.Some? && left.value != {} {
        sigkill := set p | p in left.value && delivered(9, p);
        left, next := AwaitTargets(markers, next, left.value, killPolls);
      }
    }
    r := SweepReport(identified, sigterm, sigkill, MarkerScan(markers(next)), next);
  }

  class Supervisor {
    const tables: nat -> Option<Table>
    const markers: nat -> Option<seq<MarkerLine>>
    const hasMarker: bool
    const canKill: bool
    const delivered: (nat, Pid) -> bool

    var tick: nat
    var rootPid: Option<Pid>
    var rootPgid: Pid
    var tracked: map<Pid, Source>
    var lastScanAt: Option<nat>  // the tick of the last scan that could be read
    var processTableFailure: bool
    var markerScanFailure: bool
    var sigterm: set<Pid>
    var sigkill: set<Pid>
    var result: Option<Evidence>

    ghost var accesses: seq<Access>
    ghost var scans: seq<Scanned>
    ghost var killUnavailable: bool

    constructor (tables: nat -> Option<Table>, markers: nat -> Option<seq<MarkerLine>>, hasMarker: bool, canKill: bool,
                 delivered: (nat, Pid) -> bool)
      ensures Valid() && tick == 0 && rootPid.None? && result.None? && scans == [] && tracked == map[]
      ensures this.tables == tables && this.markers == markers && this.hasMarker == hasMarker && this.canKill == canKill
    {
      this.tables, this.markers, this.hasMarker, this.canKill, this.delivered := tables, markers, hasMarker, canKill, delivered;
      tick, rootPid, rootPgid, tracked, lastScanAt := 0, None, 0, map[], None;
      processTableFailure, markerScanFailure, sigterm, sigkill, result := false, false, {}, {}, None;
      accesses, scans, killUnavailable := [], [], false;
    }

    ghost predicate GoodRead(log: seq<Access>, t: nat)
      requires t < |log|
    {
      match log[t] case ReadTable => Readable(tables(t)) case ReadMarkers => MarkersReadable(markers(t))
    }

    ghost predicate AllGood(log: seq<Access>) { forall t: nat :: t < |log| ==> GoodRead(log, t) }

    lemma OneMoreRead(log: seq<Access>, a: Access)
      ensures AllGood(log + [a]) <==> AllGood(log) && GoodRead(log + [a], |log|)
    {
      var more := log + [a];
      forall t: nat | t < |log| ensures GoodRead(more, t) <==> GoodRead(log, t) {}
      if AllGood(more) {
        assert GoodRead(more, |log|);
        forall t: nat | t < |log| ensures GoodRead(log, t) { assert GoodRead(more, t); }
      }
    }

    /** The failure flags are up exactly when some read was bad, or signals turned out to be unavailable. */
    ghost predicate Valid()
      reads this`accesses, this`tick, this`processTableFailure, this`markerScanFailure, this`killUnavailable, this`scans, this`tracked,
            this`lastScanAt
    {
      && |accesses| == tick
      && (processTableFailure || markerScanFailure <==> !AllGood(accesses) || killUnavailable)
      && (killUnavailable ==> !canKill)
      && (forall s :: s in scans ==> Captured(s))
      && lastScanAt == if scans == [] then None else Some(scans[|scans| - 1].tick)
    }

    /** Everything that a successful scan visited is tracked. */
    ghost predicate Captured(s: Scanned) reads this`tick, this`tracked {
      && s.tick < tick && Readable(tables(s.tick))
      && forall p :: Visits(tables(s.tick).value, s.root, p) ==> p in tracked
    }

    /** What no read undoes: the past, the tracked processes, the scans, a failure, the verdict. */
    twostate predicate Later()
      reads this`tick, this`accesses, this`scans, this`processTableFailure, this`markerScanFailure, this`tracked
    {
      && old(tick) <= tick && old(accesses) <= accesses && old(scans) <= scans
      && (old(processTableFailure) ==> processTableFailure) && (old(markerScanFailure) ==> markerScanFailure)
      && (forall p :: p in old(tracked) ==> p in tracked && tracked[p] == old(tracked)[p])
    }

    method ReadRows() returns (rows: Option<Table>)
      requires Valid()
      modifies this`tick, this`accesses, this`processTableFailure
      ensures Valid() && tick == old(tick) + 1 && accesses == old(accesses) + [ReadTable]
      ensures rows == if Readable(tables(old(tick))) then tables(old(tick)) else None
      ensures processTableFailure == (old(processTableFailure) || rows.None?)
    {
      rows := tables(tick);
      OneMoreRead(accesses, ReadTable);
      accesses, tick := accesses + [ReadTable], tick + 1;
      if rows.None? || !WellFormed(rows.value) { processTableFailure, rows := true, None; }
    }

    /** The pids that carry the marker; the empty set, without a read, when the invocation has none. */
    method MarkerCandidates() returns (pids: Option<set<Pid>>)
      requires Valid()
      modifies this`tick, this`accesses, this`markerScanFailure
      ensures Valid() && old(tick) <= tick <= old(tick) + 1 && old(accesses) <= accesses
      ensures !hasMarker ==> pids == Some({}) && tick == old(tick) && markerScanFailure == old(markerScanFailure)
      ensures hasMarker ==> tick == old(tick) + 1 && accesses[old(tick)] == ReadMarkers
      ensures hasMarker && MarkersReadable(markers(old(tick))) ==>
                pids == Some(MarkedPids(markers(old(tick)).value)) && markerScanFailure == old(markerScanFailure)
      ensures hasMarker && !MarkersReadable(markers(old(tick))) ==> pids.None? && markerScanFailure
    {
      if !hasMarker { return Some({}); }
      var lines := markers(tick);
      OneMoreRead(accesses, ReadMarkers);
      accesses, tick := accesses + [ReadMarkers], tick + 1;
      if lines.None? || exists l :: l in lines.value && !LineOk(l) {
        markerScanFailure := true;
        return None;
      }
      pids := Some(MarkedPids(lines.value));
    }

    /** One capture of the descendants; a pid keeps the source it was first seen with. */
    method Scan() returns (all: Option<Table>)
      requires Valid()
      modifies this`tick, this`accesses, this`processTableFailure, this`tracked, this`scans, this`lastScanAt
      ensures Valid() && Later() && markerScanFailure == old(markerScanFailure)
      ensures rootPid.None? ==> all == Some([]) && tick == old(tick) && tracked == old(tracked)
      ensures rootPid.Some? ==> tick == old(tick) + 1 && accesses == old(accesses) + [ReadTable]
      ensures rootPid.Some? ==> all == if Readable(tables(old(tick))) then tables(old(tick)) else None
      ensures processTableFailure == (old(processTableFailure) || all.None?)
      ensures all.None? ==> tracked == old(tracked) && scans == old(scans)
      ensures forall p :: p in tracked && p !in old(tracked) ==> tracked[p] == Ancestry
      // a scan adds exactly the processes it visits
      ensures rootPid.Some? && all.Some? ==>
                && scans == old(scans) + [Scanned(old(tick), rootPid.value)]
                && forall p :: p in tracked <==> p in old(tracked) || Visits(all.value, rootPid.value, p)
    {
      if rootPid.None? { return Some([]); }
      all := ReadRows();
      if all.None? { return; }
      var seen := Descendants(all.value, rootPid.value);
      tracked := map p | p in tracked.Keys + seen :: if p in tracked then tracked[p] else Ancestry;
      scans, lastScanAt := scans + [Scanned(tick - 1, rootPid.value)], Some(tick - 1);
    }

    /** Record the direct child; the group is the one its first row shows. */
    method Begin(pid: int) returns (began: bool)
      requires Valid()
      modifies this`tick, this`accesses, this`processTableFailure, this`tracked, this`scans, this`lastScanAt, this`rootPid, this`rootPgid
      ensures Valid() && Later() && result == old(result)
      ensures began <==> pid > 1
      ensures !began ==> rootPid == old(rootPid) && tick == old(tick)
      ensures began ==> rootPid == Some(pid as Pid) && tick == old(tick) + 2 && rootPgid == GroupOfRoot(tables(old(tick)), pid)
      ensures began && Readable(tables(old(tick) + 1)) ==> scans == old(scans) + [Scanned(old(tick) + 1, pid)]
    {
      if pid <= 1 { return false; }
      rootPid := Some(pid);
      var all := ReadRows();
      rootPgid := GroupOfRoot(all, pid);
      var _ := Scan();
      began := true;
    }

    /** Root, known processes, group members and marker matches that are still listed. */
    ghost predicate SurvivesBy(rows: Table, marked: set<Pid>, known: set<Pid>, pid: Pid) reads this`rootPid, this`rootPgid {
      || pid in marked
      || ((Some(pid) == rootPid || pid in known) && ListedAlive(rows, pid))
      || exists r :: r in rows && r.pid == pid && r.pgid == rootPgid && !r.Zombie()
    }

    ghost predicate Survives(rows: Table, marked: set<Pid>, pid: Pid) reads this`rootPid, this`rootPgid, this`tracked { SurvivesBy(rows, marked, tracked.Keys, pid) }

    method SurvivorsFrom(rows: Table, marked: set<Pid>) returns (survivors: set<Pid>)
      requires rootPid.Some?
      ensures forall p :: p in survivors <==> Survives(rows, marked, p)
    {
      survivors := if ListedAlive(rows, rootPid.value) then {rootPid.value} else {};
      var rest := tracked.Keys;
      while rest != {}
        invariant rest <= tracked.Keys
        invariant forall p :: p in survivors <==> (Some(p) == rootPid || p in tracked.Keys - rest) && ListedAlive(rows, p)
      {
        var pid :| pid in rest;
        if ListedAlive(rows, pid) { survivors := survivors + {pid}; }
        rest := rest - {pid};
      }
      ghost var known := survivors;
      for i := 0 to |rows|
        invariant forall p :: p in survivors <==> p in known || exists r :: r in rows[..i] && r.pid == p && r.pgid == rootPgid && !r.Zombie()
      {
        assert rows[..i + 1] == rows[..i] + [rows[i]];
        if rows[i].pgid == rootPgid && !rows[i].Zombie() { survivors := survivors + {rows[i].pid}; }
      }
      assert rows[..|rows|] == rows;
      survivors := survivors + marked;
    }

    /** The marker matches of one read; none when the invocation has no marker. */
    ghost function MarkedAt(t: nat): set<Pid> {
      if hasMarker && MarkersReadable(markers(t)) then MarkedPids(markers(t).value) else {}
    }

    /** These are the survivors of the reads at tick t, and of the marker read after it. */
    ghost predicate SeenAt(t: nat, survivors: set<Pid>) reads this`rootPid, this`rootPgid, this`tracked, this`tick {
      && t < tick && Readable(tables(t)) && (hasMarker ==> t + 1 < tick && MarkersReadable(markers(t + 1)))
      && forall p :: p in survivors <==> Survives(tables(t).value, MarkedAt(t + 1), p)
    }

    /** How many reads so many looks make. */
    function Reads(looks: nat): nat { if hasMarker then 2 * looks else looks }

    function Width(): nat { Reads(1) }

    /** Both reads of a look that begins at this tick can be used. */
    predicate LookOk(t: nat) { Readable(tables(t)) && (hasMarker ==> MarkersReadable(markers(t + 1))) }

    /** Seen by a look at this tick, which knows these processes. */
    ghost predicate LookSees(t: nat, known: set<Pid>, pid: Pid) reads this`rootPid, this`rootPgid {
      LookOk(t) && SurvivesBy(tables(t).value, MarkedAt(t + 1), known, pid)
    }

    /** One look at the table and the markers: None when either could not be read. */
    method Look() returns (survivors: Option<set<Pid>>)
      requires Valid() && rootPid.Some?
      modifies this`tick, this`accesses, this`processTableFailure, this`markerScanFailure, this`tracked, this`scans, this`lastScanAt
      ensures Valid() && Later() && tick == old(tick) + Width()
      ensures survivors.Some? <==> LookOk(old(tick))
      ensures survivors.None? ==> processTableFailure || markerScanFailure
      ensures survivors.Some? ==> SeenAt(old(tick), survivors.value)
    {
      var all := Scan();
      var marked := MarkerCandidates();
      if all.None? || marked.None? { return None; }
      var found := SurvivorsFrom(all.value, marked.value);
      survivors := Some(found);
    }

    /** A look at this tick was readable and found somebody. */
    ghost predicate SomebodyLeft(t: nat) reads this`rootPid, this`rootPgid, this`tracked {
      LookOk(t) && exists p, known :: known <= tracked.Keys && LookSees(t, known, p)
    }

    lemma LookFound(t: nat, survivors: set<Pid>)
      requires SeenAt(t, survivors) && LookOk(t) && survivors != {}
      ensures SomebodyLeft(t)
    {
      var p :| p in survivors;
      assert LookSees(t, tracked.Keys, p);
    }

    /** Somebody stays somebody when more is tracked. */
    twostate lemma FoundStays(t: nat)
      requires old(SomebodyLeft(t)) && Later() && rootPid == old(rootPid) && rootPgid == old(rootPgid)
      ensures SomebodyLeft(t)
    {
      var p, known :| known <= old(tracked.Keys) && old(LookSees(t, known, p));
      assert LookSees(t, known, p) && known <= tracked.Keys;
    }

    /**
     Poll until nothing is left, a read fails, or the time is over; the answer is that of the last look,
     and it is not the last one in time only when nothing was left or a read failed.
     */
    method WaitForAbsence(polls: nat) returns (survivors: Option<set<Pid>>, ghost last: nat)
      requires Valid() && rootPid.Some?
      modifies this`tick, this`accesses, this`processTableFailure, this`markerScanFailure, this`tracked, this`scans, this`lastScanAt
      ensures Valid() && Later() && old(tick) <= last && tick == last + Width()
      ensures Polled(last, survivors) && GoesOn(old(tick), last)
      ensures last <= old(tick) + Reads(polls)
      ensures last < old(tick) + Reads(polls) ==> survivors.None? || survivors == Some({})
    {
      for n := 0 to polls
        invariant Valid() && Later() && tick == old(tick) + Reads(n) && GoesOn(old(tick), tick)
      {
        last := tick;
        survivors := Poll(old(tick));
        if survivors.None? || survivors == Some({}) { return; }
      }
      last := tick;
      survivors := Poll(old(tick));
    }

    /** What a look at this tick says. */
    ghost predicate Polled(t: nat, survivors: Option<set<Pid>>)
      reads this`rootPid, this`rootPgid, this`tracked, this`tick, this`processTableFailure, this`markerScanFailure
    {
      && (survivors.Some? <==> LookOk(t))
      && (survivors.None? ==> processTableFailure || markerScanFailure)
      && (survivors.Some? ==> SeenAt(t, survivors.value))
    }

    /** The look before this one, if there was any since `from`, found somebody. */
    ghost predicate GoesOn(from: nat, t: nat) reads this`rootPid, this`rootPgid, this`tracked {
      t > from ==> t >= from + Width() && SomebodyLeft(t - Width())
    }

    /** One look of a series that began at this tick. */
    method Poll(ghost from: nat) returns (survivors: Option<set<Pid>>)
      requires Valid() && rootPid.Some? && from <= tick && GoesOn(from, tick)
      modifies this`tick, this`accesses, this`processTableFailure, this`markerScanFailure, this`tracked, this`scans, this`lastScanAt
      ensures Valid() && Later() && tick == old(tick) + Width()
      ensures Polled(old(tick), survivors) && GoesOn(from, old(tick))
      ensures survivors.Some? && survivors.value != {} ==> GoesOn(from, tick)
    {
      survivors := Look();
      if old(tick) > from { FoundStays(old(tick) - Width()); }
      if survivors.Some? && survivors.value != {} { LookFound(old(tick), survivors.value); }
    }

    /** Send one signal to each survivor; the answer is which ones it reached. */
    method Signal(signal: nat, targets: set<Pid>) returns (reached: set<Pid>)
      ensures reached == set p | p in targets && delivered(signal, p)
    {
      reached := set p | p in targets && delivered(signal, p);
    }

    /** Who gets SIGKILL: whom the last look of the grace period shows, with the processes known by then. */
    ghost predicate KillTarget(grace: nat, known: set<Pid>, pid: Pid) reads this`rootPid, this`rootPgid {
      canKill && LookSees(grace, known, pid) && delivered(9, pid)
    }

    /** SIGTERM to the survivors, a grace period, SIGKILL to those still there. */
    method Terminate(survivors: set<Pid>, termPolls: nat, killPolls: nat) returns (ghost grace: nat, ghost known: set<Pid>)
      requires Valid() && rootPid.Some?
      modifies this`tick, this`accesses, this`processTableFailure, this`markerScanFailure, this`tracked, this`scans, this`lastScanAt,
               this`sigterm, this`sigkill, this`killUnavailable
      ensures Valid() && Later()
      ensures !canKill ==> processTableFailure && sigterm == old(sigterm) && sigkill == old(sigkill) && tick == old(tick)
      ensures canKill ==> sigterm == old(sigterm) + (set p | p in survivors && delivered(15, p))
      ensures forall p :: p in sigkill <==> p in old(sigkill) || KillTarget(grace, known, p)
      // the grace period lasts until nothing is left, a read fails, or its polls are over
      ensures canKill ==> GraceFrom(old(tick), termPolls, grace, known) && old(tracked.Keys) <= known
      // and whoever was still there gets time again
      ensures canKill && (exists p :: LookSees(grace, known, p)) ==> grace + Reads(2) <= tick
    {
      grace, known := tick, tracked.Keys;
      if !canKill {
        processTableFailure, killUnavailable := true, true;
        return;
      }
      var reached := Signal(15, survivors);
      sigterm := sigterm + reached;
      grace, known := KillTheRest(termPolls, killPolls);
    }

    /** The grace period, and SIGKILL to those whom it leaves. */
    method KillTheRest(termPolls: nat, killPolls: nat) returns (ghost grace: nat, ghost known: set<Pid>)
      requires Valid() && rootPid.Some? && canKill
      modifies this`tick, this`accesses, this`processTableFailure, this`markerScanFailure, this`tracked, this`scans, this`lastScanAt,
               this`sigkill
      ensures Valid() && Later()
      ensures forall p :: p in sigkill <==> p in old(sigkill) || KillTarget(grace, known, p)
      ensures GraceFrom(old(tick), termPolls, grace, known) && old(tracked.Keys) <= known
      ensures (exists p :: LookSees(grace, known, p)) ==> grace + Reads(2) <= tick
    {
      var after;
      after, grace := WaitForAbsence(termPolls);
      known := tracked.Keys;
      assert after.Some? ==> forall p :: p in after.value <==> LookSees(grace, known, p);
      if after.Some? && after.value != {} { Kill(after.value, killPolls); }
    }

    /** SIGKILL, and time to go. */
    method Kill(survivors: set<Pid>, polls: nat)
      requires Valid() && rootPid.Some?
      modifies this`tick, this`accesses, this`processTableFailure, this`markerScanFailure, this`tracked, this`scans, this`lastScanAt,
               this`sigkill
      ensures Valid() && Later() && old(tick) + Width() <= tick
      ensures forall p :: p in sigkill <==> p in old(sigkill) || (p in survivors && delivered(9, p))
    {
      var reached := Signal(9, survivors);
      sigkill := sigkill + reached;
      var left;
      ghost var last;
      left, last := WaitForAbsence(polls);
    }

    /** No live row of the root, of a tracked process or of the group. */
    ghost predicate AllGone(rows: Table) reads this`rootPid, this`rootPgid, this`tracked {
      && (forall r :: r in rows && !r.Zombie() ==> Some(r.pid) != rootPid && r.pgid != rootPgid)
      && (forall p :: p in tracked ==> !ListedAlive(rows, p))
    }

    /** What a positive verdict rests on: a whole life without a bad read, and two clean last reads. */
    ghost predicate Proven(t: nat)
      reads this`rootPid, this`rootPgid, this`tracked, this`tick, this`accesses, this`killUnavailable, this`scans
    {
      && rootPid.Some? && AllGood(accesses) && !killUnavailable
      && t < tick && Readable(tables(t)) && AllGone(tables(t).value)
      && (hasMarker ==> t + 1 < tick && MarkersReadable(markers(t + 1)) && MarkedPids(markers(t + 1).value) == {})
      && (forall s :: s in scans ==> s.tick <= t)
    }

    /** A tracked process that only the index can show: not the root, and with no live row in the group. */
    ghost predicate OnlyTracked(rows: Table, p: Pid) reads this {
      p in tracked && Some(p) != rootPid && forall r :: r in rows && LiveRow(r, p) ==> r.pgid != rootPgid
    }

    /**
     A positive verdict excludes every live row of every tracked process exactly when no live row of
     those that only the index can show is hidden in the last table.
     */
    lemma VerdictCoversTracked(t: nat)
      requires Proven(t)
      ensures (forall p :: p in tracked ==> !HasLiveRow(tables(t).value, p)) <==>
              forall p :: OnlyTracked(tables(t).value, p) ==> NeverHidden(tables(t).value, p)
    {
      var rows := tables(t).value;
      forall p | p in tracked ensures OnlyTracked(rows, p) || !HasLiveRow(rows, p) {}
      forall p ensures (ListedAlive(rows, p) <==> HasLiveRow(rows, p)) <==> NeverHidden(rows, p) { ListedAliveIsLive(rows, p); }
    }

    /** Every field of the evidence, from the flags of the whole life and the two reads at this tick. */
    ghost predicate EvidenceFits(e: Evidence, t: nat)
      reads this`rootPid, this`rootPgid, this`tracked, this`tick, this`accesses, this`killUnavailable, this`scans
      reads this`lastScanAt, this`processTableFailure, this`markerScanFailure
    {
      && t < tick && e.lastScanAt == lastScanAt && (Readable(tables(t)) ==> lastScanAt == Some(t))
      && (e.verified <==> Proven(t))
      && (e.verified <==> e.remaining == Some({}) && e.rootPidAbsent)
      && e.processTableReadable == !processTableFailure && e.markerScanVerified == !markerScanFailure
      && (e.remaining.Some? <==> !processTableFailure && !markerScanFailure)
      && (e.remaining.Some? ==> SeenAt(t, e.remaining.value))
      && (e.rootPidAbsent <==>
            !processTableFailure && Readable(tables(t)) && forall r :: r in tables(t).value && Some(r.pid) == rootPid ==> r.Zombie())
      && (e.processGroupAbsent <==>
            !processTableFailure && Readable(tables(t)) && forall r :: r in tables(t).value && r.pgid == rootPgid ==> r.Zombie())
      && (e.markerAbsent <==> !markerScanFailure && MarkedAt(t + 1) == {})
    }

    method VerifyAbsence(terminationAttempted: bool) returns (e: Evidence)
      requires Valid() && rootPid.Some?
      modifies this`tick, this`accesses, this`processTableFailure, this`markerScanFailure, this`tracked, this`scans, this`lastScanAt
      ensures Valid() && Later() && EvidenceFits(e, old(tick)) && tick == old(tick) + Width()
      ensures forall s :: s in scans ==> s.tick <= old(tick)
      ensures e.terminationAttempted == terminationAttempted
    {
      var rows := Scan();
      var marked := MarkerCandidates();
      e := Assess(rows, marked, terminationAttempted);
    }

    /** The evidence from two last reads. */
    method Assess(rows: Option<Table>, marked: Option<set<Pid>>, terminationAttempted: bool) returns (e: Evidence)
      requires rootPid.Some? && (rows.None? ==> processTableFailure) && (marked.None? ==> markerScanFailure)
      ensures e.terminationAttempted == terminationAttempted && e.lastScanAt == lastScanAt
      ensures e.processTableReadable == !processTableFailure && e.markerScanVerified == !markerScanFailure
      ensures e.rootPidAbsent <==> !processTableFailure && forall r :: r in rows.value && Some(r.pid) == rootPid ==> r.Zombie()
      ensures e.processGroupAbsent <==> !processTableFailure && forall r :: r in rows.value && r.pgid == rootPgid ==> r.Zombie()
      ensures e.markerAbsent <==> !markerScanFailure && marked.value == {}
      ensures e.remaining.Some? <==> !processTableFailure && !markerScanFailure
      ensures e.remaining.Some? ==> forall p :: p in e.remaining.value <==> Survives(rows.value, marked.value, p)
      ensures e.verified <==> !processTableFailure && !markerScanFailure && marked.value == {} && AllGone(rows.value)
      ensures e.verified <==> e.remaining == Some({}) && e.rootPidAbsent
    {
      var tableOk, markerOk := rows.Some? && !processTableFailure, marked.Some? && !markerScanFailure;
      var rootAbsent := tableOk && !exists r :: r in rows.value && Some(r.pid) == rootPid && !r.Zombie();
      var groupAbsent := tableOk && !exists r :: r in rows.value && r.pgid == rootPgid && !r.Zombie();
      var markerAbsent := markerOk && marked.value == {};
      var remaining := None;
      if tableOk && markerOk {
        var left := SurvivorsFrom(rows.value, marked.value);
        remaining := Some(left);
        NobodySurvives(rows.value, marked.value, left);
      }
      e := Evidence(rootAbsent && groupAbsent && markerAbsent && remaining == Some({}), tableOk, markerOk,
                    rootAbsent, groupAbsent, markerAbsent, remaining, terminationAttempted, lastScanAt);
    }

    lemma NobodySurvives(rows: Table, marked: set<Pid>, left: set<Pid>)
      requires rootPid.Some? && forall p :: p in left <==> Survives(rows, marked, p)
      ensures left == {} && (forall r :: r in rows && Some(r.pid) == rootPid ==> r.Zombie()) <==> marked == {} && AllGone(rows)
    {
      if left == {} {
        forall p | p in marked ensures false { assert Survives(rows, marked, p); }
        forall p | p in tracked ensures !ListedAlive(rows, p) { assert !Survives(rows, marked, p); }
        forall r | r in rows && r.pgid == rootPgid ensures r.Zombie() { assert !Survives(rows, marked, r.pid); }
      }
      if AllGone(rows) && marked == {} {
        forall p | p in left ensures false {
          assert Survives(rows, marked, p);
          RowOfIsARow(rows, p);
        }
      }
    }

    /** A marker match becomes tracked; the root keeps its own place. */
    method TrackMarked(marked: set<Pid>)
      requires Valid() && rootPid.Some?
      modifies this`tracked
      ensures Valid() && Later()
      ensures forall p :: p in tracked <==> p in old(tracked) || (p in marked && Some(p) != rootPid)
      ensures forall p :: p in tracked && p !in old(tracked) ==> tracked[p] == EnvMarker
    {
      tracked := map p | p in tracked.Keys + (marked - {rootPid.value}) :: if p in tracked then tracked[p] else EnvMarker;
    }

    /** The first look finds a process: by what was known, or by its place below the root. */
    ghost predicate FirstSees(t: nat, pid: Pid)
      requires rootPid.Some?
      reads this`rootPid, this`rootPgid, this`tracked
    {
      || LookSees(t, tracked.Keys, pid)
      || (LookOk(t) && Visits(tables(t).value, rootPid.value, pid) && ListedAlive(tables(t).value, pid))
    }

    /** Somebody is still there. */
    ghost predicate FirstFinds(t: nat)
      requires rootPid.Some?
      reads this`rootPid, this`rootPgid, this`tracked
    {
      exists p :: FirstSees(t, p)
    }

    /** The first look: marker matches become tracked before the survivors are counted. */
    method FirstLook() returns (survivors: Option<set<Pid>>)
      requires Valid() && rootPid.Some?
      modifies this`tick, this`accesses, this`processTableFailure, this`markerScanFailure, this`tracked, this`scans, this`lastScanAt
      ensures Valid() && Later() && tick == old(tick) + Width()
      ensures forall p :: p in MarkedAt(old(tick) + 1) ==> p in tracked || Some(p) == rootPid
      ensures survivors.Some? <==> LookOk(old(tick))
      ensures survivors.Some? ==> forall p :: p in survivors.value <==> old(FirstSees(tick, p))
    {
      var all := Scan();
      var marked := MarkerCandidates();
      if marked.Some? { TrackMarked(marked.value); }
      survivors := None;
      if all.Some? && marked.Some? {
        var found := SurvivorsFrom(all.value, marked.value);
        survivors := Some(found);
      }
    }

    /** The first look, and the signals when it finds anything. */
    method Sweep(terminate: bool, termPolls: nat, killPolls: nat) returns (attempted: bool, ghost grace: nat, ghost known: set<Pid>)
      requires Valid() && rootPid.Some?
      modifies this`tick, this`accesses, this`processTableFailure, this`markerScanFailure, this`tracked, this`scans, this`lastScanAt,
               this`sigterm, this`sigkill, this`killUnavailable
      ensures Valid() && Later() && old(tick) + Width() <= tick
      ensures forall p :: p in MarkedAt(old(tick) + 1) ==> p in tracked || Some(p) == rootPid
      // it signals exactly when asked to and somebody is there: SIGTERM to all of them, SIGKILL to whom the grace period leaves
      ensures attempted <==> terminate && old(FirstFinds(tick))
      ensures forall p :: p in sigterm <==> p in old(sigterm) || (attempted && canKill && old(FirstSees(tick, p)) && delivered(15, p))
      ensures forall p :: p in sigkill <==> p in old(sigkill) || (attempted && KillTarget(grace, known, p))
      ensures attempted && canKill ==> GraceFrom(old(tick) + Width(), termPolls, grace, known) && old(tracked.Keys) <= known
      // without a kill function the run can no longer be verified
      ensures attempted && !canKill ==> processTableFailure
    {
      var survivors := FirstLook();
      attempted := terminate && survivors.Some? && survivors.value != {};
      grace, known := tick, {};
      if attempted { grace, known := Terminate(survivors.value, termPolls, killPolls); }
    }

    /** The grace period that begins at this tick ends with the look at `grace`. */
    ghost predicate GraceFrom(from: nat, polls: nat, grace: nat, known: set<Pid>) reads this`rootPid, this`rootPgid, this`tracked, this`tick {
      && from <= grace <= from + Reads(polls) && grace + Width() <= tick && known <= tracked.Keys
      && (grace < from + Reads(polls) ==> forall p :: !LookSees(grace, known, p))
    }

    /**
     Who is signalled, and when: somebody exactly when it was asked for and the first look finds somebody;
     SIGTERM goes to all whom it finds, SIGKILL to those whom the grace period leaves.
     */
    twostate predicate Signals(attempted: bool, terminate: bool, polls: nat, grace: nat, known: set<Pid>)
      requires old(rootPid).Some?
      reads this
    {
      && (attempted <==> terminate && old(FirstFinds(tick)))
      && (forall p :: p in sigterm <==> p in old(sigterm) || (attempted && canKill && old(FirstSees(tick, p)) && delivered(15, p)))
      && (forall p :: p in sigkill <==> p in old(sigkill) || (attempted && KillTarget(grace, known, p)))
      && (attempted && canKill ==> GraceFrom(old(tick) + Width(), polls, grace, known) && old(tracked.Keys) <= known)
    }

    /** The sweep and the last look, for a process that was begun. */
    method Prove(terminate: bool, termPolls: nat, killPolls: nat) returns (e: Evidence, ghost last: nat, ghost grace: nat, ghost known: set<Pid>)
      requires Valid() && rootPid.Some?
      modifies this`tick, this`accesses, this`processTableFailure, this`markerScanFailure, this`tracked, this`scans, this`lastScanAt,
               this`sigterm, this`sigkill, this`killUnavailable
      ensures Valid() && Later()
      ensures EvidenceFits(e, last) && old(tick) < last && tick == last + Width() && (forall s :: s in scans ==> s.tick <= last)
      ensures Signals(e.terminationAttempted, terminate, termPolls, grace, known)
      ensures e.terminationAttempted && !canKill ==> !e.verified
    {
      var attempted;
      attempted, grace, known := Sweep(terminate, termPolls, killPolls);
      last := tick;
      e := VerifyAbsence(attempted);
    }

    /** Terminate what is left and prove absence; decided once. */
    method Quiesce(terminate: bool, termPolls: nat, killPolls: nat) returns (e: Evidence, ghost last: nat, ghost grace: nat, ghost known: set<Pid>)
      requires Valid()
      modifies this
      ensures Valid() && Later() && result == Some(e)
      ensures rootPid == old(rootPid) && rootPgid == old(rootPgid)
      // the first verdict stands
      ensures old(result).Some? ==> e == old(result).value && tick == old(tick) && tracked == old(tracked)
      // before begin there is nothing to look at
      ensures old(result).None? && rootPid.None? ==> e == NOTHING_SPAWNED && tick == old(tick)
      // otherwise it is exactly the proof, and one bad read at any time makes it impossible
      ensures old(result).None? && rootPid.Some? ==>
                && EvidenceFits(e, last) && old(tick) < last && tick == last + Width() && (forall s :: s in scans ==> s.tick <= last)
                && (old(processTableFailure) || old(markerScanFailure) ==> !e.verified)
      // who is signalled, and when
      ensures old(result).Some? || rootPid.None? ==> sigterm == old(sigterm) && sigkill == old(sigkill)
      ensures old(result).None? && rootPid.Some? ==>
                Signals(e.terminationAttempted, terminate, termPolls, grace, known) && (e.terminationAttempted && !canKill ==> !e.verified)
    {
      last, grace, known := tick, tick, {};
      if result.Some? { return result.value, last, grace, known; }
      if rootPid.None? {
        e := NOTHING_SPAWNED;
        result := Some(e);
        return;
      }
      e, last, grace, known := Prove(terminate, termPolls, killPolls);
      result := Some(e);
    }
  }

  // ---------------------------------------------------------------------------
  // A positive verdict over a live tracked process
  // ---------------------------------------------------------------------------

  /** The root and one child; later the child twice in its own group, first alive and then as a zombie. */
  function HidingTables(t: nat): Option<Table> {
    if t < 2 then Some([Row(5, 1, 5, "S"), Row(7, 5, 7, "S")]) else Some([Row(7, 1, 7, "S"), Row(7, 1, 7, "Z")])
  }

  /** The child is tracked and listed alive, and the verdict is positive all the same. */
  method VerdictOverLiveProcess() returns (s: Supervisor, e: Evidence)
    ensures fresh(s) && s.Valid() && e.verified && e.lastScanAt.Some?
    ensures 7 in s.tracked && s.tables == HidingTables && HasLiveRow(HidingTables(e.lastScanAt.value).value, 7)
  {
    s := Begun();
    ghost var last, grace, known;
    e, last, grace, known := s.Quiesce(true, 0, 0);
    assert s.Proven(last) by {
      forall p ensures !ListedAlive(HidingTables(last).value, p) { HidingRows(p); }
      assert s.AllGone(HidingTables(last).value);
      assert s.AllGood(s.accesses);
    }
    assert HidingTables(last).value[0] in HidingTables(last).value;
  }

  /** The supervisor of process 5, which has seen its child. */
  method Begun() returns (s: Supervisor)
    ensures fresh(s) && s.Valid() && s.tick == 2 && s.result.None? && s.rootPid == Some(5) && s.rootPgid == 5 && 7 in s.tracked
    ensures s.tables == HidingTables && (forall t :: s.markers(t) == Some([])) && !s.hasMarker && s.canKill && !s.processTableFailure && !s.markerScanFailure
  {
    s := new Supervisor(HidingTables, (t: nat) => Some([]), false, true, (signal: nat, pid: Pid) => true);
    var began := s.Begin(5);
    ChildIsVisited();
    assert s.Captured(Scanned(1, 5)) by { assert s.scans == [Scanned(1, 5)]; }
  }

  lemma HidingRows(p: Pid)
    ensures !ListedAlive([Row(7, 1, 7, "S"), Row(7, 1, 7, "Z")], p)
  {
    RowOfIsARow([Row(7, 1, 7, "S"), Row(7, 1, 7, "Z")], p);
  }

  lemma ChildIsVisited()
    ensures Visits(HidingTables(1).value, 5, 7)
  {
    var rows := HidingTables(1).value;
    assert rows[1] in rows;
    assert LinkAt(rows, 5, true, [5, 7], 0);
    assert Path(rows, 5, true, [5, 7]);
  }
}
