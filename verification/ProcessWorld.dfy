/**
 The world the supervisor looks at: processes that fork, exit, are reaped, are adopted, leave their
 group and drop their marker, beside foreign processes that do anything.  Identities are never
 reused; pids are.
 */
module ProcessWorlds {
  import opened Options
  import opened ProcessTables
  import opened Supervisors

  type Ident = nat

  datatype Process = Process(pid: Pid, ppid: Pid, pgid: Pid, marked: bool, zombie: bool, ours: bool)

  /** The processes there are, zombies included, and the next identity. */
  datatype World = World(procs: map<Ident, Process>, next: Ident)
  {
    ghost predicate Valid() { forall id :: id in procs ==> id < next && procs[id].pid > 0 }

    predicate Alive(id: Ident) { id in procs && !procs[id].zombie }
  }

  datatype Action =
    | Idle
    | Fork(parent: Ident, pid: Pid)
    | Exit(id: Ident)
    | Reap(id: Ident)
    | Reparent(id: Ident, ppid: Pid)
    | LeaveGroup(id: Ident, pgid: Pid)
    | SetMarker(id: Ident, marked: bool)
    | Outsider(id: Ident, p: Process)

  predicate PidFree(w: World, id: Ident, pid: Pid) { forall j :: j in w.procs && j != id ==> w.procs[j].pid != pid }

  /** What can happen next; processes of the invocation leave the group for good. */
  predicate May(w: World, a: Action, group: Pid) {
    match a
    case Idle => true
    case Fork(parent, pid) => w.Alive(parent) && pid > 0 && PidFree(w, w.next, pid)
    case Exit(id) => w.Alive(id)
    case Reap(id) => id in w.procs && w.procs[id].zombie
    case Reparent(id, _) => id in w.procs
    case LeaveGroup(id, pgid) => w.Alive(id) && pgid != group
    case SetMarker(id, _) => w.Alive(id)
    case Outsider(id, p) =>
      && !p.ours && p.pid > 0 && PidFree(w, id, p.pid)
      && (id == w.next || (id in w.procs && !w.procs[id].ours && w.procs[id].pid == p.pid && (w.procs[id].zombie ==> p.zombie)))
  }

  function Do(w: World, a: Action): World
    requires exists g :: May(w, a, g)
  {
    match a
    case Idle => w
    case Fork(parent, pid) =>
      World(w.procs[w.next := w.procs[parent].(pid := pid, ppid := w.procs[parent].pid)], w.next + 1)
    case Exit(id) => w.(procs := w.procs[id := w.procs[id].(zombie := true)])
    case Reap(id) => w.(procs := w.procs - {id})
    case Reparent(id, ppid) => w.(procs := w.procs[id := w.procs[id].(ppid := ppid)])
    case LeaveGroup(id, pgid) => w.(procs := w.procs[id := w.procs[id].(pgid := pgid)])
    case SetMarker(id, marked) => w.(procs := w.procs[id := w.procs[id].(marked := marked)])
    case Outsider(id, p) => World(w.procs[id := p], if id == w.next then w.next + 1 else w.next)
  }

  /** Only this process may differ between the two worlds. */
  ghost predicate OnlyThis(w: World, v: World, id: Ident) {
    forall j :: j != id ==> (j in v.procs <==> j in w.procs) && (j in w.procs ==> v.procs[j] == w.procs[j])
  }

  /**
   What each action does: a child has a fresh identity and takes group, marker and origin from its parent;
   a dead process keeps everything else; a reaped one is gone; the others change one field.
   */
  lemma ActionsDo(w: World, a: Action, group: Pid)
    requires w.Valid() && May(w, a, group)
    ensures var v := Do(w, a);
            match a
            case Idle => v == w
            case Fork(parent, pid) =>
              && OnlyThis(w, v, w.next) && w.next !in w.procs && v.Alive(w.next) && v.next == w.next + 1
              && v.procs[w.next].pid == pid && v.procs[w.next].ppid == w.procs[parent].pid
              && v.procs[w.next].pgid == w.procs[parent].pgid && v.procs[w.next].marked == w.procs[parent].marked
              && v.procs[w.next].ours == w.procs[parent].ours
            case Exit(id) =>
              && OnlyThis(w, v, id) && v.next == w.next && w.Alive(id) && !v.Alive(id) && id in v.procs
              && v.procs[id].pid == w.procs[id].pid && v.procs[id].ppid == w.procs[id].ppid && v.procs[id].pgid == w.procs[id].pgid
              && v.procs[id].marked == w.procs[id].marked && v.procs[id].ours == w.procs[id].ours
            case Reap(id) => OnlyThis(w, v, id) && v.next == w.next && !w.Alive(id) && id !in v.procs
            case Reparent(id, ppid) => OnlyThis(w, v, id) && v.next == w.next && id in v.procs && v.procs[id].ppid == ppid && v.procs[id].pid == w.procs[id].pid
            case LeaveGroup(id, pgid) => OnlyThis(w, v, id) && v.next == w.next && v.Alive(id) && v.procs[id].pgid == pgid != group
            case SetMarker(id, marked) => OnlyThis(w, v, id) && v.next == w.next && v.Alive(id) && v.procs[id].marked == marked
            case Outsider(id, p) => OnlyThis(w, v, id) && id in v.procs && v.procs[id] == p && !p.ours && (id in w.procs ==> !w.procs[id].ours)
  {}

  /** A history of the world, one action at a time. */
  ghost predicate History(env: nat -> World, acts: nat -> Action, group: Pid) {
    env(0).Valid() && OnePidEach(env(0)) && forall n: nat :: Moves(env, acts, group, n)
  }

  predicate Moves(env: nat -> World, acts: nat -> Action, group: Pid, n: nat) {
    May(env(n), acts(n), group) && env(n + 1) == Do(env(n), acts(n))
  }

  predicate OnePidEach(w: World) {
    forall i, j :: i in w.procs && j in w.procs && i != j ==> w.procs[i].pid != w.procs[j].pid
  }

  lemma {:induction false} WorldsStayValid(env: nat -> World, acts: nat -> Action, group: Pid, n: nat)
    requires History(env, acts, group)
    ensures env(n).Valid() && OnePidEach(env(n))
  {
    if n > 0 {
      assert Moves(env, acts, group, n - 1);
      WorldsStayValid(env, acts, group, n - 1);
    }
  }

  // ---------------------------------------------------------------------------
  // What two moments say about one process
  // ---------------------------------------------------------------------------

  /** One identity at two moments: gone stays gone, dead stays dead, and the pid never changes. */
  predicate Consistent(w: World, v: World, id: Ident) {
    && w.next <= v.next
    && (id < w.next && id !in w.procs ==> id !in v.procs)
    && (id in w.procs && id in v.procs ==> v.procs[id].pid == w.procs[id].pid && (v.Alive(id) ==> w.Alive(id)))
    && (id in w.procs && id in v.procs ==> v.procs[id].ours == w.procs[id].ours)
  }

  lemma {:induction false} IdentitiesLast(env: nat -> World, acts: nat -> Action, group: Pid, m: nat, n: nat, id: Ident)
    requires History(env, acts, group) && m <= n
    ensures Consistent(env(m), env(n), id)
    decreases n - m
  {
    WorldsStayValid(env, acts, group, m);
    if m < n {
      IdentitiesLast(env, acts, group, m, n - 1, id);
      WorldsStayValid(env, acts, group, n - 1);
      assert Moves(env, acts, group, n - 1);
      ConsistentStep(env(m), env(n - 1), acts(n - 1), group, id);
    }
  }

  lemma ConsistentStep(w: World, v: World, a: Action, group: Pid, id: Ident)
    requires w.Valid() && v.Valid() && May(v, a, group) && Consistent(w, v, id)
    ensures Consistent(w, Do(v, a), id)
  {}

  /** Some living process of the invocation is in the group. */
  ghost predicate GroupLives(w: World, group: Pid) {
    exists id :: w.Alive(id) && w.procs[id].ours && w.procs[id].pgid == group
  }

  /** Nobody of the invocation joins the group from outside: if it lives later, it lived before. */
  lemma {:induction false} GroupLivedBefore(env: nat -> World, acts: nat -> Action, group: Pid, m: nat, n: nat)
    requires History(env, acts, group) && m <= n && GroupLives(env(n), group)
    ensures GroupLives(env(m), group)
    decreases n - m
  {
    if m < n {
      assert Moves(env, acts, group, n - 1);
      GroupLivedOneStepBefore(env(n - 1), acts(n - 1), group);
      GroupLivedBefore(env, acts, group, m, n - 1);
    }
  }

  lemma GroupLivedOneStepBefore(w: World, a: Action, group: Pid)
    requires May(w, a, group) && GroupLives(Do(w, a), group)
    ensures GroupLives(w, group)
  {
    var v := Do(w, a);
    var id :| v.Alive(id) && v.procs[id].ours && v.procs[id].pgid == group;
    if a.Fork? && id == w.next {
      assert w.Alive(a.parent) && w.procs[a.parent].pgid == group;
    } else {
      assert w.Alive(id) && w.procs[id].ours && w.procs[id].pgid == group;
    }
  }

  // ---------------------------------------------------------------------------
  // Faithful reads, and the theorem
  // ---------------------------------------------------------------------------

  /** The table lists every process of one moment; it may also hold stale or repeated rows. */
  ghost predicate FaithfulTable(rows: Table, w: World) {
    forall id :: id in w.procs ==> exists r :: r in rows && Shows(r, w.procs[id])
  }

  predicate Shows(r: Row, p: Process) { r.pid == p.pid && r.ppid == p.ppid && r.pgid == p.pgid && r.Zombie() == p.zombie }

  /** The marker listing has a line for every living process that carries the marker. */
  ghost predicate FaithfulMarkers(lines: seq<MarkerLine>, w: World) {
    forall id :: w.Alive(id) && w.procs[id].marked ==> exists l :: l in lines && l.carries && l.pid == Some(w.procs[id].pid)
  }

  /** Tick t looks at the moment moment(t); time does not run backwards. */
  ghost predicate Faithful(s: Supervisor, env: nat -> World, moment: nat -> nat) {
    && (forall t: nat, u: nat :: t <= u ==> moment(t) <= moment(u))
    && (forall t: nat :: Readable(s.tables(t)) ==> FaithfulTable(s.tables(t).value, env(moment(t))))
    && (forall t: nat :: MarkersReadable(s.markers(t)) ==> FaithfulMarkers(s.markers(t).value, env(moment(t))))
  }

  /** The process was the root, or chained to it, at some scan. */
  ghost predicate WasChained(s: Supervisor, env: nat -> World, moment: nat -> nat, id: Ident)
    requires forall x :: x in s.scans ==> s.Captured(x)
    reads s
  {
    exists x :: x in s.scans && id in env(moment(x.tick)).procs && ChainedAt(s, x, env(moment(x.tick)).procs[id].pid)
  }

  ghost predicate ChainedAt(s: Supervisor, x: Scanned, pid: Pid)
    requires s.Captured(x)
    reads s
  {
    Some(pid) == s.rootPid || Visits(s.tables(x.tick).value, x.root, pid)
  }

  /** The moment of the last read that the verdict rests on. */
  function LastMoment(s: Supervisor, moment: nat -> nat, t: nat): nat { moment(if s.hasMarker then t + 1 else t) }

  /**
   Soundness.  If every living process of the invocation still has the group, still carries the
   marker, or was chained to the root at some scan, and no zombie row hides a live one in the last
   table, then a positive verdict means that none is alive at the last read.
   */
  lemma VerdictIsSound(s: Supervisor, env: nat -> World, acts: nat -> Action, moment: nat -> nat, t: nat)
    requires s.Valid() && s.Proven(t) && NothingHidden(s, t)
    requires History(env, acts, s.rootPgid) && Faithful(s, env, moment)
    requires var w := env(LastMoment(s, moment, t));
             forall id :: w.Alive(id) && w.procs[id].ours ==>
               w.procs[id].pgid == s.rootPgid || (s.hasMarker && w.procs[id].marked) || WasChained(s, env, moment, id)
    ensures var w := env(LastMoment(s, moment, t)); forall id :: w.procs.Keys >= {id} && w.procs[id].ours ==> w.procs[id].zombie
  {
    var last := LastMoment(s, moment, t);
    var w := env(last);
    forall id | id in w.procs && w.procs[id].ours ensures w.procs[id].zombie {
      if !w.procs[id].zombie {
        if w.procs[id].pgid == s.rootPgid {
          NoGroupMember(s, env, acts, moment, t, last);
        } else if s.hasMarker && w.procs[id].marked {
          CarrierIsListed(s.markers(t + 1).value, w, id);
        } else {
          NotChained(s, env, acts, moment, t, last, id);
        }
      }
    }
  }

  lemma CarrierIsListed(lines: seq<MarkerLine>, w: World, id: Ident)
    requires (forall l :: l in lines ==> LineOk(l)) && FaithfulMarkers(lines, w) && w.Alive(id) && w.procs[id].marked
    ensures MarkedPids(lines) != {}
  {
    var l :| l in lines && l.carries && l.pid == Some(w.procs[id].pid);
    var pid := l.pid.value as Pid;
    assert pid in MarkedPids(lines);
  }

  lemma NoGroupMember(s: Supervisor, env: nat -> World, acts: nat -> Action, moment: nat -> nat, t: nat, last: nat)
    requires s.Valid() && s.Proven(t) && moment(t) <= last
    requires History(env, acts, s.rootPgid) && Faithful(s, env, moment)
    ensures !GroupLives(env(last), s.rootPgid)
  {
    if GroupLives(env(last), s.rootPgid) {
      GroupLivedBefore(env, acts, s.rootPgid, moment(t), last);
      assert false;
    }
  }

  /** In the last table no zombie row hides a live row of a process that only the index can show. */
  ghost predicate NothingHidden(s: Supervisor, t: nat) reads s {
    s.tables(t).Some? && forall p :: s.OnlyTracked(s.tables(t).value, p) ==> NeverHidden(s.tables(t).value, p)
  }

  /** A pid that is the root's or tracked has no live row in a table that shows nobody. */
  lemma NoLiveRow(s: Supervisor, t: nat, x: Scanned, pid: Pid)
    requires s.Valid() && s.Proven(t) && NothingHidden(s, t)
    requires x in s.scans && ChainedAt(s, x, pid)
    ensures !HasLiveRow(s.tables(t).value, pid)
  {
    s.VerdictCoversTracked(t);
  }

  /** A process that was once chained and still lives would be listed under its own pid. */
  lemma NotChained(s: Supervisor, env: nat -> World, acts: nat -> Action, moment: nat -> nat, t: nat, last: nat, id: Ident)
    requires s.Valid() && s.Proven(t) && NothingHidden(s, t) && moment(t) <= last
    requires History(env, acts, s.rootPgid) && Faithful(s, env, moment)
    requires env(last).Alive(id)
    ensures !WasChained(s, env, moment, id)
  {
    if WasChained(s, env, moment, id) {
      var x :| x in s.scans && id in env(moment(x.tick)).procs && ChainedAt(s, x, env(moment(x.tick)).procs[id].pid);
      assert moment(x.tick) <= moment(t);
      StillListed(s, env, acts, moment, x.tick, t, last, id);
      NoLiveRow(s, t, x, env(moment(x.tick)).procs[id].pid);
    }
  }

  /** Alive at the end, there at the start: listed alive under the same pid in between. */
  lemma StillListed(s: Supervisor, env: nat -> World, acts: nat -> Action, moment: nat -> nat, u: nat, t: nat, last: nat, id: Ident)
    requires History(env, acts, s.rootPgid) && Faithful(s, env, moment) && Readable(s.tables(t))
    requires moment(u) <= moment(t) <= last && id in env(moment(u)).procs && env(last).Alive(id)
    ensures HasLiveRow(s.tables(t).value, env(moment(u)).procs[id].pid)
  {
    var v := env(moment(t));
    WorldsStayValid(env, acts, s.rootPgid, moment(u));
    IdentitiesLast(env, acts, s.rootPgid, moment(u), moment(t), id);
    IdentitiesLast(env, acts, s.rootPgid, moment(t), last, id);
    var r :| r in s.tables(t).value && Shows(r, v.procs[id]);
  }
}
