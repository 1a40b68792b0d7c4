/**
 Process table snapshots: rows, the child links between them, and the worklist that finds every
 descendant of the root.  A table is adversarial: parent links may be cyclic, rows may repeat.
 */
module ProcessTables {
  import opened Options

  type Pid = nat

  datatype Row = Row(pid: Pid, ppid: Pid, pgid: Pid, state: string)
  {
    predicate Zombie() { state != "" && state[0] == 'Z' }
  }

  type Table = seq<Row>

  /** The reader refuses a table with a row for pid 0. */
  predicate WellFormed(rows: Table) { forall r :: r in rows ==> r.pid > 0 }

  predicate ChildRow(rows: Table, parent: Pid, child: Pid) { exists r :: r in rows && r.ppid == parent && r.pid == child }

  /** A link the worklist follows: it skips the root and the pids 0 and 1. */
  predicate Follows(rows: Table, root: Pid, parent: Pid, child: Pid) {
    ChildRow(rows, parent, child) && child > 1 && child != root
  }

  /** A path of child links; `strict` paths use only links the worklist follows. */
  predicate Path(rows: Table, root: Pid, strict: bool, path: seq<Pid>) {
    && path != [] && path[0] == root
    && forall i :: 0 <= i < |path| - 1 ==> LinkAt(rows, root, strict, path, i)
  }

  predicate LinkAt(rows: Table, root: Pid, strict: bool, path: seq<Pid>, i: nat)
    requires i + 1 < |path|
  {
    if strict then Follows(rows, root, path[i], path[i + 1]) else ChildRow(rows, path[i], path[i + 1])
  }

  ghost predicate PathTo(rows: Table, root: Pid, strict: bool, pid: Pid) {
    exists path :: Path(rows, root, strict, path) && path[|path| - 1] == pid
  }

  /** What one scan visits. */
  ghost predicate Visits(rows: Table, root: Pid, pid: Pid) { pid != root && PathTo(rows, root, true, pid) }

  /** A set that holds the root's followed children and is closed under followed links. */
  predicate Closed(rows: Table, root: Pid, seen: set<Pid>) {
    forall r :: r in rows && (r.ppid == root || r.ppid in seen) && r.pid > 1 && r.pid != root ==> r.pid in seen
  }

  lemma {:induction false} ClosedHoldsPaths(rows: Table, root: Pid, seen: set<Pid>, path: seq<Pid>)
    requires Closed(rows, root, seen) && Path(rows, root, true, path)
    ensures path[|path| - 1] == root || path[|path| - 1] in seen
    decreases |path|
  {
    var n := |path| - 1;
    if n > 0 {
      PathShortens(rows, root, true, path);
      ClosedHoldsPaths(rows, root, seen, path[..n]);
    }
  }

  lemma PathGrows(rows: Table, root: Pid, strict: bool, parent: Pid, child: Pid)
    requires PathTo(rows, root, strict, parent)
    requires if strict then Follows(rows, root, parent, child) else ChildRow(rows, parent, child)
    ensures PathTo(rows, root, strict, child)
  {
    var path :| Path(rows, root, strict, path) && path[|path| - 1] == parent;
    var longer := path + [child];
    forall i | 0 <= i < |path| ensures LinkAt(rows, root, strict, longer, i) {
      if i < |path| - 1 { assert LinkAt(rows, root, strict, path, i); }
    }
    assert Path(rows, root, strict, longer) && longer[|longer| - 1] == child;
  }

  // ---------------------------------------------------------------------------
  // The index by parent
  // ---------------------------------------------------------------------------

  /** The rows of one parent, in table order. */
  function ChildrenOf(rows: Table, parent: Pid): Table {
    if rows == [] then []
    else
      var before := ChildrenOf(rows[..|rows| - 1], parent);
      if rows[|rows| - 1].ppid == parent then before + [rows[|rows| - 1]] else before
  }

  lemma {:induction false} ChildrenAre(rows: Table, parent: Pid)
    ensures forall r :: r in ChildrenOf(rows, parent) <==> r in rows && r.ppid == parent
  {
    if rows != [] {
      var before, last := rows[..|rows| - 1], rows[|rows| - 1];
      assert rows == before + [last];
      ChildrenAre(before, parent);
    }
  }

  method GroupByParent(rows: Table) returns (byPpid: map<Pid, Table>)
    ensures forall p: Pid :: (p in byPpid <==> ChildrenOf(rows, p) != []) && (p in byPpid ==> byPpid[p] == ChildrenOf(rows, p))
  {
    byPpid := map[];
    for i := 0 to |rows|
      invariant forall p: Pid :: (p in byPpid <==> ChildrenOf(rows[..i], p) != [])
                                 && (p in byPpid ==> byPpid[p] == ChildrenOf(rows[..i], p))
    {
      var r := rows[i];
      assert rows[..i + 1][..i] == rows[..i];
      byPpid := byPpid[r.ppid := (if r.ppid in byPpid then byPpid[r.ppid] else []) + [r]];
    }
    assert rows[..|rows|] == rows;
  }

  // ---------------------------------------------------------------------------
  // The worklist
  // ---------------------------------------------------------------------------

  ghost function PidsOf(rows: Table): set<Pid> { set r | r in rows :: r.pid }

  /** Every seen process is on a path, and the children of every seen process that is not pending are seen. */
  ghost predicate Exploring(rows: Table, root: Pid, pending: set<Pid>, seen: set<Pid>) {
    && seen <= PidsOf(rows)
    && (forall p :: p in seen ==> Visits(rows, root, p))
    && (forall p :: p in pending ==> p == root || p in seen)
    && (forall r :: r in rows && (r.ppid == root || r.ppid in seen) && r.ppid !in pending ==> Seen(root, seen, r.pid))
  }

  predicate Seen(root: Pid, seen: set<Pid>, pid: Pid) { pid > 1 && pid != root ==> pid in seen }

  lemma Discover(rows: Table, root: Pid, pending: set<Pid>, seen: set<Pid>, child: Row)
    requires Exploring(rows, root, pending, seen) && child.ppid in pending
    requires child in rows && child.pid > 1 && child.pid != root
    ensures Exploring(rows, root, pending + {child.pid}, seen + {child.pid})
  {
    assert PathTo(rows, root, true, child.ppid) by {
      if child.ppid == root { assert Path(rows, root, true, [root]); }
    }
    assert Follows(rows, root, child.ppid, child.pid);
    PathGrows(rows, root, true, child.ppid, child.pid);
  }

  lemma Finished(rows: Table, root: Pid, pending: set<Pid>, seen: set<Pid>, pid: Pid)
    requires Exploring(rows, root, pending, seen)
    requires forall r :: r in rows && r.ppid == pid ==> Seen(root, seen, r.pid)
    ensures Exploring(rows, root, pending - {pid}, seen)
  {}

  ghost function Elements(queue: seq<Pid>): set<Pid> { set p | p in queue }

  /** What bounds the worklist: processes not yet seen, and processes in the queue. */
  ghost function Work(rows: Table, queue: seq<Pid>, seen: set<Pid>): nat { |PidsOf(rows) - seen| + |queue| }

  lemma Enqueue(rows: Table, root: Pid, parent: Pid, queue: seq<Pid>, seen: set<Pid>, child: Row)
    requires Exploring(rows, root, Elements(queue) + {parent}, seen)
    requires child in rows && child.ppid == parent && child.pid > 1 && child.pid != root && child.pid !in seen
    ensures Exploring(rows, root, Elements(queue + [child.pid]) + {parent}, seen + {child.pid})
    ensures Work(rows, queue + [child.pid], seen + {child.pid}) == Work(rows, queue, seen)
  {
    Discover(rows, root, Elements(queue) + {parent}, seen, child);
    assert Elements(queue + [child.pid]) + {parent} == Elements(queue) + {parent} + {child.pid};
    assert PidsOf(rows) - (seen + {child.pid}) == PidsOf(rows) - seen - {child.pid};
  }

  /** One child: queued the first time it is seen. */
  method VisitChild(ghost rows: Table, root: Pid, child: Row, queue: seq<Pid>, seen: set<Pid>)
    returns (queue': seq<Pid>, seen': set<Pid>)
    requires child in rows && Exploring(rows, root, Elements(queue) + {child.ppid}, seen)
    ensures Exploring(rows, root, Elements(queue') + {child.ppid}, seen')
    ensures Work(rows, queue', seen') == Work(rows, queue, seen)
    ensures seen' == if child.pid > 1 && child.pid != root then seen + {child.pid} else seen
  {
    if child.pid in seen || child.pid == root || child.pid <= 1 { return queue, seen; }
    Enqueue(rows, root, child.ppid, queue, seen, child);
    queue', seen' := queue + [child.pid], seen + {child.pid};
  }

  /** All children of one process. */
  method VisitChildren(ghost rows: Table, root: Pid, parent: Pid, children: Table, queue: seq<Pid>, seen: set<Pid>)
    returns (queue': seq<Pid>, seen': set<Pid>)
    requires Exploring(rows, root, Elements(queue) + {parent}, seen)
    requires forall r :: r in children ==> r in rows && r.ppid == parent
    ensures Exploring(rows, root, Elements(queue') + {parent}, seen')
    ensures forall r :: r in children ==> Seen(root, seen', r.pid)
    ensures Work(rows, queue', seen') == Work(rows, queue, seen)
  {
    queue', seen' := queue, seen;
    for i := 0 to |children|
      invariant Exploring(rows, root, Elements(queue') + {parent}, seen')
      invariant Work(rows, queue', seen') == Work(rows, queue, seen)
      invariant forall r :: r in children[..i] ==> Seen(root, seen', r.pid)
    {
      assert children[i] in children && children[..i + 1] == children[..i] + [children[i]];
      queue', seen' := VisitChild(rows, root, children[i], queue', seen');
    }
    assert children[..|children|] == children;
  }

  /** The worklist terminates on every table and visits exactly the processes on a followed path. */
  method Descendants(rows: Table, root: Pid) returns (seen: set<Pid>)
    ensures forall p :: p in seen <==> Visits(rows, root, p)
  {
    var byPpid := GroupByParent(rows);
    var queue := [root];
    seen := {};
    while queue != []
      invariant Exploring(rows, root, Elements(queue), seen)
      decreases Work(rows, queue, seen)
    {
      var pid := queue[0];
      assert Elements(queue) == Elements(queue[1..]) + {pid};
      ChildrenAre(rows, pid);
      queue, seen := VisitChildren(rows, root, pid, if pid in byPpid then byPpid[pid] else [], queue[1..], seen);
      if pid in queue {
        assert Elements(queue) + {pid} == Elements(queue);
      } else {
        Finished(rows, root, Elements(queue) + {pid}, seen, pid);
        assert Elements(queue) + {pid} - {pid} == Elements(queue);
      }
    }
    ClosedIsAll(rows, root, seen);
  }

  lemma ClosedIsAll(rows: Table, root: Pid, seen: set<Pid>)
    requires Exploring(rows, root, {}, seen)
    ensures forall p :: Visits(rows, root, p) ==> p in seen
  {
    assert Closed(rows, root, seen) by {
      forall r | r in rows && (r.ppid == root || r.ppid in seen) && r.pid > 1 && r.pid != root ensures r.pid in seen {
        assert Seen(root, seen, r.pid);
      }
    }
    forall p | Visits(rows, root, p) ensures p in seen {
      var path :| Path(rows, root, true, path) && path[|path| - 1] == p;
      ClosedHoldsPaths(rows, root, seen, path);
    }
  }

  // ---------------------------------------------------------------------------
  // Links through pid 1
  // ---------------------------------------------------------------------------

  /** Reachable from the root by child links, whatever they pass through. */
  ghost predicate Reachable(rows: Table, root: Pid, pid: Pid) { PathTo(rows, root, false, pid) }

  /** Whatever hangs below pid 1 is visited, or pid 1 is not below the root. */
  ghost predicate NothingBehindInit(rows: Table, root: Pid) {
    !Reachable(rows, root, 1) || forall c :: ChildRow(rows, 1, c) && c > 1 && c != root ==> Visits(rows, root, c)
  }

  /**
   The worklist does not go through pid 1, so it visits every reachable pid above 1 exactly when
   nothing unvisited hangs below pid 1, or pid 1 itself is not below the root.
   */
  lemma VisitsAllReachable(rows: Table, root: Pid)
    requires WellFormed(rows) && root > 1
    ensures (forall p :: p > 1 && p != root && Reachable(rows, root, p) ==> Visits(rows, root, p))
            <==> NothingBehindInit(rows, root)
    ensures forall p :: Visits(rows, root, p) ==> p > 1 && Reachable(rows, root, p)
  {
    forall p | Visits(rows, root, p) ensures p > 1 && Reachable(rows, root, p) { StrictIsReachable(rows, root, p); }
    if NothingBehindInit(rows, root) {
      forall p | p > 1 && p != root && Reachable(rows, root, p) ensures Visits(rows, root, p) {
        var path :| Path(rows, root, false, path) && path[|path| - 1] == p;
        ReachableIsVisited(rows, root, path);
      }
    }
    if (forall p :: p > 1 && p != root && Reachable(rows, root, p) ==> Visits(rows, root, p)) && Reachable(rows, root, 1) {
      forall c | ChildRow(rows, 1, c) && c > 1 && c != root ensures Visits(rows, root, c) {
        PathGrows(rows, root, false, 1, c);
      }
    }
  }

  /** As long as no row of pid 1 has a parent above 1, every reachable pid above 1 is visited. */
  lemma InitIsNobodysChild(rows: Table, root: Pid)
    requires WellFormed(rows) && root > 1
    requires forall r :: r in rows && r.pid == 1 ==> r.ppid <= 1
    ensures forall p :: p > 1 && p != root ==> (Reachable(rows, root, p) <==> Visits(rows, root, p))
  {
    if Reachable(rows, root, 1) {
      var path :| Path(rows, root, false, path) && path[|path| - 1] == 1;
      StaysAboveInit(rows, root, path);
      assert false;
    }
    VisitsAllReachable(rows, root);
  }

  lemma {:induction false} StaysAboveInit(rows: Table, root: Pid, path: seq<Pid>)
    requires WellFormed(rows) && root > 1 && Path(rows, root, false, path)
    requires forall r :: r in rows && r.pid == 1 ==> r.ppid <= 1
    ensures path[|path| - 1] > 1
    decreases |path|
  {
    if |path| > 1 {
      PathShortens(rows, root, false, path);
      StaysAboveInit(rows, root, path[..|path| - 1]);
    }
  }

  lemma PathShortens(rows: Table, root: Pid, strict: bool, path: seq<Pid>)
    requires Path(rows, root, strict, path) && |path| > 1
    ensures Path(rows, root, strict, path[..|path| - 1]) && LinkAt(rows, root, strict, path, |path| - 2)
  {
    var shorter := path[..|path| - 1];
    forall i | 0 <= i < |shorter| - 1 ensures LinkAt(rows, root, strict, shorter, i) { assert LinkAt(rows, root, strict, path, i); }
  }

  lemma StrictIsReachable(rows: Table, root: Pid, pid: Pid)
    requires Visits(rows, root, pid)
    ensures pid > 1 && Reachable(rows, root, pid)
  {
    var path :| Path(rows, root, true, path) && path[|path| - 1] == pid;
    forall i | 0 <= i < |path| - 1 ensures LinkAt(rows, root, false, path, i) { assert LinkAt(rows, root, true, path, i); }
    assert Path(rows, root, false, path);
    assert LinkAt(rows, root, true, path, |path| - 2);
  }

  /** Along any path every pid is the root, visited, or pid 1. */
  lemma {:induction false} ReachableIsVisited(rows: Table, root: Pid, path: seq<Pid>)
    requires WellFormed(rows) && root > 1 && NothingBehindInit(rows, root) && Path(rows, root, false, path)
    ensures var p := path[|path| - 1]; p == root || p == 1 || Visits(rows, root, p)
    decreases |path|
  {
    var n := |path| - 1;
    if n > 0 {
      PathShortens(rows, root, false, path);
      ReachableIsVisited(rows, root, path[..n]);
      var q, p := path[n - 1], path[n];
      assert PathTo(rows, root, false, q);
      if p > 1 && p != root && (q == root || Visits(rows, root, q)) {
        if q == root { assert Path(rows, root, true, [root]); }
        assert Follows(rows, root, q, p);
        PathGrows(rows, root, true, q, p);
      }
    }
  }

  /** A table in which pid 1 hangs below the root hides a reachable process from the worklist. */
  lemma InitHidesAProcess()
    ensures var rows := [Row(1, 5, 5, "S"), Row(7, 1, 7, "S")];
            WellFormed(rows) && Reachable(rows, 5, 7) && !Visits(rows, 5, 7)
  {
    var rows := [Row(1, 5, 5, "S"), Row(7, 1, 7, "S")];
    assert rows[0] in rows && rows[1] in rows;
    assert LinkAt(rows, 5, false, [5, 1, 7], 0) && LinkAt(rows, 5, false, [5, 1, 7], 1);
    assert Path(rows, 5, false, [5, 1, 7]);
    if Visits(rows, 5, 7) {
      var path :| Path(rows, 5, true, path) && path[|path| - 1] == 7;
      ClosedHoldsPaths(rows, 5, {}, path);
      assert false;
    }
  }
}
