/** The workspace as the server runs it: rows updated in place by transactions, branches read by a recursive query,
    events appended one node at a time. Every method is tied to the command of the same name. */
module Store {
  import opened Wrappers
  import opened Forest
  import opened Commands
  import opened ForestInvariant
  import opened History
  import opened Goals
  import opened RoundTrip

  lemma {:induction false} LoggedOneMore(revision: nat, kind: EventKind, m: Nodes, ids: set<NodeId>, n: NodeId)
    requires n in m && n !in ids
    ensures Logged(revision, kind, m, ids + {n}) == Logged(revision, kind, m, ids) +
      multiset{Event(revision, n, kind, Some(Snap(m[n])))}
  {
    var one := Event(revision, n, kind, Some(Snap(m[n])));
    var old' := set d | d in ids && d in m :: Event(revision, d, kind, Some(Snap(m[d])));
    assert (set d | d in ids + {n} && d in m :: Event(revision, d, kind, Some(Snap(m[d])))) == old' + {one};
    assert one !in old';
  }

  lemma {:induction false} LoggedRemovalsOneMore(revision: nat, ids: set<NodeId>, n: NodeId)
    requires n !in ids
    ensures LoggedRemovals(revision, ids + {n}) == LoggedRemovals(revision, ids) +
      multiset{Event(revision, n, NodeRemoved, None)}
  {
    var one := Event(revision, n, NodeRemoved, None);
    var old' := set d | d in ids :: Event(revision, d, NodeRemoved, None);
    assert (set d | d in ids + {n} :: Event(revision, d, NodeRemoved, None)) == old' + {one};
    assert one !in old';
  }

  /** Where a recursive query stands: `found` was expanded, `level` is the last round. */
  ghost predicate Searching(m: Nodes, within: set<NodeId>, top: NodeId, rank: map<NodeId, nat>, found: set<NodeId>,
                            level: set<NodeId>)
  {
    && found !! level && top in found + level && found + level <= Branch(m, within, top)
    && ChildrenIn(m, within, found) <= found + level
    && (forall n :: n in found + level && n != top ==> ChildOf(m, n, found))
    && (forall n :: n in found + level ==> n in within && n in rank && top in rank && rank[top] <= rank[n])
  }

  /** The next round brings only rows not seen before: a row seen twice would lie on a loop of parents. */
  lemma {:induction false} NextRoundIsNew(m: Nodes, within: set<NodeId>, top: NodeId, rank: map<NodeId, nat>,
                                          found: set<NodeId>, level: set<NodeId>)
    requires Ranked(m, rank) && within <= m.Keys && top in within && Searching(m, within, top, rank, found, level)
    ensures ChildrenIn(m, within, level) !! found + level
    ensures Searching(m, within, top, rank, found + level, ChildrenIn(m, within, level))
  {
    var next := ChildrenIn(m, within, level);
    forall n | n in next
      ensures n !in found + level && n in rank && rank[top] <= rank[n] && n in Branch(m, within, top)
    {
      assert Under(m, n, m[n].parent.value);
      assert n in ChildrenIn(m, within, Branch(m, within, top));
    }
  }

  /** A recursive query with UNION ALL: each round joins the rows of the previous round with their children and keeps
      duplicates. Over an acyclic table it ends and finds every row of the branch once. */
  method RecursiveQuery(m: Nodes, within: set<NodeId>, top: NodeId) returns (rows: multiset<NodeId>)
    requires Grounded(m) && within <= m.Keys
    ensures rows == multiset(Branch(m, within, top))
  {
    if top !in within { return multiset{}; }
    ghost var rank :| Ranked(m, rank);
    ghost var found: set<NodeId> := {};
    var level := {top};
    rows := multiset(level);
    while level != {}
      invariant Searching(m, within, top, rank, found, level)
      invariant rows == multiset(found + level)
      decreases within - found
    {
      NextRoundIsNew(m, within, top, rank, found, level);
      var next := ChildrenIn(m, within, level);
      rows := rows + multiset(next);
      found := found + level;
      level := next;
    }
    ClosureIsLeast(m, within, {top}, found);
    assert found == Branch(m, within, top);
  }

  method QueriedIds(m: Nodes, within: set<NodeId>, top: NodeId) returns (ids: set<NodeId>)
    requires Grounded(m) && within <= m.Keys
    ensures ids == Branch(m, within, top)
  {
    var rows := RecursiveQuery(m, within, top);
    ids := set n | n in rows;
  }

  /** The loop over the rows of a branch before it is moved or removed. */
  method BranchIsEditable(m: Nodes, branch: set<NodeId>, forbidden: Option<NodeId>) returns (editable: bool)
    requires branch <= m.Keys
    ensures editable <==> FullyPlanned(m, branch) && (forbidden.Some? ==> forbidden.value !in branch)
  {
    var left := branch;
    while left != {}
      invariant left <= branch && FullyPlanned(m, branch - left) &&
        (forbidden.Some? ==> forbidden.value !in branch - left)
      decreases left
    {
      var n :| n in left;
      if !m[n].lifecycle.Planned? || forbidden == Some(n) { return false; }
      left := left - {n};
    }
    assert branch - left == branch;
    return true;
  }

  /** Each subset of the rows is a run of the loop that writes their events. */
  method RecordNodeChanges(log: multiset<Event>, revision: nat, kind: EventKind, m: Nodes, rows: set<NodeId>)
    returns (log': multiset<Event>)
    requires rows <= m.Keys
    ensures log' == log + Logged(revision, kind, m, rows)
  {
    log' := log;
    var left := rows;
    while left != {}
      invariant left <= rows && log' == log + Logged(revision, kind, m, rows - left)
      decreases left
    {
      var n :| n in left;
      LoggedOneMore(revision, kind, m, rows - left, n);
      assert rows - (left - {n}) == rows - left + {n};
      log' := log' + multiset{Event(revision, n, kind, Some(Snap(m[n])))};
      left := left - {n};
    }
  }

  /** Reads the branch as the transaction left it and writes an event for each of its rows. */
  method RecordBranch(log: multiset<Event>, revision: nat, kind: EventKind, m: Nodes, x: NodeId)
    returns (log': multiset<Event>)
    requires Grounded(m)
    ensures log' == log + Logged(revision, kind, m, LiveBranch(m, x))
  {
    var after := QueriedIds(m, LiveIds(m), x);
    log' := RecordNodeChanges(log, revision, kind, m, after);
  }

  method RecordRemovals(log: multiset<Event>, revision: nat, rows: set<NodeId>) returns (log': multiset<Event>)
    ensures log' == log + LoggedRemovals(revision, rows)
  {
    log' := log;
    var left := rows;
    while left != {}
      invariant left <= rows && log' == log + LoggedRemovals(revision, rows - left)
      decreases left
    {
      var n :| n in left;
      LoggedRemovalsOneMore(revision, rows - left, n);
      assert rows - (left - {n}) == rows - left + {n};
      log' := log' + multiset{Event(revision, n, NodeRemoved, None)};
      left := left - {n};
    }
  }

  /** The history reader: rows in query order, folded into a snapshot. */
  method NodesAtRevision(rows: seq<Event>) returns (snapshot: map<NodeId, Snapshot>)
    ensures snapshot == Replay(rows)
  {
    snapshot := map[];
    for i := 0 to |rows|
      invariant snapshot == Replay(rows[..i])
    {
      var e := rows[i];
      assert rows[..i + 1][..i] == rows[..i];
      if e.kind.NodeRemoved? || e.after.None? {
        snapshot := snapshot - {e.node};
      } else {
        snapshot := snapshot[e.node := e.after.value];
      }
    }
    assert rows[..|rows|] == rows;
  }

  /** Some run of commands on a new workspace leads here. */
  ghost predicate Reachable(w: Workspace) {
    exists root, title, cs :: w == Run(CreateWorkspace(root, title), cs)
  }

  lemma {:induction false} ReachableIsForest(w: Workspace)
    requires Reachable(w)
    ensures WellFormed(w.nodes, w.revision) && Grounded(w.nodes)
  {
    var root, title, cs :| w == Run(CreateWorkspace(root, title), cs);
    RunsKeepForest(root, title, cs);
  }

  lemma {:induction false} StepIsReachable(w: Workspace, c: Command)
    requires Reachable(w)
    ensures Reachable(Step(w, c))
  {
    var root, title, cs :| w == Run(CreateWorkspace(root, title), cs);
    assert (cs + [c])[..|cs|] == cs;
    assert Step(w, c) == Run(CreateWorkspace(root, title), cs + [c]);
  }

  lemma {:induction false} ReachableIsGrounded(w: Workspace)
    requires Reachable(w)
    ensures Grounded(w.nodes)
  {
    ReachableIsForest(w);
  }

  lemma {:induction false} OutcomeOf(w: Workspace, c: Command)
    requires Reachable(w)
    ensures var (reply, w') := Perform(w, c); if reply.Done? then w'.revision == w.revision + 1 else w' == w
  {
    ReachableIsForest(w);
    StepIsAccurate(w, c);
  }

  lemma {:induction false} MovedIsGrounded(w: Workspace, x: NodeId, target: NodeId)
    requires Reachable(w) && Live(w.nodes, x) && Live(w.nodes, target) && target !in LiveBranch(w.nodes, x)
    ensures Grounded(Moved(w.nodes, LiveBranch(w.nodes, x), x, target, w.revision + 1))
  {
    ReachableIsForest(w);
    MoveKeepsGrounded(w.nodes, x, target, w.revision + 1);
  }

  lemma {:induction false} RevivedIsGrounded(w: Workspace, x: NodeId)
    requires Reachable(w) && RestorableTop(w.nodes, x) && w.nodes[x].parent.Some? &&
      Live(w.nodes, w.nodes[x].parent.value)
    ensures Grounded(w.nodes) &&
      Grounded(Revived(w.nodes, RemovedBranch(w.nodes, x), w.nodes[x].parent.value, w.revision + 1))
  {
    ReachableIsForest(w);
    RestoreKeepsLiveRows(w.nodes, x, w.revision + 1);
  }

  /** Compare-and-set on the revision: the next revision, or nothing when the precondition names another one. */
  method NextRevisionExpected(revision: nat, expected: Option<nat>) returns (next: Option<nat>)
    ensures next == if Admits(expected, revision) then Some(revision + 1) else None
  {
    next := None;
    if expected.None? || expected.value == revision {
      next := Some(revision + 1);
    }
  }

  /** The live rows of a branch; empty when the node itself is not live. */
  method LockSubtree(m: Nodes, x: NodeId) returns (branch: set<NodeId>)
    requires Grounded(m)
    ensures branch == LiveBranch(m, x) && (branch == {} <==> !Live(m, x))
  {
    branch := QueriedIds(m, LiveIds(m), x);
    assert Live(m, x) ==> x in branch;
  }

  method CreateTransaction(w: Workspace, id: NodeId, under: Option<NodeId>, title: string, outcome: string,
                           expected: Option<nat>)
    returns (reply: Reply, w': Workspace)
    ensures (reply, w') == CreateNode(w, id, under, title, outcome, expected)
  {
    if title == "" { return BadRequest, w; }
    var next := NextRevisionExpected(w.revision, expected);
    if next.None? { return PreconditionFailed, w; }
    if under.Some? && !Live(w.nodes, under.value) { return NotFound, w; }
    if |title| > MAX_TITLE || id in w.nodes { return Failure, w; }
    var root, partition := id, id;
    if under.Some? {
      root, partition := w.nodes[under.value].root, w.nodes[under.value].partition;
    }
    var rows := w.nodes[id := Node(under, root, partition, title, outcome, Planned, next.value, next.value, None)];
    var log := RecordNodeChanges(w.events, next.value, NodeCreated, rows, {id});
    return Done, Workspace(next.value, rows, log);
  }

  method UpdateTransaction(w: Workspace, x: NodeId, title: string, outcome: string, lifecycle: Lifecycle,
                           expected: Option<nat>)
    returns (reply: Reply, w': Workspace)
    ensures (reply, w') == UpdateNode(w, x, title, outcome, lifecycle, expected)
  {
    if title == "" { return BadRequest, w; }
    var next := NextRevisionExpected(w.revision, expected);
    if next.None? { return PreconditionFailed, w; }
    if !Live(w.nodes, x) { return NotFound, w; }
    if lifecycle != w.nodes[x].lifecycle { return Conflict, w; }
    if |title| > MAX_TITLE { return Failure, w; }
    var rows := w.nodes[x := w.nodes[x].(title := title, outcome := outcome, lifecycle := lifecycle,
                                         updated := next.value)];
    var log := RecordNodeChanges(w.events, next.value, NodeUpdated, rows, {x});
    return Done, Workspace(next.value, rows, log);
  }

  /** The first row of a branch read in order of creation. */
  method OldestRow(m: Nodes, branch: set<NodeId>) returns (first: NodeId)
    requires branch != {} && branch <= m.Keys
    ensures Oldest(m, branch, first)
  {
    first :| first in branch;
    var left := branch - {first};
    while left != {}
      invariant left <= branch && first in branch - left
      invariant forall k :: k in branch - left ==> m[first].created <= m[k].created
      decreases left
    {
      var n :| n in left;
      if m[n].created < m[first].created {
        first := n;
      }
      left := left - {n};
    }
  }

  lemma {:induction false} OldestDecides(w: Workspace, branch: set<NodeId>, first: NodeId)
    requires Reachable(w) && Oldest(w.nodes, branch, first)
    ensures LedByGoal(w.nodes, branch) <==> w.nodes[first].parent.None?
  {
    ReachableIsForest(w);
    hide Reachable, LiveRowsOk, RemovedRowsOk, Grounded;
    forall n | Oldest(w.nodes, branch, n) ensures n == first {
      OldestIsUnique(w.nodes, branch, n, first, w.revision);
    }
  }

  /** Reads the branch and looks at its first row, as moving and removing both begin. */
  method OpenBranch(w: Workspace, x: NodeId) returns (branch: set<NodeId>, goal: bool)
    requires Reachable(w)
    ensures branch == LiveBranch(w.nodes, x) && (branch == {} <==> !Live(w.nodes, x)) && branch <= w.nodes.Keys
    ensures goal <==> LedByGoal(w.nodes, branch)
  {
    ReachableIsGrounded(w);
    branch := LockSubtree(w.nodes, x);
    assert branch <= w.nodes.Keys;
    goal := false;
    if branch != {} {
      var first := OldestRow(w.nodes, branch);
      OldestDecides(w, branch, first);
      goal := w.nodes[first].parent.None?;
    }
  }

  method MoveTransaction(w: Workspace, x: NodeId, target: NodeId, expected: Option<nat>)
    returns (reply: Reply, w': Workspace)
    requires Reachable(w)
    ensures (reply, w') == MoveNode(w, x, target, expected)
  {
    hide Reachable, LiveBranch, LedByGoal, FullyPlanned, Moved, Logged, Grounded;
    if target == x { return BadRequest, w; }
    var branch, goal := OpenBranch(w, x);
    if branch == {} { return NotFound, w; }
    if goal { return Conflict, w; }
    var editable := BranchIsEditable(w.nodes, branch, Some(target));
    if !editable { return Conflict, w; }
    if !Live(w.nodes, target) { return NotFound, w; }
    if !w.nodes[target].lifecycle.Planned? { return Conflict, w; }
    var next := NextRevisionExpected(w.revision, expected);
    if next.None? { return PreconditionFailed, w; }
    MovedIsGrounded(w, x, target);
    var rows := Moved(w.nodes, branch, x, target, next.value);
    var log := RecordBranch(w.events, next.value, NodeMoved, rows, x);
    return Done, Workspace(next.value, rows, log);
  }

  method RemoveTransaction(w: Workspace, x: NodeId, expected: Option<nat>) returns (reply: Reply, w': Workspace)
    requires Reachable(w)
    ensures (reply, w') == RemoveNode(w, x, expected)
  {
    hide Reachable, LiveBranch, LedByGoal, FullyPlanned, Stamp, LoggedRemovals, Grounded;
    var branch, goal := OpenBranch(w, x);
    if branch == {} { return NotFound, w; }
    if goal { return Conflict, w; }
    var editable := BranchIsEditable(w.nodes, branch, None);
    if !editable { return Conflict, w; }
    var next := NextRevisionExpected(w.revision, expected);
    if next.None? { return PreconditionFailed, w; }
    reply := Done;
    var log := RecordRemovals(w.events, next.value, branch);
    w' := Workspace(next.value, Stamp(w.nodes, branch, next.value), log);
  }

  /** The events are written for the live branch read after the update. */
  method RestoreTransaction(w: Workspace, x: NodeId, expected: Option<nat>) returns (reply: Reply, w': Workspace)
    requires Reachable(w)
    ensures (reply, w') == RestoreNode(w, x, expected)
  {
    if !RestorableTop(w.nodes, x) { return NotFound, w; }
    if w.nodes[x].parent.None? { return Failure, w; }
    var p := w.nodes[x].parent.value;
    if !Live(w.nodes, p) { return NotFound, w; }
    if !w.nodes[p].lifecycle.Planned? { return Conflict, w; }
    RevivedIsGrounded(w, x);
    var branch := QueriedIds(w.nodes, Stamped(w.nodes, w.nodes[x].removed.value), x);
    var next := NextRevisionExpected(w.revision, expected);
    if next.None? { return PreconditionFailed, w; }
    var rows := Revived(w.nodes, branch, p, next.value);
    var log := RecordBranch(w.events, next.value, NodeRestored, rows, x);
    return Done, Workspace(next.value, rows, log);
  }

  /** The rows below a live node are its branch without the node itself. */
  lemma {:induction false} BelowIsBranchWithoutTop(m: Nodes, x: NodeId, revision: nat)
    requires WellFormed(m, revision) && Live(m, x)
    ensures LiveDescendants(m, x) == LiveBranch(m, x) - {x}
  {
    var live, branch, below := LiveIds(m), LiveBranch(m, x), LiveDescendants(m, x);
    var seeds := ChildrenIn(m, live, {x});
    forall n | n in ChildrenIn(m, live, branch) ensures n in branch - {x} {
      if n == x {
        ParentOutsideBranch(m, x, revision);
      }
    }
    assert seeds <= ChildrenIn(m, live, branch);
    assert ChildrenIn(m, live, branch - {x}) <= ChildrenIn(m, live, branch);
    ClosureIsLeast(m, live, seeds, branch - {x});
    forall n | n in ChildrenIn(m, live, below + {x}) ensures n in below + {x} {
      assert n in seeds || n in ChildrenIn(m, live, below);
    }
    ClosureIsLeast(m, live, {x}, below + {x});
  }

  lemma {:induction false} ReachableBelow(w: Workspace, x: NodeId)
    requires Reachable(w) && Live(w.nodes, x)
    ensures LiveDescendants(w.nodes, x) == LiveBranch(w.nodes, x) - {x}
  {
    ReachableIsForest(w);
    BelowIsBranchWithoutTop(w.nodes, x, w.revision);
  }

  /** Whether some live node below `x` is not closed. */
  method FindOpenWork(w: Workspace, x: NodeId) returns (open: bool)
    requires Reachable(w) && Live(w.nodes, x)
    ensures open <==> HasOpenDescendants(w.nodes, x)
  {
    ReachableIsGrounded(w);
    ReachableBelow(w, x);
    var branch := QueriedIds(w.nodes, LiveIds(w.nodes), x);
    var left := branch - {x};
    while left != {}
      invariant left <= LiveDescendants(w.nodes, x)
      invariant forall n :: n in LiveDescendants(w.nodes, x) - left ==> n in w.nodes && w.nodes[n].lifecycle.Closed?
      decreases left
    {
      var n :| n in left;
      if !w.nodes[n].lifecycle.Closed? { return true; }
      left := left - {n};
    }
    return false;
  }

  method AdvanceTransaction(w: Workspace, x: NodeId, action: Action) returns (reply: Reply, w': Workspace)
    requires Reachable(w)
    ensures (reply, w') == AdvanceNode(w, x, action)
  {
    if !Live(w.nodes, x) { return NotFound, w; }
    if w.nodes[x].lifecycle != Source(action) { return Conflict, w; }
    if action.Accept? {
      var open := FindOpenWork(w, x);
      if open { return Conflict, w; }
    }
    var rows := w.nodes[x := w.nodes[x].(lifecycle := Destination(action), updated := w.revision + 1)];
    var log := RecordNodeChanges(w.events, w.revision + 1, NodeUpdated, rows, {x});
    return Done, Workspace(w.revision + 1, rows, log);
  }

  /** The three tables of a workspace, updated in place. Every command commits one transaction or leaves them alone. */
  class WorkspaceStore {
    var revision: nat
    var nodes: Nodes
    var events: multiset<Event>

    ghost predicate Valid()
      reads this
    {
      Reachable(State())
    }

    function State(): Workspace
      reads this
    {
      Workspace(revision, nodes, events)
    }

    constructor (root: NodeId, title: string)
      ensures Valid() && State() == CreateWorkspace(root, title)
    {
      var node := Node(None, root, root, title, "", Planned, 1, 1, None);
      revision := 1;
      nodes := map[root := node];
      events := multiset{Event(1, root, NodeCreated, Some(Snap(node)))};
      new;
      assert Run(CreateWorkspace(root, title), []) == State();
    }

    method Execute(c: Command) returns (reply: Reply)
      requires Valid()
      modifies this
      ensures Valid() && (reply, State()) == Perform(old(State()), c)
      ensures reply.Done? <==> revision == old(revision) + 1
      ensures !reply.Done? ==> State() == old(State())
    {
      var w := State();
      var w' := w;
      match c {
        case Create(id, under, title, outcome, expected) =>
          reply, w' := CreateTransaction(w, id, under, title, outcome, expected);
        case Update(x, title, outcome, lifecycle, expected) =>
          reply, w' := UpdateTransaction(w, x, title, outcome, lifecycle, expected);
        case Move(x, target, expected) => reply, w' := MoveTransaction(w, x, target, expected);
        case Remove(x, expected) => reply, w' := RemoveTransaction(w, x, expected);
        case Restore(x, expected) => reply, w' := RestoreTransaction(w, x, expected);
        case Advance(x, action) => reply, w' := AdvanceTransaction(w, x, action);
        case Touch => reply, w' := Done, w.(revision := w.revision + 1);
      }
      assert (reply, w') == Perform(w, c);
      StepIsReachable(w, c);
      OutcomeOf(w, c);
      revision, nodes, events := w'.revision, w'.nodes, w'.events;
    }
  }
}
