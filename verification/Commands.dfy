/** One workspace as a state machine: every command is one transaction over the node rows, the event log
    and the workspace revision. */
module Commands {
  import opened Wrappers
  import opened Forest

  datatype EventKind = NodeCreated | NodeUpdated | NodeMoved | NodeRemoved | NodeRestored

  datatype Event = Event(revision: nat, node: NodeId, kind: EventKind, after: Option<Snapshot>)

  datatype Workspace = Workspace(revision: nat, nodes: Nodes, events: multiset<Event>)

  datatype Reply = Done | BadRequest | NotFound | Conflict | PreconditionFailed | Failure

  /** How workflow actions and runners move a node through its lifecycle. */
  datatype Action = Start | Finish(last: bool) | Block | Accept | SendBack | Reopen | Retry

  datatype Command =
    | Create(id: NodeId, under: Option<NodeId>, title: string, outcome: string, expected: Option<nat>)
    | Update(node: NodeId, title: string, outcome: string, lifecycle: Lifecycle, expected: Option<nat>)
    | Move(node: NodeId, target: NodeId, expected: Option<nat>)
    | Remove(node: NodeId, expected: Option<nat>)
    | Restore(node: NodeId, expected: Option<nat>)
    | Advance(node: NodeId, action: Action)
    | Touch // a committed writer of other tables: it only takes the next revision

  const MAX_TITLE := 500

  /** A revision precondition is optional; when present it must name the current revision. */
  predicate Admits(expected: Option<nat>, revision: nat) {
    expected.None? || expected.value == revision
  }

  /** One event for each row in `ids`, carrying the row as it is after the change. */
  function Logged(revision: nat, kind: EventKind, m: Nodes, ids: set<NodeId>): multiset<Event> {
    multiset(set n | n in ids && n in m :: Event(revision, n, kind, Some(Snap(m[n]))))
  }

  function LoggedRemovals(revision: nat, ids: set<NodeId>): multiset<Event> {
    multiset(set n | n in ids :: Event(revision, n, NodeRemoved, None))
  }

  function CreateWorkspace(root: NodeId, title: string): Workspace {
    var node := Node(None, root, root, title, "", Planned, 1, 1, None);
    Workspace(1, map[root := node], multiset{Event(1, root, NodeCreated, Some(Snap(node)))})
  }

  function NewNode(w: Workspace, id: NodeId, under: Option<NodeId>, title: string, outcome: string): Node
    requires under.Some? ==> under.value in w.nodes
  {
    var root := if under.None? then id else w.nodes[under.value].root;
    var partition := if under.None? then id else w.nodes[under.value].partition;
    Node(under, root, partition, title, outcome, Planned, w.revision + 1, w.revision + 1, None)
  }

  function CreateNode(w: Workspace, id: NodeId, under: Option<NodeId>, title: string, outcome: string,
                      expected: Option<nat>): (Reply, Workspace)
  {
    if title == "" then (BadRequest, w)
    else if !Admits(expected, w.revision) then (PreconditionFailed, w)
    else if under.Some? && !Live(w.nodes, under.value) then (NotFound, w)
    else if |title| > MAX_TITLE || id in w.nodes then (Failure, w)
    else
      var nodes := w.nodes[id := NewNode(w, id, under, title, outcome)];
      (Done, Workspace(w.revision + 1, nodes, w.events + Logged(w.revision + 1, NodeCreated, nodes, {id})))
  }

  function UpdateNode(w: Workspace, x: NodeId, title: string, outcome: string, lifecycle: Lifecycle,
                      expected: Option<nat>): (Reply, Workspace)
  {
    if title == "" then (BadRequest, w)
    else if !Admits(expected, w.revision) then (PreconditionFailed, w)
    else if !Live(w.nodes, x) then (NotFound, w)
    else if lifecycle != w.nodes[x].lifecycle then (Conflict, w)
    else if |title| > MAX_TITLE then (Failure, w)
    else
      var nodes := w.nodes[x := w.nodes[x].(title := title, outcome := outcome, updated := w.revision + 1)];
      (Done, Workspace(w.revision + 1, nodes, w.events + Logged(w.revision + 1, NodeUpdated, nodes, {x})))
  }

  predicate FullyPlanned(m: Nodes, ids: set<NodeId>) {
    forall n :: n in ids && n in m ==> m[n].lifecycle.Planned?
  }

  /** `n` is the oldest row of the branch: the one a reading ordered by creation starts with. */
  predicate Oldest(m: Nodes, branch: set<NodeId>, n: NodeId) {
    n in branch && n in m && forall k :: k in branch && k in m ==> m[n].created <= m[k].created
  }

  /** The handlers test the first row of the branch they read for a parent. That row is the oldest one, which need not
      be the top of the branch: older work may have been moved under a newer goal. */
  predicate LedByGoal(m: Nodes, branch: set<NodeId>) {
    exists n :: n in branch && Oldest(m, branch, n) && m[n].parent.None?
  }

  function Moved(m: Nodes, branch: set<NodeId>, x: NodeId, target: NodeId, revision: nat): Nodes
    requires target in m
  {
    map n | n in m ::
      if n in branch then
        m[n].(parent := if n == x then Some(target) else m[n].parent,
              root := m[target].root, partition := m[target].partition, updated := revision)
      else m[n]
  }

  function MoveNode(w: Workspace, x: NodeId, target: NodeId, expected: Option<nat>): (Reply, Workspace) {
    var branch := LiveBranch(w.nodes, x);
    if target == x then (BadRequest, w)
    else if !Live(w.nodes, x) then (NotFound, w)
    else if LedByGoal(w.nodes, branch) || !FullyPlanned(w.nodes, branch) || target in branch then (Conflict, w)
    else if !Live(w.nodes, target) then (NotFound, w)
    else if !w.nodes[target].lifecycle.Planned? then (Conflict, w)
    else if !Admits(expected, w.revision) then (PreconditionFailed, w)
    else
      var nodes := Moved(w.nodes, branch, x, target, w.revision + 1);
      (Done, Workspace(w.revision + 1, nodes,
                       w.events + Logged(w.revision + 1, NodeMoved, nodes, LiveBranch(nodes, x))))
  }

  function Stamp(m: Nodes, branch: set<NodeId>, revision: nat): Nodes {
    map n | n in m :: if n in branch then m[n].(removed := Some(revision), updated := revision) else m[n]
  }

  function RemoveNode(w: Workspace, x: NodeId, expected: Option<nat>): (Reply, Workspace) {
    var branch := LiveBranch(w.nodes, x);
    if !Live(w.nodes, x) then (NotFound, w)
    else if LedByGoal(w.nodes, branch) || !FullyPlanned(w.nodes, branch) then (Conflict, w)
    else if !Admits(expected, w.revision) then (PreconditionFailed, w)
    else
      (Done, Workspace(w.revision + 1, Stamp(w.nodes, branch, w.revision + 1),
                       w.events + LoggedRemovals(w.revision + 1, branch)))
  }

  /** The rows a restoration of `x` revives: those below it that carry the stamp of the same removal. */
  function RemovedBranch(m: Nodes, x: NodeId): set<NodeId>
    requires x in m && m[x].removed.Some?
  {
    Branch(m, Stamped(m, m[x].removed.value), x)
  }

  function Revived(m: Nodes, branch: set<NodeId>, parent: NodeId, revision: nat): Nodes
    requires parent in m
  {
    map n | n in m ::
      if n in branch then
        m[n].(removed := None, root := m[parent].root, partition := m[parent].partition, updated := revision)
      else m[n]
  }

  function RestoreNode(w: Workspace, x: NodeId, expected: Option<nat>): (Reply, Workspace) {
    if !RestorableTop(w.nodes, x) then (NotFound, w)
    else if w.nodes[x].parent.None? then (Failure, w)
    else
      var p := w.nodes[x].parent.value;
      if !Live(w.nodes, p) then (NotFound, w)
      else if !w.nodes[p].lifecycle.Planned? then (Conflict, w)
      else if !Admits(expected, w.revision) then (PreconditionFailed, w)
      else
        var nodes := Revived(w.nodes, RemovedBranch(w.nodes, x), p, w.revision + 1);
        (Done, Workspace(w.revision + 1, nodes,
                         w.events + Logged(w.revision + 1, NodeRestored, nodes, LiveBranch(nodes, x))))
  }

  /** The lifecycle each action leaves from, and the one it leads to. */
  function Source(action: Action): Lifecycle {
    match action
    case Start => Planned
    case Finish(_) => Active
    case Block => Active
    case Accept => Review
    case SendBack => Review
    case Reopen => Closed
    case Retry => Blocked
  }

  function Destination(action: Action): Lifecycle {
    match action
    case Start => Active
    case Finish(last) => if last then Review else Planned
    case Block => Blocked
    case Accept => Closed
    case SendBack => Planned
    case Reopen => Planned
    case Retry => Planned
  }

  /** The recursive query before a node is closed: live rows reached from the live children of `x`. */
  function LiveDescendants(m: Nodes, x: NodeId): set<NodeId> {
    Closure(m, LiveIds(m), ChildrenIn(m, LiveIds(m), {x}))
  }

  predicate HasOpenDescendants(m: Nodes, x: NodeId) {
    exists n :: n in LiveDescendants(m, x) && n in m && !m[n].lifecycle.Closed?
  }

  function AdvanceNode(w: Workspace, x: NodeId, action: Action): (Reply, Workspace) {
    if !Live(w.nodes, x) then (NotFound, w)
    else if w.nodes[x].lifecycle != Source(action) then (Conflict, w)
    else if action.Accept? && HasOpenDescendants(w.nodes, x) then (Conflict, w)
    else
      var nodes := w.nodes[x := w.nodes[x].(lifecycle := Destination(action), updated := w.revision + 1)];
      (Done, Workspace(w.revision + 1, nodes, w.events + Logged(w.revision + 1, NodeUpdated, nodes, {x})))
  }

  function Perform(w: Workspace, c: Command): (Reply, Workspace) {
    match c
    case Create(id, under, title, outcome, expected) => CreateNode(w, id, under, title, outcome, expected)
    case Update(x, title, outcome, lifecycle, expected) => UpdateNode(w, x, title, outcome, lifecycle, expected)
    case Move(x, target, expected) => MoveNode(w, x, target, expected)
    case Remove(x, expected) => RemoveNode(w, x, expected)
    case Restore(x, expected) => RestoreNode(w, x, expected)
    case Advance(x, action) => AdvanceNode(w, x, action)
    case Touch => (Done, w.(revision := w.revision + 1))
  }

  function Step(w: Workspace, c: Command): Workspace {
    Perform(w, c).1
  }

  /** The workspace after a sequence of commands, refused ones included. */
  function Run(w: Workspace, cs: seq<Command>): Workspace {
    if cs == [] then w else Step(Run(w, cs[..|cs| - 1]), cs[|cs| - 1])
  }

  // ----- runs, and what accepted branch commands amount to -----

  lemma {:induction false} RunSoFar(w: Workspace, cs: seq<Command>, i: nat)
    requires i < |cs|
    ensures Run(w, cs[..i + 1]) == Step(Run(w, cs[..i]), cs[i])
  {
    hide Step;
    assert cs[..i + 1][..i] == cs[..i];
  }

  /** A refused command changes nothing. */
  lemma {:induction false} RefusalChangesNothing(w: Workspace, c: Command)
    requires !Perform(w, c).0.Done?
    ensures Step(w, c) == w
  {
    hide LiveBranch, LedByGoal, FullyPlanned, Moved, Stamp, Revived, RemovedBranch, Logged, LoggedRemovals,
      HasOpenDescendants;
  }

  lemma {:induction false} MoveIs(w: Workspace, x: NodeId, target: NodeId, expected: Option<nat>)
    requires MoveNode(w, x, target, expected).0.Done?
    ensures Live(w.nodes, x) && Live(w.nodes, target) && target !in LiveBranch(w.nodes, x) &&
      w.nodes[target].lifecycle.Planned?
    ensures FullyPlanned(w.nodes, LiveBranch(w.nodes, x))
    ensures var nodes := Moved(w.nodes, LiveBranch(w.nodes, x), x, target, w.revision + 1);
      MoveNode(w, x, target, expected).1 ==
        Workspace(w.revision + 1, nodes, w.events + Logged(w.revision + 1, NodeMoved, nodes, LiveBranch(nodes, x)))
  {
    hide LiveBranch, Moved, LedByGoal, FullyPlanned, Logged;
  }

  lemma {:induction false} RemovalIs(w: Workspace, x: NodeId, expected: Option<nat>)
    requires RemoveNode(w, x, expected).0.Done?
    ensures Live(w.nodes, x) && FullyPlanned(w.nodes, LiveBranch(w.nodes, x))
    ensures var branch := LiveBranch(w.nodes, x);
      RemoveNode(w, x, expected).1 ==
        Workspace(w.revision + 1, Stamp(w.nodes, branch, w.revision + 1),
                  w.events + LoggedRemovals(w.revision + 1, branch))
  {
    hide LiveBranch, Stamp, LedByGoal, FullyPlanned, LoggedRemovals;
  }

  lemma {:induction false} RestoreIs(w: Workspace, x: NodeId, expected: Option<nat>)
    requires RestoreNode(w, x, expected).0.Done?
    ensures RestorableTop(w.nodes, x) && w.nodes[x].parent.Some? && Live(w.nodes, w.nodes[x].parent.value)
    ensures var nodes := Revived(w.nodes, RemovedBranch(w.nodes, x), w.nodes[x].parent.value, w.revision + 1);
      RestoreNode(w, x, expected).1 ==
        Workspace(w.revision + 1, nodes, w.events + Logged(w.revision + 1, NodeRestored, nodes, LiveBranch(nodes, x)))
  {
    hide RemovedBranch, Revived, LiveBranch, Logged;
  }
}
