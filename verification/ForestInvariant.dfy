/** The forest stays a forest: every command keeps live and removed rows together acyclic, live nodes under
    live ancestors, roots at the top of their chains and each removal in one piece. */
module ForestInvariant {
  import opened Wrappers
  import opened Forest
  import opened Commands

  /** A change of rows that leaves parents, stamps and the lifecycle of removed rows alone keeps the parts of the
      invariant that speak of removed rows. */
  lemma {:induction false} RemovedRowsUntouched(m: Nodes, m': Nodes, revision: nat)
    requires RemovedRowsFrozen(m, revision) && StampsDescend(m) && OneTopPerStamp(m)
    requires m.Keys <= m'.Keys
    requires forall n :: n in m ==> m'[n].removed == m[n].removed && (m[n].removed.Some? ==> m'[n] == m[n])
    requires forall n :: n in m' && n !in m ==> m'[n].removed.None?
    requires forall n, p :: Under(m', n, p) && !Under(m, n, p) ==> Live(m', p)
    requires forall n, p :: Under(m', n, p) ==> p in m
    ensures RemovedRowsFrozen(m', revision + 1) && StampsDescend(m') && OneTopPerStamp(m')
  {
    forall n | RestorableTop(m', n) ensures RestorableTop(m, n) {
      if m'[n].parent.Some? {
        assert Under(m', n, m'[n].parent.value);
      }
    }
  }

  ghost predicate SameBirths(m: Nodes, m': Nodes) {
    m'.Keys == m.Keys && forall n :: n in m ==> m'[n].created == m[n].created
  }

  lemma {:induction false} SameBirthsStayDistinct(m: Nodes, m': Nodes, revision: nat)
    requires BirthsDistinct(m, revision) && SameBirths(m, m')
    ensures BirthsDistinct(m', revision + 1)
  {
  }

  lemma {:induction false} NewBirthIsDistinct(m: Nodes, id: NodeId, row: Node, revision: nat)
    requires BirthsDistinct(m, revision) && id !in m && row.created == revision + 1
    ensures BirthsDistinct(m[id := row], revision + 1)
  {
  }

  lemma {:induction false} NewRowKeepsLiveRows(m: Nodes, id: NodeId, row: Node)
    requires LiveRowsOk(m) && id !in m && (row.parent.Some? ==> Live(m, row.parent.value))
    requires row.root == if row.parent.None? then id else m[row.parent.value].root
    requires row.partition == if row.parent.None? then id else m[row.parent.value].partition
    ensures LiveRowsOk(m[id := row])
  {
    var m' := m[id := row];
    var rank :| Ranked(m, rank);
    var rank' := rank[id := if row.parent.None? then 0 else rank[row.parent.value] + 1];
    forall n, p | Under(m', n, p) ensures p in m && rank'[p] < rank'[n] && (n != id ==> Under(m, n, p)) {
      assert n != id ==> Under(m, n, p);
    }
    assert Ranked(m', rank');
  }

  lemma {:induction false} NewRowKeepsRemovedRows(m: Nodes, id: NodeId, row: Node, revision: nat)
    requires LiveRowsOk(m) && RemovedRowsOk(m, revision)
    requires id !in m && row.removed.None? && (row.parent.Some? ==> Live(m, row.parent.value))
    ensures RemovedRowsOk(m[id := row], revision + 1)
  {
    var m' := m[id := row];
    var rank :| Ranked(m, rank);
    forall n, p | Under(m', n, p) ensures p in m && (!Under(m, n, p) ==> Live(m', p)) {
      assert n != id ==> Under(m, n, p);
    }
    RemovedRowsUntouched(m, m', revision);
  }

  lemma {:induction false} CreateKeepsForest(w: Workspace, id: NodeId, under: Option<NodeId>, title: string,
                                             outcome: string)
    requires WellFormed(w.nodes, w.revision) && id !in w.nodes && (under.Some? ==> Live(w.nodes, under.value))
    ensures WellFormed(w.nodes[id := NewNode(w, id, under, title, outcome)], w.revision + 1)
  {
    hide LiveRowsOk, RemovedRowsOk, BirthsDistinct;
    var row := NewNode(w, id, under, title, outcome);
    NewRowKeepsLiveRows(w.nodes, id, row);
    NewRowKeepsRemovedRows(w.nodes, id, row, w.revision);
    NewBirthIsDistinct(w.nodes, id, row, w.revision);
  }

  /** The row stays where it is. */
  predicate StaysInPlace(m: Nodes, x: NodeId, row: Node) {
    && Live(m, x) && row.removed.None? && row.parent == m[x].parent
    && row.root == m[x].root && row.partition == m[x].partition && row.created == m[x].created
  }

  lemma {:induction false} RowChangeKeepsLiveRows(m: Nodes, x: NodeId, row: Node)
    requires LiveRowsOk(m) && StaysInPlace(m, x, row)
    ensures LiveRowsOk(m[x := row])
  {
    var m' := m[x := row];
    var rank :| Ranked(m, rank);
    assert forall n, p :: Under(m', n, p) ==> Under(m, n, p);
    assert Ranked(m', rank);
  }

  lemma {:induction false} RowChangeKeepsRemovedRows(m: Nodes, x: NodeId, row: Node, revision: nat)
    requires LiveRowsOk(m) && RemovedRowsOk(m, revision) && StaysInPlace(m, x, row)
    ensures RemovedRowsOk(m[x := row], revision + 1)
  {
    var m' := m[x := row];
    var rank :| Ranked(m, rank);
    assert forall n, p :: Under(m', n, p) ==> Under(m, n, p);
    RemovedRowsUntouched(m, m', revision);
  }

  lemma {:induction false} RowChangeKeepsForest(m: Nodes, x: NodeId, row: Node, revision: nat)
    requires WellFormed(m, revision) && StaysInPlace(m, x, row)
    ensures WellFormed(m[x := row], revision + 1)
  {
    hide LiveRowsOk, RemovedRowsOk, BirthsDistinct;
    RowChangeKeepsLiveRows(m, x, row);
    RowChangeKeepsRemovedRows(m, x, row, revision);
    SameBirthsStayDistinct(m, m[x := row], revision);
  }

  /** Shifting the rank of everything under `x` above the target shows that the move cannot close a loop. */
  lemma {:induction false} MoveKeepsGrounded(m: Nodes, x: NodeId, target: NodeId, revision: nat)
    requires Grounded(m) && LiveAncestors(m)
    requires Live(m, x) && Live(m, target) && target !in LiveBranch(m, x)
    ensures Grounded(Moved(m, LiveBranch(m, x), x, target, revision))
  {
    var below := Closure(m, m.Keys, {x});
    LiveNodesBelowAreInLiveBranch(m, x);
    ClosureHangsTogether(m, m.Keys, {x});
    var rank :| Ranked(m, rank);
    var rank' := map n | n in m :: if n in below then rank[n] + rank[target] + 1 else rank[n];
    var m' := Moved(m, LiveBranch(m, x), x, target, revision);
    forall n, p | Under(m', n, p) ensures p in m' && rank'[p] < rank'[n] {
      if n != x {
        assert Under(m, n, p);
        assert p in below ==> n in ChildrenIn(m, m.Keys, below);
      }
    }
    assert Ranked(m', rank');
  }

  lemma {:induction false} MovedLinks(m: Nodes, x: NodeId, target: NodeId, revision: nat)
    requires LiveRowsOk(m) && Live(m, x) && Live(m, target) && target !in LiveBranch(m, x)
    ensures var m' := Moved(m, LiveBranch(m, x), x, target, revision);
      forall n, p :: Under(m', n, p) ==>
        && p in m && (!Under(m, n, p) ==> Live(m', p))
        && (Live(m', n) ==> Live(m', p) && m'[n].root == m'[p].root && m'[n].partition == m'[p].partition)
  {
    var branch := LiveBranch(m, x);
    var m' := Moved(m, branch, x, target, revision);
    ClosureHangsTogether(m, LiveIds(m), {x});
    var rank :| Ranked(m, rank);
    forall n, p | Under(m', n, p)
      ensures p in m && (!Under(m, n, p) ==> Live(m', p))
      ensures Live(m', n) ==> Live(m', p) && m'[n].root == m'[p].root && m'[n].partition == m'[p].partition
    {
      if n != x || p != target {
        assert Under(m, n, p);
        assert Live(m, n) && p in branch ==> n in ChildrenIn(m, LiveIds(m), branch);
      }
    }
  }

  lemma {:induction false} MoveKeepsLiveRows(m: Nodes, x: NodeId, target: NodeId, revision: nat)
    requires LiveRowsOk(m) && Live(m, x) && Live(m, target) && target !in LiveBranch(m, x)
    ensures LiveRowsOk(Moved(m, LiveBranch(m, x), x, target, revision))
  {
    MoveKeepsGrounded(m, x, target, revision);
    MovedLinks(m, x, target, revision);
    ClosureHangsTogether(m, LiveIds(m), {x});
    hide Grounded;
  }

  lemma {:induction false} MoveKeepsRemovedRows(m: Nodes, x: NodeId, target: NodeId, revision: nat)
    requires LiveRowsOk(m) && RemovedRowsOk(m, revision)
    requires Live(m, x) && Live(m, target) && target !in LiveBranch(m, x)
    ensures RemovedRowsOk(Moved(m, LiveBranch(m, x), x, target, revision + 1), revision + 1)
  {
    MovedLinks(m, x, target, revision + 1);
    RemovedRowsUntouched(m, Moved(m, LiveBranch(m, x), x, target, revision + 1), revision);
  }

  lemma {:induction false} BranchEditsKeepBirths(m: Nodes, branch: set<NodeId>, x: NodeId, p: NodeId, revision: nat)
    requires p in m
    ensures SameBirths(m, Moved(m, branch, x, p, revision))
    ensures SameBirths(m, Revived(m, branch, p, revision))
    ensures SameBirths(m, Stamp(m, branch, revision))
  {
  }

  lemma {:induction false} MoveKeepsForest(m: Nodes, x: NodeId, target: NodeId, revision: nat)
    requires WellFormed(m, revision) && Live(m, x) && Live(m, target) && target !in LiveBranch(m, x)
    ensures WellFormed(Moved(m, LiveBranch(m, x), x, target, revision + 1), revision + 1)
  {
    hide LiveRowsOk, RemovedRowsOk, BirthsDistinct, Moved, LiveBranch, SameBirths;
    MoveKeepsLiveRows(m, x, target, revision + 1);
    MoveKeepsRemovedRows(m, x, target, revision);
    BranchEditsKeepBirths(m, LiveBranch(m, x), x, target, revision + 1);
    SameBirthsStayDistinct(m, Moved(m, LiveBranch(m, x), x, target, revision + 1), revision);
  }

  lemma {:induction false} RemoveKeepsLiveRows(m: Nodes, x: NodeId, revision: nat)
    requires LiveRowsOk(m)
    ensures LiveRowsOk(Stamp(m, LiveBranch(m, x), revision))
  {
    var branch := LiveBranch(m, x);
    var m' := Stamp(m, branch, revision);
    var rank :| Ranked(m, rank);
    assert forall n, p :: Under(m', n, p) ==> Under(m, n, p);
    assert Ranked(m', rank);
    forall n, p | Under(m', n, p) && Live(m, n) ensures p in branch ==> n in branch {
      assert p in branch ==> n in ChildrenIn(m, LiveIds(m), branch);
    }
  }

  lemma {:induction false} RemoveKeepsRemovedRows(m: Nodes, x: NodeId, revision: nat)
    requires LiveRowsOk(m) && RemovedRowsOk(m, revision) && Live(m, x) && FullyPlanned(m, LiveBranch(m, x))
    ensures RemovedRowsOk(Stamp(m, LiveBranch(m, x), revision + 1), revision + 1)
  {
    var branch := LiveBranch(m, x);
    var m' := Stamp(m, branch, revision + 1);
    ClosureHangsTogether(m, LiveIds(m), {x});
    forall n, p | Under(m', n, p) && p in m' && m'[p].removed.Some?
      ensures m'[n].removed.Some? && m'[n].removed.value <= m'[p].removed.value
    {
      assert Under(m, n, p);
      assert Live(m, n) && p in branch ==> n in ChildrenIn(m, LiveIds(m), branch);
    }
    forall n | RestorableTop(m', n) ensures n == x || (n !in branch && RestorableTop(m, n)) {
      assert m[n].parent.Some? ==> Under(m, n, m[n].parent.value);
    }
  }

  lemma {:induction false} RestoreKeepsLiveRows(m: Nodes, x: NodeId, revision: nat)
    requires LiveRowsOk(m) && RestorableTop(m, x) && m[x].parent.Some? && Live(m, m[x].parent.value)
    ensures LiveRowsOk(Revived(m, RemovedBranch(m, x), m[x].parent.value, revision))
  {
    var branch, stamped := RemovedBranch(m, x), Stamped(m, m[x].removed.value);
    var m' := Revived(m, branch, m[x].parent.value, revision);
    var rank :| Ranked(m, rank);
    assert forall n, p :: Under(m', n, p) ==> Under(m, n, p);
    assert Ranked(m', rank);
    ClosureHangsTogether(m, stamped, {x});
  }

  lemma {:induction false} RestoreKeepsRemovedRows(m: Nodes, x: NodeId, revision: nat)
    requires RemovedRowsOk(m, revision) && RestorableTop(m, x) && m[x].parent.Some? && Live(m, m[x].parent.value)
    ensures RemovedRowsOk(Revived(m, RemovedBranch(m, x), m[x].parent.value, revision + 1), revision + 1)
  {
    var branch, stamped := RemovedBranch(m, x), Stamped(m, m[x].removed.value);
    var m' := Revived(m, branch, m[x].parent.value, revision + 1);
    ClosureHangsTogether(m, stamped, {x});
    forall n, p | Under(m', n, p) && p in m' && m'[p].removed.Some?
      ensures m'[n].removed.Some? && m'[n].removed.value <= m'[p].removed.value
    {
      assert Under(m, n, p);
    }
    forall n, p | Under(m', n, p) && n in stamped && p in branch ensures n in branch {
      assert n in ChildrenIn(m, stamped, branch);
    }
    forall n | RestorableTop(m', n) ensures RestorableTop(m, n) && n !in branch {
      assert m[n].parent.Some? ==> Under(m', n, m[n].parent.value);
    }
  }

  lemma {:induction false} RemoveKeepsForest(m: Nodes, x: NodeId, revision: nat)
    requires WellFormed(m, revision) && Live(m, x) && FullyPlanned(m, LiveBranch(m, x))
    ensures WellFormed(Stamp(m, LiveBranch(m, x), revision + 1), revision + 1)
  {
    hide LiveRowsOk, RemovedRowsOk, BirthsDistinct, Stamp, LiveBranch, SameBirths;
    RemoveKeepsLiveRows(m, x, revision + 1);
    RemoveKeepsRemovedRows(m, x, revision);
    BranchEditsKeepBirths(m, LiveBranch(m, x), x, x, revision + 1);
    SameBirthsStayDistinct(m, Stamp(m, LiveBranch(m, x), revision + 1), revision);
  }

  lemma {:induction false} RestoreKeepsForest(m: Nodes, x: NodeId, revision: nat)
    requires WellFormed(m, revision) && RestorableTop(m, x)
    requires m[x].parent.Some? && Live(m, m[x].parent.value)
    ensures WellFormed(Revived(m, RemovedBranch(m, x), m[x].parent.value, revision + 1), revision + 1)
  {
    hide LiveRowsOk, RemovedRowsOk, BirthsDistinct, Revived, RemovedBranch, SameBirths;
    RestoreKeepsLiveRows(m, x, revision + 1);
    RestoreKeepsRemovedRows(m, x, revision);
    BranchEditsKeepBirths(m, RemovedBranch(m, x), x, m[x].parent.value, revision + 1);
    SameBirthsStayDistinct(m, Revived(m, RemovedBranch(m, x), m[x].parent.value, revision + 1), revision);
  }

  lemma {:induction false} EditStaysInPlace(w: Workspace, c: Command)
    requires (c.Update? || c.Advance?) && Perform(w, c).0.Done?
    ensures c.node in Step(w, c).nodes && Step(w, c).nodes == w.nodes[c.node := Step(w, c).nodes[c.node]]
    ensures StaysInPlace(w.nodes, c.node, Step(w, c).nodes[c.node]) && Step(w, c).revision == w.revision + 1
  {
  }

  lemma {:induction false} EditKeepsForest(w: Workspace, c: Command)
    requires c.Update? || c.Advance?
    requires WellFormed(w.nodes, w.revision)
    ensures WellFormed(Step(w, c).nodes, Step(w, c).revision)
  {
    hide WellFormed, StaysInPlace;
    if Perform(w, c).0.Done? {
      EditStaysInPlace(w, c);
      RowChangeKeepsForest(w.nodes, c.node, Step(w, c).nodes[c.node], w.revision);
    }
  }

  lemma {:induction false} LaterRevisionKeepsForest(m: Nodes, revision: nat)
    requires WellFormed(m, revision)
    ensures WellFormed(m, revision + 1)
  {
    hide LiveRowsOk;
  }

  lemma {:induction false} CreateCommandKeepsForest(w: Workspace, id: NodeId, under: Option<NodeId>, title: string,
                                                    outcome: string, expected: Option<nat>)
    requires WellFormed(w.nodes, w.revision)
    ensures var w' := CreateNode(w, id, under, title, outcome, expected).1; WellFormed(w'.nodes, w'.revision)
  {
    hide WellFormed, NewNode, Logged;
    if CreateNode(w, id, under, title, outcome, expected).0.Done? {
      CreateKeepsForest(w, id, under, title, outcome);
    }
  }

  lemma {:induction false} MoveCommandKeepsForest(w: Workspace, x: NodeId, target: NodeId, expected: Option<nat>)
    requires WellFormed(w.nodes, w.revision)
    ensures var w' := MoveNode(w, x, target, expected).1; WellFormed(w'.nodes, w'.revision)
  {
    hide WellFormed, LiveBranch, Moved, Logged, LedByGoal, FullyPlanned;
    if MoveNode(w, x, target, expected).0.Done? {
      MoveKeepsForest(w.nodes, x, target, w.revision);
    }
  }

  lemma {:induction false} RemoveCommandKeepsForest(w: Workspace, x: NodeId, expected: Option<nat>)
    requires WellFormed(w.nodes, w.revision)
    ensures var w' := RemoveNode(w, x, expected).1; WellFormed(w'.nodes, w'.revision)
  {
    hide WellFormed, LiveBranch, Stamp, LoggedRemovals, LedByGoal, FullyPlanned;
    if RemoveNode(w, x, expected).0.Done? {
      RemoveKeepsForest(w.nodes, x, w.revision);
    }
  }

  lemma {:induction false} RestoreCommandKeepsForest(w: Workspace, x: NodeId, expected: Option<nat>)
    requires WellFormed(w.nodes, w.revision)
    ensures var w' := RestoreNode(w, x, expected).1; WellFormed(w'.nodes, w'.revision)
  {
    hide WellFormed, RemovedBranch, Revived, Logged;
    if RestoreNode(w, x, expected).0.Done? {
      RestoreKeepsForest(w.nodes, x, w.revision);
    }
  }

  lemma {:induction false} StepKeepsForest(w: Workspace, c: Command)
    requires WellFormed(w.nodes, w.revision)
    ensures WellFormed(Step(w, c).nodes, Step(w, c).revision)
  {
    hide WellFormed, CreateNode, UpdateNode, MoveNode, RemoveNode, RestoreNode, AdvanceNode;
    match c
    case Create(id, under, title, outcome, expected) =>
      CreateCommandKeepsForest(w, id, under, title, outcome, expected);
    case Move(x, target, expected) => MoveCommandKeepsForest(w, x, target, expected);
    case Remove(x, expected) => RemoveCommandKeepsForest(w, x, expected);
    case Restore(x, expected) => RestoreCommandKeepsForest(w, x, expected);
    case Touch => LaterRevisionKeepsForest(w.nodes, w.revision);
    case _ => EditKeepsForest(w, c);
  }

  lemma {:induction false} NewWorkspaceIsForest(root: NodeId, title: string)
    ensures WellFormed(CreateWorkspace(root, title).nodes, 1) && CreateWorkspace(root, title).revision == 1
  {
    assert Ranked(CreateWorkspace(root, title).nodes, map[root := 0]);
  }

  /** The forest invariant holds after any sequence of commands on a new workspace. */
  lemma {:induction false} RunsKeepForest(root: NodeId, title: string, cs: seq<Command>)
    ensures var w := Run(CreateWorkspace(root, title), cs); WellFormed(w.nodes, w.revision)
  {
    hide WellFormed, CreateWorkspace, Step;
    if cs == [] {
      NewWorkspaceIsForest(root, title);
    } else {
      RunsKeepForest(root, title, cs[..|cs| - 1]);
      StepKeepsForest(Run(CreateWorkspace(root, title), cs[..|cs| - 1]), cs[|cs| - 1]);
    }
  }

  /** All rows that carry one stamp form the branch below its only top. */
  lemma {:induction false} StampIsOneBranch(m: Nodes, rank: map<NodeId, nat>, x: NodeId, n: NodeId)
    requires Ranked(m, rank) && OneTopPerStamp(m) && RestorableTop(m, x)
    requires n in Stamped(m, m[x].removed.value)
    ensures n in RemovedBranch(m, x)
    decreases rank[n]
  {
    if !RestorableTop(m, n) {
      var p := m[n].parent.value;
      assert Under(m, n, p);
      StampIsOneBranch(m, rank, x, p);
      assert n in ChildrenIn(m, Stamped(m, m[x].removed.value), RemovedBranch(m, x));
    }
  }

  /** The query after a move reads the same rows as the one before it. */
  lemma {:induction false} MoveReadsSameBranch(m: Nodes, x: NodeId, target: NodeId, revision: nat)
    requires Live(m, x) && Live(m, target) && target !in LiveBranch(m, x)
    requires WellFormed(m, revision)
    ensures LiveBranch(Moved(m, LiveBranch(m, x), x, target, revision + 1), x) == LiveBranch(m, x)
  {
    var branch := LiveBranch(m, x);
    var m' := Moved(m, branch, x, target, revision + 1);
    assert LiveIds(m') == LiveIds(m);
    ClosureHangsTogether(m, LiveIds(m), {x});
    forall n | n in ChildrenIn(m', LiveIds(m), branch) ensures n in branch {
      assert n != x ==> n in ChildrenIn(m, LiveIds(m), branch);
    }
    ClosureIsLeast(m', LiveIds(m), {x}, branch);
    var after := LiveBranch(m', x);
    forall n | n in ChildrenIn(m, LiveIds(m), after) ensures n in after {
      assert n != x ==> n in ChildrenIn(m', LiveIds(m), after);
    }
    ClosureIsLeast(m, LiveIds(m), {x}, after);
  }

  /** The live branch read after a restoration is the set of revived rows: nothing live hid below a removed row. */
  lemma {:induction false} RestoreReadsRevivedBranch(m: Nodes, x: NodeId, revision: nat)
    requires WellFormed(m, revision) && RestorableTop(m, x)
    requires m[x].parent.Some? && Live(m, m[x].parent.value)
    ensures LiveBranch(Revived(m, RemovedBranch(m, x), m[x].parent.value, revision + 1), x) == RemovedBranch(m, x)
  {
    var branch := RemovedBranch(m, x);
    var stamped := Stamped(m, m[x].removed.value);
    var m' := Revived(m, branch, m[x].parent.value, revision + 1);
    assert LiveIds(m') == LiveIds(m) + branch;
    forall n | n in ChildrenIn(m', LiveIds(m'), branch) ensures n in branch {
      assert Under(m, n, m[n].parent.value);
    }
    ClosureIsLeast(m', LiveIds(m'), {x}, branch);
    var after := LiveBranch(m', x);
    forall n | n in ChildrenIn(m, stamped, after * branch) ensures n in after * branch {
      assert n in ChildrenIn(m, stamped, branch);
      assert n in ChildrenIn(m', LiveIds(m'), after);
    }
    ClosureIsLeast(m, stamped, {x}, after * branch);
  }
}
