/** Acceptance over the tree: closing a node takes its whole live subtree into account. */
module Acceptance {
  import opened Wrappers
  import opened Forest
  import opened Commands
  import opened ForestInvariant

  /** The acceptance query reaches the live nodes below `x` at any depth, and no others. */
  lemma {:induction false} LiveDescendantsAreBelow(m: Nodes, x: NodeId, n: NodeId)
    requires LiveAncestors(m)
    ensures n in LiveDescendants(m, x) <==> Live(m, n) && exists k: nat :: k > 0 && Up(m, n, k) == Some(x)
  {
    var below := set d | d in LiveIds(m) && exists k: nat :: k > 0 && Up(m, d, k) == Some(x);
    if n in below {
      var k: nat :| k > 0 && Up(m, n, k) == Some(x);
      DescendantIsFound(m, x, n, k);
    }
    forall d | d in ChildrenIn(m, LiveIds(m), below + {x}) ensures d in below {
      var p := m[d].parent.value;
      var k: nat :| Up(m, p, k) == Some(x) by {
        assert p == x ==> Up(m, p, 0) == Some(x);
      }
      assert Up(m, d, k + 1) == Some(x);
    }
    assert ChildrenIn(m, LiveIds(m), {x}) <= ChildrenIn(m, LiveIds(m), below + {x});
    assert ChildrenIn(m, LiveIds(m), below) <= ChildrenIn(m, LiveIds(m), below + {x});
    ClosureIsLeast(m, LiveIds(m), ChildrenIn(m, LiveIds(m), {x}), below);
  }

  lemma {:induction false} DescendantIsFound(m: Nodes, x: NodeId, n: NodeId, k: nat)
    requires LiveAncestors(m) && Live(m, n) && k > 0 && Up(m, n, k) == Some(x)
    ensures n in LiveDescendants(m, x)
    decreases k
  {
    var p := m[n].parent.value;
    assert Under(m, n, p);
    if k == 1 {
      assert n in ChildrenIn(m, LiveIds(m), {x});
    } else {
      DescendantIsFound(m, x, p, k - 1);
      assert n in ChildrenIn(m, LiveIds(m), LiveDescendants(m, x));
    }
  }

  /** A node in review can be closed exactly when every live node below it, at any depth, is closed. */
  lemma {:induction false} CloseChecksWholeSubtree(w: Workspace, x: NodeId)
    requires LiveAncestors(w.nodes)
    ensures AdvanceNode(w, x, Accept).0.Done? <==>
      && Live(w.nodes, x) && w.nodes[x].lifecycle.Review?
      && forall n, k: nat :: k > 0 && Live(w.nodes, n) && Up(w.nodes, n, k) == Some(x) ==> w.nodes[n].lifecycle.Closed?
  {
    var m := w.nodes;
    if HasOpenDescendants(m, x) {
      var n :| n in LiveDescendants(m, x) && n in m && !m[n].lifecycle.Closed?;
      LiveDescendantsAreBelow(m, x, n);
    } else {
      forall n, k: nat | k > 0 && Live(m, n) && Up(m, n, k) == Some(x) ensures m[n].lifecycle.Closed? {
        DescendantIsFound(m, x, n, k);
      }
    }
  }

  /** A closed node has only closed live children. */
  ghost predicate ClosedDown(m: Nodes) {
    forall n, p :: Under(m, n, p) && Live(m, n) && Live(m, p) && m[p].lifecycle.Closed? ==> m[n].lifecycle.Closed?
  }

  lemma {:induction false} ClosedAtAnyDepth(m: Nodes, n: NodeId, k: nat)
    requires LiveAncestors(m) && ClosedDown(m) && Live(m, n)
    requires Up(m, n, k).Some? && Live(m, Up(m, n, k).value) && m[Up(m, n, k).value].lifecycle.Closed?
    ensures m[n].lifecycle.Closed?
    decreases k
  {
    if k > 0 {
      var p := m[n].parent.value;
      assert Under(m, n, p);
      ClosedAtAnyDepth(m, p, k - 1);
    }
  }

  predicate ClosedParent(m: Nodes, parent: Option<NodeId>) {
    parent.Some? && parent.value in m && m[parent.value].lifecycle.Closed?
  }

  /** The two commands that look at no ancestor: creating under a closed node and reopening below one. */
  predicate Offends(w: Workspace, c: Command) {
    match c
    case Create(_, under, _, _, _) => ClosedParent(w.nodes, under)
    case Advance(x, action) => action.Reopen? && x in w.nodes && ClosedParent(w.nodes, w.nodes[x].parent)
    case _ => false
  }

  lemma {:induction false} CreateKeepsAcceptance(w: Workspace, id: NodeId, under: Option<NodeId>, title: string,
                                                 outcome: string, expected: Option<nat>)
    requires WellFormed(w.nodes, w.revision) && ClosedDown(w.nodes)
    requires CreateNode(w, id, under, title, outcome, expected).0.Done?
    ensures ClosedDown(CreateNode(w, id, under, title, outcome, expected).1.nodes) <==> !ClosedParent(w.nodes, under)
  {
    hide RemovedRowsOk, BirthsDistinct, Logged;
    var m, m' := w.nodes, CreateNode(w, id, under, title, outcome, expected).1.nodes;
    forall n, p | Under(m', n, p) && n != id ensures Under(m, n, p) && p != id {
      assert Under(m, n, p);
      var rank :| Ranked(m, rank);
    }
    assert under.Some? ==> Under(m', id, under.value);
  }

  lemma {:induction false} UpdateKeepsAcceptance(w: Workspace, x: NodeId, title: string, outcome: string,
                                                 lifecycle: Lifecycle, expected: Option<nat>)
    requires ClosedDown(w.nodes)
    ensures ClosedDown(UpdateNode(w, x, title, outcome, lifecycle, expected).1.nodes)
  {
    hide Logged;
    var m' := UpdateNode(w, x, title, outcome, lifecycle, expected).1.nodes;
    assert forall n, p :: Under(m', n, p) ==> Under(w.nodes, n, p);
  }

  lemma {:induction false} MoveKeepsAcceptance(w: Workspace, x: NodeId, target: NodeId, expected: Option<nat>)
    requires ClosedDown(w.nodes)
    ensures ClosedDown(MoveNode(w, x, target, expected).1.nodes)
  {
    var m, m' := w.nodes, MoveNode(w, x, target, expected).1.nodes;
    forall n, p | Under(m', n, p) && Live(m', n) && Live(m', p) && m'[p].lifecycle.Closed?
      ensures m'[n].lifecycle.Closed?
    {
      assert Under(m, n, p) || n == x;
    }
  }

  lemma {:induction false} RemoveKeepsAcceptance(w: Workspace, x: NodeId, expected: Option<nat>)
    requires ClosedDown(w.nodes)
    ensures ClosedDown(RemoveNode(w, x, expected).1.nodes)
  {
    var m, m' := w.nodes, RemoveNode(w, x, expected).1.nodes;
    forall n, p | Under(m', n, p) && Live(m', n) && Live(m', p) && m'[p].lifecycle.Closed?
      ensures m'[n].lifecycle.Closed?
    {
      assert Under(m, n, p);
    }
  }

  lemma {:induction false} RevivalKeepsAcceptance(m: Nodes, x: NodeId, revision: nat)
    requires RemovedRowsFrozen(m, revision) && ClosedDown(m) && RestorableTop(m, x)
    requires m[x].parent.Some? && Live(m, m[x].parent.value) && m[m[x].parent.value].lifecycle.Planned?
    ensures ClosedDown(Revived(m, RemovedBranch(m, x), m[x].parent.value, revision + 1))
  {
    var branch := RemovedBranch(m, x);
    var m' := Revived(m, branch, m[x].parent.value, revision + 1);
    ClosureHangsTogether(m, Stamped(m, m[x].removed.value), {x});
    forall n, p | Under(m', n, p) && Live(m', n) && Live(m', p) && m'[p].lifecycle.Closed?
      ensures m'[n].lifecycle.Closed?
    {
      assert Under(m, n, p);
      assert n in branch ==> n == x || p in branch;
    }
  }

  lemma {:induction false} RestoreKeepsAcceptance(w: Workspace, x: NodeId, expected: Option<nat>)
    requires RemovedRowsFrozen(w.nodes, w.revision) && ClosedDown(w.nodes)
    ensures ClosedDown(RestoreNode(w, x, expected).1.nodes)
  {
    hide RemovedRowsFrozen, ClosedDown, RemovedBranch, Revived, LiveBranch, Logged;
    if RestoreNode(w, x, expected).0.Done? {
      RevivalKeepsAcceptance(w.nodes, x, w.revision);
    }
  }

  lemma {:induction false} AdvanceKeepsAcceptance(w: Workspace, x: NodeId, action: Action)
    requires WellFormed(w.nodes, w.revision) && ClosedDown(w.nodes) && AdvanceNode(w, x, action).0.Done?
    ensures x in w.nodes
    ensures ClosedDown(AdvanceNode(w, x, action).1.nodes) <==>
      !(action.Reopen? && ClosedParent(w.nodes, w.nodes[x].parent))
  {
    var m, m' := w.nodes, AdvanceNode(w, x, action).1.nodes;
    if action.Reopen? && ClosedParent(m, m[x].parent) {
      var p := m[x].parent.value;
      assert Under(m, x, p) && Under(m', x, p);
      ParentIsAnother(m, x, p);
    } else {
      forall n, p | Under(m', n, p) && Live(m', n) && Live(m', p) && m'[p].lifecycle.Closed?
        ensures m'[n].lifecycle.Closed?
      {
        assert Under(m, n, p);
        if p == x && m[p].lifecycle.Review? {
          assert n in ChildrenIn(m, LiveIds(m), {x});
          assert n in LiveDescendants(m, x);
          ParentIsAnother(m, n, p);
        }
      }
    }
  }

  /** Exactly two commands can leave open work under a closed node; every other one, moves and restorations included,
      keeps "closed means closed below". */
  lemma {:induction false} StepKeepsAcceptanceUnlessItOffends(w: Workspace, c: Command)
    requires WellFormed(w.nodes, w.revision) && ClosedDown(w.nodes)
    ensures ClosedDown(Step(w, c).nodes) <==> !(Perform(w, c).0.Done? && Offends(w, c))
  {
    hide ClosedDown, LiveRowsOk, RemovedRowsFrozen, BirthsDistinct, ClosedParent;
    hide CreateNode, UpdateNode, MoveNode, RemoveNode, RestoreNode, AdvanceNode;
    if Perform(w, c).0.Done? {
      match c
      case Create(id, under, title, outcome, expected) => CreateKeepsAcceptance(w, id, under, title, outcome, expected);
      case Update(x, title, outcome, lifecycle, expected) =>
        UpdateKeepsAcceptance(w, x, title, outcome, lifecycle, expected);
      case Advance(x, action) => AdvanceKeepsAcceptance(w, x, action);
      case Touch =>
      case Move(x, target, expected) => MoveKeepsAcceptance(w, x, target, expected);
      case Remove(x, expected) => RemoveKeepsAcceptance(w, x, expected);
      case Restore(x, expected) => RestoreKeepsAcceptance(w, x, expected);
    } else {
      RefusalChangesNothing(w, c);
    }
  }

  ghost predicate NeverOffends(w: Workspace, cs: seq<Command>) {
    forall i :: 0 <= i < |cs| ==> !Offends(Run(w, cs[..i]), cs[i])
  }

  /** On runs without those two commands every reachable state has only closed live work below a closed node. */
  lemma {:induction false} RunsKeepAcceptance(root: NodeId, title: string, cs: seq<Command>, n: NodeId, k: nat)
    requires NeverOffends(CreateWorkspace(root, title), cs)
    ensures ClosedDown(Run(CreateWorkspace(root, title), cs).nodes)
    ensures var m := Run(CreateWorkspace(root, title), cs).nodes;
      Live(m, n) && Up(m, n, k).Some? && Live(m, Up(m, n, k).value) && m[Up(m, n, k).value].lifecycle.Closed? ==>
        m[n].lifecycle.Closed?
    decreases |cs|
  {
    var w0 := CreateWorkspace(root, title);
    if cs != [] {
      var earlier := cs[..|cs| - 1];
      forall i | 0 <= i < |earlier| ensures !Offends(Run(w0, earlier[..i]), earlier[i]) {
        assert earlier[..i] == cs[..i];
      }
      RunsKeepAcceptance(root, title, earlier, n, k);
      RunsKeepForest(root, title, earlier);
      StepKeepsAcceptanceUnlessItOffends(Run(w0, earlier), cs[|cs| - 1]);
    }
    RunsKeepForest(root, title, cs);
    var m := Run(w0, cs).nodes;
    if Live(m, n) && Up(m, n, k).Some? && Live(m, Up(m, n, k).value) && m[Up(m, n, k).value].lifecycle.Closed? {
      ClosedAtAnyDepth(m, n, k);
    }
  }

  lemma {:induction false} LoneGoalAdvances(w: Workspace, x: NodeId, action: Action)
    requires w.nodes.Keys == {x} && Live(w.nodes, x) && w.nodes[x].parent.None? &&
      w.nodes[x].lifecycle == Source(action)
    ensures var w' := AdvanceNode(w, x, action).1;
      w'.nodes.Keys == {x} && Live(w'.nodes, x) && w'.nodes[x].parent.None? &&
        w'.nodes[x].lifecycle == Destination(action)
  {
    assert ChildrenIn(w.nodes, LiveIds(w.nodes), {x}) == {};
    assert ChildrenIn(w.nodes, LiveIds(w.nodes), {}) == {};
    assert LiveDescendants(w.nodes, x) == {};
  }

  lemma {:induction false} LoneGoalTakesTask(w: Workspace)
    requires Live(w.nodes, 1) && 2 !in w.nodes
    ensures var w' := CreateNode(w, 2, Some(1), "task", "", None).1;
      && 1 in w'.nodes && w'.nodes[1] == w.nodes[1] && Live(w'.nodes, 2) && Under(w'.nodes, 2, 1) &&
        w'.nodes[2].lifecycle.Planned?
  {
    assert |"task"| == 4;
  }

  /** A concrete case: the goal is started, finished and accepted, then a task is created under it. */
  lemma {:induction false} CreateUnderClosedNode()
    ensures var started := AdvanceNode(CreateWorkspace(1, "goal"), 1, Start).1;
      var closed := AdvanceNode(AdvanceNode(started, 1, Finish(true)).1, 1, Accept).1;
      var w := CreateNode(closed, 2, Some(1), "task", "", None).1;
      Live(w.nodes, 1) && w.nodes[1].lifecycle.Closed? && Live(w.nodes, 2) && Under(w.nodes, 2, 1) &&
        w.nodes[2].lifecycle.Planned?
  {
    var w0 := CreateWorkspace(1, "goal");
    var w1 := AdvanceNode(w0, 1, Start).1;
    var w2 := AdvanceNode(w1, 1, Finish(true)).1;
    LoneGoalAdvances(w0, 1, Start);
    LoneGoalAdvances(w1, 1, Finish(true));
    LoneGoalAdvances(w2, 1, Accept);
    LoneGoalTakesTask(AdvanceNode(w2, 1, Accept).1);
  }

  /** A goal and one task below it, in the given lifecycles. */
  predicate GoalAndTask(w: Workspace, goal: Lifecycle, task: Lifecycle) {
    && w.nodes.Keys == {1, 2} && Live(w.nodes, 1) && Live(w.nodes, 2)
    && w.nodes[1].parent.None? && w.nodes[2].parent == Some(1)
    && w.nodes[1].lifecycle == goal && w.nodes[2].lifecycle == task
  }

  lemma {:induction false} TaskIsCreated(w: Workspace)
    requires w == CreateWorkspace(1, "goal")
    ensures GoalAndTask(Step(w, Create(2, Some(1), "task", "", None)), Planned, Planned)
  {
    assert |"task"| == 4;
  }

  lemma {:induction false} TaskAdvances(w: Workspace, goal: Lifecycle, action: Action)
    requires GoalAndTask(w, goal, Source(action))
    ensures GoalAndTask(Step(w, Advance(2, action)), goal, Destination(action))
  {
    assert ChildrenIn(w.nodes, LiveIds(w.nodes), {2}) == {};
    assert LiveDescendants(w.nodes, 2) == {};
  }

  lemma {:induction false} GoalAdvances(w: Workspace, task: Lifecycle, action: Action)
    requires GoalAndTask(w, Source(action), task) && (action.Accept? ==> task.Closed?)
    ensures GoalAndTask(Step(w, Advance(1, action)), Destination(action), task)
  {
    assert ChildrenIn(w.nodes, LiveIds(w.nodes), {1}) == {2};
    assert ChildrenIn(w.nodes, LiveIds(w.nodes), {2}) == {};
    assert LiveDescendants(w.nodes, 1) == {2};
  }

  /** Both are finished and accepted, the lower one first; then that one is reopened. */
  const REOPENING := [
    Create(2, Some(1), "task", "", None), Advance(2, Start), Advance(2, Finish(true)), Advance(2, Accept),
    Advance(1, Start), Advance(1, Finish(true)), Advance(1, Accept), Advance(2, Reopen)]

  function GoalStage(i: nat): Lifecycle {
    if i <= 4 then Planned else if i == 5 then Active else if i == 6 then Review else Closed
  }

  function TaskStage(i: nat): Lifecycle {
    if i <= 1 then Planned else if i == 2 then Active else if i == 3 then Review else if i <= 7 then Closed else Planned
  }

  lemma {:induction false} StageReached(i: nat)
    requires 1 <= i <= |REOPENING|
    ensures GoalAndTask(Run(CreateWorkspace(1, "goal"), REOPENING[..i]), GoalStage(i), TaskStage(i))
  {
    hide Step, GoalAndTask, CreateWorkspace;
    var w := Run(CreateWorkspace(1, "goal"), REOPENING[..i - 1]);
    RunSoFar(CreateWorkspace(1, "goal"), REOPENING, i - 1);
    if i == 1 {
      TaskIsCreated(w);
    } else {
      StageReached(i - 1);
      if 5 <= i <= 7 {
        GoalAdvances(w, Closed, REOPENING[i - 1].action);
      } else {
        TaskAdvances(w, GoalStage(i), REOPENING[i - 1].action);
      }
    }
  }

  /** A concrete run that ends with planned work below a closed goal, without creating any there. */
  lemma {:induction false} ReopenBelowClosedNode()
    ensures GoalAndTask(Run(CreateWorkspace(1, "goal"), REOPENING), Closed, Planned)
  {
    hide GoalAndTask, Run, CreateWorkspace;
    StageReached(8);
    assert REOPENING[..8] == REOPENING;
  }
}
