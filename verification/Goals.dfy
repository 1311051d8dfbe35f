/** Goals are meant to stay where they are. The handlers refuse to move or remove a branch whose oldest row has no
    parent, which is not the same as refusing a goal: older work may hang below a newer one. */
module Goals {
  import opened Wrappers
  import opened Forest
  import opened Commands
  import opened ForestInvariant
  import opened RoundTrip

  /** Only the top of a branch can lack a parent, so the test fails a goal exactly if it is the oldest of its branch. */
  lemma {:induction false} LedByItsTop(m: Nodes, x: NodeId)
    requires Live(m, x)
    ensures LedByGoal(m, LiveBranch(m, x)) <==> m[x].parent.None? && Oldest(m, LiveBranch(m, x), x)
  {
    LiveBranchHasTop(m, x);
    ClosureHangsTogether(m, LiveIds(m), {x});
  }

  /** Some live node below `x` was created before it. */
  ghost predicate OlderBelow(m: Nodes, x: NodeId) {
    exists n :: n in LiveBranch(m, x) && n in m && x in m && m[n].created < m[x].created
  }

  /** The oldest row of a branch is determined: no two rows were created at one revision. */
  lemma {:induction false} OldestIsUnique(m: Nodes, branch: set<NodeId>, a: NodeId, b: NodeId, revision: nat)
    requires BirthsDistinct(m, revision) && Oldest(m, branch, a) && Oldest(m, branch, b)
    ensures a == b
  {
  }

  lemma {:induction false} GoalLeadsUnlessOlderBelow(m: Nodes, x: NodeId)
    requires Live(m, x) && m[x].parent.None?
    ensures LedByGoal(m, LiveBranch(m, x)) <==> !OlderBelow(m, x)
  {
    LiveBranchHasTop(m, x);
    LedByItsTop(m, x);
    hide LiveBranch, LedByGoal;
  }

  /** A fully planned goal is removed exactly if some live node below it is older. */
  lemma {:induction false} GoalIsRemovedExactlyWhen(w: Workspace, x: NodeId)
    requires Live(w.nodes, x) && w.nodes[x].parent.None?
    ensures RemoveNode(w, x, None).0.Done? <==> FullyPlanned(w.nodes, LiveBranch(w.nodes, x)) && OlderBelow(w.nodes, x)
  {
    hide LiveBranch, LedByGoal, OlderBelow, FullyPlanned, Stamp, LoggedRemovals;
    GoalLeadsUnlessOlderBelow(w.nodes, x);
  }

  /** It is moved under planned work outside its branch exactly if some live node below it is older. */
  lemma {:induction false} GoalIsMovedExactlyWhen(w: Workspace, x: NodeId, target: NodeId)
    requires Live(w.nodes, x) && w.nodes[x].parent.None? && FullyPlanned(w.nodes, LiveBranch(w.nodes, x))
    requires Live(w.nodes, target) && w.nodes[target].lifecycle.Planned?
    requires target != x && target !in LiveBranch(w.nodes, x)
    ensures MoveNode(w, x, target, None).0.Done? <==> OlderBelow(w.nodes, x)
  {
    hide LiveBranch, LedByGoal, OlderBelow, FullyPlanned, Moved, Logged;
    GoalLeadsUnlessOlderBelow(w.nodes, x);
  }

  // ----- a removed goal is lost -----

  predicate LostGoal(m: Nodes, x: NodeId) {
    x in m && m[x].removed.Some? && m[x].parent.None?
  }

  lemma {:induction false} RevivalSkipsLostGoal(m: Nodes, y: NodeId, x: NodeId, revision: nat)
    requires LostGoal(m, x) && RestorableTop(m, y) && m[y].parent.Some? && m[y].parent.value in m
    ensures var m' := Revived(m, RemovedBranch(m, y), m[y].parent.value, revision); x in m' && m'[x] == m[x]
  {
    ClosureHangsTogether(m, Stamped(m, m[y].removed.value), {y});
  }

  lemma {:induction false} RestoreSkipsLostGoal(w: Workspace, y: NodeId, expected: Option<nat>, x: NodeId)
    requires LostGoal(w.nodes, x)
    ensures var w' := RestoreNode(w, y, expected).1; x in w'.nodes && w'.nodes[x] == w.nodes[x]
  {
    hide RemovedBranch, Revived, LiveBranch, Logged;
    if RestoreNode(w, y, expected).0.Done? {
      RevivalSkipsLostGoal(w.nodes, y, x, w.revision + 1);
    }
  }

  lemma {:induction false} BranchEditsSkipLostGoal(w: Workspace, c: Command, x: NodeId)
    requires LostGoal(w.nodes, x) && (c.Move? || c.Remove?)
    ensures x in Step(w, c).nodes && Step(w, c).nodes[x] == w.nodes[x]
  {
    if Live(w.nodes, c.node) {
      LiveBranchHasTop(w.nodes, c.node);
    }
    hide LiveBranch, LedByGoal, FullyPlanned, Logged, LoggedRemovals;
  }

  lemma {:induction false} StepSkipsLostGoal(w: Workspace, c: Command, x: NodeId)
    requires LostGoal(w.nodes, x)
    ensures x in Step(w, c).nodes && Step(w, c).nodes[x] == w.nodes[x]
  {
    match c
    case Restore(y, expected) => RestoreSkipsLostGoal(w, y, expected, x);
    case Move(_, _, _) => BranchEditsSkipLostGoal(w, c, x);
    case Remove(_, _) => BranchEditsSkipLostGoal(w, c, x);
    case _ =>
  }

  lemma {:induction false} RunSkipsLostGoal(w: Workspace, cs: seq<Command>, x: NodeId)
    requires LostGoal(w.nodes, x)
    ensures x in Run(w, cs).nodes && Run(w, cs).nodes[x] == w.nodes[x]
  {
    hide Step;
    if cs != [] {
      RunSkipsLostGoal(w, cs[..|cs| - 1], x);
      StepSkipsLostGoal(Run(w, cs[..|cs| - 1]), cs[|cs| - 1], x);
    }
  }

  lemma {:induction false} RemovalLosesGoal(w: Workspace, x: NodeId, expected: Option<nat>)
    requires RemoveNode(w, x, expected).0.Done? && w.nodes[x].parent.None?
    ensures LostGoal(RemoveNode(w, x, expected).1.nodes, x)
  {
    LiveBranchHasTop(w.nodes, x);
    hide LiveBranch, LedByGoal, FullyPlanned, LoggedRemovals;
  }

  /** A removed goal never comes back: after any commands its row is as its removal left it, and restoring it fails
      whatever revision is named. */
  lemma {:induction false} RemovedGoalNeverReturns(w: Workspace, x: NodeId, expected: Option<nat>,
                                                   between: seq<Command>, expected': Option<nat>)
    requires RemoveNode(w, x, expected).0.Done? && w.nodes[x].parent.None?
    ensures var w1 := RemoveNode(w, x, expected).1;
      var w2 := Run(w1, between);
      && x in w1.nodes && w1.nodes[x].removed.Some? && x in w2.nodes && w2.nodes[x] == w1.nodes[x]
      && RestoreNode(w2, x, expected').0.Failure?
  {
    hide RemoveNode, Run;
    RemovalLosesGoal(w, x, expected);
    RunSkipsLostGoal(RemoveNode(w, x, expected).1, between, x);
  }

  // ----- a concrete run -----

  /** A task of the first goal is moved under a goal set later. */
  const OLDER_BELOW := [
    Create(2, Some(1), "task", "", None), Create(3, None, "goal", "", None), Move(2, 3, None)]

  /** What that run leaves: two goals, the second with an older task below it. */
  predicate TwoGoals(w: Workspace) {
    && w.revision == 4 && w.nodes.Keys == {1, 2, 3}
    && (forall n :: n in w.nodes ==> w.nodes[n].removed.None? && w.nodes[n].lifecycle.Planned?)
    && w.nodes[1].parent.None? && w.nodes[2].parent == Some(3) && w.nodes[3].parent.None?
    && w.nodes[2].created == 2 && w.nodes[3].created == 3
  }

  lemma {:induction false} FirstTaskCreated(w: Workspace)
    requires w == CreateWorkspace(1, "goal")
    ensures var w' := Step(w, OLDER_BELOW[0]);
      && w'.revision == 2 && w'.nodes.Keys == {1, 2}
      && (forall n :: n in w'.nodes ==> w'.nodes[n].removed.None? && w'.nodes[n].lifecycle.Planned?)
      && w'.nodes[1].parent.None? && w'.nodes[2].parent == Some(1) && w'.nodes[2].created == 2
  {
    hide Logged;
    assert |"task"| == 4;
  }

  lemma {:induction false} GoalCreated(w: Workspace)
    requires w.revision == 2 && w.nodes.Keys == {1, 2}
    requires forall n :: n in w.nodes ==> w.nodes[n].removed.None? && w.nodes[n].lifecycle.Planned?
    requires w.nodes[1].parent.None? && w.nodes[2].parent == Some(1) && w.nodes[2].created == 2
    ensures var w' := Step(w, OLDER_BELOW[1]);
      && w'.revision == 3 && w'.nodes.Keys == {1, 2, 3}
      && (forall n :: n in w'.nodes ==> w'.nodes[n].removed.None? && w'.nodes[n].lifecycle.Planned?)
      && w'.nodes[1].parent.None? && w'.nodes[2].parent == Some(1) && w'.nodes[3].parent.None?
      && w'.nodes[2].created == 2 && w'.nodes[3].created == 3
  {
    hide Logged;
    assert |"goal"| == 4;
  }

  lemma {:induction false} BothCreated(w: Workspace)
    requires w == CreateWorkspace(1, "goal")
    ensures var w' := Step(Step(w, OLDER_BELOW[0]), OLDER_BELOW[1]);
      && w'.revision == 3 && w'.nodes.Keys == {1, 2, 3}
      && (forall n :: n in w'.nodes ==> w'.nodes[n].removed.None? && w'.nodes[n].lifecycle.Planned?)
      && w'.nodes[1].parent.None? && w'.nodes[2].parent == Some(1) && w'.nodes[3].parent.None?
      && w'.nodes[2].created == 2 && w'.nodes[3].created == 3
  {
    hide CreateWorkspace, Step;
    FirstTaskCreated(w);
    GoalCreated(Step(w, OLDER_BELOW[0]));
  }

  lemma {:induction false} LeafBranch(m: Nodes, x: NodeId)
    requires Live(m, x) && forall n :: n in m ==> m[n].parent != Some(x)
    ensures LiveBranch(m, x) == {x}
  {
    assert ChildrenIn(m, LiveIds(m), {x}) == {};
  }

  lemma {:induction false} TaskIsMoved(w: Workspace)
    requires w.nodes.Keys == {1, 2, 3} && w.revision == 3
    requires forall n :: n in w.nodes ==> w.nodes[n].removed.None? && w.nodes[n].lifecycle.Planned?
    requires w.nodes[1].parent.None? && w.nodes[2].parent == Some(1) && w.nodes[3].parent.None?
    requires w.nodes[2].created == 2 && w.nodes[3].created == 3
    ensures TwoGoals(Step(w, OLDER_BELOW[2]))
  {
    LeafBranch(w.nodes, 2);
    LedByItsTop(w.nodes, 2);
    hide LiveBranch, LedByGoal, Logged;
    assert MoveNode(w, 2, 3, None).0.Done?;
  }

  lemma {:induction false} NewerGoalHasOlderTask(m: Nodes)
    requires m.Keys == {1, 2, 3} && Live(m, 2) && Live(m, 3) && m[2].parent == Some(3) && m[2].created < m[3].created
    requires Live(m, 1) && m[1].parent.None? && m[3].parent.None?
    ensures OlderBelow(m, 3) && 1 !in LiveBranch(m, 3)
  {
    LiveBranchHasTop(m, 3);
    assert 2 in ChildrenIn(m, LiveIds(m), LiveBranch(m, 3));
    ClosureHangsTogether(m, LiveIds(m), {3});
  }

  lemma {:induction false} NewerGoalIsEditable(w: Workspace)
    requires TwoGoals(w)
    ensures MoveNode(w, 3, 1, None).0.Done? && RemoveNode(w, 3, None).0.Done?
  {
    hide LiveBranch, OlderBelow, MoveNode, RemoveNode;
    NewerGoalHasOlderTask(w.nodes);
    LiveBranchHasTop(w.nodes, 3);
    GoalIsMovedExactlyWhen(w, 3, 1);
    GoalIsRemovedExactlyWhen(w, 3);
  }

  /** A goal set later is moved under the first one, or removed for ever, once an older task hangs below it. */
  lemma {:induction false} NewerGoalIsMovedAndRemoved(expected: Option<nat>)
    ensures var w := Run(CreateWorkspace(1, "goal"), OLDER_BELOW);
      && Live(w.nodes, 3) && w.nodes[3].parent.None?
      && MoveNode(w, 3, 1, None).0.Done? && RemoveNode(w, 3, None).0.Done?
      && RestoreNode(RemoveNode(w, 3, None).1, 3, expected).0.Failure?
  {
    var w0 := CreateWorkspace(1, "goal");
    BothCreated(w0);
    hide CreateNode, MoveNode, RemoveNode, RestoreNode, CreateWorkspace;
    TaskIsMoved(Step(Step(w0, OLDER_BELOW[0]), OLDER_BELOW[1]));
    RunOfThree(w0, OLDER_BELOW);
    var w := Run(w0, OLDER_BELOW);
    NewerGoalIsEditable(w);
    RemovedGoalNeverReturns(w, 3, None, [], expected);
  }

  lemma {:induction false} RunOfThree(w: Workspace, cs: seq<Command>)
    requires |cs| == 3
    ensures Run(w, cs) == Step(Step(Step(w, cs[0]), cs[1]), cs[2])
  {
    hide Step;
    RunSoFar(w, cs, 0);
    RunSoFar(w, cs, 1);
    RunSoFar(w, cs, 2);
    assert cs[..3] == cs;
  }
}
