/** The workspace and the circles of all its nodes in one run: commands on the tree, work on any node. The row of every
    node says at all times what its circle says. */
module Joint {
  import opened Wrappers
  import opened Forest
  import Commands
  import ForestInvariant
  import opened Circle
  import opened CircleInvariant
  import opened CircleActs
  import opened Lifecycles

  datatype Joint = Joint(w: Commands.Workspace, circles: map<NodeId, Circle>)

  datatype Happening = Tree(command: Commands.Command) | Work(node: NodeId, act: Act)

  /** Circles follow the tree: a new node starts empty, and removing or restoring a branch does the same to its
      circles. */
  ghost function Followed(circles: map<NodeId, Circle>, nodes: Nodes): map<NodeId, Circle> {
    map n | n in nodes :: if n in circles then After(circles[n], SetLive(Live(nodes, n))) else EMPTY
  }

  /** An accepted act moves its node through the lifecycle, or only takes the next revision. */
  ghost function Recorded(w: Commands.Workspace, n: NodeId, a: Act, c: Circle): Commands.Workspace {
    var action := ActionOf(a, c);
    Commands.Step(w, if action.Some? then Commands.Advance(n, action.value) else Commands.Touch)
  }

  /** Closing asks for the open work below; whether the node is live is not a matter of its own circle. */
  ghost predicate Offered(j: Joint, n: NodeId, a: Act) {
    n in j.circles && !a.SetLive? && (a.Close? ==> (a.openBelow <==> Commands.HasOpenDescendants(j.w.nodes, n)))
  }

  ghost function Happened(j: Joint, h: Happening): Joint {
    match h
    case Tree(c) =>
      if c.Advance? then j
      else
        var w := Commands.Step(j.w, c);
        Joint(w, Followed(j.circles, w.nodes))
    case Work(n, a) =>
      if !Offered(j, n, a) || Attempt(j.circles[n], a).None? then j
      else
        var c := Attempt(j.circles[n], a).value;
        Joint(Recorded(j.w, n, a, c), j.circles[n := c])
  }

  ghost function JointRun(j: Joint, hs: seq<Happening>): Joint {
    if hs == [] then j else Happened(JointRun(j, hs[..|hs| - 1]), hs[|hs| - 1])
  }

  function Opened(root: NodeId, title: string): Joint {
    Joint(Commands.CreateWorkspace(root, title), map[root := EMPTY])
  }

  ghost predicate AllAgree(j: Joint) {
    && j.circles.Keys == j.w.nodes.Keys
    && forall n :: n in j.circles ==> Sound(j.circles[n]) && Agrees(j.w, n, j.circles[n])
  }

  ghost predicate JointOk(j: Joint) {
    WellFormed(j.w.nodes, j.w.revision) && AllAgree(j)
  }

  // ----- the tree -----

  /** Rows keep their lifecycle, and only planned ones come or go; a new row is live and planned. */
  ghost predicate LifecyclesStay(m: Nodes, m': Nodes) {
    && (forall n :: n in m ==> n in m' && m'[n].lifecycle == m[n].lifecycle)
    && (forall n :: n in m && (Live(m', n) <==> !Live(m, n)) ==> m[n].lifecycle.Planned?)
    && (forall n :: n in m' && n !in m ==> Live(m', n) && m'[n].lifecycle.Planned?)
  }

  lemma {:induction false} RemovalKeepsLifecycles(w: Commands.Workspace, x: NodeId, expected: Option<nat>)
    requires Commands.RemoveNode(w, x, expected).0.Done?
    ensures LifecyclesStay(w.nodes, Commands.RemoveNode(w, x, expected).1.nodes)
  {
    hide LiveBranch, Commands.RemoveNode, Commands.LoggedRemovals;
    Commands.RemovalIs(w, x, expected);
  }

  lemma {:induction false} RestorationKeepsLifecycles(w: Commands.Workspace, x: NodeId, expected: Option<nat>)
    requires RemovedRowsFrozen(w.nodes, w.revision) && Commands.RestoreNode(w, x, expected).0.Done?
    ensures LifecyclesStay(w.nodes, Commands.RestoreNode(w, x, expected).1.nodes)
  {
    hide LiveBranch, Commands.RestoreNode, Commands.RemovedBranch, Commands.Logged;
    Commands.RestoreIs(w, x, expected);
  }

  lemma {:induction false} MoveKeepsLifecycles(w: Commands.Workspace, x: NodeId, target: NodeId, expected: Option<nat>)
    requires Commands.MoveNode(w, x, target, expected).0.Done?
    ensures LifecyclesStay(w.nodes, Commands.MoveNode(w, x, target, expected).1.nodes)
  {
    hide LiveBranch, Commands.MoveNode, Commands.Logged;
    Commands.MoveIs(w, x, target, expected);
  }

  lemma {:induction false} TreeKeepsLifecycles(w: Commands.Workspace, c: Commands.Command)
    requires WellFormed(w.nodes, w.revision) && !c.Advance?
    ensures LifecyclesStay(w.nodes, Commands.Step(w, c).nodes)
  {
    hide LiveRowsOk, BirthsDistinct, Commands.MoveNode, Commands.RemoveNode, Commands.RestoreNode;
    if Commands.Perform(w, c).0.Done? {
      match c
      case Move(x, target, expected) => MoveKeepsLifecycles(w, x, target, expected);
      case Remove(x, expected) => RemovalKeepsLifecycles(w, x, expected);
      case Restore(x, expected) => RestorationKeepsLifecycles(w, x, expected);
      case _ =>
    } else {
      Commands.RefusalChangesNothing(w, c);
    }
  }

  lemma {:induction false} FollowedAgree(j: Joint, w: Commands.Workspace)
    requires AllAgree(j) && LifecyclesStay(j.w.nodes, w.nodes)
    ensures AllAgree(Joint(w, Followed(j.circles, w.nodes)))
  {
    var circles := Followed(j.circles, w.nodes);
    PlayKeepsSound([]);
    assert Sound(EMPTY);
    forall n | n in circles ensures Sound(circles[n]) && Agrees(w, n, circles[n]) {
      if n in j.circles {
        FollowerAgrees(j.w, w, n, j.circles[n]);
      }
    }
  }

  lemma {:induction false} FollowerAgrees(w: Commands.Workspace, w': Commands.Workspace, n: NodeId, c: Circle)
    requires Sound(c) && Agrees(w, n, c) && LifecyclesStay(w.nodes, w'.nodes)
    ensures var c' := After(c, SetLive(Live(w'.nodes, n))); Sound(c') && Agrees(w', n, c')
  {
    hide Sound;
    ActKeepsSound(c, SetLive(Live(w'.nodes, n)));
  }

  // ----- work -----

  lemma {:induction false} OtherRowsStay(w: Commands.Workspace, n: NodeId, action: Commands.Action)
    ensures var w' := Commands.Step(w, Commands.Advance(n, action));
      w'.nodes.Keys == w.nodes.Keys && forall k :: k in w.nodes && k != n ==> w'.nodes[k] == w.nodes[k]
  {
    hide Commands.HasOpenDescendants, Commands.Logged;
  }

  lemma {:induction false} AdvancedNodeAgrees(w: Commands.Workspace, n: NodeId, before: Circle, a: Act)
    requires Sound(before) && Agrees(w, n, before) && Attempt(before, a).Some? && ActionOf(a, After(before, a)).Some?
    requires a.Close? ==> (a.openBelow <==> Commands.HasOpenDescendants(w.nodes, n))
    ensures Agrees(Commands.Step(w, Commands.Advance(n, ActionOf(a, After(before, a)).value)), n, After(before, a))
  {
    hide Sound, Attempt, After, ActionOf, Agrees, Commands.AdvanceNode, Commands.HasOpenDescendants;
    ActAdvancesNode(w, n, before, a);
  }

  lemma {:induction false} TouchedNodeAgrees(w: Commands.Workspace, n: NodeId, before: Circle, a: Act)
    requires Sound(before) && Agrees(w, n, before) && Attempt(before, a).Some? && !a.SetLive?
    requires ActionOf(a, After(before, a)).None?
    ensures Agrees(Commands.Step(w, Commands.Touch), n, After(before, a))
  {
    hide Sound, Attempt, After, ActionOf;
    ActFollowsEdge(before, a);
  }

  lemma {:induction false} WorkedNodeAgrees(w: Commands.Workspace, n: NodeId, before: Circle, a: Act)
    requires Sound(before) && Agrees(w, n, before) && Attempt(before, a).Some? && !a.SetLive?
    requires a.Close? ==> (a.openBelow <==> Commands.HasOpenDescendants(w.nodes, n))
    ensures Sound(After(before, a)) && Agrees(Recorded(w, n, a, After(before, a)), n, After(before, a))
  {
    hide Sound, Attempt, After, ActionOf, Agrees, Commands.Step, Commands.HasOpenDescendants;
    ActKeepsSound(before, a);
    if ActionOf(a, After(before, a)).Some? {
      AdvancedNodeAgrees(w, n, before, a);
    } else {
      TouchedNodeAgrees(w, n, before, a);
    }
  }

  lemma {:induction false} RecordedSparesOthers(w: Commands.Workspace, n: NodeId, a: Act, c: Circle)
    ensures var w' := Recorded(w, n, a, c);
      w'.nodes.Keys == w.nodes.Keys && forall k :: k in w.nodes && k != n ==> w'.nodes[k] == w.nodes[k]
  {
    hide ActionOf, Commands.AdvanceNode;
    if ActionOf(a, c).Some? {
      OtherRowsStay(w, n, ActionOf(a, c).value);
    }
  }

  lemma {:induction false} WorkKeepsAgreement(j: Joint, n: NodeId, a: Act)
    requires AllAgree(j)
    ensures AllAgree(Happened(j, Work(n, a)))
  {
    hide Sound, Recorded, Attempt, Commands.HasOpenDescendants;
    if Offered(j, n, a) && Attempt(j.circles[n], a).Some? {
      WorkedNodeAgrees(j.w, n, j.circles[n], a);
      RecordedSparesOthers(j.w, n, a, After(j.circles[n], a));
      assert After(j.circles[n], a) == Attempt(j.circles[n], a).value;
    }
  }

  lemma {:induction false} HappeningKeepsForest(j: Joint, h: Happening)
    requires WellFormed(j.w.nodes, j.w.revision)
    ensures var w := Happened(j, h).w; WellFormed(w.nodes, w.revision)
  {
    hide WellFormed, Attempt, Commands.Step, Commands.HasOpenDescendants, Followed;
    match h
    case Tree(c) => ForestInvariant.StepKeepsForest(j.w, c);
    case Work(n, a) =>
      if Offered(j, n, a) && Attempt(j.circles[n], a).Some? {
        var action := ActionOf(a, Attempt(j.circles[n], a).value);
        ForestInvariant.StepKeepsForest(j.w,
                                        if action.Some? then Commands.Advance(n, action.value) else Commands.Touch);
      }
  }

  lemma {:induction false} HappeningKeepsJoint(j: Joint, h: Happening)
    requires JointOk(j)
    ensures JointOk(Happened(j, h))
  {
    hide WellFormed, AllAgree, Commands.Step, Attempt, LifecyclesStay;
    HappeningKeepsForest(j, h);
    match h
    case Tree(c) =>
      if !c.Advance? {
        TreeKeepsLifecycles(j.w, c);
        FollowedAgree(j, Commands.Step(j.w, c));
      }
    case Work(n, a) => WorkKeepsAgreement(j, n, a);
  }

  /** After any commands and any work on any nodes, the row of every node agrees with its circle: live exactly if the
      circle is, in the lifecycle the circle is in. Forest and circles keep their invariants together. */
  lemma {:induction false} JointRunsAgree(root: NodeId, title: string, hs: seq<Happening>)
    ensures JointOk(JointRun(Opened(root, title), hs))
  {
    if hs == [] {
      ForestInvariant.NewWorkspaceIsForest(root, title);
      PlayKeepsSound([]);
      assert Played(EMPTY, []) == EMPTY;
    } else {
      hide JointOk, Happened;
      JointRunsAgree(root, title, hs[..|hs| - 1]);
      HappeningKeepsJoint(JointRun(Opened(root, title), hs[..|hs| - 1]), hs[|hs| - 1]);
    }
  }

  /** So nothing runs on a removed node. */
  lemma {:induction false} NothingRunsOnRemovedNodes(root: NodeId, title: string, hs: seq<Happening>, n: NodeId,
                                                     e: ExecId)
    ensures var j := JointRun(Opened(root, title), hs);
      n in j.circles && !Live(j.w.nodes, n) && e in j.circles[n].ledger ==> !j.circles[n].ledger[e].status.Running?
  {
    var j := JointRun(Opened(root, title), hs);
    JointRunsAgree(root, title, hs);
    if n in j.circles && !Live(j.w.nodes, n) && e in j.circles[n].ledger && j.circles[n].ledger[e].status.Running? {
      RunningMeansActive(j.circles[n], e);
    }
  }

  lemma {:induction false} RunningMeansActive(c: Circle, e: ExecId)
    requires Sound(c) && e in c.ledger && c.ledger[e].status.Running?
    ensures c.lifecycle.Active?
  {
    RunningStepIsStarted(c.steps, c.ledger, e);
  }

  /** And a node is closed only above circles that are closed. */
  lemma {:induction false} ClosingFindsAllClosed(j: Joint, n: NodeId, a: Act, d: NodeId)
    requires JointOk(j) && a.Close? && Offered(j, n, a) && Attempt(j.circles[n], a).Some?
    requires d in Commands.LiveDescendants(j.w.nodes, n)
    ensures d in j.circles && j.circles[d].lifecycle.Closed?
  {
    hide WellFormed, Sound;
    assert Commands.LiveDescendants(j.w.nodes, n) <= LiveIds(j.w.nodes);
    assert d in j.w.nodes;
    assert Agrees(j.w, d, j.circles[d]);
  }
}
