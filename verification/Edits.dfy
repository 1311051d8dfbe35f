/** The tree commands in plain terms: exactly when each is accepted, and the whole row of every node afterwards. The
    handlers read branches by recursive queries; here a branch is what climbs to its top. */
module Edits {
  import opened Wrappers
  import opened Forest
  import opened Commands
  import opened ForestInvariant
  import opened Goals
  import opened RoundTrip

  /** `n` is live and stands at `x` or below it. */
  ghost predicate Within(m: Nodes, n: NodeId, x: NodeId) {
    n in m && m[n].removed.None? && exists k: nat :: Up(m, n, k) == Some(x)
  }

  lemma {:induction false} BranchIsWithin(m: Nodes, x: NodeId)
    requires LiveAncestors(m)
    ensures forall n :: n in LiveBranch(m, x) <==> Within(m, n, x)
  {
    forall n ensures n in LiveBranch(m, x) <==> Within(m, n, x) {
      if n in LiveBranch(m, x) {
        LiveBranchIsDescendants(m, x, n);
        var k: nat :| Up(m, n, k) == Some(x);
        assert Within(m, n, x);
      } else if Within(m, n, x) {
        var k: nat :| Up(m, n, k) == Some(x);
        DescendantIsInBranch(m, x, n, k);
      }
    }
  }

  /** Every live node at or below `x` is planned, and `x` has a parent or is not the oldest of them. */
  ghost predicate MayLeave(m: Nodes, x: NodeId) {
    && x in m && m[x].removed.None?
    && (forall n :: Within(m, n, x) ==> m[n].lifecycle.Planned?)
    && (m[x].parent.Some? || exists n :: Within(m, n, x) && m[n].created < m[x].created)
  }

  lemma {:induction false} BranchMayLeave(m: Nodes, x: NodeId)
    requires LiveAncestors(m) && Live(m, x)
    ensures MayLeave(m, x) <==> !LedByGoal(m, LiveBranch(m, x)) && FullyPlanned(m, LiveBranch(m, x))
  {
    BranchIsWithin(m, x);
    LedByItsTop(m, x);
    LiveBranchHasTop(m, x);
    hide LiveBranch, LedByGoal, LiveAncestors, Within;
    assert forall n :: n in LiveBranch(m, x) ==> n in m;
  }

  /** A branch is moved exactly if it may leave its place, the target is live planned work that does not climb to it,
      and the revision named, if any, is the current one. */
  lemma {:induction false} MoveIsAcceptedExactlyWhen(w: Workspace, x: NodeId, target: NodeId, expected: Option<nat>)
    requires LiveAncestors(w.nodes)
    ensures MoveNode(w, x, target, expected).0.Done? <==>
      && MayLeave(w.nodes, x)
      && target in w.nodes && w.nodes[target].removed.None? && w.nodes[target].lifecycle.Planned?
      && (forall k: nat :: Up(w.nodes, target, k) != Some(x))
      && (expected.Some? ==> expected.value == w.revision)
  {
    if Live(w.nodes, x) {
      BranchMayLeave(w.nodes, x);
    }
    LiveBranchIsDescendants(w.nodes, x, target);
    assert Up(w.nodes, x, 0) == Some(x);
    assert MayLeave(w.nodes, x) ==> Live(w.nodes, x);
    hide LiveBranch, LedByGoal, LiveAncestors, FullyPlanned, Moved, Logged, MayLeave;
  }

  /** A branch is removed exactly if it may leave its place and the revision named, if any, is the current one. */
  lemma {:induction false} RemovalIsAcceptedExactlyWhen(w: Workspace, x: NodeId, expected: Option<nat>)
    requires LiveAncestors(w.nodes)
    ensures RemoveNode(w, x, expected).0.Done? <==>
      MayLeave(w.nodes, x) && (expected.Some? ==> expected.value == w.revision)
  {
    if Live(w.nodes, x) {
      BranchMayLeave(w.nodes, x);
    }
    hide LiveBranch, LedByGoal, LiveAncestors, FullyPlanned, Stamp, LoggedRemovals;
    assert MayLeave(w.nodes, x) ==> Live(w.nodes, x);
    hide MayLeave;
  }

  /** A removed branch is restored exactly at a row that was removed while its parent is live and planned. */
  lemma {:induction false} RestorationIsAcceptedExactlyWhen(w: Workspace, x: NodeId, expected: Option<nat>)
    ensures RestoreNode(w, x, expected).0.Done? <==>
      && x in w.nodes && w.nodes[x].removed.Some?
      && (exists p :: w.nodes[x].parent == Some(p) && p in w.nodes && w.nodes[p].removed.None? &&
                      w.nodes[p].lifecycle.Planned?)
      && (expected.Some? ==> expected.value == w.revision)
  {
    hide RemovedBranch, Revived, LiveBranch, Logged;
  }

  // ----- the rows afterwards -----

  lemma {:induction false} MoveLeaves(w: Workspace, x: NodeId, target: NodeId, expected: Option<nat>)
    requires LiveAncestors(w.nodes) && MoveNode(w, x, target, expected).0.Done?
    ensures var m, m' := w.nodes, MoveNode(w, x, target, expected).1.nodes;
      && m'.Keys == m.Keys && x in m && target in m
      && m'[x].parent == Some(target)
      && (forall n :: n in m && Within(m, n, x) ==>
        m'[n] == m[n].(parent := m'[n].parent, root := m[target].root, partition := m[target].partition,
                       updated := w.revision + 1))
      && (forall n :: n in m && n != x ==> m'[n].parent == m[n].parent)
      && (forall n :: n in m && !Within(m, n, x) ==> m'[n] == m[n])
  {
    MoveIs(w, x, target, expected);
    BranchIsWithin(w.nodes, x);
    LiveBranchHasTop(w.nodes, x);
    hide LiveBranch, Within, MoveNode, Logged, LiveAncestors;
  }

  lemma {:induction false} RemovalLeaves(w: Workspace, x: NodeId, expected: Option<nat>)
    requires LiveAncestors(w.nodes) && RemoveNode(w, x, expected).0.Done?
    ensures var m, m' := w.nodes, RemoveNode(w, x, expected).1.nodes;
      && m'.Keys == m.Keys
      && (forall n :: n in m && Within(m, n, x) ==>
        m'[n] == m[n].(removed := Some(w.revision + 1), updated := w.revision + 1))
      && (forall n :: n in m && !Within(m, n, x) ==> m'[n] == m[n])
  {
    RemovalIs(w, x, expected);
    BranchIsWithin(w.nodes, x);
    hide LiveBranch, Within, RemoveNode, LoggedRemovals, LiveAncestors;
  }

  /** Restoring any row with a live parent brings back everything that was removed together with it, and nothing else:
      in a reachable workspace one removal leaves one branch. */
  lemma {:induction false} RestorationLeaves(w: Workspace, x: NodeId, expected: Option<nat>)
    requires WellFormed(w.nodes, w.revision) && RestoreNode(w, x, expected).0.Done?
    ensures var m, m' := w.nodes, RestoreNode(w, x, expected).1.nodes;
      && m'.Keys == m.Keys && x in m && m[x].parent.Some? && m[x].parent.value in m
      && (forall n :: n in m && m[n].removed == m[x].removed ==>
        m'[n] == m[n].(removed := None, root := m[m[x].parent.value].root,
                       partition := m[m[x].parent.value].partition, updated := w.revision + 1))
      && (forall n :: n in m && m[n].removed != m[x].removed ==> m'[n] == m[n])
  {
    RestoreIs(w, x, expected);
    StampIsRemovedBranch(w.nodes, x, w.revision);
    hide WellFormed, RestoreNode, LiveBranch, Logged;
  }
}
