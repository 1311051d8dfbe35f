/** Removing a branch and restoring it later, whatever happened in between. */
module RoundTrip {
  import opened Wrappers
  import opened Forest
  import opened Commands
  import opened ForestInvariant

  /** Of the rows stamped `r`, either all are still exactly as before, or none is left. */
  ghost predicate StampKept(before: Nodes, after: Nodes, r: nat) {
    || Stamped(after, r) == {}
    || (Stamped(after, r) == Stamped(before, r) && forall n :: n in Stamped(before, r) ==> after[n] == before[n])
  }

  lemma {:induction false} RestoreKeepsOrClearsStamp(m: Nodes, x: NodeId, revision: nat, r: nat)
    requires WellFormed(m, revision) && RestorableTop(m, x)
    requires m[x].parent.Some? && Live(m, m[x].parent.value)
    ensures StampKept(m, Revived(m, RemovedBranch(m, x), m[x].parent.value, revision + 1), r)
  {
    var m' := Revived(m, RemovedBranch(m, x), m[x].parent.value, revision + 1);
    if m[x].removed == Some(r) {
      var rank :| Ranked(m, rank);
      forall n | n in Stamped(m, r) ensures n in RemovedBranch(m, x) {
        StampIsOneBranch(m, rank, x, n);
      }
      assert Stamped(m', r) == {};
    } else {
      assert Stamped(m', r) == Stamped(m, r);
    }
  }

  lemma {:induction false} EditKeepsStamp(w: Workspace, c: Command, r: nat)
    requires c.Create? || c.Update? || c.Advance? || c.Touch?
    ensures StampKept(w.nodes, Step(w, c).nodes, r)
  {
    hide Logged, HasOpenDescendants;
    assert Stamped(Step(w, c).nodes, r) == Stamped(w.nodes, r);
  }

  lemma {:induction false} MovedKeepsStamp(m: Nodes, x: NodeId, target: NodeId, revision: nat, r: nat)
    requires target in m
    ensures StampKept(m, Moved(m, LiveBranch(m, x), x, target, revision), r)
  {
    assert LiveBranch(m, x) <= LiveIds(m);
    hide LiveBranch;
    assert Stamped(Moved(m, LiveBranch(m, x), x, target, revision), r) == Stamped(m, r);
  }

  lemma {:induction false} StampingKeepsStamp(m: Nodes, x: NodeId, revision: nat, r: nat)
    requires r < revision
    ensures StampKept(m, Stamp(m, LiveBranch(m, x), revision), r)
  {
    assert LiveBranch(m, x) <= LiveIds(m);
    hide LiveBranch;
    assert Stamped(Stamp(m, LiveBranch(m, x), revision), r) == Stamped(m, r);
  }

  lemma {:induction false} MoveKeepsStamp(w: Workspace, x: NodeId, target: NodeId, expected: Option<nat>, r: nat)
    ensures StampKept(w.nodes, MoveNode(w, x, target, expected).1.nodes, r)
  {
    hide LiveBranch, LedByGoal, FullyPlanned, Logged;
    if MoveNode(w, x, target, expected).0.Done? {
      MovedKeepsStamp(w.nodes, x, target, w.revision + 1, r);
    }
  }

  lemma {:induction false} RemoveKeepsStamp(w: Workspace, x: NodeId, expected: Option<nat>, r: nat)
    requires r <= w.revision
    ensures StampKept(w.nodes, RemoveNode(w, x, expected).1.nodes, r)
  {
    hide LiveBranch, LedByGoal, FullyPlanned, LoggedRemovals, Stamp;
    if RemoveNode(w, x, expected).0.Done? {
      StampingKeepsStamp(w.nodes, x, w.revision + 1, r);
    }
  }

  lemma {:induction false} RestoreKeepsStamp(w: Workspace, x: NodeId, expected: Option<nat>, r: nat)
    requires WellFormed(w.nodes, w.revision)
    ensures StampKept(w.nodes, RestoreNode(w, x, expected).1.nodes, r)
  {
    hide WellFormed, LiveBranch, RemovedBranch, Revived, Logged;
    if RestoreNode(w, x, expected).0.Done? {
      hide StampKept;
      RestoreKeepsOrClearsStamp(w.nodes, x, w.revision, r);
    }
  }

  lemma {:induction false} StepKeepsOrClearsStamp(w: Workspace, c: Command, r: nat)
    requires WellFormed(w.nodes, w.revision) && r <= w.revision
    ensures StampKept(w.nodes, Step(w, c).nodes, r)
  {
    hide WellFormed, StampKept, CreateNode, UpdateNode, MoveNode, RemoveNode, RestoreNode, AdvanceNode;
    match c
    case Move(x, target, expected) => MoveKeepsStamp(w, x, target, expected, r);
    case Remove(x, expected) => RemoveKeepsStamp(w, x, expected, r);
    case Restore(x, expected) => RestoreKeepsStamp(w, x, expected, r);
    case _ => EditKeepsStamp(w, c, r);
  }

  lemma {:induction false} StepAdvancesRevision(w: Workspace, c: Command)
    ensures w.revision <= Step(w, c).revision
  {
    hide LiveBranch, LedByGoal, FullyPlanned, HasOpenDescendants, Moved, Stamp, Revived, Logged, LoggedRemovals;
  }

  lemma {:induction false} StampKeptTwice(first: Nodes, second: Nodes, third: Nodes, r: nat)
    requires StampKept(first, second, r) && StampKept(second, third, r)
    ensures StampKept(first, third, r)
  {
  }

  lemma {:induction false} RunKeepsOrClearsStamp(w: Workspace, cs: seq<Command>, r: nat)
    requires WellFormed(w.nodes, w.revision) && r <= w.revision
    ensures var w' := Run(w, cs);
      WellFormed(w'.nodes, w'.revision) && w.revision <= w'.revision && StampKept(w.nodes, w'.nodes, r)
  {
    hide WellFormed, Step;
    if cs != [] {
      var before := Run(w, cs[..|cs| - 1]);
      RunKeepsOrClearsStamp(w, cs[..|cs| - 1], r);
      StepKeepsForest(before, cs[|cs| - 1]);
      StepKeepsOrClearsStamp(before, cs[|cs| - 1], r);
      StepAdvancesRevision(before, cs[|cs| - 1]);
      StampKeptTwice(w.nodes, before.nodes, Step(before, cs[|cs| - 1]).nodes, r);
    }
  }

  lemma {:induction false} ParentOutsideBranch(m: Nodes, x: NodeId, revision: nat)
    requires WellFormed(m, revision) && Live(m, x) && m[x].parent.Some?
    ensures m[x].parent.value !in LiveBranch(m, x)
  {
    var p := m[x].parent.value;
    if p in LiveBranch(m, x) {
      LiveBranchIsDescendants(m, x, p);
      var k: nat :| Up(m, p, k) == Some(x);
      assert Up(m, x, k + 1) == Some(x);
      NoNodeIsItsOwnAncestor(m, x);
    }
  }

  /** What a removal leaves: its top carries the new stamp, and the parent of the top does not. */
  lemma {:induction false} RemovalStamps(w: Workspace, x: NodeId, expected: Option<nat>)
    requires WellFormed(w.nodes, w.revision) && RemoveNode(w, x, expected).0.Done?
    ensures var w1 := RemoveNode(w, x, expected).1;
      && x in w.nodes && x in Stamped(w1.nodes, w1.revision) && w1.nodes[x].parent == w.nodes[x].parent
      && (w.nodes[x].parent.Some? ==> w.nodes[x].parent.value !in Stamped(w1.nodes, w1.revision))
  {
    hide WellFormed, LiveBranch, RemoveNode, Stamped, LoggedRemovals;
    RemovalIs(w, x, expected);
    StampedBranch(w.nodes, x, w.revision);
    hide Stamp;
    TopKeepsParent(w.nodes, LiveBranch(w.nodes, x), x, w.revision + 1);
  }

  lemma {:induction false} TopKeepsParent(m: Nodes, branch: set<NodeId>, x: NodeId, revision: nat)
    requires x in m
    ensures x in Stamp(m, branch, revision) && Stamp(m, branch, revision)[x].parent == m[x].parent
  {
  }

  lemma {:induction false} StampedBranch(m: Nodes, x: NodeId, revision: nat)
    requires WellFormed(m, revision) && Live(m, x)
    ensures var m' := Stamp(m, LiveBranch(m, x), revision + 1);
      && Stamped(m', revision + 1) == LiveBranch(m, x) && x in LiveBranch(m, x) && m'[x].parent == m[x].parent
      && (m[x].parent.Some? ==> m[x].parent.value !in LiveBranch(m, x))
  {
    if m[x].parent.Some? {
      ParentOutsideBranch(m, x, revision);
    }
  }

  lemma {:induction false} StampedTopStays(m1: Nodes, m2: Nodes, r: nat, x: NodeId)
    requires StampKept(m1, m2, r) && x in Stamped(m1, r)
    requires m1[x].parent.Some? ==> m1[x].parent.value !in Stamped(m1, r)
    ensures x in m2 && m2[x].removed == Some(r) ==> RestorableTop(m2, x) && m2[x].parent == m1[x].parent
  {
    if x in m2 && m2[x].removed == Some(r) {
      assert x in Stamped(m2, r);
      assert m1[x].parent.Some? ==> m1[x].parent.value !in Stamped(m2, r);
    }
  }

  lemma {:induction false} RestoreNeedsPlannedParent(w: Workspace, x: NodeId)
    requires RestorableTop(w.nodes, x)
    ensures RestoreNode(w, x, None).0.Done? <==>
      w.nodes[x].parent.Some? && Live(w.nodes, w.nodes[x].parent.value) &&
        w.nodes[w.nodes[x].parent.value].lifecycle.Planned?
  {
    hide RemovedBranch, Revived, LiveBranch, Logged;
  }

  /** After its removal, while it is still removed, a branch can be restored exactly if its top has a parent and that
      parent is live and planned. */
  lemma {:induction false} RemovedBranchStaysRestorable(w: Workspace, x: NodeId, expected: Option<nat>,
                                                        between: seq<Command>)
    requires WellFormed(w.nodes, w.revision) && RemoveNode(w, x, expected).0.Done?
    ensures var w1 := RemoveNode(w, x, expected).1;
      var w2 := Run(w1, between);
      && x in w.nodes && x in w1.nodes && w1.nodes[x].removed == Some(w1.revision)
      && (x in w2.nodes && w2.nodes[x].removed == Some(w1.revision) ==>
            && RestorableTop(w2.nodes, x)
            && (RestoreNode(w2, x, None).0.Done? <==>
                  && w.nodes[x].parent.Some? && Live(w2.nodes, w.nodes[x].parent.value)
                  && w2.nodes[w.nodes[x].parent.value].lifecycle.Planned?))
  {
    var w1 := RemoveNode(w, x, expected).1;
    var w2 := Run(w1, between);
    RemoveCommandKeepsForest(w, x, expected);
    RunKeepsOrClearsStamp(w1, between, w1.revision);
    RemovalStamps(w, x, expected);
    hide WellFormed, RemoveNode, RestoreNode, Run, StampKept;
    StampedTopStays(w1.nodes, w2.nodes, w1.revision, x);
    if x in w2.nodes && w2.nodes[x].removed == Some(w1.revision) {
      RestoreNeedsPlannedParent(w2, x);
    }
  }

  /** After `between` the removal of `x` has not been undone. */
  ghost predicate StillRemoved(w: Workspace, x: NodeId, expected: Option<nat>, between: seq<Command>) {
    var w1 := RemoveNode(w, x, expected).1;
    var w2 := Run(w1, between);
    x in w2.nodes && w2.nodes[x].removed == Some(w1.revision)
  }

  lemma {:induction false} StampIsRemovedBranch(m: Nodes, x: NodeId, revision: nat)
    requires WellFormed(m, revision) && RestorableTop(m, x)
    ensures RemovedBranch(m, x) == Stamped(m, m[x].removed.value)
  {
    var rank :| Ranked(m, rank);
    forall n | n in Stamped(m, m[x].removed.value) ensures n in RemovedBranch(m, x) {
      StampIsOneBranch(m, rank, x, n);
    }
  }

  /** The rows of `branch`, as they were in `m`, carry the stamp `r` in `m'`. */
  ghost predicate StampedAs(m: Nodes, m': Nodes, branch: set<NodeId>, r: nat) {
    forall n :: n in branch ==> n in m && n in m' && m'[n] == m[n].(removed := Some(r), updated := r)
  }

  lemma {:induction false} KeptStampIsTheBranch(m: Nodes, m2: Nodes, x: NodeId, revision: nat)
    requires WellFormed(m, revision) && Live(m, x) && x in Stamped(m2, revision + 1)
    requires StampKept(Stamp(m, LiveBranch(m, x), revision + 1), m2, revision + 1)
    ensures Stamped(m2, revision + 1) == LiveBranch(m, x) && StampedAs(m, m2, LiveBranch(m, x), revision + 1)
  {
    StampedBranch(m, x, revision);
    var m1 := Stamp(m, LiveBranch(m, x), revision + 1);
    forall n | n in LiveBranch(m, x) ensures n in m1 && n in Stamped(m1, revision + 1) && m2[n] == m1[n] {
    }
  }

  lemma {:induction false} TopIsStamped(w: Workspace, x: NodeId, expected: Option<nat>, between: seq<Command>)
    requires StillRemoved(w, x, expected, between)
    ensures var w2 := Run(RemoveNode(w, x, expected).1, between);
      && x in Stamped(w2.nodes, RemoveNode(w, x, expected).1.revision)
      && x in w2.nodes && w2.nodes[x].removed == Some(RemoveNode(w, x, expected).1.revision)
  {
    hide RemoveNode, Run;
  }

  /** While the stamp of a removal is there, the rows below its top are the removed branch, otherwise as it was. */
  lemma {:induction false} RemovalIsStillThere(w: Workspace, x: NodeId, expected: Option<nat>, between: seq<Command>)
    requires WellFormed(w.nodes, w.revision) && RemoveNode(w, x, expected).0.Done?
    requires StillRemoved(w, x, expected, between)
    ensures var w2 := Run(RemoveNode(w, x, expected).1, between);
      && RestorableTop(w2.nodes, x) && RemovedBranch(w2.nodes, x) == LiveBranch(w.nodes, x)
      && StampedAs(w.nodes, w2.nodes, LiveBranch(w.nodes, x), w.revision + 1)
  {
    hide *;
    var w1 := RemoveNode(w, x, expected).1;
    var w2 := Run(w1, between);
    RemoveCommandKeepsForest(w, x, expected);
    RunKeepsOrClearsStamp(w1, between, w1.revision);
    RemovedBranchStaysRestorable(w, x, expected, between);
    RemovalIs(w, x, expected);
    TopIsStamped(w, x, expected, between);
    KeptStampIsTheBranch(w.nodes, w2.nodes, x, w.revision);
    StampIsRemovedBranch(w2.nodes, x, w2.revision);
  }

  /** `m` before a branch was removed, `m2` just before it was restored, `m3` after. */
  ghost predicate BroughtBack(m: Nodes, m2: Nodes, m3: Nodes, x: NodeId, revision: nat) {
    && x in m && m[x].parent.Some? && Live(m3, m[x].parent.value)
    && (forall n :: n in LiveBranch(m, x) <==> Live(m3, n) && !Live(m2, n))
    && (forall n :: n in LiveBranch(m, x) ==>
          n in m && n in m3 && m3[n] == m[n].(root := m3[m[x].parent.value].root,
                                              partition := m3[m[x].parent.value].partition, updated := revision))
    && (forall n :: n in m2 && n !in LiveBranch(m, x) ==> n in m3 && m3[n] == m2[n])
  }

  lemma {:induction false} RevivalBringsBack(m: Nodes, m2: Nodes, x: NodeId, r: nat, revision: nat)
    requires x in LiveBranch(m, x) && LiveBranch(m, x) <= LiveIds(m) && StampedAs(m, m2, LiveBranch(m, x), r)
    requires m[x].parent.Some? && Live(m2, m[x].parent.value)
    ensures BroughtBack(m, m2, Revived(m2, LiveBranch(m, x), m[x].parent.value, revision), x, revision)
  {
    hide LiveBranch;
  }

  /** Restoring a branch revives exactly the nodes its removal stamped. They come back under the same parents with the
      same content, re-rooted where their parent now lives; every other row is left alone. */
  lemma {:induction false} RemoveThenRestore(w: Workspace, x: NodeId, expected: Option<nat>, between: seq<Command>,
                                             expected': Option<nat>)
    requires WellFormed(w.nodes, w.revision) && RemoveNode(w, x, expected).0.Done?
    requires StillRemoved(w, x, expected, between)
    requires RestoreNode(Run(RemoveNode(w, x, expected).1, between), x, expected').0.Done?
    ensures var w2 := Run(RemoveNode(w, x, expected).1, between);
      var w3 := RestoreNode(w2, x, expected').1;
      BroughtBack(w.nodes, w2.nodes, w3.nodes, x, w3.revision)
  {
    var w2 := Run(RemoveNode(w, x, expected).1, between);
    RemovalIsStillThere(w, x, expected, between);
    RestoreIs(w2, x, expected');
    RemovalStamps(w, x, expected);
    assert Live(w.nodes, x);
    LiveBranchHasTop(w.nodes, x);
    assert x in w2.nodes && w2.nodes[x].parent == w.nodes[x].parent;
    hide WellFormed, RemoveNode, RestoreNode, Run, BroughtBack, LiveBranch, RemovedBranch, Revived;
    RevivalBringsBack(w.nodes, w2.nodes, x, w.revision + 1, RestoreNode(w2, x, expected').1.revision);
  }
}
