/** The rows of one workspace and the queries that walk them.

    A workspace owns a forest of work nodes. A node is never deleted: removing a branch stamps its rows
    with the revision of the removal, and restoring it clears that stamp. */
module Forest {
  import opened Wrappers

  type NodeId = nat

  datatype Lifecycle = Planned | Active | Blocked | Review | Closed

  datatype Node = Node(
    parent: Option<NodeId>,
    root: NodeId,
    partition: NodeId,
    title: string,
    outcome: string,
    lifecycle: Lifecycle,
    created: nat,
    updated: nat,
    removed: Option<nat>)

  type Nodes = map<NodeId, Node>

  /** What a change event stores of a node: the row without its partition key and its removal stamp. */
  datatype Snapshot = Snapshot(
    parent: Option<NodeId>,
    root: NodeId,
    title: string,
    outcome: string,
    lifecycle: Lifecycle,
    created: nat,
    updated: nat)

  function Snap(n: Node): Snapshot {
    Snapshot(n.parent, n.root, n.title, n.outcome, n.lifecycle, n.created, n.updated)
  }

  predicate Live(m: Nodes, n: NodeId) {
    n in m && m[n].removed.None?
  }

  function LiveIds(m: Nodes): set<NodeId> {
    set n | n in m && m[n].removed.None?
  }

  function Stamped(m: Nodes, r: nat): set<NodeId> {
    set n | n in m && m[n].removed == Some(r)
  }

  /** The forest a reader sees: the live rows only. */
  function LiveForest(m: Nodes): map<NodeId, Snapshot> {
    map n | n in m && m[n].removed.None? :: Snap(m[n])
  }

  predicate ChildOf(m: Nodes, n: NodeId, parents: set<NodeId>) {
    n in m && m[n].parent.Some? && m[n].parent.value in parents
  }

  function ChildrenIn(m: Nodes, within: set<NodeId>, parents: set<NodeId>): set<NodeId> {
    set n | n in within && ChildOf(m, n, parents)
  }

  /** The fixed point of a recursive query that starts from `seeds` and adds children found in `within`. */
  function Closure(m: Nodes, within: set<NodeId>, seeds: set<NodeId>): (branch: set<NodeId>)
    ensures seeds <= branch <= seeds + within
    ensures ChildrenIn(m, within, branch) <= branch
    decreases within - seeds
  {
    var next := ChildrenIn(m, within, seeds) - seeds;
    if next == {} then
      assert forall n :: n in ChildrenIn(m, within, seeds) ==> n in seeds || n in next;
      seeds
    else
      Closure(m, within, seeds + next)
  }

  function Branch(m: Nodes, within: set<NodeId>, top: NodeId): set<NodeId> {
    if top in within then Closure(m, within, {top}) else {}
  }

  function LiveBranch(m: Nodes, top: NodeId): set<NodeId> {
    Branch(m, LiveIds(m), top)
  }

  /** The closure is the least set that holds the seeds and is closed under children. */
  lemma {:induction false} ClosureIsLeast(m: Nodes, within: set<NodeId>, seeds: set<NodeId>, bound: set<NodeId>)
    requires seeds <= bound && ChildrenIn(m, within, bound) <= bound
    ensures Closure(m, within, seeds) <= bound
    decreases within - seeds
  {
    var next := ChildrenIn(m, within, seeds) - seeds;
    if next != {} {
      assert ChildrenIn(m, within, seeds) <= ChildrenIn(m, within, bound);
      ClosureIsLeast(m, within, seeds + next, bound);
    }
  }

  /** Whatever the recursion added hangs below something it had already found. */
  lemma {:induction false} ClosureHangsTogether(m: Nodes, within: set<NodeId>, seeds: set<NodeId>)
    ensures forall n :: n in Closure(m, within, seeds) && n !in seeds ==> ChildOf(m, n, Closure(m, within, seeds))
    decreases within - seeds
  {
    var next := ChildrenIn(m, within, seeds) - seeds;
    if next != {} {
      ClosureHangsTogether(m, within, seeds + next);
    }
  }

  lemma {:induction false} LiveBranchHasTop(m: Nodes, x: NodeId)
    requires Live(m, x)
    ensures x in LiveBranch(m, x) && LiveBranch(m, x) <= LiveIds(m)
  {
  }

  /** The k-th ancestor. */
  function Up(m: Nodes, n: NodeId, k: nat): Option<NodeId>
    decreases k
  {
    if k == 0 then Some(n)
    else if n in m && m[n].parent.Some? then Up(m, m[n].parent.value, k - 1)
    else None
  }

  /** `p` is the parent of row `n`. */
  predicate Under(m: Nodes, n: NodeId, p: NodeId) {
    n in m && m[n].parent == Some(p)
  }

  /** A rank that grows from parent to child; it exists exactly when no chain of parents loops. */
  ghost predicate Ranked(m: Nodes, rank: map<NodeId, nat>) {
    && m.Keys <= rank.Keys
    && forall n, p :: Under(m, n, p) ==> p in m && rank[p] < rank[n]
  }

  ghost predicate Grounded(m: Nodes) {
    exists rank :: Ranked(m, rank)
  }

  ghost predicate LiveAncestors(m: Nodes) {
    forall n, p :: Under(m, n, p) && Live(m, n) ==> Live(m, p)
  }

  /** A live root names itself and a live child inherits root and partition from its parent. */
  ghost predicate RootsInherited(m: Nodes) {
    && (forall n :: Live(m, n) && m[n].parent.None? ==> m[n].root == n && m[n].partition == n)
    && (forall n, p :: Under(m, n, p) && Live(m, n) ==>
          p in m && m[n].root == m[p].root && m[n].partition == m[p].partition)
  }

  /** Removed rows are planned and carry a revision already issued. */
  ghost predicate RemovedRowsFrozen(m: Nodes, revision: nat) {
    forall n :: n in m && m[n].removed.Some? ==> m[n].lifecycle.Planned? && m[n].removed.value <= revision
  }

  /** Every row was created at a revision of its own, already issued. */
  ghost predicate BirthsDistinct(m: Nodes, revision: nat) {
    && (forall n :: n in m ==> m[n].created <= revision)
    && (forall a, b :: a in m && b in m && m[a].created == m[b].created ==> a == b)
  }

  /** Below a removed node everything was removed, and no later than the node itself. */
  ghost predicate StampsDescend(m: Nodes) {
    forall n, p :: Under(m, n, p) && p in m && m[p].removed.Some? ==>
      m[n].removed.Some? && m[n].removed.value <= m[p].removed.value
  }

  /** `n` was removed and its parent does not carry the same stamp: the row restoration starts from. */
  predicate RestorableTop(m: Nodes, n: NodeId) {
    n in m && m[n].removed.Some? &&
    (m[n].parent.Some? && m[n].parent.value in m ==> m[m[n].parent.value].removed != m[n].removed)
  }

  /** A removal leaves one branch, so a stamp has one top. */
  ghost predicate OneTopPerStamp(m: Nodes) {
    forall a, b :: RestorableTop(m, a) && RestorableTop(m, b) && m[a].removed == m[b].removed ==> a == b
  }

  /** What holds of live rows, and of parents in general. */
  ghost predicate LiveRowsOk(m: Nodes) {
    Grounded(m) && LiveAncestors(m) && RootsInherited(m)
  }

  ghost predicate RemovedRowsOk(m: Nodes, revision: nat) {
    RemovedRowsFrozen(m, revision) && StampsDescend(m) && OneTopPerStamp(m)
  }

  ghost predicate WellFormed(m: Nodes, revision: nat) {
    LiveRowsOk(m) && RemovedRowsOk(m, revision) && BirthsDistinct(m, revision)
  }

  lemma {:induction false} RankClimbs(m: Nodes, rank: map<NodeId, nat>, n: NodeId, k: nat)
    requires Ranked(m, rank) && n in m && Up(m, n, k).Some?
    ensures Up(m, n, k).value in m && rank[Up(m, n, k).value] + k <= rank[n]
    decreases k
  {
    if k > 0 {
      assert Under(m, n, m[n].parent.value);
      RankClimbs(m, rank, m[n].parent.value, k - 1);
    }
  }

  /** No row is its own ancestor, and every chain of parents ends: over live and removed rows together. */
  lemma {:induction false} NoNodeIsItsOwnAncestor(m: Nodes, n: NodeId)
    requires Grounded(m) && n in m
    ensures forall k: nat :: k > 0 ==> Up(m, n, k) != Some(n)
    ensures exists k: nat :: Up(m, n, k).Some? && Up(m, n, k + 1).None?
  {
    var rank :| Ranked(m, rank);
    forall k: nat | k > 0 ensures Up(m, n, k) != Some(n) {
      if Up(m, n, k) == Some(n) {
        RankClimbs(m, rank, n, k);
      }
    }
    ChainEnds(m, rank, n);
  }

  lemma {:induction false} ParentIsAnother(m: Nodes, n: NodeId, p: NodeId)
    requires Grounded(m) && Under(m, n, p)
    ensures p != n
  {
    var rank :| Ranked(m, rank);
  }

  lemma {:induction false} ChainEnds(m: Nodes, rank: map<NodeId, nat>, n: NodeId)
    requires Ranked(m, rank) && n in m
    ensures exists k: nat :: Up(m, n, k).Some? && Up(m, n, k + 1).None?
    decreases rank[n]
  {
    if m[n].parent.Some? {
      var p := m[n].parent.value;
      assert Under(m, n, p);
      ChainEnds(m, rank, p);
      var k: nat :| Up(m, p, k).Some? && Up(m, p, k + 1).None?;
      assert Up(m, n, k + 1).Some? && Up(m, n, k + 2).None?;
    } else {
      assert Up(m, n, 0).Some? && Up(m, n, 1).None?;
    }
  }

  /** Every ancestor of a live node is live, and the one without a parent is its root and its partition. */
  lemma {:induction false} RootIsTopOfChain(m: Nodes, n: NodeId, k: nat)
    requires LiveAncestors(m) && RootsInherited(m) && Live(m, n) && Up(m, n, k).Some?
    ensures var a := Up(m, n, k).value;
      Live(m, a) && m[a].root == m[n].root && (m[a].parent.None? ==> m[n].root == a && m[n].partition == a)
    ensures m[Up(m, n, k).value].partition == m[n].partition
    decreases k
  {
    if k > 0 {
      assert Under(m, n, m[n].parent.value);
      RootIsTopOfChain(m, m[n].parent.value, k - 1);
    }
  }

  /** The recursive query over live rows finds exactly the live nodes that have `top` on their parent chain. */
  lemma {:induction false} LiveBranchIsDescendants(m: Nodes, top: NodeId, n: NodeId)
    requires LiveAncestors(m)
    ensures n in LiveBranch(m, top) <==> Live(m, n) && exists k: nat :: Up(m, n, k) == Some(top)
  {
    if Live(m, n) && exists k: nat :: Up(m, n, k) == Some(top) {
      var k: nat :| Up(m, n, k) == Some(top);
      DescendantIsInBranch(m, top, n, k);
    }
    if n in LiveBranch(m, top) {
      var bound := set d | d in LiveIds(m) && exists k: nat :: Up(m, d, k) == Some(top);
      assert Up(m, top, 0) == Some(top);
      forall d | d in ChildrenIn(m, LiveIds(m), bound) ensures d in bound {
        var k: nat :| Up(m, m[d].parent.value, k) == Some(top);
        assert Up(m, d, k + 1) == Some(top);
      }
      ClosureIsLeast(m, LiveIds(m), {top}, bound);
    }
  }

  lemma {:induction false} DescendantIsInBranch(m: Nodes, top: NodeId, n: NodeId, k: nat)
    requires LiveAncestors(m) && Live(m, n) && Up(m, n, k) == Some(top)
    ensures Live(m, top) && n in LiveBranch(m, top)
    decreases k
  {
    if k > 0 {
      assert Under(m, n, m[n].parent.value);
      DescendantIsInBranch(m, top, m[n].parent.value, k - 1);
      assert n in ChildrenIn(m, LiveIds(m), LiveBranch(m, top));
    }
  }

  /** Why checking live descendants is enough: a live node below `top`, through rows of any kind, is in its live
      branch. */
  lemma {:induction false} LiveNodesBelowAreInLiveBranch(m: Nodes, top: NodeId)
    requires LiveAncestors(m) && Live(m, top)
    ensures forall n :: n in Closure(m, m.Keys, {top}) && Live(m, n) ==> n in LiveBranch(m, top)
  {
    var all := Closure(m, m.Keys, {top});
    var bound := set n | n in all && (Live(m, n) ==> n in LiveBranch(m, top));
    forall n | n in ChildrenIn(m, m.Keys, bound) ensures n in bound {
      assert n in ChildrenIn(m, m.Keys, all);
      if Live(m, n) {
        assert Under(m, n, m[n].parent.value);
        assert n in ChildrenIn(m, LiveIds(m), LiveBranch(m, top));
      }
    }
    ClosureIsLeast(m, m.Keys, {top}, bound);
  }
}
