/** Time travel: replaying the event log up to a revision rebuilds the forest that was live at that revision. */
module History {
  import opened Wrappers
  import opened Forest
  import opened Commands
  import opened ForestInvariant

  /** The fold of the history reader: a removal deletes the node, any other event overwrites it. */
  function Replay(rows: seq<Event>): map<NodeId, Snapshot> {
    if rows == [] then map[]
    else
      var e := rows[|rows| - 1];
      var before := Replay(rows[..|rows| - 1]);
      if e.kind.NodeRemoved? || e.after.None? then before - {e.node} else before[e.node := e.after.value]
  }

  /** `rows` is some answer to the history query: the events up to `revision`, ordered by revision. Rows of one
      revision may come in any order. */
  ghost predicate IsQueryResult(rows: seq<Event>, events: multiset<Event>, revision: nat) {
    && (forall e :: multiset(rows)[e] == if e.revision <= revision then events[e] else 0)
    && (forall i, j :: 0 <= i < j < |rows| ==> rows[i].revision <= rows[j].revision)
  }

  /** Each node has at most one event per revision, and exactly the removals carry no state. */
  ghost predicate LogSound(events: multiset<Event>, revision: nat) {
    && (forall e :: e in events ==>
      events[e] == 1 && e.revision <= revision && (e.kind.NodeRemoved? <==> e.after.None?))
    && (forall e, f :: e in events && f in events && e.revision == f.revision && e.node == f.node ==> e == f)
  }

  /** `e` is the last event of its node up to `revision`. */
  ghost predicate Latest(events: multiset<Event>, revision: nat, e: Event) {
    && e in events && e.revision <= revision
    && forall f :: f in events && f.node == e.node && f.revision <= revision ==> f.revision <= e.revision
  }

  /** The last event of every node tells whether and how it was live. */
  ghost predicate Records(events: multiset<Event>, revision: nat, forest: map<NodeId, Snapshot>) {
    && (forall n :: n in forest ==> exists e :: Latest(events, revision, e) && e.node == n)
    && (forall e :: Latest(events, revision, e) ==>
          if e.node in forest then e.after == Some(forest[e.node]) else e.after.None?)
  }

  /** The events tell of every node that changed, and tell its new state. */
  ghost predicate Describes(batch: multiset<Event>, before: map<NodeId, Snapshot>, after: map<NodeId, Snapshot>) {
    && (forall e :: e in batch ==> e.after == if e.node in after then Some(after[e.node]) else None)
    && (forall n :: (n in before) != (n in after) || (n in before && before[n] != after[n]) ==>
          exists e :: e in batch && e.node == n)
  }

  ghost predicate AllAt(batch: multiset<Event>, revision: nat) {
    forall e :: e in batch ==> e.revision == revision
  }

  /** What the events of one transaction owe to the change they describe. */
  ghost predicate Accurate(batch: multiset<Event>, revision: nat, before: map<NodeId, Snapshot>,
                           after: map<NodeId, Snapshot>)
  {
    LogSound(batch, revision) && AllAt(batch, revision) && Describes(batch, before, after)
  }

  /** Rows outside `ids` are untouched. */
  ghost predicate OnlyThese(m: Nodes, m': Nodes, ids: set<NodeId>) {
    forall n :: n !in ids ==> (n in m <==> n in m') && (n in m ==> m'[n] == m[n])
  }

  lemma {:induction false} LoggedIsAccurate(revision: nat, kind: EventKind, m: Nodes, m': Nodes, ids: set<NodeId>)
    requires !kind.NodeRemoved? && ids <= LiveIds(m') && OnlyThese(m, m', ids)
    ensures Accurate(Logged(revision, kind, m', ids), revision, LiveForest(m), LiveForest(m'))
  {
    forall n | n in ids ensures Event(revision, n, kind, Some(Snap(m'[n]))) in Logged(revision, kind, m', ids) {
    }
  }

  lemma {:induction false} LoggedRemovalsAreAccurate(revision: nat, m: Nodes, m': Nodes, ids: set<NodeId>)
    requires ids !! LiveIds(m') && OnlyThese(m, m', ids)
    ensures Accurate(LoggedRemovals(revision, ids), revision, LiveForest(m), LiveForest(m'))
  {
    forall n | n in ids ensures Event(revision, n, NodeRemoved, None) in LoggedRemovals(revision, ids) {
    }
  }

  ghost predicate AccurateStep(w: Workspace, w': Workspace) {
    && w'.revision == w.revision + 1
    && exists batch ::
      w'.events == w.events + batch && Accurate(batch, w'.revision, LiveForest(w.nodes), LiveForest(w'.nodes))
  }

  lemma {:induction false} BranchEditsTouchTheBranch(m: Nodes, branch: set<NodeId>, x: NodeId, p: NodeId, revision: nat)
    requires p in m && branch <= m.Keys
    ensures OnlyThese(m, Moved(m, branch, x, p, revision), branch)
    ensures branch <= LiveIds(m) ==> branch <= LiveIds(Moved(m, branch, x, p, revision))
    ensures OnlyThese(m, Stamp(m, branch, revision), branch) && branch !! LiveIds(Stamp(m, branch, revision))
    ensures OnlyThese(m, Revived(m, branch, p, revision), branch) && branch <= LiveIds(Revived(m, branch, p, revision))
  {
  }

  lemma {:induction false} MoveIsAccurate(m: Nodes, x: NodeId, target: NodeId, revision: nat)
    requires WellFormed(m, revision) && Live(m, x) && Live(m, target) && target !in LiveBranch(m, x)
    ensures var m' := Moved(m, LiveBranch(m, x), x, target, revision + 1);
      Accurate(Logged(revision + 1, NodeMoved, m', LiveBranch(m', x)), revision + 1, LiveForest(m), LiveForest(m'))
  {
    LiveBranchHasTop(m, x);
    assert LiveIds(m) <= m.Keys;
    hide *;
    var m' := Moved(m, LiveBranch(m, x), x, target, revision + 1);
    MoveReadsSameBranch(m, x, target, revision);
    BranchEditsTouchTheBranch(m, LiveBranch(m, x), x, target, revision + 1);
    LoggedIsAccurate(revision + 1, NodeMoved, m, m', LiveBranch(m, x));
  }

  lemma {:induction false} RemoveIsAccurate(m: Nodes, x: NodeId, revision: nat)
    requires Live(m, x)
    ensures var branch := LiveBranch(m, x);
      Accurate(LoggedRemovals(revision, branch), revision, LiveForest(m), LiveForest(Stamp(m, branch, revision)))
  {
    LiveBranchHasTop(m, x);
    assert LiveIds(m) <= m.Keys && x in m;
    hide *;
    BranchEditsTouchTheBranch(m, LiveBranch(m, x), x, x, revision);
    LoggedRemovalsAreAccurate(revision, m, Stamp(m, LiveBranch(m, x), revision), LiveBranch(m, x));
  }

  lemma {:induction false} RemovedBranchIsRows(m: Nodes, x: NodeId)
    requires x in m && m[x].removed.Some?
    ensures RemovedBranch(m, x) <= m.Keys
  {
  }

  lemma {:induction false} RestoreIsAccurate(m: Nodes, x: NodeId, revision: nat)
    requires WellFormed(m, revision) && RestorableTop(m, x)
    requires m[x].parent.Some? && Live(m, m[x].parent.value)
    ensures var m' := Revived(m, RemovedBranch(m, x), m[x].parent.value, revision + 1);
      Accurate(Logged(revision + 1, NodeRestored, m', LiveBranch(m', x)), revision + 1, LiveForest(m), LiveForest(m'))
  {
    hide WellFormed, RemovedBranch, Revived, LiveBranch, Logged, Accurate, LiveForest, OnlyThese;
    var branch := RemovedBranch(m, x);
    RemovedBranchIsRows(m, x);
    RestoreReadsRevivedBranch(m, x, revision);
    BranchEditsTouchTheBranch(m, branch, x, m[x].parent.value, revision + 1);
    LoggedIsAccurate(revision + 1, NodeRestored, m, Revived(m, branch, m[x].parent.value, revision + 1), branch);
  }

  lemma {:induction false} AccurateWith(w: Workspace, w': Workspace, batch: multiset<Event>)
    requires w'.revision == w.revision + 1 && w'.events == w.events + batch
    requires Accurate(batch, w'.revision, LiveForest(w.nodes), LiveForest(w'.nodes))
    ensures AccurateStep(w, w')
  {
    hide Accurate, LiveForest;
  }

  lemma {:induction false} MoveStepIsAccurate(w: Workspace, x: NodeId, target: NodeId, expected: Option<nat>)
    requires WellFormed(w.nodes, w.revision) && MoveNode(w, x, target, expected).0.Done?
    ensures AccurateStep(w, MoveNode(w, x, target, expected).1)
  {
    hide WellFormed, MoveNode, LiveBranch, Moved, Logged, Accurate, AccurateStep, LiveForest;
    MoveIs(w, x, target, expected);
    MoveIsAccurate(w.nodes, x, target, w.revision);
    var nodes := Moved(w.nodes, LiveBranch(w.nodes, x), x, target, w.revision + 1);
    AccurateWith(w, MoveNode(w, x, target, expected).1, Logged(w.revision + 1, NodeMoved, nodes, LiveBranch(nodes, x)));
  }

  lemma {:induction false} RemoveStepIsAccurate(w: Workspace, x: NodeId, expected: Option<nat>)
    requires RemoveNode(w, x, expected).0.Done?
    ensures AccurateStep(w, RemoveNode(w, x, expected).1)
  {
    hide *;
    RemovalIs(w, x, expected);
    RemoveIsAccurate(w.nodes, x, w.revision + 1);
    AccurateWith(w, RemoveNode(w, x, expected).1, LoggedRemovals(w.revision + 1, LiveBranch(w.nodes, x)));
  }

  lemma {:induction false} RestoreStepIsAccurate(w: Workspace, x: NodeId, expected: Option<nat>)
    requires WellFormed(w.nodes, w.revision) && RestoreNode(w, x, expected).0.Done?
    ensures AccurateStep(w, RestoreNode(w, x, expected).1)
  {
    hide WellFormed, RestoreNode, RemovedBranch, LiveBranch, Revived, Logged, Accurate, AccurateStep, LiveForest;
    RestoreIs(w, x, expected);
    RestoreIsAccurate(w.nodes, x, w.revision);
    var nodes := Revived(w.nodes, RemovedBranch(w.nodes, x), w.nodes[x].parent.value, w.revision + 1);
    AccurateWith(w, RestoreNode(w, x, expected).1, Logged(w.revision + 1, NodeRestored, nodes, LiveBranch(nodes, x)));
  }

  lemma {:induction false} CreateIsAccurate(w: Workspace, id: NodeId, under: Option<NodeId>, title: string,
                                            outcome: string, expected: Option<nat>)
    requires CreateNode(w, id, under, title, outcome, expected).0.Done?
    ensures AccurateStep(w, CreateNode(w, id, under, title, outcome, expected).1)
  {
    var w' := CreateNode(w, id, under, title, outcome, expected).1;
    assert OnlyThese(w.nodes, w'.nodes, {id}) && {id} <= LiveIds(w'.nodes);
    assert w'.revision == w.revision + 1 && w'.events == w.events + Logged(w'.revision, NodeCreated, w'.nodes, {id});
    hide *;
    LoggedIsAccurate(w'.revision, NodeCreated, w.nodes, w'.nodes, {id});
    AccurateWith(w, w', Logged(w'.revision, NodeCreated, w'.nodes, {id}));
  }

  lemma {:induction false} RowUpdateIsAccurate(w: Workspace, w': Workspace, x: NodeId)
    requires {x} <= LiveIds(w'.nodes) && w'.revision == w.revision + 1
    requires w'.events == w.events + Logged(w'.revision, NodeUpdated, w'.nodes, {x}) &&
      OnlyThese(w.nodes, w'.nodes, {x})
    ensures AccurateStep(w, w')
  {
    hide *;
    LoggedIsAccurate(w'.revision, NodeUpdated, w.nodes, w'.nodes, {x});
    AccurateWith(w, w', Logged(w'.revision, NodeUpdated, w'.nodes, {x}));
  }

  lemma {:induction false} EditIs(w: Workspace, c: Command)
    requires (c.Update? || c.Advance?) && Perform(w, c).0.Done?
    ensures var w' := Step(w, c);
      && {c.node} <= LiveIds(w'.nodes) && w'.revision == w.revision + 1 && OnlyThese(w.nodes, w'.nodes, {c.node})
      && w'.events == w.events + Logged(w'.revision, NodeUpdated, w'.nodes, {c.node})
  {
    hide Logged, HasOpenDescendants;
  }

  lemma {:induction false} TouchIsAccurate(w: Workspace)
    ensures AccurateStep(w, w.(revision := w.revision + 1))
  {
    assert w.events + multiset{} == w.events;
    AccurateWith(w, w.(revision := w.revision + 1), multiset{});
  }

  lemma {:induction false} RowCommandIsAccurate(w: Workspace, c: Command)
    requires (c.Create? || c.Update? || c.Advance? || c.Touch?) && Perform(w, c).0.Done?
    ensures AccurateStep(w, Step(w, c))
  {
    hide AccurateStep, CreateNode, UpdateNode, AdvanceNode, Logged, OnlyThese, LiveIds;
    match c
    case Create(id, under, title, outcome, expected) => CreateIsAccurate(w, id, under, title, outcome, expected);
    case Touch => TouchIsAccurate(w);
    case Update(x, _, _, _, _) =>
      EditIs(w, c);
      RowUpdateIsAccurate(w, Step(w, c), x);
    case Advance(x, _) =>
      EditIs(w, c);
      RowUpdateIsAccurate(w, Step(w, c), x);
  }

  lemma {:induction false} AcceptedStepIsAccurate(w: Workspace, c: Command)
    requires WellFormed(w.nodes, w.revision) && Perform(w, c).0.Done?
    ensures AccurateStep(w, Step(w, c))
  {
    hide WellFormed, AccurateStep, CreateNode, UpdateNode, MoveNode, RemoveNode, RestoreNode, AdvanceNode;
    match c
    case Move(x, target, expected) => MoveStepIsAccurate(w, x, target, expected);
    case Remove(x, expected) => RemoveStepIsAccurate(w, x, expected);
    case Restore(x, expected) => RestoreStepIsAccurate(w, x, expected);
    case _ => RowCommandIsAccurate(w, c);
  }

  /** A command either is refused and changes nothing, or takes the next revision and logs exactly what it changed. */
  lemma {:induction false} StepIsAccurate(w: Workspace, c: Command)
    requires WellFormed(w.nodes, w.revision)
    ensures if Perform(w, c).0.Done? then AccurateStep(w, Step(w, c)) else Step(w, c) == w
  {
    hide *;
    if Perform(w, c).0.Done? {
      AcceptedStepIsAccurate(w, c);
    } else {
      RefusalChangesNothing(w, c);
    }
  }

  /** Newer events never change what the log says about an older revision. */
  lemma {:induction false} LaterEventsKeepRecords(events: multiset<Event>, batch: multiset<Event>, revision: nat,
                                                  forest: map<NodeId, Snapshot>)
    requires Records(events, revision, forest)
    requires forall e :: e in batch ==> e.revision > revision
    ensures Records(events + batch, revision, forest)
  {
    forall e ensures Latest(events, revision, e) <==> Latest(events + batch, revision, e) {
      assert forall f :: f in events ==> f in events + batch;
      assert forall f :: f in events + batch && f.revision <= revision ==> f in events;
    }
  }

  lemma {:induction false} SoundBatch(events: multiset<Event>, batch: multiset<Event>, revision: nat)
    requires LogSound(events, revision) && LogSound(batch, revision + 1)
    requires forall e :: e in batch ==> e.revision == revision + 1
    ensures LogSound(events + batch, revision + 1)
  {
    forall e | e in events + batch ensures (events + batch)[e] == 1 {
      assert e in events ==> e !in batch;
    }
  }

  lemma {:induction false} AccurateBatchRecords(events: multiset<Event>, batch: multiset<Event>, revision: nat,
                             before: map<NodeId, Snapshot>, after: map<NodeId, Snapshot>)
    requires (forall e :: e in events ==> e.revision <= revision) && Records(events, revision, before)
    requires AllAt(batch, revision + 1) && Describes(batch, before, after)
    ensures Records(events + batch, revision + 1, after)
  {
    var all := events + batch;
    assert forall e :: e in all <==> e in events || e in batch;
    forall e | Latest(all, revision + 1, e)
      ensures if e.node in after then e.after == Some(after[e.node]) else e.after.None?
    {
      if e !in batch {
        assert Latest(events, revision, e);
        forall f | f in batch ensures f.node != e.node {
          assert f in all;
        }
      }
    }
    forall n | n in after ensures exists e :: Latest(all, revision + 1, e) && e.node == n {
      if f :| f in batch && f.node == n {
        assert Latest(all, revision + 1, f);
      } else {
        var e :| Latest(events, revision, e) && e.node == n;
        assert Latest(all, revision + 1, e);
      }
    }
  }

  /** The batch an accepted command adds to the log. */
  lemma {:induction false} BatchOf(w: Workspace, w': Workspace) returns (batch: multiset<Event>)
    requires AccurateStep(w, w')
    ensures w'.revision == w.revision + 1 && w'.events == w.events + batch
    ensures Accurate(batch, w'.revision, LiveForest(w.nodes), LiveForest(w'.nodes))
  {
    hide Accurate, LiveForest;
    batch :| w'.events == w.events + batch && Accurate(batch, w'.revision, LiveForest(w.nodes), LiveForest(w'.nodes));
  }

  lemma {:induction false} AccurateParts(batch: multiset<Event>, revision: nat, before: map<NodeId, Snapshot>,
                                         after: map<NodeId, Snapshot>)
    requires Accurate(batch, revision, before, after)
    ensures LogSound(batch, revision) && AllAt(batch, revision) && Describes(batch, before, after)
    ensures forall e :: e in batch ==> e.revision == revision
  {
    hide LogSound, Describes;
  }

  lemma {:induction false} BatchIsRecorded(events: multiset<Event>, batch: multiset<Event>, revision: nat,
                                           before: map<NodeId, Snapshot>, after: map<NodeId, Snapshot>)
    requires LogSound(events, revision) && Records(events, revision, before)
    requires Accurate(batch, revision + 1, before, after)
    ensures LogSound(events + batch, revision + 1) && Records(events + batch, revision + 1, after)
  {
    assert forall e :: e in events ==> e.revision <= revision;
    hide *;
    AccurateParts(batch, revision + 1, before, after);
    SoundBatch(events, batch, revision);
    AccurateBatchRecords(events, batch, revision, before, after);
  }

  lemma {:induction false} StepIsRecorded(w: Workspace, c: Command)
    requires WellFormed(w.nodes, w.revision)
    requires LogSound(w.events, w.revision) && Records(w.events, w.revision, LiveForest(w.nodes))
    ensures var w' := Step(w, c);
      LogSound(w'.events, w'.revision) && Records(w'.events, w'.revision, LiveForest(w'.nodes))
  {
    hide *;
    StepIsAccurate(w, c);
    if Perform(w, c).0.Done? {
      var batch := BatchOf(w, Step(w, c));
      BatchIsRecorded(w.events, batch, w.revision, LiveForest(w.nodes), LiveForest(Step(w, c).nodes));
    }
  }

  lemma {:induction false} StepKeepsRecords(w: Workspace, c: Command, revision: nat, forest: map<NodeId, Snapshot>)
    requires WellFormed(w.nodes, w.revision) && revision <= w.revision && Records(w.events, revision, forest)
    ensures var w' := Step(w, c); w.revision <= w'.revision && Records(w'.events, revision, forest)
  {
    hide *;
    StepIsAccurate(w, c);
    if Perform(w, c).0.Done? {
      var batch := BatchOf(w, Step(w, c));
      AccurateParts(batch, w.revision + 1, LiveForest(w.nodes), LiveForest(Step(w, c).nodes));
      LaterEventsKeepRecords(w.events, batch, revision, forest);
    }
  }

  /** Along a run the log stays sound and records the forest of the state it ends in. */
  lemma {:induction false} RunIsRecorded(root: NodeId, title: string, cs: seq<Command>)
    ensures var w := Run(CreateWorkspace(root, title), cs);
      LogSound(w.events, w.revision) && Records(w.events, w.revision, LiveForest(w.nodes))
  {
    var w0 := CreateWorkspace(root, title);
    if cs == [] {
      var e := Event(1, root, NodeCreated, Some(Snap(w0.nodes[root])));
      assert Latest(w0.events, 1, e);
    } else {
      RunIsRecorded(root, title, cs[..|cs| - 1]);
      RunsKeepForest(root, title, cs[..|cs| - 1]);
      StepIsRecorded(Run(w0, cs[..|cs| - 1]), cs[|cs| - 1]);
    }
  }

  /** What the log of a run says about an earlier state of that run. */
  lemma {:induction false} PastStaysRecorded(root: NodeId, title: string, cs: seq<Command>, i: nat)
    requires i <= |cs|
    ensures var w0 := CreateWorkspace(root, title);
      var past := Run(w0, cs[..i]);
      past.revision <= Run(w0, cs).revision && Records(Run(w0, cs).events, past.revision, LiveForest(past.nodes))
    decreases |cs|
  {
    if i == |cs| {
      assert cs[..i] == cs;
      RunIsRecorded(root, title, cs);
    } else {
      var w0 := CreateWorkspace(root, title);
      var earlier := cs[..|cs| - 1];
      var past := Run(w0, cs[..i]);
      assert cs[..i] == earlier[..i];
      PastStaysRecorded(root, title, earlier, i);
      RunsKeepForest(root, title, earlier);
      StepKeepsRecords(Run(w0, earlier), cs[|cs| - 1], past.revision, LiveForest(past.nodes));
    }
  }

  lemma {:induction false} ReplayKeepsLastEvent(rows: seq<Event>, i: nat)
    requires i < |rows| && forall j :: i < j < |rows| ==> rows[j].node != rows[i].node
    requires rows[i].kind.NodeRemoved? <==> rows[i].after.None?
    ensures if rows[i].after.Some? then
      rows[i].node in Replay(rows) && Replay(rows)[rows[i].node] == rows[i].after.value
            else rows[i].node !in Replay(rows)
    decreases |rows|
  {
    if i < |rows| - 1 {
      ReplayKeepsLastEvent(rows[..|rows| - 1], i);
    }
  }

  lemma {:induction false} ReplayInventsNothing(rows: seq<Event>, n: NodeId)
    requires n in Replay(rows)
    ensures exists i :: 0 <= i < |rows| && rows[i].node == n
  {
    if rows[|rows| - 1].node != n {
      ReplayInventsNothing(rows[..|rows| - 1], n);
    }
  }

  lemma {:induction false} LastIndexOf(rows: seq<Event>, n: NodeId) returns (i: nat)
    requires exists k :: 0 <= k < |rows| && rows[k].node == n
    ensures i < |rows| && rows[i].node == n && forall j :: i < j < |rows| ==> rows[j].node != n
  {
    i := |rows| - 1;
    while rows[i].node != n
      invariant 0 <= i < |rows| && forall j :: i < j < |rows| ==> rows[j].node != n
      invariant exists k :: 0 <= k <= i && rows[k].node == n
      decreases i
    {
      i := i - 1;
    }
  }

  /** The newest event up to a revision. */
  lemma {:induction false} NewestEvent(events: multiset<Event>, revision: nat, e: Event) returns (last: Event)
    requires e in events && e.revision <= revision
    ensures last in events && last.revision <= revision
    ensures forall f :: f in events && f.revision <= revision ==> f.revision <= last.revision
    decreases revision - e.revision
  {
    if f :| f in events && e.revision < f.revision <= revision {
      last := NewestEvent(events, revision, f);
    } else {
      last := e;
    }
  }

  /** Every log has an answer for every revision, however many events one revision has. */
  lemma {:induction false} QueryHasAnswer(events: multiset<Event>, revision: nat) returns (rows: seq<Event>)
    ensures IsQueryResult(rows, events, revision)
    decreases |events|
  {
    if e :| e in events && e.revision <= revision {
      var last := NewestEvent(events, revision, e);
      var earlier := QueryHasAnswer(events - multiset{last}, revision);
      rows := earlier + [last];
      forall i | 0 <= i < |earlier| ensures earlier[i].revision <= last.revision {
        assert earlier[i] in multiset(earlier);
      }
    } else {
      rows := [];
    }
  }

  lemma {:induction false} RowIsEvent(rows: seq<Event>, events: multiset<Event>, revision: nat, i: nat)
    requires IsQueryResult(rows, events, revision) && i < |rows|
    ensures rows[i] in events && rows[i].revision <= revision
  {
    assert multiset(rows)[rows[i]] > 0;
  }

  lemma {:induction false} EventIsRow(rows: seq<Event>, events: multiset<Event>, revision: nat, e: Event)
    requires IsQueryResult(rows, events, revision) && e in events && e.revision <= revision
    ensures exists i :: 0 <= i < |rows| && rows[i] == e
  {
    assert e in multiset(rows);
    assert e in rows;
  }

  /** The last row of a node in the answer is its latest event. */
  lemma {:induction false} LastRowIsLatest(rows: seq<Event>, events: multiset<Event>, revision: nat, i: nat)
    requires IsQueryResult(rows, events, revision) && i < |rows|
    requires forall j :: i < j < |rows| ==> rows[j].node != rows[i].node
    ensures Latest(events, revision, rows[i])
  {
    RowIsEvent(rows, events, revision, i);
    forall f | f in events && f.node == rows[i].node && f.revision <= revision ensures f.revision <= rows[i].revision {
      EventIsRow(rows, events, revision, f);
    }
  }

  lemma {:induction false} RecordsDetermineNode(rows: seq<Event>, events: multiset<Event>, revision: nat, latest: nat,
                                                forest: map<NodeId, Snapshot>, n: NodeId)
    requires LogSound(events, latest) && Records(events, revision, forest) && IsQueryResult(rows, events, revision)
    ensures n in Replay(rows) <==> n in forest
    ensures n in forest ==> Replay(rows)[n] == forest[n]
  {
    if n in forest {
      var e :| Latest(events, revision, e) && e.node == n;
      EventIsRow(rows, events, revision, e);
    }
    hide Replay;
    if n in Replay(rows) {
      ReplayInventsNothing(rows, n);
    }
    if exists k :: 0 <= k < |rows| && rows[k].node == n {
      var i := LastIndexOf(rows, n);
      LastRowIsLatest(rows, events, revision, i);
      hide IsQueryResult, LogSound;
      ReplayKeepsLastEvent(rows, i);
    }
  }

  lemma {:induction false} RecordsDetermineReplay(rows: seq<Event>, events: multiset<Event>, revision: nat, latest: nat,
                                                  forest: map<NodeId, Snapshot>)
    requires LogSound(events, latest) && Records(events, revision, forest) && IsQueryResult(rows, events, revision)
    ensures Replay(rows) == forest
  {
    forall n ensures n in Replay(rows) <==> n in forest
      ensures n in forest ==> Replay(rows)[n] == forest[n]
    {
      RecordsDetermineNode(rows, events, revision, latest, forest, n);
    }
    hide LogSound, Records, IsQueryResult, Replay;
  }

  /** Time travel is exact: after any run, whatever order rows of one revision come in, replaying the log up to the
      revision of any earlier state gives that state's live forest. */
  lemma {:induction false} TimeTravelIsExact(root: NodeId, title: string, cs: seq<Command>, i: nat, rows: seq<Event>)
    requires i <= |cs|
    requires var w0 := CreateWorkspace(root, title);
      IsQueryResult(rows, Run(w0, cs).events, Run(w0, cs[..i]).revision)
    ensures Replay(rows) == LiveForest(Run(CreateWorkspace(root, title), cs[..i]).nodes)
  {
    var w0 := CreateWorkspace(root, title);
    RunIsRecorded(root, title, cs);
    PastStaysRecorded(root, title, cs, i);
    RecordsDetermineReplay(rows, Run(w0, cs).events, Run(w0, cs[..i]).revision, Run(w0, cs).revision,
                           LiveForest(Run(w0, cs[..i]).nodes));
  }

  /** Revisions have no gaps: every one from 1 to the current was the revision of some state of the run. */
  lemma {:induction false} EveryRevisionWasCommitted(root: NodeId, title: string, cs: seq<Command>, revision: nat)
    requires 1 <= revision <= Run(CreateWorkspace(root, title), cs).revision
    ensures exists i :: 0 <= i <= |cs| && Run(CreateWorkspace(root, title), cs[..i]).revision == revision
  {
    var w0 := CreateWorkspace(root, title);
    assert cs[..|cs|] == cs;
    if Run(w0, cs).revision != revision {
      var earlier := cs[..|cs| - 1];
      RunsKeepForest(root, title, earlier);
      StepIsAccurate(Run(w0, earlier), cs[|cs| - 1]);
      EveryRevisionWasCommitted(root, title, earlier, revision);
      var i :| 0 <= i <= |earlier| && Run(w0, earlier[..i]).revision == revision;
      assert earlier[..i] == cs[..i];
    }
  }
}
