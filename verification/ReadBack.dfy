/** What a command wrote is what history tells: at its revision, however much later one asks. */
module ReadBack {
  import opened Wrappers
  import opened Forest
  import opened Commands
  import opened ForestInvariant
  import opened History

  /** `rows` answers the history query for the revision that `c` committed, asked after further commands. */
  ghost predicate AsksFor(root: NodeId, title: string, cs: seq<Command>, c: Command, more: seq<Command>,
                          rows: seq<Event>)
  {
    var w0 := CreateWorkspace(root, title);
    IsQueryResult(rows, Run(w0, cs + [c] + more).events, Step(Run(w0, cs), c).revision)
  }

  lemma {:induction false} HistoryTellsTheStep(root: NodeId, title: string, cs: seq<Command>, c: Command,
                                               more: seq<Command>, rows: seq<Event>)
    requires AsksFor(root, title, cs, c, more, rows)
    ensures Replay(rows) == LiveForest(Step(Run(CreateWorkspace(root, title), cs), c).nodes)
  {
    var all := cs + [c] + more;
    assert all[..|cs| + 1] == cs + [c];
    assert (cs + [c])[..|cs|] == cs;
    TimeTravelIsExact(root, title, all, |cs| + 1, rows);
  }

  /** A created node reads back as planned, under its parent and with its content; everything else reads as before. */
  lemma {:induction false} CreationReadsBack(root: NodeId, title: string, cs: seq<Command>, c: Command,
                                             more: seq<Command>, rows: seq<Event>)
    requires c.Create? && AsksFor(root, title, cs, c, more, rows) &&
      Perform(Run(CreateWorkspace(root, title), cs), c).0.Done?
    ensures var w := Run(CreateWorkspace(root, title), cs);
      && c.id in Replay(rows) && c.id !in LiveForest(w.nodes)
      && Replay(rows)[c.id].parent == c.under && Replay(rows)[c.id].title == c.title &&
        Replay(rows)[c.id].outcome == c.outcome
      && Replay(rows)[c.id].lifecycle.Planned? && Replay(rows)[c.id].created == w.revision + 1
      && Replay(rows) - {c.id} == LiveForest(w.nodes)
  {
    HistoryTellsTheStep(root, title, cs, c, more, rows);
    CreatedForest(Run(CreateWorkspace(root, title), cs), c);
  }

  lemma {:induction false} CreatedForest(w: Workspace, c: Command)
    requires c.Create? && Perform(w, c).0.Done?
    ensures var forest := LiveForest(Step(w, c).nodes);
      && c.id in forest && c.id !in LiveForest(w.nodes)
      && forest[c.id].parent == c.under && forest[c.id].title == c.title && forest[c.id].outcome == c.outcome
      && forest[c.id].lifecycle.Planned? && forest[c.id].created == w.revision + 1
      && forest - {c.id} == LiveForest(w.nodes)
  {
  }

  /** An edited node reads back with the new title and outcome and keeps everything else but its revision. */
  lemma {:induction false} EditReadsBack(root: NodeId, title: string, cs: seq<Command>, c: Command, more: seq<Command>,
                                         rows: seq<Event>)
    requires c.Update? && AsksFor(root, title, cs, c, more, rows) &&
      Perform(Run(CreateWorkspace(root, title), cs), c).0.Done?
    ensures var w := Run(CreateWorkspace(root, title), cs);
      && c.node in LiveForest(w.nodes)
      && Replay(rows) == LiveForest(w.nodes)[c.node :=
           LiveForest(w.nodes)[c.node].(title := c.title, outcome := c.outcome, updated := w.revision + 1)]
  {
    HistoryTellsTheStep(root, title, cs, c, more, rows);
  }

  /** A moved branch reads back in one piece: its top hangs under the target, all of it under the target's root, and the
      revision is new. Nothing else of any node is different, whether it was moved or not. */
  lemma {:induction false} MoveReadsBack(root: NodeId, title: string, cs: seq<Command>, c: Command, more: seq<Command>,
                                         rows: seq<Event>)
    requires c.Move? && AsksFor(root, title, cs, c, more, rows) &&
      Perform(Run(CreateWorkspace(root, title), cs), c).0.Done?
    ensures var w := Run(CreateWorkspace(root, title), cs);
      var before := LiveForest(w.nodes);
      && Replay(rows).Keys == before.Keys && c.node in before && c.target in before
      && (forall n :: n in before && n in LiveBranch(w.nodes, c.node) ==>
        Replay(rows)[n] ==
          before[n].(parent := if n == c.node then Some(c.target) else before[n].parent,
                     root := before[c.target].root, updated := w.revision + 1))
      && (forall n :: n in before && n !in LiveBranch(w.nodes, c.node) ==> Replay(rows)[n] == before[n])
  {
    HistoryTellsTheStep(root, title, cs, c, more, rows);
    MovedForest(Run(CreateWorkspace(root, title), cs), c);
  }

  lemma {:induction false} MovedForest(w: Workspace, c: Command)
    requires c.Move? && Perform(w, c).0.Done?
    ensures var forest, before := LiveForest(Step(w, c).nodes), LiveForest(w.nodes);
      && forest.Keys == before.Keys && c.node in before && c.target in before
      && (forall n :: n in before && n in LiveBranch(w.nodes, c.node) ==>
        forest[n] ==
          before[n].(parent := if n == c.node then Some(c.target) else before[n].parent,
                     root := before[c.target].root, updated := w.revision + 1))
      && (forall n :: n in before && n !in LiveBranch(w.nodes, c.node) ==> forest[n] == before[n])
  {
    hide LiveBranch, MoveNode, Logged;
    MoveIs(w, c.node, c.target, c.expected);
  }

  /** A removed branch is gone from the forest of its revision, and nothing else is. */
  lemma {:induction false} RemovalReadsBack(root: NodeId, title: string, cs: seq<Command>, c: Command,
                                            more: seq<Command>, rows: seq<Event>)
    requires c.Remove? && AsksFor(root, title, cs, c, more, rows) &&
      Perform(Run(CreateWorkspace(root, title), cs), c).0.Done?
    ensures var w := Run(CreateWorkspace(root, title), cs);
      Replay(rows) == LiveForest(w.nodes) - LiveBranch(w.nodes, c.node)
  {
    HistoryTellsTheStep(root, title, cs, c, more, rows);
    RemovedForest(Run(CreateWorkspace(root, title), cs), c);
  }

  lemma {:induction false} RemovedForest(w: Workspace, c: Command)
    requires c.Remove? && Perform(w, c).0.Done?
    ensures LiveForest(Step(w, c).nodes) == LiveForest(w.nodes) - LiveBranch(w.nodes, c.node)
  {
  }
}
