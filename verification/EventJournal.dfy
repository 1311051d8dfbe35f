/** What the consumer leaves behind: one journal row for each mapped event it consumed, with the gateway's own creations
    marked as echoes; and when the settle delay is long enough. */
module EventJournal {
  import opened Wrappers
  import opened Forest
  import Commands
  import opened ForestInvariant
  import History
  import opened EventFeed

  // ----- one row for each consumed event -----

  function RowOf(journal: Journal, e: FeedEvent): Option<Row> {
    if e.id in journal then Some(journal[e.id]) else None
  }

  /** Inserting a page leaves every row it finds, and adds the row each of its events is worth. */
  lemma {:induction false} PageInserts(journal: Journal, mapped: map<NodeId, nat>, events: seq<FeedEvent>, e: FeedEvent)
    requires forall x :: x in events && x.id == e.id ==> x == e
    ensures RowOf(Journaled(journal, mapped, events), e) ==
      if e.id in journal then Some(journal[e.id]) else if e in events then RowFor(mapped, e) else None
  {
    if events != [] {
      var rest, last := events[..|events| - 1], events[|events| - 1];
      PageInserts(journal, mapped, rest, e);
      assert e in events <==> e in rest || e == last;
    }
  }

  /** The row an event gets along a run: from the first page that takes it while its node is mapped. */
  function Entry(moves: seq<Move>, e: FeedEvent): Option<Row> {
    if moves == [] then None
    else
      var f, m, before := Fed(moves[..|moves| - 1]), moves[|moves| - 1], Entry(moves[..|moves| - 1], e);
      if before.Some? then before else if e in Taken(f, m) then RowFor(f.mapped, e) else None
  }

  ghost predicate JournalOk(f: Feed) {
    forall id :: id in f.journal ==> f.journal[id].event in f.outbox && f.journal[id].event.id == id
  }

  lemma {:induction false} MoveInserts(f: Feed, m: Move, e: FeedEvent)
    requires FeedOk(f) && e in Advanced(f, m).outbox
    ensures RowOf(Advanced(f, m).journal, e) ==
      if e.id in f.journal then Some(f.journal[e.id]) else if e in Taken(f, m) then RowFor(f.mapped, e) else None
  {
    MoveKeepsFeed(f, m);
    if Taken(f, m) != [] {
      forall x | x in Taken(f, m) && x.id == e.id ensures x == e {
        CursorPassesWhatIsTaken(f, m, x);
      }
      PageInserts(f.journal, f.mapped, Taken(f, m), e);
    }
  }

  lemma {:induction false} JournalIsOk(moves: seq<Move>)
    ensures JournalOk(Fed(moves))
  {
    if moves != [] {
      var f, m := Fed(moves[..|moves| - 1]), moves[|moves| - 1];
      JournalIsOk(moves[..|moves| - 1]);
      FedIsOk(moves[..|moves| - 1]);
      MoveKeepsFeed(f, m);
      if Taken(f, m) != [] {
        forall x | x in Taken(f, m) ensures x in f.outbox {
          CursorPassesWhatIsTaken(f, m, x);
        }
        PageKeepsJournal(f.journal, f.mapped, Taken(f, m), f.outbox);
      }
    }
  }

  lemma {:induction false} PageKeepsJournal(journal: Journal, mapped: map<NodeId, nat>, events: seq<FeedEvent>,
                                            outbox: set<FeedEvent>)
    requires forall id :: id in journal ==> journal[id].event in outbox && journal[id].event.id == id
    requires forall x :: x in events ==> x in outbox
    ensures forall id :: id in Journaled(journal, mapped, events) ==>
      Journaled(journal, mapped, events)[id].event in outbox && Journaled(journal, mapped, events)[id].event.id == id
  {
    if events != [] {
      PageKeepsJournal(journal, mapped, events[..|events| - 1], outbox);
    }
  }

  /** The journal is what was consumed: each event has the row of its one consumption, or none. */
  lemma {:induction false} JournalIsWhatWasConsumed(moves: seq<Move>, e: FeedEvent)
    requires e in Fed(moves).outbox
    ensures RowOf(Fed(moves).journal, e) == Entry(moves, e)
  {
    var earlier, m := moves[..|moves| - 1], moves[|moves| - 1];
    var f := Fed(earlier);
    FedIsOk(earlier);
    MoveInserts(f, m, e);
    JournalIsOk(earlier);
    if e in f.outbox {
      JournalIsWhatWasConsumed(earlier, e);
    } else {
      FedIsOk(moves);
      NotYetVisible(earlier, e);
      MoveKeepsFeed(f, m);
    }
  }

  lemma {:induction false} NotYetVisible(moves: seq<Move>, e: FeedEvent)
    requires e !in Fed(moves).outbox
    ensures Entry(moves, e).None?
  {
    if moves != [] {
      var f, m := Fed(moves[..|moves| - 1]), moves[|moves| - 1];
      FedIsOk(moves[..|moves| - 1]);
      MoveKeepsFeed(f, m);
      NotYetVisible(moves[..|moves| - 1], e);
      CursorPassesWhatIsTaken(f, m, e);
    }
  }

  /** The move consumes `e` while its node is mapped. */
  predicate TakesMapped(f: Feed, m: Move, e: FeedEvent) {
    e in Taken(f, m) && e.aggregate.WorkNode? && e.node in f.mapped
  }

  ghost predicate TakenMapped(moves: seq<Move>, i: nat, e: FeedEvent) {
    i < |moves| && TakesMapped(Fed(moves[..i]), moves[i], e)
  }

  lemma {:induction false} MappingStays(f: Feed, m: Move, n: NodeId)
    requires n in f.mapped
    ensures n in Advanced(f, m).mapped && Advanced(f, m).mapped[n] == f.mapped[n]
  {
  }

  lemma {:induction false} EntryStays(moves: seq<Move>, e: FeedEvent)
    requires Entry(moves, e).Some?
    ensures e.node in Fed(moves).mapped && Entry(moves, e) == Some(Row(e, Echo(e, Fed(moves).mapped[e.node])))
  {
    var earlier, m := moves[..|moves| - 1], moves[|moves| - 1];
    if Entry(earlier, e).Some? {
      EntryStays(earlier, e);
    }
    MappingStays(Fed(earlier), m, e.node);
  }

  ghost predicate EverTakenMapped(moves: seq<Move>, e: FeedEvent) {
    exists i: nat :: TakenMapped(moves, i, e)
  }

  lemma {:induction false} TakenMappedBefore(moves: seq<Move>, i: nat, e: FeedEvent)
    requires moves != [] && i < |moves| - 1
    ensures TakenMapped(moves, i, e) <==> TakenMapped(moves[..|moves| - 1], i, e)
  {
    assert moves[..|moves| - 1][..i] == moves[..i];
  }

  lemma {:induction false} TakenMappedEarlier(moves: seq<Move>, e: FeedEvent)
    requires moves != []
    ensures EverTakenMapped(moves, e) <==>
      EverTakenMapped(moves[..|moves| - 1], e) || TakenMapped(moves, |moves| - 1, e)
  {
    var earlier := moves[..|moves| - 1];
    if i: nat :| TakenMapped(earlier, i, e) {
      TakenMappedBefore(moves, i, e);
    }
    if i: nat :| TakenMapped(moves, i, e) {
      if i < |moves| - 1 {
        TakenMappedBefore(moves, i, e);
      }
    }
  }

  lemma {:induction false} EntryExactlyWhenTaken(moves: seq<Move>, e: FeedEvent)
    ensures Entry(moves, e).Some? <==> EverTakenMapped(moves, e)
  {
    if moves != [] {
      EntryExactlyWhenTaken(moves[..|moves| - 1], e);
      TakenMappedEarlier(moves, e);
    }
  }

  /** An event has a journal row exactly if it was consumed while its node was mapped. The row is suppressed exactly if
      the event's revision is not later than the one the mapping carries. */
  lemma {:induction false} RowExactlyWhenMapped(moves: seq<Move>, e: FeedEvent)
    requires e in Fed(moves).outbox
    ensures var f := Fed(moves);
      && (e.id in f.journal <==> EverTakenMapped(moves, e))
      && (e.id in f.journal ==> e.node in f.mapped && f.journal[e.id] == Row(e, Echo(e, f.mapped[e.node])))
  {
    JournalIsWhatWasConsumed(moves, e);
    EntryExactlyWhenTaken(moves, e);
    if Entry(moves, e).Some? {
      EntryStays(moves, e);
    }
  }

  // ----- echoes -----

  /** A node's events are not older than its creation, and the creation event is the only one of that revision. */
  ghost predicate BornFirst(w: Commands.Workspace) {
    && (forall e :: e in w.events ==>
          e.node in w.nodes && w.nodes[e.node].created <= e.revision &&
            (e.kind.NodeCreated? <==> e.revision == w.nodes[e.node].created))
    && (forall n :: n in w.nodes ==> w.nodes[n].created <= w.revision)
  }

  lemma {:induction false} BatchKeepsBornFirst(w: Commands.Workspace, nodes: Nodes, batch: multiset<Commands.Event>,
                                               created: bool)
    requires BornFirst(w)
    requires forall n :: n in w.nodes ==> n in nodes && nodes[n].created == w.nodes[n].created
    requires forall n :: n in nodes && n !in w.nodes ==> nodes[n].created == w.revision + 1
    requires forall e :: e in batch ==> (
      && e.revision == w.revision + 1 && e.node in nodes
      && (if created then e.kind.NodeCreated? && e.node !in w.nodes else !e.kind.NodeCreated? && e.node in w.nodes))
    ensures BornFirst(Commands.Workspace(w.revision + 1, nodes, w.events + batch))
  {
  }

  /** A change of existing rows, logged for some of them. */
  lemma {:induction false} ChangeIsBornFirst(w: Commands.Workspace, kind: Commands.EventKind, nodes: Nodes,
                                             ids: set<NodeId>)
    requires BornFirst(w) && !kind.NodeCreated? && nodes.Keys == w.nodes.Keys
    requires forall n :: n in w.nodes ==> nodes[n].created == w.nodes[n].created
    ensures BornFirst(Commands.Workspace(w.revision + 1, nodes,
                                         w.events + Commands.Logged(w.revision + 1, kind, nodes, ids)))
  {
    BatchKeepsBornFirst(w, nodes, Commands.Logged(w.revision + 1, kind, nodes, ids), false);
  }

  lemma {:induction false} CreationIsBornFirst(w: Commands.Workspace, id: NodeId, under: Option<NodeId>, title: string,
                                               outcome: string, expected: Option<nat>)
    requires BornFirst(w) && Commands.CreateNode(w, id, under, title, outcome, expected).0.Done?
    ensures BornFirst(Commands.CreateNode(w, id, under, title, outcome, expected).1)
  {
    RowCreationIsBornFirst(w, id, Commands.NewNode(w, id, under, title, outcome));
  }

  lemma {:induction false} RowCreationIsBornFirst(w: Commands.Workspace, id: NodeId, row: Node)
    requires BornFirst(w) && id !in w.nodes && row.created == w.revision + 1
    ensures var nodes := w.nodes[id := row];
      BornFirst(Commands.Workspace(w.revision + 1, nodes,
                                   w.events + Commands.Logged(w.revision + 1, Commands.NodeCreated, nodes, {id})))
  {
    var nodes := w.nodes[id := row];
    BatchKeepsBornFirst(w, nodes, Commands.Logged(w.revision + 1, Commands.NodeCreated, nodes, {id}), true);
  }

  lemma {:induction false} RowUpdateIsBornFirst(w: Commands.Workspace, x: NodeId, row: Node)
    requires BornFirst(w) && x in w.nodes && row.created == w.nodes[x].created
    ensures var nodes := w.nodes[x := row];
      BornFirst(Commands.Workspace(w.revision + 1, nodes,
                                   w.events + Commands.Logged(w.revision + 1, Commands.NodeUpdated, nodes, {x})))
  {
    ChangeIsBornFirst(w, Commands.NodeUpdated, w.nodes[x := row], {x});
  }

  lemma {:induction false} EditIsBornFirst(w: Commands.Workspace, c: Commands.Command)
    requires BornFirst(w) && (c.Update? || c.Advance? || c.Touch?)
    ensures BornFirst(Commands.Step(w, c))
  {
    if !c.Touch? && Commands.Perform(w, c).0.Done? {
      RowUpdateIsBornFirst(w, c.node, Commands.Step(w, c).nodes[c.node]);
    }
  }

  lemma {:induction false} MovedIsBornFirst(w: Commands.Workspace, x: NodeId, target: NodeId)
    requires BornFirst(w) && target in w.nodes
    ensures var nodes := Commands.Moved(w.nodes, LiveBranch(w.nodes, x), x, target, w.revision + 1);
      BornFirst(Commands.Workspace(w.revision + 1, nodes, w.events +
        Commands.Logged(w.revision + 1, Commands.NodeMoved, nodes, LiveBranch(nodes, x))))
  {
    var nodes := Commands.Moved(w.nodes, LiveBranch(w.nodes, x), x, target, w.revision + 1);
    BranchEditsKeepBirths(w.nodes, LiveBranch(w.nodes, x), x, target, w.revision + 1);
    ChangeIsBornFirst(w, Commands.NodeMoved, nodes, LiveBranch(nodes, x));
  }

  lemma {:induction false} MoveIsBornFirst(w: Commands.Workspace, x: NodeId, target: NodeId, expected: Option<nat>)
    requires BornFirst(w) && Commands.MoveNode(w, x, target, expected).0.Done?
    ensures BornFirst(Commands.MoveNode(w, x, target, expected).1)
  {
    hide BornFirst, LiveBranch, Commands.MoveNode, Commands.Moved, Commands.Logged;
    Commands.MoveIs(w, x, target, expected);
    MovedIsBornFirst(w, x, target);
  }

  lemma {:induction false} RemovalsAreBornFirst(w: Commands.Workspace, nodes: Nodes, branch: set<NodeId>)
    requires BornFirst(w) && SameBirths(w.nodes, nodes) && branch <= w.nodes.Keys
    ensures BornFirst(Commands.Workspace(w.revision + 1, nodes,
                                         w.events + Commands.LoggedRemovals(w.revision + 1, branch)))
  {
    BatchKeepsBornFirst(w, nodes, Commands.LoggedRemovals(w.revision + 1, branch), false);
  }

  lemma {:induction false} RemoveIsBornFirst(w: Commands.Workspace, x: NodeId, expected: Option<nat>)
    requires BornFirst(w) && Commands.RemoveNode(w, x, expected).0.Done?
    ensures BornFirst(Commands.RemoveNode(w, x, expected).1)
  {
    var branch := LiveBranch(w.nodes, x);
    assert branch <= w.nodes.Keys;
    hide BornFirst, LiveBranch, SameBirths, Commands.RemoveNode, Commands.Stamp, Commands.LoggedRemovals;
    Commands.RemovalIs(w, x, expected);
    BranchEditsKeepBirths(w.nodes, branch, x, x, w.revision + 1);
    RemovalsAreBornFirst(w, Commands.Stamp(w.nodes, branch, w.revision + 1), branch);
  }

  lemma {:induction false} RevivedIsBornFirst(w: Commands.Workspace, x: NodeId, branch: set<NodeId>, p: NodeId)
    requires BornFirst(w) && p in w.nodes
    ensures var nodes := Commands.Revived(w.nodes, branch, p, w.revision + 1);
      BornFirst(Commands.Workspace(w.revision + 1, nodes, w.events +
        Commands.Logged(w.revision + 1, Commands.NodeRestored, nodes, LiveBranch(nodes, x))))
  {
    var nodes := Commands.Revived(w.nodes, branch, p, w.revision + 1);
    BranchEditsKeepBirths(w.nodes, branch, x, p, w.revision + 1);
    ChangeIsBornFirst(w, Commands.NodeRestored, nodes, LiveBranch(nodes, x));
  }

  lemma {:induction false} RestoreIsBornFirst(w: Commands.Workspace, x: NodeId, expected: Option<nat>)
    requires BornFirst(w) && Commands.RestoreNode(w, x, expected).0.Done?
    ensures BornFirst(Commands.RestoreNode(w, x, expected).1)
  {
    hide BornFirst, LiveBranch, Commands.RestoreNode, Commands.RemovedBranch, Commands.Revived, Commands.Logged;
    Commands.RestoreIs(w, x, expected);
    RevivedIsBornFirst(w, x, Commands.RemovedBranch(w.nodes, x), w.nodes[x].parent.value);
  }

  lemma {:induction false} StepIsBornFirst(w: Commands.Workspace, c: Commands.Command)
    requires BornFirst(w) && WellFormed(w.nodes, w.revision)
    ensures BornFirst(Commands.Step(w, c))
  {
    History.StepIsAccurate(w, c);
    if Commands.Perform(w, c).0.Done? {
      match c
      case Create(id, under, title, outcome, expected) => CreationIsBornFirst(w, id, under, title, outcome, expected);
      case Move(x, target, expected) => MoveIsBornFirst(w, x, target, expected);
      case Remove(x, expected) => RemoveIsBornFirst(w, x, expected);
      case Restore(x, expected) => RestoreIsBornFirst(w, x, expected);
      case _ => EditIsBornFirst(w, c);
    }
  }

  lemma {:induction false} RunsAreBornFirst(root: NodeId, title: string, cs: seq<Commands.Command>)
    ensures BornFirst(Commands.Run(Commands.CreateWorkspace(root, title), cs))
  {
    if cs != [] {
      RunsAreBornFirst(root, title, cs[..|cs| - 1]);
      RunsKeepForest(root, title, cs[..|cs| - 1]);
      StepIsBornFirst(Commands.Run(Commands.CreateWorkspace(root, title), cs[..|cs| - 1]), cs[|cs| - 1]);
    }
  }

  /** The outbox tells of the workspace: its work-node events carry the node and revision of a change event. */
  ghost predicate Tells(e: FeedEvent, change: Commands.Event) {
    e.aggregate.WorkNode? && e.node == change.node && e.revision == Some(change.revision)
  }

  /** When a mapping carries the revision its node was created at, the journal rows of that node are suppressed for its
      creation and pending for every later change. */
  lemma {:induction false} OnlyTheCreationIsSuppressed(w: Commands.Workspace, moves: seq<Move>, e: FeedEvent,
                                                       change: Commands.Event)
    requires BornFirst(w) && change in w.events && Tells(e, change)
    requires e.node in Fed(moves).mapped ==> Fed(moves).mapped[e.node] == w.nodes[e.node].created
    requires e in Fed(moves).outbox && e.id in Fed(moves).journal
    ensures Fed(moves).journal[e.id].event == e
    ensures Fed(moves).journal[e.id].suppressed <==> change.kind.NodeCreated?
  {
    RowExactlyWhenMapped(moves, e);
  }

  // ----- when the delay is long enough -----

  /** Clocks do not run backwards, transactions become visible within `commit` of the time they carry, and a page is
      applied within `latency` of being read. */
  ghost predicate Prompt(moves: seq<Move>, commit: int, latency: int) {
    && (forall i, j :: 0 <= i <= j < |moves| ==> moves[i].now <= moves[j].now)
    && (forall i, e :: 0 <= i < |moves| && moves[i].Publish? && e in moves[i].events ==> moves[i].now - commit <= e.at)
    && (forall i :: 0 <= i < |moves| && moves[i].Apply? && Fed(moves[..i]).fetched.Some? ==>
          moves[i].now - Fed(moves[..i]).fetched.value.time <= latency)
  }

  lemma {:induction false} PublishedAt(moves: seq<Move>, e: FeedEvent) returns (p: nat)
    requires e in Fed(moves).outbox
    ensures p < |moves| && moves[p].Publish? && e in moves[p].events && e in Fed(moves[..p + 1]).outbox
    decreases |moves|
  {
    var earlier := moves[..|moves| - 1];
    if e in Fed(earlier).outbox {
      p := PublishedAt(earlier, e);
      assert earlier[..p + 1] == moves[..p + 1];
    } else {
      p := |earlier|;
      assert moves[..p + 1] == moves;
    }
  }

  lemma {:induction false} OnlyFetchFetches(f: Feed, m: Move)
    requires Advanced(f, m).fetched.Some?
    ensures f.fetched.Some? ==> f.fetched == Advanced(f, m).fetched
    ensures f.fetched.None? ==>
      m.Fetch? && Advanced(f, m).fetched.value.time == m.now && Advanced(f, m).fetched.value.seen == f.outbox
  {
  }

  lemma {:induction false} FetchedAt(moves: seq<Move>) returns (k: nat)
    requires Fed(moves).fetched.Some?
    ensures k < |moves| && moves[k].Fetch? && moves[k].now == Fed(moves).fetched.value.time
    ensures Fed(moves[..k]).outbox == Fed(moves).fetched.value.seen
    decreases |moves|
  {
    var earlier := moves[..|moves| - 1];
    OnlyFetchFetches(Fed(earlier), moves[|moves| - 1]);
    hide Advanced;
    if Fed(earlier).fetched.Some? {
      k := FetchedAt(earlier);
      assert earlier[..k] == moves[..k];
    } else {
      k := |earlier|;
    }
  }

  lemma {:induction false} VisibleSince(moves: seq<Move>, p: nat, k: nat, e: FeedEvent)
    requires p < k <= |moves| && e in Fed(moves[..p + 1]).outbox
    ensures e in Fed(moves[..k]).outbox
  {
    OutboxGrows(moves[..k], p + 1);
    assert moves[..k][..p + 1] == moves[..p + 1];
  }

  lemma {:induction false} PromptPageHasSeen(moves: seq<Move>, commit: int, latency: int, i: nat, e: FeedEvent)
    requires Prompt(moves, commit, latency) && commit + latency < SETTLE
    requires i < |moves| && Taken(Fed(moves[..i]), moves[i]) != [] && e in Fed(moves).outbox &&
      e.at <= moves[i].now - SETTLE
    ensures e in Fed(moves[..i]).fetched.value.seen
  {
    var k := FetchedAt(moves[..i]);
    var p := PublishedAt(moves, e);
    assert moves[..i][..k] == moves[..k];
    assert moves[p].now < moves[k].now;
    EarlierClock(moves, p, k);
    VisibleSince(moves, p, k, e);
  }

  lemma {:induction false} EarlierClock(moves: seq<Move>, p: nat, k: nat)
    requires p < |moves| && k < |moves| && moves[p].now < moves[k].now
    requires forall i, j :: 0 <= i <= j < |moves| ==> moves[i].now <= moves[j].now
    ensures p < k
  {
  }

  /** The delay suffices when the time to commit and the time between reading a page and applying it together stay below
      it: then no event is ever skipped. */
  lemma {:induction false} PromptRunsSettle(moves: seq<Move>, commit: int, latency: int)
    requires Prompt(moves, commit, latency) && commit + latency < SETTLE
    ensures Settled(moves)
  {
    forall i, e | 0 <= i < |moves| && Taken(Fed(moves[..i]), moves[i]) != [] && e in Fed(moves).outbox &&
      e.at <= moves[i].now - SETTLE
      ensures e in Fed(moves[..i]).fetched.value.seen
    {
      PromptPageHasSeen(moves, commit, latency, i, e);
    }
  }

  const FIRST := FeedEvent(1, 0, WorkNode, 7, Some(2))
  const SECOND := FeedEvent(2, 0, WorkNode, 7, Some(3))

  /** Two transactions begin together; one commits after the page was read, and the page is applied `latency` later. */
  function SlowAnswer(commit: nat, latency: nat): seq<Move> {
    [Publish(0, {SECOND}), Fetch(commit, [SECOND]), Publish(commit, {FIRST}), Apply(commit + latency)]
  }

  lemma {:induction false} SlowAnswerIsRead(commit: nat, latency: nat)
    ensures Fed(SlowAnswer(commit, latency)[..1]).fetched.None?
    ensures Fed(SlowAnswer(commit, latency)[..2]) ==
      Feed({SECOND}, map[], map[], None, Some(Fetched(commit, {SECOND}, [SECOND])))
  {
    var m := SlowAnswer(commit, latency);
    assert m[..0] == [];
    FedSoFar(m, 0);
    FedSoFar(m, 1);
    assert Fed(m[..1]).outbox == {SECOND};
    assert IsAnswer({SECOND}, None, PAGE, [SECOND]);
  }

  lemma {:induction false} FirstIsPublished(f: Feed, commit: nat)
    requires f == Feed({SECOND}, map[], map[], None, Some(Fetched(commit, {SECOND}, [SECOND])))
    ensures Advanced(f, Publish(commit, {FIRST})) == f.(outbox := {FIRST, SECOND})
  {
    assert {SECOND} + {FIRST} == {FIRST, SECOND};
  }

  lemma {:induction false} SecondIsApplied(f: Feed, commit: nat, latency: nat)
    requires f == Feed({FIRST, SECOND}, map[], map[], None, Some(Fetched(commit, {SECOND}, [SECOND])))
    requires commit + latency >= SETTLE
    ensures Skips(f, Apply(commit + latency), FIRST)
    ensures var f' := Advanced(f, Apply(commit + latency)); f'.outbox == f.outbox && f'.cursor == Some(SECOND)
  {
    assert Stable([SECOND], commit + latency - SETTLE) == [SECOND];
  }

  lemma {:induction false} SlowAnswerIsApplied(commit: nat, latency: nat)
    requires commit + latency >= SETTLE
    ensures var m := SlowAnswer(commit, latency);
      && Fed(m[..3]).fetched == Some(Fetched(commit, {SECOND}, [SECOND])) && SkippedAt(m, 3, FIRST)
      && Fed(m).outbox == {FIRST, SECOND} && Fed(m).cursor == Some(SECOND)
  {
    var m := SlowAnswer(commit, latency);
    hide Fed, Advanced, Skips;
    SlowAnswerIsRead(commit, latency);
    FedSoFar(m, 2);
    FedSoFar(m, 3);
    FirstIsPublished(Fed(m[..2]), commit);
    SecondIsApplied(Fed(m[..3]), commit, latency);
    assert m[..4] == m;
  }

  lemma {:induction false} SlowAnswerIsPrompt(commit: nat, latency: nat)
    requires commit + latency >= SETTLE
    ensures Prompt(SlowAnswer(commit, latency), commit, latency)
  {
    var m := SlowAnswer(commit, latency);
    hide Fed;
    SlowAnswerIsApplied(commit, latency);
    assert m[0].now == 0 && m[1].now == commit && m[2].now == commit && m[3].now == commit + latency;
    assert m[0].events == {SECOND} && m[2].events == {FIRST};
  }

  /** However fast the commits are, a slow enough answer lets the cursor pass an event that became visible after the
      page was read: the cutoff is taken when the page is applied. The event is never consumed. */
  lemma {:induction false} SlowAnswerLosesAnEvent(commit: nat, latency: nat)
    requires commit + latency >= SETTLE
    ensures var m := SlowAnswer(commit, latency);
      && Prompt(m, commit, latency)
      && FIRST in Fed(m).outbox && !Ahead(Fed(m).cursor, FIRST) && Consumptions(m, FIRST) == 0
  {
    hide Fed, Consumptions, Prompt;
    SlowAnswerIsPrompt(commit, latency);
    SlowAnswerIsApplied(commit, latency);
    ConsumedExactlyWhenSeen(SlowAnswer(commit, latency), FIRST);
  }

  /** Every event up to the cursor was consumed, once, and none behind it. */
  ghost predicate LosesNothing(moves: seq<Move>) {
    forall e :: e in Fed(moves).outbox ==> Consumptions(moves, e) == if Ahead(Fed(moves).cursor, e) then 0 else 1
  }

  /** The delay is long enough exactly if the time to commit and the time between reading a page and applying it stay
      below it together. */
  lemma {:induction false} DelaySufficesExactlyWhen(commit: nat, latency: nat)
    ensures (forall moves :: Prompt(moves, commit, latency) ==> LosesNothing(moves)) <==> commit + latency < SETTLE
  {
    hide Fed, Consumptions, Prompt, Ahead;
    if commit + latency < SETTLE {
      forall moves | Prompt(moves, commit, latency) ensures LosesNothing(moves) {
        PromptRunsSettle(moves, commit, latency);
        forall e | e in Fed(moves).outbox
          ensures Consumptions(moves, e) == if Ahead(Fed(moves).cursor, e) then 0 else 1
        {
          SettledRunsLoseNothing(moves, e);
        }
      }
    } else {
      SlowAnswerLosesAnEvent(commit, latency);
      assert !LosesNothing(SlowAnswer(commit, latency));
    }
  }
}
