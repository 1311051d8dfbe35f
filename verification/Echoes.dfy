/** Placement, core and consumer together: what the gateway creates never comes back to it as a change to project. */
module Echoes {
  import opened Wrappers
  import opened Forest
  import Commands
  import ForestInvariant
  import opened Idempotency
  import opened Placement
  import opened EventFeed
  import opened EventJournal

  ghost predicate CoreOk(core: Core) {
    WellFormed(core.w.nodes, core.w.revision) && BornFirst(core.w)
  }

  lemma {:induction false} CreationIsAStep(core: Core, key: Item, request: Request, expected: nat, id: NodeId)
    ensures var w' := CreateOnce(core, key, request, expected, id).1.w;
      w' == core.w ||
        w' == Commands.Step(core.w,
                            Commands.Create(id, Some(request.parent), request.title, request.outcome, Some(expected)))
  {
  }

  lemma {:induction false} StepKeepsCore(core: Core, c: Commands.Command, core': Core)
    requires CoreOk(core) && core'.w == Commands.Step(core.w, c)
    ensures CoreOk(core')
  {
    ForestInvariant.StepKeepsForest(core.w, c);
    StepIsBornFirst(core.w, c);
  }

  lemma {:induction false} TickKeepsCore(x: World, tick: Tick)
    requires CoreOk(x.core)
    ensures CoreOk(Next(x, tick).core)
  {
    if tick.Post? {
      var t := tick.task;
      if InFlight(x, t) && x.tasks[t].stage.Looked? && x.tasks[t].parent.Some? {
        var task := x.tasks[t];
        var request := RequestOf(task);
        CreationIsAStep(x.core, task.item, request, task.stage.revision, tick.id);
        if Next(x, tick).core.w != x.core.w {
          StepKeepsCore(x.core,
                        Commands.Create(tick.id, Some(request.parent), request.title, request.outcome,
                                        Some(task.stage.revision)), Next(x, tick).core);
        }
      }
    } else if tick.Elsewhere? {
      StepKeepsCore(x.core, tick.command, Next(x, tick).core);
    } else if !tick.Commit? {
      LocalTickIsQuiet(x, tick);
    }
  }

  lemma {:induction false} RunKeepsCore(x: World, ticks: seq<Tick>)
    requires CoreOk(x.core)
    ensures CoreOk(Reached(x, ticks).core)
  {
    if ticks != [] {
      RunKeepsCore(x, ticks[..|ticks| - 1]);
      TickKeepsCore(Reached(x, ticks[..|ticks| - 1]), ticks[|ticks| - 1]);
    }
  }

  /** What the consumer joins with: each node it knows comes from some mapping, with that mapping's revision. */
  ghost predicate Mirrors(mapped: map<NodeId, nat>, mappings: map<Item, Mapping>) {
    forall n :: n in mapped ==> exists i :: i in mappings && mappings[i].node == n && mappings[i].revision == mapped[n]
  }

  /** After any history of the workspace, any placements, retries, replays and crashes, and any pages consumed: the
      journal row of an event is suppressed exactly if the event is the creation of a mapped node. Every later change of
      such a node is pending. */
  lemma {:induction false} CreationsNeverComeBack(root: NodeId, title: string, cs: seq<Commands.Command>,
                                                  ticks: seq<Tick>, moves: seq<Move>, e: FeedEvent,
                                                  change: Commands.Event)
    requires var x := Reached(Opened(Commands.Run(Commands.CreateWorkspace(root, title), cs)), ticks);
      change in x.core.w.events && Tells(e, change) && Mirrors(Fed(moves).mapped, x.mappings)
    requires e in Fed(moves).outbox && e.id in Fed(moves).journal
    ensures Fed(moves).journal[e.id].event == e
    ensures Fed(moves).journal[e.id].suppressed <==> change.kind.NodeCreated?
  {
    var w0 := Commands.Run(Commands.CreateWorkspace(root, title), cs);
    var x := Reached(Opened(w0), ticks);
    ForestInvariant.RunsKeepForest(root, title, cs);
    RunsAreBornFirst(root, title, cs);
    RunKeepsCore(Opened(w0), ticks);
    RunKeepsWorld(Opened(w0), ticks);
    OnlyTheCreationIsSuppressed(x.core.w, moves, e, change);
  }

  // ----- every row of a commit -----

  /** A commit that leads from `before` to `after` leaves a work-node row in the outbox: about a node it created, or
      about one it found, be it the node itself, its route or its requirements that changed. */
  ghost predicate Emitted(before: Commands.Workspace, after: Commands.Workspace, e: FeedEvent) {
    && after.revision == before.revision + 1
    && e.aggregate.WorkNode? && e.node in after.nodes && e.revision == Some(after.revision)
  }

  lemma {:induction false} TickIsAStep(x: World, tick: Tick) returns (c: Commands.Command)
    ensures Next(x, tick).core.w == x.core.w || Next(x, tick).core.w == Commands.Step(x.core.w, c)
  {
    c := Commands.Touch;
    if tick.Post? {
      var t := tick.task;
      if InFlight(x, t) && x.tasks[t].stage.Looked? && x.tasks[t].parent.Some? {
        var request, revision := RequestOf(x.tasks[t]), x.tasks[t].stage.revision;
        CreationIsAStep(x.core, x.tasks[t].item, request, revision, tick.id);
        c := Commands.Create(tick.id, Some(request.parent), request.title, request.outcome, Some(revision));
      }
    } else if tick.Elsewhere? {
      c := tick.command;
    } else if !tick.Commit? {
      LocalTickIsQuiet(x, tick);
    }
  }

  lemma {:induction false} BirthsStay(x: World, ticks: seq<Tick>, k: nat, n: NodeId)
    requires k <= |ticks| && n in Reached(x, ticks[..k]).core.w.nodes
    ensures var m, m' := Reached(x, ticks[..k]).core.w.nodes, Reached(x, ticks).core.w.nodes;
      n in m' && m'[n].created == m[n].created
    decreases |ticks|
  {
    hide Next, Commands.Step;
    if k == |ticks| {
      assert ticks[..k] == ticks;
    } else {
      var earlier, last := ticks[..|ticks| - 1], ticks[|ticks| - 1];
      assert earlier[..k] == ticks[..k];
      BirthsStay(x, earlier, k, n);
      var c := TickIsAStep(Reached(x, earlier), last);
      StepKeepsBirths(Reached(x, earlier).core.w, c, n);
    }
  }

  /** Nodes a step finds were created earlier; a node it adds is created at its revision. */
  lemma {:induction false} BornNowOrBefore(w: Commands.Workspace, c: Commands.Command, n: NodeId)
    requires CoreOk(Core(w, map[])) && n in Commands.Step(w, c).nodes
    ensures n in w.nodes ==> w.nodes[n].created <= w.revision
    ensures n !in w.nodes ==> Commands.Step(w, c).nodes[n].created == w.revision + 1
  {
    hide LiveBranch, Commands.LedByGoal, Commands.FullyPlanned, Commands.RemovedBranch, Commands.HasOpenDescendants;
    hide Commands.Logged, Commands.LoggedRemovals, WellFormed;
  }

  lemma {:induction false} MappedAtCreation(x: World, mapped: map<NodeId, nat>, n: NodeId)
    requires WorldOk(x) && Mirrors(mapped, x.mappings) && n in mapped
    ensures n in x.core.w.nodes && mapped[n] == x.core.w.nodes[n].created
  {
  }

  /** Of all the rows any commit leaves about a mapped node, the journal suppresses those of the commit that created it,
      and no others. */
  lemma {:induction false} OnlyTheCreatingCommitIsSuppressed(root: NodeId, title: string, ticks: seq<Tick>, k: nat,
                                                             moves: seq<Move>, e: FeedEvent)
    requires k < |ticks|
    requires var x := Opened(Commands.CreateWorkspace(root, title));
      && Emitted(Reached(x, ticks[..k]).core.w, Reached(x, ticks[..k + 1]).core.w, e)
      && Mirrors(Fed(moves).mapped, Reached(x, ticks).mappings)
    requires e in Fed(moves).outbox && e.id in Fed(moves).journal
    ensures Fed(moves).journal[e.id].event == e
    ensures Fed(moves).journal[e.id].suppressed <==>
      e.node !in Reached(Opened(Commands.CreateWorkspace(root, title)), ticks[..k]).core.w.nodes
  {
    var x := Opened(Commands.CreateWorkspace(root, title));
    StartsOk(root, title);
    hide Next, Commands.Step, CoreOk, WorldOk, Mirrors, Opened, Commands.CreateWorkspace;
    var before := Reached(x, ticks[..k]);
    RunKeepsCore(x, ticks[..k]);
    RunKeepsWorld(x, ticks);
    assert ticks[..k + 1][..k] == ticks[..k];
    var c := TickIsAStep(before, ticks[k]);
    CoreOkIsAboutNodes(before.core);
    BornNowOrBefore(before.core.w, c, e.node);
    if e.node in before.core.w.nodes {
      BirthsStay(x, ticks, k, e.node);
    } else {
      BirthsStay(x, ticks, k + 1, e.node);
    }
    RowExactlyWhenMapped(moves, e);
    MappedAtCreation(Reached(x, ticks), Fed(moves).mapped, e.node);
  }

  lemma {:induction false} CoreOkIsAboutNodes(core: Core)
    requires CoreOk(core)
    ensures CoreOk(Core(core.w, map[]))
  {
  }

  lemma {:induction false} StartsOk(root: NodeId, title: string)
    ensures var x := Opened(Commands.CreateWorkspace(root, title)); CoreOk(x.core) && WorldOk(x)
  {
    assert Commands.Run(Commands.CreateWorkspace(root, title), []) == Commands.CreateWorkspace(root, title);
    ForestInvariant.RunsKeepForest(root, title, []);
    RunsAreBornFirst(root, title, []);
  }
}
