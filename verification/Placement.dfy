/** Placing external items into the tree: two databases joined by HTTP. Operators, the retry worker and ingestion
    interleave freely, answers get lost, and a placement may crash between the core's commit and the gateway's. */
module Placement {
  import opened Wrappers
  import opened Forest
  import opened Commands
  import opened Idempotency

  datatype Status = Unplaced | Suggested | Placed | Retrying | DeadLetter

  datatype Candidate = Candidate(
    version: string,
    title: string,
    description: string,
    status: Status,
    node: Option<NodeId>,
    parent: Option<NodeId>,
    attempts: nat,
    maxAttempts: nat,
    nextAttempt: Option<int>)

  datatype Mapping = Mapping(version: string, node: NodeId, revision: nat)

  /** How far a placement in flight has come. */
  datatype Stage = Chosen | Begun | Looked(revision: nat) | Acknowledged(node: NodeId, revision: nat) | Broken

  type TaskId = nat

  /** A placement in flight works on the candidate as it read it. */
  datatype Task = Task(item: Item, version: string, title: string, description: string, parent: Option<NodeId>,
                       stage: Stage)

  datatype World = World(core: Core, candidates: map<Item, Candidate>, mappings: map<Item, Mapping>,
                         tasks: map<TaskId, Task>)

  datatype Tick =
    | Ingest(item: Item, version: string, title: string, description: string, recommended: bool, stale: bool)
    | Choose(task: TaskId, item: Item, parent: NodeId)
    | Remember(task: TaskId)
    | AskRetry(item: Item, stale: bool, now: int)
    | Lease(task: TaskId, item: Item, now: int)
    | Look(task: TaskId)
    | Post(task: TaskId, id: NodeId, lost: bool)
    | Commit(task: TaskId, lost: bool)
    | Break(task: TaskId)
    | Record(task: TaskId, read: nat, now: int)
    | Crash(task: TaskId)
    | Elsewhere(command: Command)

  const MAX_ATTEMPTS := 5
  const LEASE_SECONDS := 45

  // ----- single statements -----

  /** Insert, or on conflict overwrite the content; a placed candidate keeps its status and attempts. */
  function Ingested(stored: Option<Candidate>, version: string, title: string, description: string,
                    recommended: bool): Candidate
  {
    var status := if recommended then Suggested else Unplaced;
    match stored
    case None => Candidate(version, title, description, status, None, None, 0, MAX_ATTEMPTS, None)
    case Some(c) =>
      c.(version := version, title := title, description := description,
         status := if c.status.Placed? then Placed else status,
         attempts := if c.status.Placed? then c.attempts else 0,
         nextAttempt := None)
  }

  function Min(a: int, b: int): int {
    if a < b then a else b
  }

  function PowerOfTwo(n: nat): nat {
    if n == 0 then 1 else 2 * PowerOfTwo(n - 1)
  }

  /** Seconds to wait after a failed attempt: doubling from 15, at most 15 minutes. */
  function RetryDelay(attempt: nat): int {
    var past := if attempt < 1 then 0 else attempt - 1;
    Min(15 * PowerOfTwo(Min(past, 6)), 900)
  }

  /** A failure is counted on the attempts as they were read; the last one ends the retries. */
  function Failed(c: Candidate, read: nat, now: int): Candidate {
    var attempt := read + 1;
    if attempt >= c.maxAttempts then c.(status := DeadLetter, attempts := attempt, nextAttempt := None)
    else c.(status := Retrying, attempts := attempt, nextAttempt := Some(now + RetryDelay(attempt)))
  }

  function RequestOf(t: Task): Request
    requires t.parent.Some?
  {
    Request(t.parent.value, t.title, t.description)
  }

  function TaskFor(item: Item, c: Candidate, parent: Option<NodeId>, stage: Stage): Task {
    Task(item, c.version, c.title, c.description, parent, stage)
  }

  predicate InFlight(x: World, t: TaskId) {
    t in x.tasks && x.tasks[t].item in x.candidates
  }

  // ----- one tick -----

  function IngestTick(x: World, item: Item, version: string, title: string, description: string, recommended: bool,
                      stale: bool): World
  {
    if item in x.candidates && x.candidates[item].version == version && !stale then x
    else
      var stored := if item in x.candidates then Some(x.candidates[item]) else None;
      x.(candidates := x.candidates[item := Ingested(stored, version, title, description, recommended)])
  }

  function ChooseTick(x: World, t: TaskId, item: Item, parent: NodeId): World {
    if t in x.tasks || item !in x.candidates || x.candidates[item].node.Some? then x
    else x.(tasks := x.tasks[t := TaskFor(item, x.candidates[item], Some(parent), Chosen)])
  }

  function RememberTick(x: World, t: TaskId): World {
    if !InFlight(x, t) || !x.tasks[t].stage.Chosen? then x
    else
      var task := x.tasks[t];
      x.(candidates := x.candidates[task.item := x.candidates[task.item].(parent := task.parent)],
         tasks := x.tasks[t := task.(stage := Begun)])
  }

  /** `stale`: the candidate was read before another placement of it was committed. */
  function AskRetryTick(x: World, item: Item, stale: bool, now: int): World {
    if item !in x.candidates || x.candidates[item].parent.None? || (x.candidates[item].node.Some? && !stale) then x
    else x.(candidates := x.candidates[item := x.candidates[item].(status := Retrying, attempts := 0,
                                                                   nextAttempt := Some(now))])
  }

  function LeaseTick(x: World, t: TaskId, item: Item, now: int): World {
    if t in x.tasks || item !in x.candidates then x
    else
      var c := x.candidates[item];
      if !c.status.Retrying? || c.nextAttempt.None? || c.nextAttempt.value > now then x
      else
        x.(candidates := x.candidates[item := c.(nextAttempt := Some(now + LEASE_SECONDS))],
           tasks := x.tasks[t := TaskFor(item, c, c.parent, if c.parent.Some? then Begun else Broken)])
  }

  function LookTick(x: World, t: TaskId): World {
    if !InFlight(x, t) || !x.tasks[t].stage.Begun? then x
    else x.(tasks := x.tasks[t := x.tasks[t].(stage := Looked(x.core.w.revision))])
  }

  /** The creation request; `lost` when the answer never arrives. */
  function PostTick(x: World, t: TaskId, id: NodeId, lost: bool): World {
    if !InFlight(x, t) || !x.tasks[t].stage.Looked? || x.tasks[t].parent.None? then x
    else
      var task := x.tasks[t];
      var (answer, core) := CreateOnce(x.core, task.item, RequestOf(task), task.stage.revision, id);
      var stage := if lost || answer.Refused? then Broken else Acknowledged(answer.node, answer.revision);
      x.(core := core, tasks := x.tasks[t := task.(stage := stage)])
  }

  function PlacedRow(c: Candidate, node: NodeId): Candidate {
    c.(status := Placed, node := Some(node), nextAttempt := None)
  }

  /** The gateway's transaction: mapping and candidate together. When the candidate cannot be read again afterwards, the
      placement counts as failed although it is committed. */
  function CommitTick(x: World, t: TaskId, lost: bool): World {
    if !InFlight(x, t) || !x.tasks[t].stage.Acknowledged? then x
    else
      var task := x.tasks[t];
      x.(mappings := x.mappings[task.item := Mapping(task.version, task.stage.node, task.stage.revision)],
         candidates := x.candidates[task.item := PlacedRow(x.candidates[task.item], task.stage.node)],
         tasks := if lost then x.tasks[t := task.(stage := Broken)] else x.tasks - {t})
  }

  function BreakTick(x: World, t: TaskId): World {
    if t !in x.tasks || x.tasks[t].stage.Chosen? then x else x.(tasks := x.tasks[t := x.tasks[t].(stage := Broken)])
  }

  function RecordTick(x: World, t: TaskId, read: nat, now: int): World {
    if !InFlight(x, t) || !x.tasks[t].stage.Broken? then x
    else
      var item := x.tasks[t].item;
      x.(candidates := x.candidates[item := Failed(x.candidates[item], read, now)], tasks := x.tasks - {t})
  }

  function Next(x: World, tick: Tick): World {
    match tick
    case Ingest(item, version, title, description, recommended, stale) =>
      IngestTick(x, item, version, title, description, recommended, stale)
    case Choose(t, item, parent) => ChooseTick(x, t, item, parent)
    case Remember(t) => RememberTick(x, t)
    case AskRetry(item, stale, now) => AskRetryTick(x, item, stale, now)
    case Lease(t, item, now) => LeaseTick(x, t, item, now)
    case Look(t) => LookTick(x, t)
    case Post(t, id, lost) => PostTick(x, t, id, lost)
    case Commit(t, lost) => CommitTick(x, t, lost)
    case Break(t) => BreakTick(x, t)
    case Record(t, read, now) => RecordTick(x, t, read, now)
    case Crash(t) => x.(tasks := x.tasks - {t})
    case Elsewhere(command) => x.(core := x.core.(w := Step(x.core.w, command)))
  }

  function Reached(x: World, ticks: seq<Tick>): World {
    if ticks == [] then x else Next(Reached(x, ticks[..|ticks| - 1]), ticks[|ticks| - 1])
  }

  /** A gateway that has seen nothing yet, beside any workspace. */
  function Opened(w: Workspace): World {
    World(Core(w, map[]), map[], map[], map[])
  }

  // ----- the invariant -----

  /** A node and revision that the core saved for the item. */
  predicate Names(core: Core, item: Item, node: NodeId, revision: nat) {
    item in core.results && core.results[item].node == node && core.results[item].revision == revision
  }

  ghost predicate MappingsOk(x: World) {
    && (forall i :: i in x.mappings ==>
          Names(x.core, i, x.mappings[i].node, x.mappings[i].revision) && i in x.candidates &&
            x.candidates[i].node == Some(x.mappings[i].node))
    && (forall i :: i in x.candidates && x.candidates[i].node.Some? ==> i in x.mappings)
  }

  ghost predicate TasksOk(x: World) {
    forall t :: t in x.tasks && x.tasks[t].stage.Acknowledged? ==>
      Names(x.core, x.tasks[t].item, x.tasks[t].stage.node, x.tasks[t].stage.revision)
  }

  ghost predicate WorldOk(x: World) {
    ResultsOk(x.core) && MappingsOk(x) && TasksOk(x)
  }

  /** A tick of the gateway alone: no node is gained, lost or exchanged, and no answer comes from nowhere. */
  ghost predicate Quiet(x: World, x': World) {
    && x'.core == x.core && x'.mappings == x.mappings
    && (forall i :: i in x.candidates ==> i in x'.candidates && x'.candidates[i].node == x.candidates[i].node)
    && (forall i :: i in x'.candidates && i !in x.candidates ==> x'.candidates[i].node.None?)
    && (forall t :: t in x'.tasks && x'.tasks[t].stage.Acknowledged? ==> t in x.tasks && x.tasks[t] == x'.tasks[t])
  }

  lemma {:induction false} QuietKeepsWorld(x: World, x': World)
    requires WorldOk(x) && Quiet(x, x')
    ensures WorldOk(x')
  {
  }

  lemma {:induction false} CandidateTickIsQuiet(x: World, tick: Tick)
    requires tick.Ingest? || tick.AskRetry? || tick.Remember? || tick.Record?
    ensures Quiet(x, Next(x, tick))
  {
  }

  lemma {:induction false} TaskTickIsQuiet(x: World, tick: Tick)
    requires tick.Choose? || tick.Lease? || tick.Look? || tick.Break? || tick.Crash?
    ensures Quiet(x, Next(x, tick))
  {
  }

  lemma {:induction false} LocalTickIsQuiet(x: World, tick: Tick)
    requires !tick.Post? && !tick.Elsewhere? && !tick.Commit?
    ensures Quiet(x, Next(x, tick))
  {
    if tick.Ingest? || tick.AskRetry? || tick.Remember? || tick.Record? {
      CandidateTickIsQuiet(x, tick);
    } else {
      TaskTickIsQuiet(x, tick);
    }
  }

  lemma {:induction false} CommitKeepsWorld(x: World, t: TaskId, lost: bool)
    requires WorldOk(x)
    ensures WorldOk(CommitTick(x, t, lost))
  {
  }

  lemma {:induction false} PostKeepsWorld(x: World, t: TaskId, id: NodeId, lost: bool)
    requires WorldOk(x)
    ensures WorldOk(PostTick(x, t, id, lost))
  {
    if InFlight(x, t) && x.tasks[t].stage.Looked? && x.tasks[t].parent.Some? {
      var task := x.tasks[t];
      CreationKeepsResults(x.core, task.item, RequestOf(task), task.stage.revision, id);
      ResultsOnlyGrow(x.core, task.item, RequestOf(task), task.stage.revision, id);
    }
  }

  lemma {:induction false} TickKeepsWorld(x: World, tick: Tick)
    requires WorldOk(x)
    ensures WorldOk(Next(x, tick))
  {
    match tick
    case Post(t, id, lost) => PostKeepsWorld(x, t, id, lost);
    case Commit(t, lost) => CommitKeepsWorld(x, t, lost);
    case Elsewhere(command) => CommandKeepsResults(x.core, command);
    case _ =>
      LocalTickIsQuiet(x, tick);
      QuietKeepsWorld(x, Next(x, tick));
  }

  lemma {:induction false} RunKeepsWorld(x: World, ticks: seq<Tick>)
    requires WorldOk(x)
    ensures WorldOk(Reached(x, ticks))
  {
    if ticks != [] {
      RunKeepsWorld(x, ticks[..|ticks| - 1]);
      TickKeepsWorld(Reached(x, ticks[..|ticks| - 1]), ticks[|ticks| - 1]);
    }
  }

  // ----- a placed item stays placed -----

  /** The item is placed at node `n`, created at `revision`: candidate, mapping, saved result and tree agree. */
  ghost predicate PlacedAt(x: World, item: Item, n: NodeId, revision: nat) {
    && item in x.candidates && x.candidates[item].node == Some(n)
    && item in x.mappings && x.mappings[item].node == n && x.mappings[item].revision == revision
    && Names(x.core, item, n, revision)
    && n in x.core.w.nodes && x.core.w.nodes[n].created == revision
  }

  lemma {:induction false} NodeMeansPlaced(x: World, item: Item)
    requires WorldOk(x) && item in x.candidates && x.candidates[item].node.Some?
    ensures item in x.mappings && PlacedAt(x, item, x.candidates[item].node.value, x.mappings[item].revision)
  {
  }

  lemma {:induction false} PostKeepsPlace(x: World, t: TaskId, id: NodeId, lost: bool, item: Item, n: NodeId,
                                          revision: nat)
    requires ResultsOk(x.core) && PlacedAt(x, item, n, revision)
    ensures PlacedAt(PostTick(x, t, id, lost), item, n, revision)
  {
    if InFlight(x, t) && x.tasks[t].stage.Looked? && x.tasks[t].parent.Some? {
      var task := x.tasks[t];
      CreationKeepsResults(x.core, task.item, RequestOf(task), task.stage.revision, id);
      ResultsOnlyGrow(x.core, task.item, RequestOf(task), task.stage.revision, id);
    }
  }

  lemma {:induction false} CommitKeepsPlace(x: World, t: TaskId, lost: bool, item: Item, n: NodeId, revision: nat)
    requires TasksOk(x) && PlacedAt(x, item, n, revision)
    ensures PlacedAt(CommitTick(x, t, lost), item, n, revision)
  {
  }

  lemma {:induction false} QuietKeepsPlace(x: World, x': World, item: Item, n: NodeId, revision: nat)
    requires Quiet(x, x') && PlacedAt(x, item, n, revision)
    ensures PlacedAt(x', item, n, revision)
  {
  }

  lemma {:induction false} TickKeepsPlace(x: World, tick: Tick, item: Item, n: NodeId, revision: nat)
    requires WorldOk(x) && PlacedAt(x, item, n, revision)
    ensures PlacedAt(Next(x, tick), item, n, revision)
  {
    hide Quiet, PostTick, CommitTick, Step, ResultsOk, MappingsOk;
    match tick
    case Post(t, id, lost) => PostKeepsPlace(x, t, id, lost, item, n, revision);
    case Commit(t, lost) => CommitKeepsPlace(x, t, lost, item, n, revision);
    case Elsewhere(command) => StepKeepsBirths(x.core.w, command, n);
    case _ =>
      LocalTickIsQuiet(x, tick);
      QuietKeepsPlace(x, Next(x, tick), item, n, revision);
  }

  /** Once a candidate carries a node, candidate and mapping name that node for ever, and the mapping carries the
      revision the node was created at, even when the answer was a replay. */
  lemma {:induction false} PlacementIsForEver(x: World, ticks: seq<Tick>, item: Item)
    requires WorldOk(x) && item in x.candidates && x.candidates[item].node.Some?
    ensures item in x.mappings &&
      PlacedAt(Reached(x, ticks), item, x.candidates[item].node.value, x.mappings[item].revision)
  {
    NodeMeansPlaced(x, item);
    if ticks != [] {
      PlacementIsForEver(x, ticks[..|ticks| - 1], item);
      RunKeepsWorld(x, ticks[..|ticks| - 1]);
      TickKeepsPlace(Reached(x, ticks[..|ticks| - 1]), ticks[|ticks| - 1], item, x.candidates[item].node.value,
                     x.mappings[item].revision);
    }
  }

  // ----- one node for one item -----

  /** The node a tick creates in the core for `item`, if it creates one. */
  function Created(x: World, tick: Tick, item: Item): seq<NodeId> {
    if tick.Post? && tick.task in x.tasks && x.tasks[tick.task].item == item &&
      Next(x, tick).core.w.nodes.Keys != x.core.w.nodes.Keys then
      [tick.id]
    else []
  }

  /** All nodes a run creates for `item`, in order. */
  function NodesMade(x: World, ticks: seq<Tick>, item: Item): seq<NodeId> {
    if ticks == [] then []
    else NodesMade(x, ticks[..|ticks| - 1], item) + Created(Reached(x, ticks[..|ticks| - 1]), ticks[|ticks| - 1], item)
  }

  lemma {:induction false} PostCreates(x: World, tick: Tick, item: Item)
    requires tick.Post?
    ensures var x' := Next(x, tick);
      && (Created(x, tick, item) != [] ==>
        item !in x.core.results && item in x'.core.results && x'.core.results[item].node == tick.id)
      && (Created(x, tick, item) == [] ==> (item in x'.core.results <==> item in x.core.results))
      && (item in x.core.results ==> item in x'.core.results && x'.core.results[item] == x.core.results[item])
  {
    var t := tick.task;
    if InFlight(x, t) && x.tasks[t].stage.Looked? && x.tasks[t].parent.Some? {
      ResultsOnlyGrow(x.core, x.tasks[t].item, RequestOf(x.tasks[t]), x.tasks[t].stage.revision, tick.id);
    }
  }

  lemma {:induction false} OnlyPostsCreate(x: World, tick: Tick)
    requires !tick.Post?
    ensures Next(x, tick).core.results == x.core.results
  {
    if !tick.Elsewhere? && !tick.Commit? {
      LocalTickIsQuiet(x, tick);
    }
  }

  /** Whatever is placed by hand, retried, ingested again, lost or crashed, and in whatever order: a run creates at most
      one native node for an item, and that is the node the core remembers. */
  lemma {:induction false} AtMostOneNode(w: Workspace, ticks: seq<Tick>, item: Item)
    ensures var x := Reached(Opened(w), ticks);
      NodesMade(Opened(w), ticks, item) == if item in x.core.results then [x.core.results[item].node] else []
  {
    if ticks != [] {
      var before, tick := Reached(Opened(w), ticks[..|ticks| - 1]), ticks[|ticks| - 1];
      AtMostOneNode(w, ticks[..|ticks| - 1], item);
      if tick.Post? {
        PostCreates(before, tick, item);
      } else {
        OnlyPostsCreate(before, tick);
      }
    }
  }

  /** What a candidate or a mapping names is the one node that was made for its item. */
  lemma {:induction false} PlacedNodeIsTheNodeMade(w: Workspace, ticks: seq<Tick>, item: Item)
    ensures var x := Reached(Opened(w), ticks);
      && (item in x.mappings <==> item in x.candidates && x.candidates[item].node.Some?)
      && (item in x.mappings ==>
        NodesMade(Opened(w), ticks, item) == [x.mappings[item].node] &&
          x.candidates[item].node == Some(x.mappings[item].node))
      && (forall other ::
        item in x.mappings && other in x.mappings && x.mappings[item].node == x.mappings[other].node ==> item == other)
  {
    AtMostOneNode(w, ticks, item);
    RunKeepsWorld(Opened(w), ticks);
  }

  // ----- completing an interrupted placement -----

  /** Look, post, commit, and read the candidate again. */
  function Attempted(x: World, t: TaskId, id: NodeId, lost: bool): World {
    CommitTick(PostTick(LookTick(x, t), t, id, false), t, lost)
  }

  /** A placement that runs through without interference. */
  function Uninterrupted(x: World, t: TaskId, id: NodeId): World {
    Attempted(x, t, id, false)
  }

  /** When the core has already created the node, a further placement completes the item exactly if it asks for the same
      parent, title and outcome; otherwise it changes nothing in candidates and mappings. */
  lemma {:induction false} RetryCompletesExactlyWhenUnchanged(x: World, t: TaskId, id: NodeId)
    requires InFlight(x, t) && x.tasks[t].stage.Begun? && x.tasks[t].parent.Some? && x.tasks[t].title != ""
    requires x.tasks[t].item in x.core.results && x.candidates[x.tasks[t].item].node.None?
    ensures var x', item := Uninterrupted(x, t, id), x.tasks[t].item;
      && x'.core == x.core
      && (x'.candidates[item].node.Some? <==> RequestOf(x.tasks[t]) == x.core.results[item].request)
      && (x'.candidates[item].node.Some? ==>
        x'.candidates[item].node == Some(x.core.results[item].node) && x'.candidates[item].status.Placed?)
      && (x'.candidates[item].node.None? ==> x'.candidates == x.candidates && x'.mappings == x.mappings)
  {
    var task := x.tasks[t];
    RepeatedCreation(x.core, task.item, RequestOf(task), x.core.w.revision, id);
  }

  // ----- retries run out -----

  lemma {:induction false} PowersGrow(m: nat, n: nat)
    requires m <= n
    ensures 1 <= PowerOfTwo(m) <= PowerOfTwo(n)
  {
    if n > 0 {
      if m < n {
        PowersGrow(m, n - 1);
      } else {
        PowersGrow(m - 1, n - 1);
      }
    }
  }

  /** Waiting times never shrink, and stay between 15 seconds and 15 minutes. */
  lemma {:induction false} DelaysGrow(m: nat, n: nat)
    requires m <= n
    ensures 15 <= RetryDelay(m) <= RetryDelay(n) <= 900
  {
    var a, b := if m < 1 then 0 else m - 1, if n < 1 then 0 else n - 1;
    PowersGrow(Min(a, 6), Min(b, 6));
  }

  /** What ingestion leaves: a version seen before changes nothing, unless a racing ingestion had read the candidate
      earlier. Any other takes over the content; placed work keeps its status and attempts, everything else is open for
      a decision again. Node and parent stay. */
  lemma {:induction false} IngestionLeaves(x: World, item: Item, version: string, title: string, description: string,
                                           recommended: bool, stale: bool)
    ensures var x' := Next(x, Ingest(item, version, title, description, recommended, stale));
      && x' == x.(candidates := x'.candidates)
      && item in x'.candidates && x'.candidates - {item} == x.candidates - {item}
      && var c := x'.candidates[item];
        var open := if recommended then Suggested else Unplaced;
        if item !in x.candidates then c == Candidate(version, title, description, open, None, None, 0, 5, None)
        else if x.candidates[item].version == version && !stale then c == x.candidates[item]
        else
          && c.version == version && c.title == title && c.description == description && c.nextAttempt.None?
          && c.node == x.candidates[item].node && c.parent == x.candidates[item].parent
          && c.maxAttempts == x.candidates[item].maxAttempts
          && (if x.candidates[item].status.Placed? then c.status.Placed? && c.attempts == x.candidates[item].attempts
              else c.attempts == 0 && c.status == open)
  {
    if item in x.candidates && x.candidates[item].version == version && !stale {
      assert x.(candidates := x.candidates) == x;
    }
  }

  /** The first wait is 15 seconds, each further one twice the one before, but never more than 15 minutes. */
  lemma {:induction false} DelaysDouble(n: nat)
    ensures RetryDelay(0) == RetryDelay(1) == 15
    ensures n >= 1 ==> RetryDelay(n + 1) == if 2 * RetryDelay(n) <= 900 then 2 * RetryDelay(n) else 900
  {
    assert PowerOfTwo(0) == 1 && PowerOfTwo(1) == 2;
    assert PowerOfTwo(2) == 4 && PowerOfTwo(3) == 8;
    assert PowerOfTwo(4) == 16 && PowerOfTwo(5) == 32;
    assert PowerOfTwo(6) == 64;
  }

  /** The candidate after failures at the given times, each counted on a fresh reading. */
  function FailedAt(c: Candidate, times: seq<int>): Candidate {
    if times == [] then c
    else
      var before := FailedAt(c, times[..|times| - 1]);
      Failed(before, before.attempts, times[|times| - 1])
  }

  /** Failures are counted one by one; a candidate keeps retrying, with a next attempt in the future, exactly until its
      attempts are used up, and is a dead letter without next attempt from then on. */
  lemma {:induction false} RetriesRunOut(c: Candidate, times: seq<int>)
    requires times != []
    ensures var d := FailedAt(c, times);
      && d.attempts == c.attempts + |times| && d.maxAttempts == c.maxAttempts && d.node == c.node
      && (if d.attempts < d.maxAttempts
          then d.status.Retrying? && d.nextAttempt.Some? && 15 <= d.nextAttempt.value - times[|times| - 1] <= 900
          else d.status.DeadLetter? && d.nextAttempt.None?)
  {
    if |times| > 1 {
      RetriesRunOut(c, times[..|times| - 1]);
    }
    DelaysGrow(FailedAt(c, times).attempts, FailedAt(c, times).attempts);
  }

  // ----- what the status does not say -----

  /** A placed candidate may lose the status, never the node, to a failure recorded late or a retry asked for on an old
      reading. */
  predicate HitsPlaced(x: World, tick: Tick) {
    match tick
    case Record(t, _, _) => InFlight(x, t) && x.tasks[t].stage.Broken? && x.candidates[x.tasks[t].item].node.Some?
    case AskRetry(item, stale, _) =>
      stale && item in x.candidates && x.candidates[item].node.Some? && x.candidates[item].parent.Some?
    case _ => false
  }

  ghost predicate StatusTells(x: World) {
    forall i :: i in x.candidates ==> (x.candidates[i].status.Placed? <==> x.candidates[i].node.Some?)
  }

  lemma {:induction false} OtherTickKeepsStatus(x: World, tick: Tick)
    requires StatusTells(x) && !tick.Record? && !tick.AskRetry?
    ensures StatusTells(Next(x, tick))
  {
  }

  /** Status and node say the same until one of those two ticks hits a placed candidate, and exactly until then. */
  lemma {:induction false} StatusTellsUntilHit(x: World, tick: Tick)
    requires StatusTells(x)
    ensures StatusTells(Next(x, tick)) <==> !HitsPlaced(x, tick)
  {
    match tick
    case Record(t, read, now) =>
      if HitsPlaced(x, tick) {
        assert x.tasks[t].item in Next(x, tick).candidates;
      }
    case AskRetry(item, _, _) =>
      if HitsPlaced(x, tick) {
        assert item in Next(x, tick).candidates;
      }
    case _ => OtherTickKeepsStatus(x, tick);
  }

  function Both(item: Item, p: NodeId, q: NodeId, stage: Stage): map<TaskId, Task> {
    map[1 := Task(item, "1", "title", "", Some(p), stage), 2 := Task(item, "1", "title", "", Some(q), stage)]
  }

  /** Two operators choose different parents for one item at the same time. */
  function BothChose(w: Workspace, item: Item, p: NodeId, q: NodeId): World {
    var x := Next(Opened(w), Ingest(item, "1", "title", "", false, false));
    Next(Next(Next(Next(Next(Next(x, Choose(1, item, p)), Choose(2, item, q)), Remember(1)), Remember(2)), Look(1)),
         Look(2))
  }

  lemma {:induction false} BothChosen(x: World, item: Item, p: NodeId, q: NodeId)
    requires x.tasks == map[]
    ensures var x' :=
      Next(Next(Next(x, Ingest(item, "1", "title", "", false, false)), Choose(1, item, p)), Choose(2, item, q));
      x.candidates == map[] ==>
        x'.tasks == Both(item, p, q, Chosen) && x'.core == x.core && item in x'.candidates &&
          x'.candidates[item].maxAttempts == MAX_ATTEMPTS
  {
  }

  lemma {:induction false} BothLooked(w: Workspace, item: Item, p: NodeId, q: NodeId)
    ensures var x := BothChose(w, item, p, q);
      && x.core == Opened(w).core && item in x.candidates && x.candidates[item].maxAttempts == MAX_ATTEMPTS
      && x.tasks == Both(item, p, q, Looked(w.revision))
  {
    BothChosen(Opened(w), item, p, q);
    var x := Next(Next(Next(Opened(w), Ingest(item, "1", "title", "", false, false)), Choose(1, item, p)),
                  Choose(2, item, q));
    BothRemember(x, item, p, q);
    BothLook(Next(Next(x, Remember(1)), Remember(2)), item, p, q);
  }

  lemma {:induction false} BothRemember(x: World, item: Item, p: NodeId, q: NodeId)
    requires x.tasks == Both(item, p, q, Chosen) && item in x.candidates
    ensures var x' := Next(Next(x, Remember(1)), Remember(2));
      && x'.core == x.core && item in x'.candidates && x'.candidates[item].maxAttempts == x.candidates[item].maxAttempts
      && x'.tasks == Both(item, p, q, Begun)
  {
  }

  lemma {:induction false} BothLook(x: World, item: Item, p: NodeId, q: NodeId)
    requires x.tasks == Both(item, p, q, Begun) && item in x.candidates
    ensures var x' := Next(Next(x, Look(1)), Look(2));
      x'.core == x.core && x'.candidates == x.candidates && x'.tasks == Both(item, p, q, Looked(x.core.w.revision))
  {
  }

  lemma {:induction false} FirstIsPlaced(x: World, item: Item, p: NodeId, q: NodeId, id: NodeId)
    requires x.core.results == map[] && item in x.candidates && x.tasks == Both(item, p, q, Looked(x.core.w.revision))
    requires Live(x.core.w.nodes, p) && id !in x.core.w.nodes
    ensures var x' := Next(Next(x, Post(1, id, false)), Commit(1, false));
      && item in x'.candidates && x'.candidates[item].node == Some(id) &&
        x'.candidates[item].maxAttempts == x.candidates[item].maxAttempts
      && item in x'.core.results && x'.core.results[item].request == Request(p, "title", "")
      && 2 in x'.tasks && x'.tasks[2] == x.tasks[2]
  {
    assert |"title"| == 5;
    assert CreateNode(x.core.w, id, Some(p), "title", "", Some(x.core.w.revision)).0.Done?;
  }

  lemma {:induction false} SecondIsRefused(x: World, item: Item, q: NodeId, revision: nat, id: NodeId)
    requires item in x.candidates && x.candidates[item].maxAttempts > 1 && item in x.core.results
    requires 2 in x.tasks && x.tasks[2] == Task(item, "1", "title", "", Some(q), Looked(revision)) &&
      x.core.results[item].request.parent != q
    ensures var x' := Next(Next(x, Post(2, id, false)), Record(2, 0, 0));
      item in x'.candidates && x'.candidates[item].node == x.candidates[item].node &&
        x'.candidates[item].status.Retrying?
  {
    var x1 := Next(x, Post(2, id, false));
    assert 2 in x1.tasks && x1.tasks[2].stage.Broken?;
  }

  /** The first placement creates and commits; the second is refused for its different content, and recording that
      failure makes the placed candidate look as if it still waited. */
  lemma {:induction false} LateFailureHidesPlacement(w: Workspace, item: Item, p: NodeId, q: NodeId, id: NodeId)
    requires Live(w.nodes, p) && p != q && id !in w.nodes
    ensures var placed := Next(Next(BothChose(w, item, p, q), Post(1, id, false)), Commit(1, false));
      var x := Next(Next(placed, Post(2, id, false)), Record(2, 0, 0));
      item in x.candidates && x.candidates[item].node == Some(id) && x.candidates[item].status.Retrying?
  {
    BothLooked(w, item, p, q);
    FirstIsPlaced(BothChose(w, item, p, q), item, p, q, id);
    SecondIsRefused(Next(Next(BothChose(w, item, p, q), Post(1, id, false)), Commit(1, false)), item, q, w.revision,
                    id);
  }

  /** One operator places a new item, and the gateway's read after its commit fails. */
  function Unread(w: Workspace, item: Item, p: NodeId, id: NodeId): World {
    var x := Next(Next(Next(Opened(w), Ingest(item, "1", "title", "", false, false)), Choose(1, item, p)), Remember(1));
    Attempted(x, 1, id, true)
  }

  lemma {:induction false} OneChosen(w: Workspace, item: Item, p: NodeId)
    ensures var x :=
      Next(Next(Next(Opened(w), Ingest(item, "1", "title", "", false, false)), Choose(1, item, p)), Remember(1));
      && x.core == Opened(w).core && item in x.candidates && x.candidates[item].maxAttempts == MAX_ATTEMPTS
      && x.tasks == map[1 := Task(item, "1", "title", "", Some(p), Begun)]
  {
  }

  lemma {:induction false} UnreadIsBroken(x: World, item: Item, p: NodeId, id: NodeId)
    requires x.core.results == map[] && item in x.candidates &&
      x.tasks == map[1 := Task(item, "1", "title", "", Some(p), Begun)]
    requires Live(x.core.w.nodes, p) && id !in x.core.w.nodes
    ensures var x' := Attempted(x, 1, id, true);
      && item in x'.candidates && x'.candidates[item] == PlacedRow(x.candidates[item], id)
      && 1 in x'.tasks && x'.tasks[1].item == item && x'.tasks[1].stage.Broken?
  {
    assert |"title"| == 5;
    assert CreateNode(x.core.w, id, Some(p), "title", "", Some(x.core.w.revision)).0.Done?;
  }

  /** Without any competitor: the placement is committed, but recording the failed read as a failed placement makes the
      placed candidate look as if it still waited. */
  lemma {:induction false} FailedReadHidesPlacement(w: Workspace, item: Item, p: NodeId, id: NodeId)
    requires Live(w.nodes, p) && id !in w.nodes
    ensures var x := Next(Unread(w, item, p, id), Record(1, 0, 0));
      item in x.candidates && x.candidates[item].node == Some(id) && x.candidates[item].status.Retrying?
  {
    hide Attempted, Live;
    OneChosen(w, item, p);
    UnreadIsBroken(Next(Next(Next(Opened(w), Ingest(item, "1", "title", "", false, false)), Choose(1, item, p)),
                        Remember(1)), item, p, id);
  }
}
