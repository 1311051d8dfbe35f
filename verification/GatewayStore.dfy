/** The gateway's tables as its handlers and its retry worker update them, with the core behind an HTTP call. */
module GatewayStore {
  import opened Wrappers
  import opened Forest
  import opened Commands
  import opened Idempotency
  import opened Placement
  import Store

  /** The core's handler: look up the key, create on the expected revision, remember the result. */
  method CreateNodeUnderKey(core: Core, key: Item, request: Request, expected: nat, id: NodeId)
    returns (answer: Answer, core': Core)
    ensures (answer, core') == CreateOnce(core, key, request, expected, id)
  {
    if request.title == "" { return Refused(BadRequest), core; }
    if key in core.results {
      var saved := core.results[key];
      if saved.request != request { return Refused(Conflict), core; }
      return Answered(saved.node, saved.revision), core;
    }
    var reply, w :=
      Store.CreateTransaction(core.w, id, Some(request.parent), request.title, request.outcome, Some(expected));
    if !reply.Done? { return Refused(reply), core; }
    return Answered(id, w.revision), Core(w, core.results[key := Saved(request, id, w.revision)]);
  }

  predicate Due(candidates: map<Item, Candidate>, item: Item, now: int) {
    && item in candidates && candidates[item].status.Retrying?
    && candidates[item].nextAttempt.Some? && candidates[item].nextAttempt.value <= now
  }

  /** The due candidate that has waited longest. */
  method OldestDue(candidates: map<Item, Candidate>, now: int) returns (due: Option<Item>)
    ensures if due.Some? then Due(candidates, due.value, now) &&
              forall i :: Due(candidates, i, now) ==>
                candidates[due.value].nextAttempt.value <= candidates[i].nextAttempt.value
            else forall i :: !Due(candidates, i, now)
  {
    due := None;
    var left := candidates.Keys;
    while left != {}
      invariant left <= candidates.Keys
      invariant if due.Some? then Due(candidates, due.value, now) &&
                  forall i :: Due(candidates, i, now) && i !in left ==>
                    candidates[due.value].nextAttempt.value <= candidates[i].nextAttempt.value
                else forall i :: Due(candidates, i, now) ==> i in left
      decreases left
    {
      var i :| i in left;
      if Due(candidates, i, now) &&
        (due.None? || candidates[i].nextAttempt.value < candidates[due.value].nextAttempt.value) {
        due := Some(i);
      }
      left := left - {i};
    }
  }

  class Gateway {
    var core: Core
    var candidates: map<Item, Candidate>
    var mappings: map<Item, Mapping>
    var tasks: map<TaskId, Task>

    function State(): World
      reads this
    {
      World(core, candidates, mappings, tasks)
    }

    constructor (w: Workspace)
      ensures State() == Opened(w)
    {
      core, candidates, mappings, tasks := Core(w, map[]), map[], map[], map[];
    }

    method UpsertCandidate(item: Item, version: string, title: string, description: string, recommended: bool)
      modifies this`candidates
      ensures State() == Next(old(State()), Ingest(item, version, title, description, recommended, false))
    {
      if item in candidates && candidates[item].version == version { return; }
      var status := if recommended then Suggested else Unplaced;
      if item !in candidates {
        candidates :=
          candidates[item := Candidate(version, title, description, status, None, None, 0, MAX_ATTEMPTS, None)];
      } else {
        var row := candidates[item].(version := version, title := title, description := description,
                                     nextAttempt := None);
        if !row.status.Placed? {
          row := row.(status := status, attempts := 0);
        }
        candidates := candidates[item := row];
      }
    }

    method RecordFailure(t: TaskId, now: int)
      requires InFlight(State(), t) && tasks[t].stage.Broken?
      modifies this`candidates, this`tasks
      ensures State() == Next(old(State()), Record(t, old(candidates[tasks[t].item].attempts), now))
    {
      var item := tasks[t].item;
      var row := candidates[item];
      var attempt := row.attempts + 1;
      if attempt >= row.maxAttempts {
        row := row.(status := DeadLetter, nextAttempt := None);
      } else {
        row := row.(status := Retrying, nextAttempt := Some(now + RetryDelay(attempt)));
      }
      candidates := candidates[item := row.(attempts := attempt)];
      tasks := tasks - {t};
    }

    /** Reads the core's revision and sends the creation on it. */
    method CreateNativeNode(t: TaskId, id: NodeId) returns (ok: bool)
      requires InFlight(State(), t) && tasks[t].stage.Begun? && tasks[t].parent.Some?
      modifies this`core, this`tasks
      ensures State() == PostTick(LookTick(old(State()), t), t, id, false)
      ensures t in tasks && tasks[t].item == old(tasks[t].item) &&
        (if ok then tasks[t].stage.Acknowledged? else tasks[t].stage.Broken?)
    {
      var task := tasks[t];
      var revision := core.w.revision;
      var answer, after := CreateNodeUnderKey(core, task.item, RequestOf(task), revision, id);
      core := after;
      ok := answer.Answered?;
      var stage := if ok then Acknowledged(answer.node, answer.revision) else Broken;
      tasks := tasks[t := task.(stage := stage)];
    }

    /** One transaction: the mapping and the candidate. The candidate is then read again, which may fail. */
    method CommitMapping(t: TaskId, lost: bool) returns (ok: bool)
      requires InFlight(State(), t) && tasks[t].stage.Acknowledged?
      modifies this`mappings, this`candidates, this`tasks
      ensures State() == CommitTick(old(State()), t, lost) && ok == !lost
    {
      var task := tasks[t];
      mappings := mappings[task.item := Mapping(task.version, task.stage.node, task.stage.revision)];
      candidates :=
        candidates[task.item := candidates[task.item].(status := Placed, node := Some(task.stage.node),
                                                       nextAttempt := None)];
      ok := !lost;
      if lost {
        tasks := tasks[t := task.(stage := Broken)];
      } else {
        tasks := tasks - {t};
      }
    }

    /** A placement that nothing interrupts. A refusal, or a failure to read the candidate again, is left for the caller
        to record. */
    method CommitPlacement(t: TaskId, id: NodeId, lost: bool) returns (ok: bool)
      requires InFlight(State(), t) && tasks[t].stage.Begun? && tasks[t].parent.Some?
      modifies this
      ensures State() == Attempted(old(State()), t, id, lost)
      ensures if ok then t !in tasks else t in tasks && tasks[t].item == old(tasks[t].item) && tasks[t].stage.Broken?
    {
      ok := CreateNativeNode(t, id);
      if ok {
        ok := CommitMapping(t, lost);
      }
    }

    /** The retry worker's round: lease the oldest due candidate, place it again, and record a failure. */
    method ProcessDueRetry(t: TaskId, id: NodeId, lost: bool, now: int, later: int) returns (leased: Option<Item>)
      requires t !in tasks
      modifies this
      ensures leased.None? ==> State() == old(State()) && forall i :: !Due(old(candidates), i, now)
      ensures leased.Some? ==> Due(old(candidates), leased.value, now)
      ensures leased.Some? ==>
        var begun := LeaseTick(old(State()), t, leased.value, now);
        var tried := if begun.tasks[t].stage.Begun? then Attempted(begun, t, id, lost) else begun;
        State() == if t in tried.tasks then RecordTick(tried, t, tried.candidates[leased.value].attempts, later)
                   else tried
    {
      leased := OldestDue(candidates, now);
      if leased.None? { return; }
      var item := leased.value;
      var row := candidates[item];
      candidates := candidates[item := row.(nextAttempt := Some(now + LEASE_SECONDS))];
      tasks := tasks[t := TaskFor(item, row, row.parent, if row.parent.Some? then Begun else Broken)];
      var ok := false;
      if row.parent.Some? {
        ok := CommitPlacement(t, id, lost);
      }
      if !ok {
        RecordFailure(t, later);
      }
    }
  }
}
