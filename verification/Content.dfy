/** What a placement writes is what it read: content travels from ingestion to the candidate, from there into a
    placement in flight, and into the node, while everything else interleaves. */
module Content {
  import opened Wrappers
  import opened Forest
  import opened Commands
  import opened Idempotency
  import opened Placement

  // ----- candidates -----

  predicate SameContent(c: Candidate, c': Candidate) {
    c'.version == c.version && c'.title == c.title && c'.description == c.description
  }

  /** Which ticks change what of a candidate. */
  lemma {:induction false} CandidateChanges(x: World, tick: Tick, item: Item)
    requires item in x.candidates
    ensures item in Next(x, tick).candidates
    ensures var c, c' := x.candidates[item], Next(x, tick).candidates[item];
      && c'.maxAttempts == c.maxAttempts
      && (!SameContent(c, c') ==> tick.Ingest? && tick.item == item && (tick.stale || tick.version != c.version))
      && (c'.parent != c.parent ==>
        tick.Remember? && tick.task in x.tasks && x.tasks[tick.task].item == item &&
        c'.parent == x.tasks[tick.task].parent)
      && (c'.attempts != c.attempts ==> tick.Ingest? || tick.AskRetry? || tick.Record?)
      && (c'.nextAttempt != c.nextAttempt ==> !tick.Choose? && !tick.Remember? && !tick.Post? && !tick.Break?)
  {
    hide Step, CreateOnce;
  }

  lemma {:induction false} OnlyIngestionAdds(x: World, tick: Tick, item: Item)
    requires item !in x.candidates && item in Next(x, tick).candidates
    ensures tick.Ingest? && tick.item == item
  {
    hide Step, CreateOnce;
  }

  /** After any run a candidate has the content of one ingestion, and every later one of its item brought a version that
      was already there. */
  lemma {:induction false} CandidateHoldsLastIngestion(w: Workspace, ticks: seq<Tick>, item: Item) returns (k: nat)
    requires item in Reached(Opened(w), ticks).candidates
    ensures k < |ticks| && ticks[k].Ingest? && ticks[k].item == item
    ensures var c := Reached(Opened(w), ticks).candidates[item];
      && c.version == ticks[k].version && c.title == ticks[k].title && c.description == ticks[k].description
      && c.maxAttempts == 5
    ensures forall j :: k < j < |ticks| && ticks[j].Ingest? && ticks[j].item == item ==>
      !ticks[j].stale && ticks[j].version == ticks[k].version
  {
    var earlier, last := ticks[..|ticks| - 1], ticks[|ticks| - 1];
    var x := Reached(Opened(w), earlier);
    if last.Ingest? && last.item == item {
      IngestionLeaves(x, item, last.version, last.title, last.description, last.recommended, last.stale);
    }
    if item in x.candidates {
      k := CandidateHoldsLastIngestion(w, earlier, item);
      CandidateChanges(x, last, item);
      hide Next, SameContent;
      if last.Ingest? && last.item == item && (last.stale || last.version != x.candidates[item].version) {
        k := |earlier|;
      }
    } else {
      OnlyIngestionAdds(x, last, item);
      k := |earlier|;
    }
  }

  // ----- placements in flight -----

  /** With this tick placement `t` begins, on the candidate as it then is. */
  predicate Reads(x: World, tick: Tick, t: TaskId, task: Task) {
    && task.item in x.candidates
    && var c := x.candidates[task.item];
      && task.version == c.version && task.title == c.title && task.description == c.description
      && (|| (tick.Choose? && tick.task == t && tick.item == task.item && task.parent == Some(tick.parent))
          || (tick.Lease? && tick.task == t && tick.item == task.item && task.parent == c.parent))
  }

  /** A placement keeps what it read until it is committed, recorded as failed, or lost in a crash. */
  lemma {:induction false} PlacementKeepsItsTerms(x: World, tick: Tick, t: TaskId)
    ensures t in x.tasks && t !in Next(x, tick).tasks ==>
      (tick.Commit? || tick.Record? || tick.Crash?) && tick.task == t
    ensures t in x.tasks && t in Next(x, tick).tasks ==>
      Next(x, tick).tasks[t] == x.tasks[t].(stage := Next(x, tick).tasks[t].stage)
    ensures t !in x.tasks && t in Next(x, tick).tasks ==> Reads(x, tick, t, Next(x, tick).tasks[t])
  {
    hide Step, CreateOnce;
  }

  lemma {:induction false} PlacementWorksOnWhatItRead(w: Workspace, ticks: seq<Tick>, t: TaskId) returns (k: nat)
    requires t in Reached(Opened(w), ticks).tasks
    ensures k < |ticks| && Reads(Reached(Opened(w), ticks[..k]), ticks[k], t, Reached(Opened(w), ticks).tasks[t])
  {
    var earlier, last := ticks[..|ticks| - 1], ticks[|ticks| - 1];
    PlacementKeepsItsTerms(Reached(Opened(w), earlier), last, t);
    hide Next;
    if t in Reached(Opened(w), earlier).tasks {
      k := PlacementWorksOnWhatItRead(w, earlier, t);
      assert earlier[..k] == ticks[..k];
    } else {
      k := |earlier|;
    }
  }

  // ----- nodes -----

  lemma {:induction false} CreationMakes(core: Core, key: Item, request: Request, expected: nat, id: NodeId)
    requires CreateOnce(core, key, request, expected, id).1 != core
    ensures var core' := CreateOnce(core, key, request, expected, id).1;
      && id !in core.w.nodes && id in core'.w.nodes && core'.w.nodes - {id} == core.w.nodes
      && core'.w.nodes[id].parent == Some(request.parent) && core'.w.nodes[id].title == request.title
      && core'.w.nodes[id].outcome == request.outcome
  {
    hide Logged;
  }

  /** Over any run: the node that a placement makes has the title and description brought by the last ingestion before
      the placement read them, under the parent it was chosen or leased with, and no other node changes. */
  lemma {:induction false} NodeIsMadeFromAnIngestion(w: Workspace, ticks: seq<Tick>, t: TaskId, id: NodeId, lost: bool)
    returns (j: nat, k: nat)
    requires var x := Reached(Opened(w), ticks); Next(x, Post(t, id, lost)).core != x.core
    ensures j < k < |ticks|
    ensures var x, x' := Reached(Opened(w), ticks), Next(Reached(Opened(w), ticks), Post(t, id, lost));
      && t in x.tasks && Reads(Reached(Opened(w), ticks[..k]), ticks[k], t, x.tasks[t])
      && ticks[j].Ingest? && ticks[j].item == x.tasks[t].item
      && (forall i :: j < i < k && ticks[i].Ingest? && ticks[i].item == x.tasks[t].item ==>
        !ticks[i].stale && ticks[i].version == ticks[j].version)
      && id !in x.core.w.nodes && id in x'.core.w.nodes && x'.core.w.nodes - {id} == x.core.w.nodes
      && x'.core.w.nodes[id].parent == x.tasks[t].parent
      && x'.core.w.nodes[id].title == ticks[j].title && x'.core.w.nodes[id].outcome == ticks[j].description
  {
    var x := Reached(Opened(w), ticks);
    var task := x.tasks[t];
    CreationMakes(x.core, task.item, RequestOf(task), task.stage.revision, id);
    assert Next(x, Post(t, id, lost)).core == CreateOnce(x.core, task.item, RequestOf(task), task.stage.revision, id).1;
    hide CreateOnce, Next;
    k := PlacementWorksOnWhatItRead(w, ticks, t);
    hide Reached;
    j := CandidateHoldsLastIngestion(w, ticks[..k], task.item);
  }
}
