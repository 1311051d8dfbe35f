/** Every act in plain terms: exactly when it is accepted, and what it then leaves. The acts search for rows by status
    and position; on a sound circle there is only one row they can find, so the searches disappear. */
module Outcomes {
  import opened Wrappers
  import opened Forest
  import opened Circle
  import opened CircleInvariant
  import opened CircleActs
  import Bidding
  import opened Route

  // ----- starting -----

  /** The row a search by position finds when only one row can be found. */
  lemma {:induction false} OnlyOneIsFirst(steps: Steps, among: set<StepId>, s: StepId)
    requires s in among && s in steps && forall t :: t in among && t in steps ==> t == s
    ensures First(steps, among) == Some(s)
  {
    assert s in among * steps.Keys;
  }

  lemma {:induction false} ClaimLooksAt(c: Circle, s: StepId)
    requires OneCurrent(c.steps) && s in c.steps && (c.steps[s].status.Ready? || c.steps[s].status.Assigned?)
    ensures First(c.steps, Claimable(c.steps)) == Some(s)
  {
    OnlyOneIsFirst(c.steps, Claimable(c.steps), s);
  }

  /** A claim is accepted exactly on live planned work whose current step is assigned to the actor, or is ready,
      distributed simply, and states requirements that the actor meets without exception. */
  lemma {:induction false} ClaimIsAcceptedExactlyWhen(c: Circle, actor: ActorId, skills: set<nat>, policy: Mode,
                                                      exec: ExecId, now: int)
    requires Sound(c)
    ensures ClaimStep(c, actor, skills, policy, exec, now).Some? <==>
      && c.live && c.lifecycle.Planned? && exec !in c.ledger
      && exists s ::
        s in c.steps &&
        var st := c.steps[s];
        || (st.status.Assigned? && st.claimedBy == Some(actor))
        || (&& st.status.Ready? && (st.mode.Simple? || (st.mode.Inherit? && policy.Simple?))
            && st.requirements != {} && forall r :: r in st.requirements ==> r in skills)
  {
    hide LedgerOk, HoldersOk, PositionsOk, LifecycleTells, StartStep;
    if s :| s in c.steps && (c.steps[s].status.Ready? || c.steps[s].status.Assigned?) {
      ClaimLooksAt(c, s);
      assert forall t :: t in c.steps && (c.steps[t].status.Ready? || c.steps[t].status.Assigned?) ==> t == s;
    }
  }

  function ExecutionsOf(ledger: Ledger, s: StepId): set<ExecId> {
    set e | e in ledger && ledger[e].step == s
  }

  lemma {:induction false} DistinctAttemptsCount(ledger: Ledger, s: StepId, rows: set<ExecId>)
    requires rows <= ExecutionsOf(ledger, s)
    requires forall e, f :: e in rows && f in rows && ledger[e].attempt == ledger[f].attempt ==> e == f
    ensures |set e | e in rows && e in ledger :: ledger[e].attempt| == |rows|
  {
    var numbers := set e | e in rows && e in ledger :: ledger[e].attempt;
    if rows == {} {
      assert numbers == {};
    } else {
      var x :| x in rows;
      var rest := rows - {x};
      DistinctAttemptsCount(ledger, s, rest);
      var others := set e | e in rest && e in ledger :: ledger[e].attempt;
      forall k ensures k in numbers <==> k in others || k == ledger[x].attempt {
        if k in numbers {
          var e :| e in rows && e in ledger && ledger[e].attempt == k;
          assert e == x || e in rest;
        }
      }
      assert numbers == others + {ledger[x].attempt};
    }
  }

  /** The highest attempt number of a step is the number of its executions. */
  lemma {:induction false} AttemptsCount(ledger: Ledger, s: StepId)
    requires NumberingOk(ledger)
    ensures MaxOf(Attempts(ledger, s)) == |ExecutionsOf(ledger, s)|
  {
    var rows := ExecutionsOf(ledger, s);
    AttemptsFill(ledger, s);
    DistinctAttemptsCount(ledger, s, rows);
    assert Attempts(ledger, s) == set e | e in rows && e in ledger :: ledger[e].attempt;
  }

  /** An accepted claim starts the one step that was ready or assigned. The execution it adds is numbered one higher
      than the step has executions, and takes over the selected bid of the step with its promise; nothing else
      changes. */
  lemma {:induction false} ClaimStarts(c: Circle, actor: ActorId, skills: set<nat>, policy: Mode, exec: ExecId,
                                       now: int, s: StepId)
    requires Sound(c) && ClaimStep(c, actor, skills, policy, exec, now).Some?
    requires s in c.steps && (c.steps[s].status.Ready? || c.steps[s].status.Assigned?)
    ensures var bid := c.steps[s].selectedBid;
      && (bid.Some? ==> (s, bid.value) in c.bids)
      && var promise := if bid.Some? then Some(c.bids[(s, bid.value)].promise) else None;
        var row := Execution(s, |ExecutionsOf(c.ledger, s)| + 1, Running, actor, bid, promise, now, None);
        ClaimStep(c, actor, skills, policy, exec, now) ==
          Some(Circle(c.live, Active, c.steps[s := c.steps[s].(status := Started, claimedBy := Some(actor))],
                      c.ledger[exec := row], c.bids))
  {
    hide PositionsOk, LifecycleTells, RowsOk, StepsMatch, NumberingOk, MayClaim, Claimable, Attempts;
    hide First, ExecutionsOf;
    ClaimLooksAt(c, s);
    AttemptsCount(c.ledger, s);
    assert HolderOk(c.steps[s], s, c.bids);
  }

  /** A lease within a node is granted exactly on live planned work with a ready step of the automated kind asked for,
      if the module is allowed. It starts that step without a bid or a promise. */
  lemma {:induction false} LeaseIsAcceptedExactlyWhen(c: Circle, kind: StepKind, allowed: bool, exec: ExecId,
                                                      actor: ActorId, now: int)
    requires Sound(c)
    ensures LeaseStep(c, kind, allowed, exec, actor, now).Some? <==>
      && c.live && c.lifecycle.Planned? && allowed && exec !in c.ledger && (kind.Api? || kind.Script?)
      && exists s :: s in c.steps && c.steps[s].status.Ready? && c.steps[s].kind == kind
  {
    if s :| s in c.steps && c.steps[s].status.Ready? && c.steps[s].kind == kind {
      OnlyOneIsFirst(c.steps, ReadyOf(c.steps, kind), s);
    }
  }

  lemma {:induction false} LeaseStarts(c: Circle, kind: StepKind, allowed: bool, exec: ExecId, actor: ActorId,
                                       now: int, s: StepId)
    requires Sound(c) && LeaseStep(c, kind, allowed, exec, actor, now).Some?
    requires s in c.steps && c.steps[s].status.Ready?
    ensures c.steps[s].kind == kind
    ensures var row := Execution(s, |ExecutionsOf(c.ledger, s)| + 1, Running, actor, None, None, now, None);
      LeaseStep(c, kind, allowed, exec, actor, now) ==
        Some(Circle(c.live, Active, c.steps[s := c.steps[s].(status := Started, claimedBy := Some(actor))],
                    c.ledger[exec := row], c.bids))
  {
    hide PositionsOk, LifecycleTells, RowsOk, StepsMatch, NumberingOk, HoldersOk, Attempts, ExecutionsOf;
    assert s == First(c.steps, ReadyOf(c.steps, kind)).value;
    AttemptsCount(c.ledger, s);
  }

  // ----- finishing -----

  /** The pending step that stands first. */
  predicate NextInLine(steps: Steps, t: StepId) {
    t in steps && steps[t].status.Pending? &&
    forall u :: u in steps && steps[u].status.Pending? ==> steps[t].position <= steps[u].position
  }

  /** The row of step `t` when step `s` is done: the first pending step is ready. */
  function MovedOn(steps: Steps, s: StepId, t: StepId): WorkStep
    requires t in steps
  {
    if t == s then steps[t].(status := Completed)
    else if NextInLine(steps, t) then steps[t].(status := Ready)
    else steps[t]
  }

  /** Step `s` is done, the first pending step is ready, and the node is planned again or in review. */
  ghost predicate MovesOn(c: Circle, c': Circle, s: StepId) {
    && c'.live == c.live && c'.bids == c.bids && c'.steps.Keys == c.steps.Keys && s in c.steps
    && (forall t :: t in c.steps ==> c'.steps[t] == MovedOn(c.steps, s, t))
    && (c'.lifecycle.Planned? <==> exists t :: t in c.steps && c.steps[t].status.Pending?)
    && (c'.lifecycle.Review? <==> forall t :: t in c.steps ==> !c.steps[t].status.Pending?)
  }

  /** The search for the next step, among the rows as they are before the finished one changes. */
  lemma {:induction false} NextIsFirst(steps: Steps, s: StepId)
    requires PositionsOk(steps) && Has(steps, s, Started)
    ensures var steps' := steps[s := steps[s].(status := Completed)];
      forall t: StepId :: First(steps', With(steps', Pending)) == Some(t) <==> NextInLine(steps, t)
    ensures var steps' := steps[s := steps[s].(status := Completed)];
      First(steps', With(steps', Pending)).Some? <==> exists t :: t in steps && steps[t].status.Pending?
  {
    var steps' := steps[s := steps[s].(status := Completed)];
    var among := With(steps', Pending);
    var next := First(steps', among);
    assert forall t :: t in among <==> t in steps && steps[t].status.Pending?;
    assert forall t :: IsFirst(steps', among, t) <==> NextInLine(steps, t);
    forall t | t in among ensures next.Some? {
      assert t in among * steps'.Keys;
    }
    assert forall t, u :: NextInLine(steps, t) && NextInLine(steps, u) ==> t == u;
  }

  lemma {:induction false} FinishMovesOn(c: Circle, s: StepId, ledger: Ledger)
    requires PositionsOk(c.steps) && Has(c.steps, s, Started)
    ensures MovesOn(c, FinishStep(c, s, ledger), s) && FinishStep(c, s, ledger).ledger == ledger
  {
    hide PositionsOk, With, First, IsFirst;
    NextIsFirst(c.steps, s);
    var steps := c.steps[s := c.steps[s].(status := Completed)];
    var next := First(steps, With(steps, Pending));
    if next.None? {
      assert FinishStep(c, s, ledger) == Circle(c.live, Review, steps, ledger, c.bids);
    } else {
      var t := next.value;
      assert NextInLine(c.steps, t) && t != s && steps[t] == c.steps[t];
      assert FinishStep(c, s, ledger) ==
        Circle(c.live, Planned, steps[t := c.steps[t].(status := Ready)], ledger, c.bids);
      assert forall u: StepId :: NextInLine(c.steps, u) ==> u == t;
    }
    hide FinishStep, NextInLine;
  }

  /** The execution that runs, and the step it runs for. */
  predicate RunsIn(c: Circle, e: ExecId, s: StepId) {
    e in c.ledger && c.ledger[e].status.Running? && c.ledger[e].step == s
  }

  lemma {:induction false} RunningIsUnique(c: Circle, e: ExecId, f: ExecId)
    requires Sound(c) && e in c.ledger && f in c.ledger && c.ledger[e].status.Running? && c.ledger[f].status.Running?
    ensures e == f && Has(c.steps, c.ledger[e].step, Started) && c.lifecycle.Active?
    ensures c.steps[c.ledger[e].step].claimedBy == Some(c.ledger[e].startedBy)
  {
    hide PositionsOk, HoldersOk, NumberingOk;
    SoundRunsOne(c);
  }

  lemma {:induction false} StartedStepRuns(c: Circle, s: StepId) returns (e: ExecId)
    requires Sound(c) && Has(c.steps, s, Started)
    ensures RunsIn(c, e, s) && c.steps[s].claimedBy == Some(c.ledger[e].startedBy)
  {
    assert StepMatches(c.steps[s], s, c.ledger);
    e :| Runs(c.ledger, e, s);
  }

  /** A submission is accepted exactly from the actor whose execution runs there. */
  lemma {:induction false} SubmissionIsAcceptedExactlyWhen(c: Circle, actor: ActorId, now: int)
    requires Sound(c)
    ensures SubmitStep(c, actor, now).Some? <==>
      c.live && exists e :: e in c.ledger && c.ledger[e].status.Running? && c.ledger[e].startedBy == actor
  {
    hide PositionsOk, OneCurrent, LifecycleTells, HoldersOk, LedgerOk, RunningOf, FinishStep, Settle;
    if e :| e in c.ledger && c.ledger[e].status.Running? && c.ledger[e].startedBy == actor {
      SubmissionFinds(c, actor, e);
      OneRunningOf(c, e);
    }
    if SubmitStep(c, actor, now).Some? {
      var s := First(c.steps, HeldBy(c.steps, actor)).value;
      var e := StartedStepRuns(c, s);
    }
  }

  lemma {:induction false} SubmissionFinds(c: Circle, actor: ActorId, e: ExecId)
    requires Sound(c) && e in c.ledger && c.ledger[e].status.Running? && c.ledger[e].startedBy == actor
    ensures First(c.steps, HeldBy(c.steps, actor)) == Some(c.ledger[e].step) && c.lifecycle.Active?
    ensures Has(c.steps, c.ledger[e].step, Started)
  {
    RunningIsUnique(c, e, e);
    hide PositionsOk, HoldersOk, LedgerOk, LifecycleTells;
    OnlyOneIsFirst(c.steps, HeldBy(c.steps, actor), c.ledger[e].step);
  }

  lemma {:induction false} OneRunningOf(c: Circle, e: ExecId)
    requires Sound(c) && e in c.ledger && c.ledger[e].status.Running?
    ensures RunningOf(c.ledger, c.ledger[e].step) == {e}
  {
    forall f | f in RunningOf(c.ledger, c.ledger[e].step) ensures f == e {
      RunningIsUnique(c, e, f);
    }
    assert e in RunningOf(c.ledger, c.ledger[e].step);
  }

  lemma {:induction false} SettlesOne(ledger: Ledger, s: StepId, e: ExecId, now: int)
    requires RunningOf(ledger, s) == {e}
    ensures e in ledger
    ensures Settle(ledger, s, Succeeded, now) == ledger[e := ledger[e].(status := Succeeded, finishedAt := Some(now))]
  {
    assert e in RunningOf(ledger, s);
    forall g | Runs(ledger, g, s) ensures g == e {
      assert g in RunningOf(ledger, s);
    }
  }

  /** It ends that execution with success at `now` and touches no other; its step is done and the route moves on. */
  lemma {:induction false} SubmissionFinishes(c: Circle, actor: ActorId, now: int, e: ExecId)
    requires Sound(c) && SubmitStep(c, actor, now).Some? && e in c.ledger && c.ledger[e].status.Running?
    ensures c.ledger[e].startedBy == actor
    ensures var c' := SubmitStep(c, actor, now).value;
      && MovesOn(c, c', c.ledger[e].step)
      && c'.ledger == c.ledger[e := c.ledger[e].(status := Succeeded, finishedAt := Some(now))]
  {
    hide PositionsOk, OneCurrent, LifecycleTells, HoldersOk, LedgerOk, RunningOf, Settle, FinishStep, MovesOn;
    var s := First(c.steps, HeldBy(c.steps, actor)).value;
    var f := StartedStepRuns(c, s);
    RunningIsUnique(c, e, f);
    OneRunningOf(c, e);
    SettlesOne(c.ledger, s, e, now);
    FinishMovesOn(c, s, c.ledger[e := c.ledger[e].(status := Succeeded, finishedAt := Some(now))]);
  }

  /** A runner's result is accepted exactly for a running execution of live work; success finishes the step as a
      submission does, anything else fails it and blocks the node. */
  lemma {:induction false} CompletionIsAcceptedExactlyWhen(c: Circle, e: ExecId, result: ExecStatus, now: int)
    requires Sound(c)
    ensures CompleteStep(c, e, result, now).Some? <==>
      c.live && e in c.ledger && c.ledger[e].status.Running? &&
      (result.Succeeded? || result.Broken? || result.TimedOut?)
    ensures CompleteStep(c, e, result, now).Some? ==>
      var c', s := CompleteStep(c, e, result, now).value, c.ledger[e].step;
      && c'.ledger == c.ledger[e := c.ledger[e].(status := result, finishedAt := Some(now))]
      && s in c.steps
      && (result.Succeeded? ==> MovesOn(c, c', s))
      && (!result.Succeeded? ==>
        c'.lifecycle.Blocked? && c'.live == c.live && c'.bids == c.bids &&
        c'.steps == c.steps[s := c.steps[s].(status := Failed)])
  {
    if e in c.ledger && c.ledger[e].status.Running? {
      RunningIsUnique(c, e, e);
      var s := c.ledger[e].step;
      if result.Succeeded? {
        FinishMovesOn(c, s, c.ledger[e := c.ledger[e].(status := result, finishedAt := Some(now))]);
      }
    }
  }

  // ----- deciding -----

  predicate RunsAutomated(c: Circle, e: ExecId) {
    && e in c.ledger && c.ledger[e].status.Running? && c.ledger[e].step in c.steps
    && (c.steps[c.ledger[e].step].kind.Api? || c.steps[c.ledger[e].step].kind.Script?)
  }

  /** Cancelling is accepted exactly for the requester of live work while an automated step runs, and only ends that
      execution, fails its step and blocks the node. */
  lemma {:induction false} CancellationIsAcceptedExactlyWhen(c: Circle, requester: bool, now: int)
    requires Sound(c)
    ensures CancelStep(c, requester, now).Some? <==>
      c.live && requester && exists e :: RunsAutomated(c, e)
  {
    if e :| RunsAutomated(c, e) {
      CancellationFinds(c, e);
    }
    if CancelStep(c, requester, now).Some? {
      var s := First(c.steps, RunningAutomated(c)).value;
      var e := StartedStepRuns(c, s);
      assert RunsAutomated(c, e);
    }
  }

  lemma {:induction false} CancellationFinds(c: Circle, e: ExecId)
    requires Sound(c) && RunsAutomated(c, e)
    ensures First(c.steps, RunningAutomated(c)) == Some(c.ledger[e].step) && c.lifecycle.Active?
  {
    RunningIsUnique(c, e, e);
    hide PositionsOk, HoldersOk, LedgerOk, LifecycleTells;
    assert Runs(c.ledger, e, c.ledger[e].step);
    OnlyOneIsFirst(c.steps, RunningAutomated(c), c.ledger[e].step);
  }

  lemma {:induction false} CancellationEnds(c: Circle, requester: bool, now: int, e: ExecId)
    requires Sound(c) && CancelStep(c, requester, now).Some? && e in c.ledger && c.ledger[e].status.Running?
    ensures c.ledger[e].step in c.steps
    ensures var s := c.ledger[e].step;
      CancelStep(c, requester, now) ==
        Some(Circle(c.live, Blocked, c.steps[s := c.steps[s].(status := Failed)],
                    c.ledger[e := c.ledger[e].(status := Cancelled, finishedAt := Some(now))], c.bids))
  {
    var s := First(c.steps, RunningAutomated(c)).value;
    forall f | Runs(c.ledger, f, s) ensures f == e {
      RunningIsUnique(c, e, f);
    }
    RunningIsUnique(c, e, e);
    var f := StartedStepRuns(c, s);
    assert Runs(c.ledger, f, s);
  }

  /** Retrying is accepted exactly for the requester of live work with a failed automated step, which is ready again. */
  lemma {:induction false} RetryIsAcceptedExactlyWhen(c: Circle, requester: bool)
    requires Sound(c)
    ensures Retried(c, requester).Some? <==>
      c.live && requester && exists s ::
        s in c.steps && c.steps[s].status.Failed? && (c.steps[s].kind.Api? || c.steps[s].kind.Script?)
    ensures forall s :: s in c.steps && c.steps[s].status.Failed? && Retried(c, requester).Some? ==>
      Retried(c, requester) ==
        Some(Circle(c.live, Planned, c.steps[s := c.steps[s].(status := Ready, claimedBy := None)], c.ledger, c.bids))
  {
    hide PositionsOk, HoldersOk, LedgerOk;
    if s :| s in c.steps && c.steps[s].status.Failed? && (c.steps[s].kind.Api? || c.steps[s].kind.Script?) {
      assert Has(c.steps, s, Failed);
      OnlyOneIsFirst(c.steps, With(c.steps, Failed) * Automated(c.steps), s);
    }
  }

  /** Accepting, sending back and reopening are the requester's, on live work in review, in review and closed. */
  lemma {:induction false} DecisionsAreAcceptedExactlyWhen(c: Circle, requester: bool, openBelow: bool, s: StepId,
                                                           now: int)
    requires Sound(c)
    ensures CloseTask(c, requester, openBelow).Some? <==> c.live && requester && c.lifecycle.Review? && !openBelow
    ensures CloseTask(c, requester, openBelow).Some? ==>
      CloseTask(c, requester, openBelow) == Some(Circle(c.live, Closed, c.steps, c.ledger, c.bids))
    ensures ReturnStep(c, requester, s, now).Some? <==> c.live && requester && c.lifecycle.Review? && s in c.steps
    ensures Reopened(c, requester, now).Some? <==> c.live && requester && c.lifecycle.Closed?
  {
    hide LedgerOk, HoldersOk, OneCurrent;
    if c.lifecycle.Closed? {
      LastExists(c.steps);
    }
  }

  lemma {:induction false} LastExists(steps: Steps)
    requires steps.Keys != {}
    ensures exists s :: IsLast(steps, s)
    decreases |steps|
  {
    var x :| x in steps;
    var rest := steps - {x};
    assert rest.Keys == steps.Keys - {x};
    assert forall t :: t in steps ==> t == x || (t in rest && rest[t] == steps[t]);
    if rest.Keys == {} {
      assert IsLast(steps, x);
    } else {
      LastExists(rest);
      var y :| IsLast(rest, y);
      assert IsLast(steps, if steps[x].position >= steps[y].position then x else y);
    }
  }

  /** The row of a step that stands at position `from` or behind it, or before it. */
  function SentBack(st: WorkStep, from: nat): WorkStep {
    if st.position == from then st.(status := Ready, claimedBy := None)
    else if st.position > from then st.(status := Pending, claimedBy := None)
    else st
  }

  /** The row of an execution whose step stands at position `from` or behind it, or before it. */
  function TakenBack(row: Execution, position: nat, from: nat): Execution {
    if !row.status.Succeeded? then row
    else if position == from then row.(status := ExecStatus.Returned)
    else if position > from then row.(status := Superseded)
    else row
  }

  /** What a return leaves: the returned step is ready, everything behind it pending, both without a holder, everything
      before it as it was; the success of the returned step is marked returned and those behind it superseded. */
  lemma {:induction false} ReturnLeaves(c: Circle, requester: bool, s: StepId, now: int)
    requires Sound(c) && ReturnStep(c, requester, s, now).Some?
    ensures var c' := ReturnStep(c, requester, s, now).value;
      && c'.live == c.live && c'.lifecycle.Planned? && c'.bids == c.bids && s in c.steps
      && c'.steps.Keys == c.steps.Keys && c'.ledger.Keys == c.ledger.Keys
      && (forall t :: t in c.steps ==> c'.steps[t] == SentBack(c.steps[t], c.steps[s].position))
      && (forall e :: e in c.ledger ==>
        && c.ledger[e].step in c.steps
        && c'.ledger[e] == TakenBack(c.ledger[e], c.steps[c.ledger[e].step].position, c.steps[s].position))
  {
    hide HoldersOk, NumberingOk, StepsMatch, OneCurrent, LifecycleTells;
  }

  lemma {:induction false} LastStands(steps: Steps, s: StepId)
    requires PositionsOk(steps) && s in steps && steps[s].position == |steps|
    ensures forall t :: IsLast(steps, t) <==> t == s
  {
    PositionsFill(steps);
    assert forall t :: t in steps ==> steps[t].position in Positions(steps);
  }

  lemma {:induction false} RetireMarks(steps: Steps, ledger: Ledger, s: StepId, now: int)
    requires RowsOk(steps, ledger)
    ensures var ledger' := Retire(ledger, s, now);
      && ledger'.Keys == ledger.Keys
      && (forall e :: e in ledger && ledger[e].status.Succeeded? && ledger[e].step == s ==>
        ledger'[e] == ledger[e].(status := ExecStatus.Returned))
      && (forall e :: e in ledger && !(ledger[e].status.Succeeded? && ledger[e].step == s) ==>
        ledger'[e] == ledger[e])
  {
  }

  /** What a reopening leaves: the last step is ready without a holder and its success marked returned; nothing else. */
  lemma {:induction false} ReopeningLeaves(c: Circle, requester: bool, now: int, s: StepId)
    requires Sound(c) && Reopened(c, requester, now).Some?
    requires s in c.steps && c.steps[s].position == |c.steps|
    ensures var c' := Reopened(c, requester, now).value;
      && c'.live == c.live && c'.lifecycle.Planned? && c'.bids == c.bids && c'.ledger.Keys == c.ledger.Keys
      && c'.steps == c.steps[s := c.steps[s].(status := Ready, claimedBy := None)]
      && (forall e :: e in c.ledger && c.ledger[e].status.Succeeded? && c.ledger[e].step == s ==>
        c'.ledger[e] == c.ledger[e].(status := ExecStatus.Returned))
      && (forall e :: e in c.ledger && !(c.ledger[e].status.Succeeded? && c.ledger[e].step == s) ==>
        c'.ledger[e] == c.ledger[e])
  {
    LastStands(c.steps, s);
    RetireMarks(c.steps, c.ledger, s, now);
    hide IsLast, Retire, PositionsOk, HoldersOk, LedgerOk, OneCurrent, LifecycleTells;
  }

  // ----- bidding -----

  /** A bid is accepted exactly on a ready human step of live work that is distributed by exchange, from an actor who
      meets every requirement, for a promise between one minute and a year. It replaces the actor's earlier bid but
      keeps its time, and changes nothing else. */
  lemma {:induction false} BidIsAcceptedExactlyWhen(c: Circle, s: StepId, actor: ActorId, minutes: nat,
                                                    skills: set<nat>, policy: Mode, now: int)
    requires Sound(c)
    ensures BidPut(c, s, actor, minutes, skills, policy, now).Some? <==>
      && c.live && 1 <= minutes <= 365 * 24 * 60 && s in c.steps
      && c.steps[s].kind.Human? && c.steps[s].status.Ready?
      && (c.steps[s].mode.Exchange? || (c.steps[s].mode.Inherit? && policy.Exchange?))
      && forall r :: r in c.steps[s].requirements ==> r in skills
    ensures BidPut(c, s, actor, minutes, skills, policy, now).Some? ==>
      BidPut(c, s, actor, minutes, skills, policy, now) ==
        Some(c.(bids := c.bids[(s, actor) :=
          Bid(minutes, Offered, if (s, actor) in c.bids then c.bids[(s, actor)].submittedAt else now)]))
  {
    hide LedgerOk, PositionsOk, OneCurrent, LifecycleTells;
    if s in c.steps {
      assert HolderOk(c.steps[s], s, c.bids);
    }
  }

  /** A selection is accepted exactly for the requester of a ready human step that is distributed by exchange, with a
      bid on offer. */
  lemma {:induction false} SelectionIsAcceptedExactlyWhen(c: Circle, s: StepId, requester: bool, policy: Mode)
    requires Sound(c)
    ensures BidSelected(c, s, requester, policy).Some? <==>
      && requester && s in c.steps && c.steps[s].kind.Human? && c.steps[s].status.Ready?
      && (c.steps[s].mode.Exchange? || (c.steps[s].mode.Inherit? && policy.Exchange?))
      && exists b :: (s, b) in c.bids && c.bids[(s, b)].status.Offered?
  {
    hide LedgerOk, PositionsOk, OneCurrent, LifecycleTells;
    if s in c.steps {
      Bidding.ExactlyOneWinner(c.bids, s);
      assert HolderOk(c.steps[s], s, c.bids);
      forall b | (s, b) in c.bids && c.bids[(s, b)].status.Offered? ensures b in Bidding.OfferedBy(c.bids, s) {
        assert (s, b).1 == b;
      }
    }
  }

  // ----- the route -----

  /** A new step stands at the end of the route, and is ready exactly if it is the first. */
  lemma {:induction false} NewStepIsLast(c: Circle, id: StepId, kind: StepKind, mode: Mode, requirements: set<nat>)
    requires Sound(c)
    ensures AddedStep(c, id, kind, mode, requirements).Some? <==> c.live && c.lifecycle.Planned? && id !in c.steps
    ensures AddedStep(c, id, kind, mode, requirements).Some? ==>
      AddedStep(c, id, kind, mode, requirements) ==
        Some(c.(steps := c.steps[id :=
          WorkStep(|c.steps| + 1, kind, if |c.steps| == 0 then Ready else Pending, None, None,
                   if kind.Human? then mode else Inherit, requirements)]))
  {
    PositionsFill(c.steps);
    assert |c.steps| == 0 <==> c.steps == map[];
    MaxOfUpTo(|c.steps|);
    hide Sound;
  }

  lemma {:induction false} MaxOfUpTo(n: nat)
    ensures MaxOf(UpTo(n)) == n
  {
    if n > 0 {
      assert n in UpTo(n);
    } else {
      assert UpTo(0) == {};
    }
  }
}
