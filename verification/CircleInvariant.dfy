/** What every act keeps: positions without gaps, one current step, a lifecycle that tells the route's state, and a
    ledger that agrees with both. */
module CircleInvariant {
  import opened Wrappers
  import opened Forest
  import opened Circle

  predicate Placed(steps: Steps, p: int) {
    exists s :: s in steps && steps[s].position == p
  }

  /** Positions are positive, distinct and leave no gap. */
  ghost predicate PositionsOk(steps: Steps) {
    && (forall s :: s in steps ==> steps[s].position >= 1)
    && (forall s, p: int :: s in steps && 1 <= p <= steps[s].position ==> Placed(steps, p))
    && forall s, t :: s in steps && t in steps && steps[s].position == steps[t].position ==> s == t
  }

  predicate Current(st: WorkStep) {
    st.status.Ready? || st.status.Assigned? || st.status.Started? || st.status.Failed?
  }

  ghost predicate OneCurrent(steps: Steps) {
    forall s, t :: s in steps && t in steps && Current(steps[s]) && Current(steps[t]) ==> s == t
  }

  predicate Has(steps: Steps, s: StepId, status: StepStatus) {
    s in steps && steps[s].status == status
  }

  ghost predicate LifecycleTells(lifecycle: Lifecycle, steps: Steps) {
    && (lifecycle.Active? <==> exists s :: Has(steps, s, Started))
    && (lifecycle.Blocked? <==> exists s :: Has(steps, s, Failed))
    && (lifecycle.Review? || lifecycle.Closed? ==>
      steps.Keys != {} && forall s :: s in steps ==> steps[s].status.Completed?)
  }

  /** Who holds a step, and what an assigned step rests on. */
  ghost predicate HolderOk(st: WorkStep, s: StepId, bids: Bids) {
    && (st.status.Pending? || st.status.Ready? ==> st.claimedBy.None?)
    && (st.selectedBid.Some? ==> (s, st.selectedBid.value) in bids)
    && (st.status.Assigned? ==> st.kind.Human? && st.claimedBy.Some? && st.selectedBid == st.claimedBy &&
                                bids[(s, st.selectedBid.value)].status.Won?)
  }

  ghost predicate HoldersOk(steps: Steps, bids: Bids) {
    && (forall s :: s in steps ==> HolderOk(steps[s], s, bids))
    && (forall b :: b in bids ==> b.0 in steps && 1 <= bids[b].promise <= MAX_PROMISE)
  }

  predicate Numbered(ledger: Ledger, s: StepId, k: int) {
    exists e :: e in ledger && ledger[e].step == s && ledger[e].attempt == k
  }

  /** The attempts of each step are positive, distinct and leave no gap. */
  ghost predicate NumberingOk(ledger: Ledger) {
    && (forall e :: e in ledger ==> ledger[e].attempt >= 1)
    && (forall e, s, k: int :: e in ledger && ledger[e].step == s && 1 <= k <= ledger[e].attempt ==>
      Numbered(ledger, s, k))
    && (forall e, f ::
      e in ledger && f in ledger && ledger[e].step == ledger[f].step && ledger[e].attempt == ledger[f].attempt ==>
        e == f)
  }

  ghost predicate RowsOk(steps: Steps, ledger: Ledger) {
    forall e :: e in ledger ==> ledger[e].step in steps && (ledger[e].status.Running? <==> ledger[e].finishedAt.None?)
  }

  /** A step is started exactly while one execution of it runs, started by its holder, and completed exactly while one
      execution of it counts as succeeded. */
  ghost predicate StepMatches(st: WorkStep, s: StepId, ledger: Ledger) {
    && (st.status.Started? <==> exists e :: Runs(ledger, e, s))
    && (st.status.Completed? <==> exists e :: Succeeds(ledger, e, s))
    && (forall e :: Runs(ledger, e, s) ==> st.claimedBy == Some(ledger[e].startedBy))
    && (forall e, f :: Runs(ledger, e, s) && Runs(ledger, f, s) ==> e == f)
    && (forall e, f :: Succeeds(ledger, e, s) && Succeeds(ledger, f, s) ==> e == f)
  }

  ghost predicate StepsMatch(steps: Steps, ledger: Ledger) {
    forall s :: s in steps ==> StepMatches(steps[s], s, ledger)
  }

  ghost predicate RouteOk(lifecycle: Lifecycle, steps: Steps, bids: Bids) {
    PositionsOk(steps) && OneCurrent(steps) && LifecycleTells(lifecycle, steps) && HoldersOk(steps, bids)
  }

  ghost predicate LedgerOk(steps: Steps, ledger: Ledger) {
    NumberingOk(ledger) && RowsOk(steps, ledger) && StepsMatch(steps, ledger)
  }

  ghost predicate Sound(c: Circle) {
    RouteOk(c.lifecycle, c.steps, c.bids) && LedgerOk(c.steps, c.ledger)
  }

  // ----- positions -----

  lemma {:induction false} SamePositions(steps: Steps, steps': Steps)
    requires PositionsOk(steps) && steps'.Keys == steps.Keys
    requires forall s :: s in steps ==> steps'[s].position == steps[s].position
    ensures PositionsOk(steps')
  {
    assert forall s :: s in steps' <==> s in steps;
    forall s, p: int | s in steps' && 1 <= p <= steps'[s].position ensures Placed(steps', p) {
      assert Placed(steps, p);
      var t :| t in steps && steps[t].position == p;
      assert t in steps' && steps'[t].position == p;
    }
  }

  lemma {:induction false} AddKeepsPositions(steps: Steps, id: StepId, row: WorkStep)
    requires PositionsOk(steps) && id !in steps && row.position == MaxOf(Positions(steps)) + 1
    ensures PositionsOk(steps[id := row])
  {
    var steps' := steps[id := row];
    assert forall s :: s in steps ==> steps[s].position in Positions(steps) && steps'[s] == steps[s];
    forall s, p: int | s in steps' && 1 <= p <= steps'[s].position ensures Placed(steps', p) {
      if p == row.position {
        assert id in steps' && steps'[id].position == p;
      } else {
        var last :| last in steps && p <= steps[last].position;
        assert Placed(steps, p);
        var t :| t in steps && steps[t].position == p;
        assert t in steps' && steps'[t].position == p;
      }
    }
  }

  lemma {:induction false} SwapKeepsPositions(steps: Steps, id: StepId, other: StepId, a: WorkStep, b: WorkStep)
    requires PositionsOk(steps) && id in steps && other in steps && id != other
    requires a.position == steps[other].position && b.position == steps[id].position
    ensures PositionsOk(steps[id := a][other := b])
  {
    var steps' := steps[id := a][other := b];
    forall s, p: int | s in steps' && 1 <= p <= steps'[s].position ensures Placed(steps', p) {
      var s0 := if s == id then other else if s == other then id else s;
      assert s0 in steps && steps[s0].position == steps'[s].position;
      assert Placed(steps, p);
      var t :| t in steps && steps[t].position == p;
      var t' := if t == id then other else if t == other then id else t;
      assert t' in steps' && steps'[t'].position == p;
    }
  }

  lemma {:induction false} DeleteKeepsPositions(steps: Steps, id: StepId, steps': Steps)
    requires PositionsOk(steps) && id in steps && steps'.Keys == steps.Keys - {id}
    requires forall s :: s in steps' ==>
      steps'[s].position == if steps[s].position > steps[id].position then steps[s].position - 1 else steps[s].position
    ensures PositionsOk(steps')
  {
    assert forall s :: s in steps' <==> s in steps && s != id;
    forall s, p: int | s in steps' && 1 <= p <= steps'[s].position ensures Placed(steps', p) {
      var wanted := if p < steps[id].position then p else p + 1;
      assert Placed(steps, wanted);
      var t :| t in steps && steps[t].position == wanted;
      assert t in steps' && steps'[t].position == p;
    }
  }

  // ----- the ledger -----

  lemma {:induction false} StillNumbered(ledger: Ledger, exec: ExecId, row: Execution, last: ExecId, k: int)
    requires NumberingOk(ledger) && exec !in ledger && last in ledger && 1 <= k <= ledger[last].attempt
    ensures Numbered(ledger[exec := row], ledger[last].step, k)
  {
    var s := ledger[last].step;
    assert Numbered(ledger, s, k);
    var f :| f in ledger && ledger[f].step == s && ledger[f].attempt == k;
    assert f in ledger[exec := row] && ledger[exec := row][f] == ledger[f];
  }

  lemma {:induction false} NewAttemptKeepsNumbering(ledger: Ledger, exec: ExecId, row: Execution)
    requires NumberingOk(ledger) && exec !in ledger && row.attempt == MaxOf(Attempts(ledger, row.step)) + 1
    ensures NumberingOk(ledger[exec := row])
  {
    var ledger' := ledger[exec := row];
    assert forall e :: e in ledger ==> ledger[e].attempt in Attempts(ledger, ledger[e].step) && ledger'[e] == ledger[e];
    forall e, s, k: int | e in ledger' && ledger'[e].step == s && 1 <= k <= ledger'[e].attempt
      ensures Numbered(ledger', s, k)
    {
      if s == row.step && k == row.attempt {
        assert exec in ledger' && ledger'[exec].step == s && ledger'[exec].attempt == k;
      } else {
        var last :| last in ledger && ledger[last].step == s && k <= ledger[last].attempt;
        StillNumbered(ledger, exec, row, last, k);
      }
    }
  }

  lemma {:induction false} SameNumbering(ledger: Ledger, ledger': Ledger)
    requires NumberingOk(ledger) && ledger'.Keys == ledger.Keys
    requires forall e :: e in ledger ==> ledger'[e].step == ledger[e].step && ledger'[e].attempt == ledger[e].attempt
    ensures NumberingOk(ledger')
  {
    assert forall e :: e in ledger' <==> e in ledger;
    forall e, s, k: int | e in ledger' && ledger'[e].step == s && 1 <= k <= ledger'[e].attempt
      ensures Numbered(ledger', s, k)
    {
      assert Numbered(ledger, s, k);
      var f :| f in ledger && ledger[f].step == s && ledger[f].attempt == k;
      assert f in ledger' && ledger'[f].step == s && ledger'[f].attempt == k;
    }
  }

  lemma {:induction false} DropKeepsNumbering(ledger: Ledger, s: StepId, ledger': Ledger)
    requires NumberingOk(ledger) && ledger' == LedgerWithout(ledger, s)
    ensures NumberingOk(ledger')
  {
    forall e, t, k: int | e in ledger' && ledger'[e].step == t && 1 <= k <= ledger'[e].attempt
      ensures Numbered(ledger', t, k)
    {
      assert Numbered(ledger, t, k);
      var f :| f in ledger && ledger[f].step == t && ledger[f].attempt == k;
      assert f in ledger' && ledger'[f].step == t && ledger'[f].attempt == k;
    }
  }

  /** The executions of a step mean the same in both ledgers. */
  ghost predicate SameFor(ledger: Ledger, ledger': Ledger, s: StepId) {
    && (forall e :: Runs(ledger', e, s) <==> Runs(ledger, e, s))
    && (forall e :: Succeeds(ledger', e, s) <==> Succeeds(ledger, e, s))
    && (forall e :: Runs(ledger, e, s) ==> ledger'[e].startedBy == ledger[e].startedBy)
  }

  lemma {:induction false} UntouchedStepMatches(st: WorkStep, st': WorkStep, s: StepId, ledger: Ledger, ledger': Ledger)
    requires StepMatches(st, s, ledger) && SameFor(ledger, ledger', s)
    requires st'.status.Started? <==> st.status.Started?
    requires st'.status.Completed? <==> st.status.Completed?
    requires st.status.Started? ==> st'.claimedBy == st.claimedBy
    ensures StepMatches(st', s, ledger')
  {
  }

  // ----- one step changes -----

  /** Rewriting the only step that can be current, without moving it. */
  lemma {:induction false} OneStepKeepsRoute(lifecycle: Lifecycle, steps: Steps, bids: Bids, s: StepId, row: WorkStep)
    requires PositionsOk(steps) && HoldersOk(steps, bids) && s in steps
    requires row.position == steps[s].position && HolderOk(row, s, bids)
    requires forall t :: t in steps && t != s ==> !Current(steps[t])
    requires (lifecycle.Active? <==> row.status.Started?) && (lifecycle.Blocked? <==> row.status.Failed?)
    requires lifecycle.Review? || lifecycle.Closed? ==>
      row.status.Completed? && forall t :: t in steps && t != s ==> steps[t].status.Completed?
    ensures RouteOk(lifecycle, steps[s := row], bids)
  {
    var steps' := steps[s := row];
    SamePositions(steps, steps');
    assert Has(steps', s, row.status);
  }

  lemma {:induction false} OneStepKeepsLedger(steps: Steps, s: StepId, row: WorkStep, ledger: Ledger, ledger': Ledger)
    requires StepsMatch(steps, ledger) && s in steps && StepMatches(row, s, ledger')
    requires forall t :: t in steps && t != s ==> SameFor(ledger, ledger', t)
    ensures StepsMatch(steps[s := row], ledger')
  {
    forall t | t in steps && t != s ensures StepMatches(steps[t], t, ledger') {
      UntouchedStepMatches(steps[t], steps[t], t, ledger, ledger');
    }
  }

  /** Only one step is current, so no other is. */
  lemma {:induction false} OthersNotCurrent(steps: Steps, s: StepId)
    requires OneCurrent(steps) && s in steps && Current(steps[s])
    ensures forall t :: t in steps && t != s ==> !Current(steps[t])
  {
  }

  lemma {:induction false} NewRowStarts(st: WorkStep, s: StepId, ledger: Ledger, exec: ExecId, row: Execution,
                                        ledger': Ledger)
    requires StepMatches(st, s, ledger) && (st.status.Ready? || st.status.Assigned?)
    requires exec !in ledger && row.step == s && row.status.Running? && ledger' == ledger[exec := row]
    ensures StepMatches(st.(status := Started, claimedBy := Some(row.startedBy)), s, ledger')
    ensures forall t :: t != s ==> SameFor(ledger, ledger', t)
  {
    assert Runs(ledger', exec, s);
    forall e | e != exec ensures Runs(ledger', e, s) <==> Runs(ledger, e, s) {}
    forall e ensures Succeeds(ledger', e, s) <==> Succeeds(ledger, e, s) {}
  }

  /** The running execution of a step comes to an end: the step is completed if it succeeded and failed otherwise. */
  lemma {:induction false} RowSettles(st: WorkStep, s: StepId, ledger: Ledger, exec: ExecId, row: Execution,
                                      status: StepStatus, ledger': Ledger)
    requires StepMatches(st, s, ledger) && Runs(ledger, exec, s)
    requires row.step == s && !row.status.Running? && ledger' == ledger[exec := row]
    requires if row.status.Succeeded? then status.Completed? else status.Failed?
    ensures StepMatches(st.(status := status), s, ledger')
    ensures forall t :: t != s ==> SameFor(ledger, ledger', t)
  {
    forall e ensures !Runs(ledger', e, s) {
      assert e != exec && Runs(ledger', e, s) ==> Runs(ledger, e, s);
    }
    forall e | e != exec ensures !Succeeds(ledger', e, s) {
      assert Succeeds(ledger', e, s) ==> Succeeds(ledger, e, s);
    }
    assert row.status.Succeeded? ==> Succeeds(ledger', exec, s);
  }

  lemma {:induction false} StartKeepsRoute(steps: Steps, bids: Bids, s: StepId, actor: ActorId)
    requires RouteOk(Planned, steps, bids) && s in steps && (steps[s].status.Ready? || steps[s].status.Assigned?)
    ensures RouteOk(Active, steps[s := steps[s].(status := Started, claimedBy := Some(actor))], bids)
  {
    OthersNotCurrent(steps, s);
    hide PositionsOk, LifecycleTells;
    OneStepKeepsRoute(Active, steps, bids, s, steps[s].(status := Started, claimedBy := Some(actor)));
  }

  lemma {:induction false} StartKeepsLedger(steps: Steps, ledger: Ledger, s: StepId, exec: ExecId, row: Execution)
    requires LedgerOk(steps, ledger) && s in steps && (steps[s].status.Ready? || steps[s].status.Assigned?)
    requires exec !in ledger && row.step == s && row.status.Running? && row.finishedAt.None?
    requires row.attempt == MaxOf(Attempts(ledger, s)) + 1
    ensures LedgerOk(steps[s := steps[s].(status := Started, claimedBy := Some(row.startedBy))], ledger[exec := row])
  {
    hide NumberingOk, SameFor, StepMatches;
    NewAttemptKeepsNumbering(ledger, exec, row);
    NewRowStarts(steps[s], s, ledger, exec, row, ledger[exec := row]);
    var started := steps[s].(status := Started, claimedBy := Some(row.startedBy));
    OneStepKeepsLedger(steps, s, started, ledger, ledger[exec := row]);
  }

  lemma {:induction false} StartKeepsSound(c: Circle, s: StepId, actor: ActorId, exec: ExecId, bid: Option<ActorId>,
                                           promise: Option<nat>, now: int)
    requires Sound(c) && c.lifecycle.Planned? && exec !in c.ledger
    requires s in c.steps && (c.steps[s].status.Ready? || c.steps[s].status.Assigned?)
    ensures Sound(StartStep(c, s, actor, exec, bid, promise, now))
  {
    var c' := StartStep(c, s, actor, exec, bid, promise, now);
    StartKeepsRoute(c.steps, c.bids, s, actor);
    StartKeepsLedger(c.steps, c.ledger, s, exec, c'.ledger[exec]);
    hide RouteOk, LedgerOk;
  }

  lemma {:induction false} StillRows(steps: Steps, ledger: Ledger, exec: ExecId, row: Execution, status: StepStatus)
    requires RowsOk(steps, ledger) && exec in ledger && row.step == ledger[exec].step
    requires !row.status.Running? && row.finishedAt.Some?
    ensures row.step in steps
    ensures RowsOk(steps[row.step := steps[row.step].(status := status)], ledger[exec := row])
  {
  }

  lemma {:induction false} SettleKeepsLedger(steps: Steps, ledger: Ledger, exec: ExecId, row: Execution,
                                             status: StepStatus)
    requires LedgerOk(steps, ledger) && exec in ledger && ledger[exec].status.Running?
    requires row.step == ledger[exec].step && row.attempt == ledger[exec].attempt
    requires !row.status.Running? && row.finishedAt.Some?
    requires if row.status.Succeeded? then status.Completed? else status.Failed?
    ensures row.step in steps && LedgerOk(steps[row.step := steps[row.step].(status := status)], ledger[exec := row])
  {
    var s := row.step;
    SameNumbering(ledger, ledger[exec := row]);
    StillRows(steps, ledger, exec, row, status);
    hide NumberingOk, SameFor, StepMatches, RowsOk;
    RowSettles(steps[s], s, ledger, exec, row, status, ledger[exec := row]);
    OneStepKeepsLedger(steps, s, steps[s].(status := status), ledger, ledger[exec := row]);
  }

  /** Making the first pending step ready, or going to review when none is left. */
  lemma {:induction false} PromoteKeepsRoute(steps: Steps, bids: Bids, next: Option<StepId>)
    requires PositionsOk(steps) && HoldersOk(steps, bids) && steps.Keys != {}
    requires forall t :: t in steps ==> !Current(steps[t])
    requires if next.Some? then Has(steps, next.value, Pending)
             else forall t :: t in steps ==> !steps[t].status.Pending?
    ensures if next.Some? then RouteOk(Planned, steps[next.value := steps[next.value].(status := Ready)], bids)
            else RouteOk(Review, steps, bids)
  {
    if next.Some? {
      OneStepKeepsRoute(Planned, steps, bids, next.value, steps[next.value].(status := Ready));
    }
  }

  lemma {:induction false} PromoteKeepsLedger(steps: Steps, ledger: Ledger, n: StepId)
    requires LedgerOk(steps, ledger) && Has(steps, n, Pending)
    ensures LedgerOk(steps[n := steps[n].(status := Ready)], ledger)
  {
    UntouchedStepMatches(steps[n], steps[n].(status := Ready), n, ledger, ledger);
    OneStepKeepsLedger(steps, n, steps[n].(status := Ready), ledger, ledger);
  }

  lemma {:induction false} CompletedKeepsHolders(steps: Steps, bids: Bids, s: StepId)
    requires HoldersOk(steps, bids) && s in steps && !steps[s].status.Assigned?
    ensures HoldersOk(steps[s := steps[s].(status := Completed)], bids)
  {
  }

  lemma {:induction false} FinishKeepsRoute(c: Circle, s: StepId, ledger: Ledger)
    requires PositionsOk(c.steps) && OneCurrent(c.steps) && HoldersOk(c.steps, c.bids) && Has(c.steps, s, Started)
    ensures var c' := FinishStep(c, s, ledger); RouteOk(c'.lifecycle, c'.steps, c'.bids)
  {
    var steps := c.steps[s := c.steps[s].(status := Completed)];
    SamePositions(c.steps, steps);
    CompletedKeepsHolders(c.steps, c.bids, s);
    var next := First(steps, With(steps, Pending));
    assert forall t :: t in steps && steps[t].status.Pending? ==> t in With(steps, Pending) * steps.Keys;
    PromoteKeepsRoute(steps, c.bids, next);
  }

  lemma {:induction false} FinishKeepsLedger(c: Circle, s: StepId, ledger: Ledger)
    requires s in c.steps && LedgerOk(c.steps[s := c.steps[s].(status := Completed)], ledger)
    ensures var c' := FinishStep(c, s, ledger); LedgerOk(c'.steps, c'.ledger)
  {
    var steps := c.steps[s := c.steps[s].(status := Completed)];
    var next := First(steps, With(steps, Pending));
    if next.Some? {
      PromoteKeepsLedger(steps, ledger, next.value);
    }
  }

  lemma {:induction false} RunningStepIsStarted(steps: Steps, ledger: Ledger, exec: ExecId)
    requires RowsOk(steps, ledger) && StepsMatch(steps, ledger) && exec in ledger && ledger[exec].status.Running?
    ensures Has(steps, ledger[exec].step, Started)
  {
    assert StepMatches(steps[ledger[exec].step], ledger[exec].step, ledger) && Runs(ledger, exec, ledger[exec].step);
  }

  lemma {:induction false} FinishKeepsSound(c: Circle, exec: ExecId, row: Execution)
    requires Sound(c) && exec in c.ledger && c.ledger[exec].status.Running?
    requires row.step == c.ledger[exec].step && row.attempt == c.ledger[exec].attempt
    requires row.status.Succeeded? && row.finishedAt.Some?
    ensures Has(c.steps, row.step, Started) && Sound(FinishStep(c, row.step, c.ledger[exec := row]))
  {
    RunningStepIsStarted(c.steps, c.ledger, exec);
    FinishKeepsRoute(c, row.step, c.ledger[exec := row]);
    SettleKeepsLedger(c.steps, c.ledger, exec, row, Completed);
    FinishKeepsLedger(c, row.step, c.ledger[exec := row]);
  }

  lemma {:induction false} FailKeepsSound(c: Circle, exec: ExecId, row: Execution)
    requires Sound(c) && exec in c.ledger && c.ledger[exec].status.Running?
    requires row.step == c.ledger[exec].step && row.attempt == c.ledger[exec].attempt
    requires !row.status.Running? && !row.status.Succeeded? && row.finishedAt.Some?
    ensures row.step in c.steps && c.steps[row.step].status.Started?
    ensures Sound(c.(lifecycle := Blocked, steps := c.steps[row.step := c.steps[row.step].(status := Failed)],
                     ledger := c.ledger[exec := row]))
  {
    var s := row.step;
    RunningStepIsStarted(c.steps, c.ledger, exec);
    OthersNotCurrent(c.steps, s);
    OneStepKeepsRoute(Blocked, c.steps, c.bids, s, c.steps[s].(status := Failed));
    SettleKeepsLedger(c.steps, c.ledger, exec, row, Failed);
  }
}
