/** What the joint invariant means for a route: its numbering, its shape, its progress, and how it can get stuck. */
module Route {
  import opened Wrappers
  import opened Forest
  import opened Circle
  import opened CircleInvariant
  import opened CircleActs
  import opened Renumbering

  // ----- numbering -----

  function UpTo(n: nat): (s: set<nat>)
    ensures forall i :: i in s <==> 1 <= i <= n
    ensures |s| == n
  {
    if n == 0 then {} else UpTo(n - 1) + {n}
  }

  lemma {:induction false} DistinctPositionsCount(steps: Steps)
    requires forall s, t :: s in steps && t in steps && steps[s].position == steps[t].position ==> s == t
    ensures |Positions(steps)| == |steps|
    decreases |steps|
  {
    if steps.Keys == {} {
      assert Positions(steps) == {};
    } else {
      var s :| s in steps;
      var rest := steps - {s};
      assert rest.Keys == steps.Keys - {s};
      DistinctPositionsCount(rest);
      forall p ensures p in Positions(steps) <==> p in Positions(rest) || p == steps[s].position {
        if p in Positions(steps) {
          var t :| t in steps && steps[t].position == p;
          assert t == s || t in rest;
        }
      }
      assert Positions(steps) == Positions(rest) + {steps[s].position};
    }
  }

  lemma {:induction false} PositionsFill(steps: Steps)
    requires PositionsOk(steps)
    ensures Positions(steps) == UpTo(|steps|)
  {
    var n := MaxOf(Positions(steps));
    forall p ensures p in Positions(steps) <==> p in UpTo(n) {
      if p in UpTo(n) {
        var last :| last in steps && steps[last].position == n;
        assert Placed(steps, p);
      }
    }
    assert Positions(steps) == UpTo(n);
    DistinctPositionsCount(steps);
  }

  /** The positions of a route of n steps are exactly 1..n, one step at each. */
  lemma {:induction false} PositionsArePermutation(acts: seq<Act>)
    ensures var steps := Played(EMPTY, acts).steps;
      Positions(steps) == UpTo(|steps|) && forall s, t ::
        s in steps && t in steps && steps[s].position == steps[t].position ==> s == t
  {
    PlayKeepsSound(acts);
    PositionsFill(Played(EMPTY, acts).steps);
  }

  /** A step has no neighbour on one side exactly at that end of the route. */
  lemma {:induction false} EndHasNoNeighbour(steps: Steps, id: StepId, later: bool)
    requires PositionsOk(steps) && id in steps
    ensures (exists other :: Adjacent(steps, id, other, later)) <==> steps[id].position != if later then |steps| else 1
  {
    PositionsFill(steps);
    assert steps[id].position in Positions(steps);
    var wanted := if later then steps[id].position + 1 else steps[id].position - 1;
    if other :| other in steps && steps[other].position == wanted {
      assert steps[other].position in Positions(steps);
      assert Adjacent(steps, id, other, later);
    } else {
      assert wanted !in UpTo(|steps|);
    }
  }

  /** Under the constraint as it is declared, a move is refused exactly off the end of the route it points to, in
      whatever order its rows are visited; at the end it changes nothing. */
  lemma {:induction false} MoveIsRefusedExactlyOffTheEnd(c: Circle, id: StepId, later: bool, order: seq<StepId>)
    requires PositionsOk(c.steps) && c.lifecycle.Planned? && id in c.steps
    ensures var moved := MovedStep(c, id, later, Immediate(order));
      if c.steps[id].position == if later then |c.steps| else 1 then moved == Some(c) else moved == None
  {
    EndHasNoNeighbour(c.steps, id, later);
    NoMoveCommits(c, id, later, order);
  }

  /** What a move is meant to do, and does if positions are compared only after it: exchange exactly two neighbours. */
  lemma {:induction false} MoveSwapsNeighbours(c: Circle, id: StepId, other: StepId, later: bool)
    requires PositionsOk(c.steps) && c.lifecycle.Planned? && id in c.steps && Adjacent(c.steps, id, other, later)
    ensures MovedStep(c, id, later, Deferred) == Some(c.(steps := Swapped(c.steps, id, other))) && id != other
  {
    var moved := MoveIs(c, id, later, Deferred);
    assert forall s :: s in c.steps && c.steps[s].position == c.steps[other].position ==> s == other;
  }

  lemma {:induction false} DeferredMoveStaysExactlyAtTheEnd(c: Circle, id: StepId, later: bool)
    requires PositionsOk(c.steps) && c.lifecycle.Planned? && id in c.steps
    ensures MovedStep(c, id, later, Deferred) == Some(c) <==> c.steps[id].position == if later then |c.steps| else 1
  {
    EndHasNoNeighbour(c.steps, id, later);
    if other :| Adjacent(c.steps, id, other, later) {
      MoveSwapsNeighbours(c, id, other, later);
      assert Swapped(c.steps, id, other)[id] != c.steps[id];
    }
  }

  lemma {:induction false} SwappedBack(steps: Steps, id: StepId, other: StepId)
    requires id in steps && other in steps && id != other
    ensures Swapped(Swapped(steps, id, other), id, other) == steps
  {
  }

  /** Under the deferred reading, moving a step and moving it back restores the route. */
  lemma {:induction false} MoveAndBack(c: Circle, id: StepId, other: StepId, later: bool)
    requires PositionsOk(c.steps) && c.lifecycle.Planned? && id in c.steps && Adjacent(c.steps, id, other, later)
    ensures MovedStep(MovedStep(c, id, later, Deferred).value, id, !later, Deferred) == Some(c)
  {
    MoveSwapsNeighbours(c, id, other, later);
    SwapIsQuiet(c.steps, id, other, later);
    MoveSwapsNeighbours(c.(steps := Swapped(c.steps, id, other)), id, other, !later);
    SwappedBack(c.steps, id, other);
  }

  lemma {:induction false} AttemptsFill(ledger: Ledger, s: StepId)
    requires NumberingOk(ledger)
    ensures Attempts(ledger, s) == UpTo(MaxOf(Attempts(ledger, s)))
  {
    var k := MaxOf(Attempts(ledger, s));
    forall i ensures i in Attempts(ledger, s) <==> i in UpTo(k) {
      if i in UpTo(k) {
        var last :| last in ledger && ledger[last].step == s && ledger[last].attempt == k;
        assert Numbered(ledger, s, i);
      }
    }
  }

  /** The attempts of a step are numbered 1..k, each number once. */
  lemma {:induction false} AttemptsAreOneToK(acts: seq<Act>, s: StepId)
    ensures var ledger := Played(EMPTY, acts).ledger;
      && Attempts(ledger, s) == UpTo(MaxOf(Attempts(ledger, s)))
      && forall e, f :: e in ledger && f in ledger && ledger[e].step == s == ledger[f].step ==>
        (ledger[e].attempt == ledger[f].attempt ==> e == f)
  {
    PlayKeepsSound(acts);
    hide Played, RouteOk, RowsOk, StepsMatch, Attempts;
    AttemptsFill(Played(EMPTY, acts).ledger, s);
  }

  /** Exactly active work has a running execution. It is the only one, and runs for the holder of a started step. */
  ghost predicate OneRunsWhileActive(c: Circle) {
    && (c.lifecycle.Active? <==> exists e :: e in c.ledger && c.ledger[e].status.Running?)
    && (forall e, f :: e in c.ledger && f in c.ledger && c.ledger[e].status.Running? && c.ledger[f].status.Running? ==>
      e == f)
    && forall e :: e in c.ledger && c.ledger[e].status.Running? ==>
      Has(c.steps, c.ledger[e].step, Started) && c.steps[c.ledger[e].step].claimedBy == Some(c.ledger[e].startedBy)
  }

  lemma {:induction false} SoundRunsOne(c: Circle)
    requires OneCurrent(c.steps) && LifecycleTells(c.lifecycle, c.steps) && RowsOk(c.steps, c.ledger)
    requires StepsMatch(c.steps, c.ledger)
    ensures OneRunsWhileActive(c)
  {
    forall e | e in c.ledger && c.ledger[e].status.Running?
      ensures Has(c.steps, c.ledger[e].step, Started) && Runs(c.ledger, e, c.ledger[e].step)
    {
      RunningStepIsStarted(c.steps, c.ledger, e);
    }
    if s :| Has(c.steps, s, Started) {
      assert StepMatches(c.steps[s], s, c.ledger);
    }
    forall e, f | e in c.ledger && c.ledger[e].status.Running? && f in c.ledger && c.ledger[f].status.Running?
      ensures e == f
    {
      assert c.ledger[e].step == c.ledger[f].step;
      assert StepMatches(c.steps[c.ledger[e].step], c.ledger[e].step, c.ledger);
    }
  }

  /** The lifecycle in the reader's terms: active means one started step whose holder runs the node's only running
      execution; blocked means a failed step; review and closed mean a nonempty route with every step done. */
  lemma {:induction false} LifecycleReadsTheRoute(acts: seq<Act>)
    ensures var c := Played(EMPTY, acts);
      && (forall s, t :: s in c.steps && t in c.steps && Current(c.steps[s]) && Current(c.steps[t]) ==> s == t)
      && OneRunsWhileActive(c)
      && (c.lifecycle.Blocked? <==> exists s :: Has(c.steps, s, Failed))
      && (c.lifecycle.Review? || c.lifecycle.Closed? ==>
        c.steps.Keys != {} && forall s :: s in c.steps ==> c.steps[s].status.Completed?)
  {
    PlayKeepsSound(acts);
    hide Played, PositionsOk, HoldersOk, NumberingOk, StepsMatch, RowsOk, OneRunsWhileActive;
    SoundRunsOne(Played(EMPTY, acts));
  }

  // ----- progress -----

  function Unfinished(steps: Steps): set<StepId> {
    set s | s in steps && !steps[s].status.Completed?
  }

  lemma {:induction false} FinishAdvances(c: Circle, s: StepId, ledger: Ledger)
    requires Has(c.steps, s, Started) && OneCurrent(c.steps)
    ensures var c' := FinishStep(c, s, ledger);
      && Unfinished(c'.steps) == Unfinished(c.steps) - {s}
      && (c'.lifecycle.Review? <==> Unfinished(c'.steps) == {})
      && (c'.lifecycle.Planned? <==> Unfinished(c'.steps) != {})
  {
    var c' := FinishStep(c, s, ledger);
    var steps := c.steps[s := c.steps[s].(status := Completed)];
    var next := First(steps, With(steps, Pending));
    assert forall t :: t in steps && steps[t].status.Pending? ==> t in With(steps, Pending) * steps.Keys;
    if next.Some? {
      assert next.value in Unfinished(c'.steps);
    }
  }

  ghost predicate Advances(c: Circle, c': Circle) {
    && |Unfinished(c'.steps)| == |Unfinished(c.steps)| - 1
    && (c'.lifecycle.Review? <==> |Unfinished(c'.steps)| == 0)
    && (c'.lifecycle.Planned? <==> |Unfinished(c'.steps)| > 0)
  }

  lemma {:induction false} FinishStepAdvances(c: Circle, s: StepId, ledger: Ledger)
    requires Has(c.steps, s, Started) && OneCurrent(c.steps)
    ensures Advances(c, FinishStep(c, s, ledger))
  {
    FinishAdvances(c, s, ledger);
    assert s in Unfinished(c.steps);
  }

  /** A submission or a successful completion finishes one step; review is entered exactly when it was the last. */
  lemma {:induction false} FinishingMakesProgress(c: Circle, a: Act)
    requires Sound(c) && Attempt(c, a).Some? && (a.Submit? || (a.Complete? && a.result.Succeeded?))
    ensures Advances(c, Attempt(c, a).value)
  {
    if a.Submit? {
      var s := First(c.steps, HeldBy(c.steps, a.actor)).value;
      FinishStepAdvances(c, s, Settle(c.ledger, s, Succeeded, a.now));
    } else {
      RunningStepIsStarted(c.steps, c.ledger, a.exec);
      FinishStepAdvances(c, c.ledger[a.exec].step, Attempt(c, a).value.ledger);
    }
  }

  // ----- shape -----

  /** Completed steps come first, then the current one, then pending ones. */
  function Phase(st: WorkStep): nat {
    if st.status.Completed? then 0 else if st.status.Pending? then 2 else 1
  }

  ghost predicate Ordered(steps: Steps) {
    forall s, t :: s in steps && t in steps && steps[s].position < steps[t].position ==>
      Phase(steps[s]) <= Phase(steps[t])
  }

  ghost predicate HasCurrent(steps: Steps) {
    exists s :: s in steps && Current(steps[s])
  }

  /** The route is ordered, and planned work that has steps has one to start. */
  ghost predicate InShape(c: Circle) {
    Ordered(c.steps) && (c.lifecycle.Planned? && c.steps.Keys != {} ==> HasCurrent(c.steps))
  }

  lemma {:induction false} OneRowKeepsShape(c: Circle, c': Circle, s: StepId, row: WorkStep)
    requires InShape(c) && s in c.steps && c'.steps == c.steps[s := row]
    requires row.position == c.steps[s].position && Phase(row) == Phase(c.steps[s])
    requires c'.lifecycle.Planned? ==> c.lifecycle.Planned? || Current(row)
    ensures InShape(c')
  {
    if HasCurrent(c.steps) {
      var t :| t in c.steps && Current(c.steps[t]);
      assert t in c'.steps && Current(c'.steps[t]);
    }
    if Current(row) {
      assert s in c'.steps && Current(c'.steps[s]);
    }
  }

  /** Completing the only current step leaves completed steps, then pending ones. */
  lemma {:induction false} CompletionKeepsOrder(steps: Steps, s: StepId)
    requires Ordered(steps) && OneCurrent(steps) && Has(steps, s, Started)
    ensures var steps' := steps[s := steps[s].(status := Completed)];
      Ordered(steps') && forall t :: t in steps' ==> !Current(steps'[t])
  {
    OthersNotCurrent(steps, s);
  }

  /** The pending step that comes first may become current. */
  lemma {:induction false} PromotionKeepsOrder(steps: Steps, n: StepId)
    requires Ordered(steps) && (forall t :: t in steps ==> !Current(steps[t])) &&
      IsFirst(steps, With(steps, Pending), n)
    ensures Ordered(steps[n := steps[n].(status := Ready)])
  {
    forall t | t in steps && steps[t].status.Pending? ensures steps[n].position <= steps[t].position {
      assert t in With(steps, Pending);
    }
  }

  lemma {:induction false} FinishKeepsShape(c: Circle, s: StepId, ledger: Ledger)
    requires Ordered(c.steps) && OneCurrent(c.steps) && Has(c.steps, s, Started)
    ensures InShape(FinishStep(c, s, ledger))
  {
    var c' := FinishStep(c, s, ledger);
    var steps := c.steps[s := c.steps[s].(status := Completed)];
    var next := First(steps, With(steps, Pending));
    CompletionKeepsOrder(c.steps, s);
    if next.Some? {
      PromotionKeepsOrder(steps, next.value);
      assert next.value in c'.steps && Current(c'.steps[next.value]);
    }
  }

  lemma {:induction false} RewindKeepsShape(c: Circle, requester: bool, s: StepId, now: int)
    requires LifecycleTells(c.lifecycle, c.steps) && ReturnStep(c, requester, s, now).Some?
    ensures InShape(ReturnStep(c, requester, s, now).value)
  {
    var c' := ReturnStep(c, requester, s, now).value;
    assert s in c'.steps && Current(c'.steps[s]);
  }

  lemma {:induction false} ReopenKeepsShape(c: Circle, requester: bool, now: int)
    requires LifecycleTells(c.lifecycle, c.steps) && Reopened(c, requester, now).Some?
    ensures InShape(Reopened(c, requester, now).value)
  {
    var c' := Reopened(c, requester, now).value;
    var s :| IsLast(c.steps, s) && c'.steps == c.steps[s := c.steps[s].(status := Ready, claimedBy := None)];
    assert s in c'.steps && Current(c'.steps[s]);
  }

  lemma {:induction false} NewLastKeepsOrder(steps: Steps, id: StepId, row: WorkStep)
    requires Ordered(steps) && id !in steps && row.position == MaxOf(Positions(steps)) + 1
    requires steps.Keys != {} ==> row.status.Pending?
    ensures Ordered(steps[id := row])
  {
    assert forall s :: s in steps ==> steps[s].position in Positions(steps);
  }

  lemma {:induction false} AddKeepsShape(c: Circle, id: StepId, kind: StepKind, mode: Mode, requirements: set<nat>)
    requires InShape(c) && AddedStep(c, id, kind, mode, requirements).Some?
    ensures InShape(AddedStep(c, id, kind, mode, requirements).value)
  {
    var c' := AddedStep(c, id, kind, mode, requirements).value;
    NewLastKeepsOrder(c.steps, id, c'.steps[id]);
    if c.steps.Keys == {} {
      assert id in c'.steps && Current(c'.steps[id]);
    } else {
      var s :| s in c.steps && Current(c.steps[s]);
      assert s in c'.steps && Current(c'.steps[s]);
    }
  }

  lemma {:induction false} SelectKeepsShape(c: Circle, s: StepId, requester: bool, policy: Mode)
    requires InShape(c) && BidSelected(c, s, requester, policy).Some?
    ensures InShape(BidSelected(c, s, requester, policy).value)
  {
    var c' := BidSelected(c, s, requester, policy).value;
    OneRowKeepsShape(c, c', s, c'.steps[s]);
  }

  lemma {:induction false} StartKeepsShape(c: Circle, s: StepId, actor: ActorId, exec: ExecId, bid: Option<ActorId>,
                                           promise: Option<nat>, now: int)
    requires InShape(c) && s in c.steps && (c.steps[s].status.Ready? || c.steps[s].status.Assigned?)
    ensures InShape(StartStep(c, s, actor, exec, bid, promise, now))
  {
    var c' := StartStep(c, s, actor, exec, bid, promise, now);
    OneRowKeepsShape(c, c', s, c'.steps[s]);
  }

  lemma {:induction false} StartingKeepsShape(c: Circle, a: Act)
    requires InShape(c) && Attempt(c, a).Some? && (a.Claim? || a.Lease?)
    ensures InShape(Attempt(c, a).value)
  {
    if a.Claim? {
      var s := First(c.steps, Claimable(c.steps)).value;
      StartKeepsShape(c, s, a.actor, a.exec, c.steps[s].selectedBid, PromiseOf(c, s), a.now);
    } else {
      var s := First(c.steps, ReadyOf(c.steps, a.kind)).value;
      StartKeepsShape(c, s, a.actor, a.exec, None, None, a.now);
    }
  }

  lemma {:induction false} FinishingKeepsShape(c: Circle, a: Act)
    requires OneCurrent(c.steps) && RowsOk(c.steps, c.ledger) && StepsMatch(c.steps, c.ledger) && InShape(c)
    requires Attempt(c, a).Some? && (a.Submit? || (a.Complete? && a.result.Succeeded?))
    ensures InShape(Attempt(c, a).value)
  {
    if a.Submit? {
      var s := First(c.steps, HeldBy(c.steps, a.actor)).value;
      FinishKeepsShape(c, s, Settle(c.ledger, s, Succeeded, a.now));
    } else {
      RunningStepIsStarted(c.steps, c.ledger, a.exec);
      FinishKeepsShape(c, c.ledger[a.exec].step, Attempt(c, a).value.ledger);
    }
  }

  lemma {:induction false} RetryKeepsShape(c: Circle, requester: bool)
    requires InShape(c) && Retried(c, requester).Some?
    ensures InShape(Retried(c, requester).value)
  {
    var c' := Retried(c, requester).value;
    var s := First(c.steps, With(c.steps, Failed) * Automated(c.steps)).value;
    OneRowKeepsShape(c, c', s, c'.steps[s]);
  }

  lemma {:induction false} CancelKeepsShape(c: Circle, requester: bool, now: int)
    requires InShape(c) && CancelStep(c, requester, now).Some?
    ensures InShape(CancelStep(c, requester, now).value)
  {
    var c' := CancelStep(c, requester, now).value;
    var s := First(c.steps, RunningAutomated(c)).value;
    OneRowKeepsShape(c, c', s, c'.steps[s]);
  }

  lemma {:induction false} BreakingKeepsShape(c: Circle, exec: ExecId, result: ExecStatus, now: int)
    requires RowsOk(c.steps, c.ledger) && StepsMatch(c.steps, c.ledger) && InShape(c)
    requires CompleteStep(c, exec, result, now).Some? && !result.Succeeded?
    ensures InShape(CompleteStep(c, exec, result, now).value)
  {
    var c' := CompleteStep(c, exec, result, now).value;
    RunningStepIsStarted(c.steps, c.ledger, exec);
    OneRowKeepsShape(c, c', c.ledger[exec].step, c'.steps[c.ledger[exec].step]);
  }

  lemma {:induction false} QuietActKeepsShape(c: Circle, a: Act)
    requires InShape(c) && Attempt(c, a).Some?
    requires a.EditStep? || a.PutBid? || a.WithdrawBid? || a.Close? || a.SetLive?
    ensures InShape(Attempt(c, a).value)
  {
    var c' := Attempt(c, a).value;
    if a.EditStep? {
      OneRowKeepsShape(c, c', a.id, c'.steps[a.id]);
    }
  }

  /** An act that neither deletes a step nor, with positions checked only afterwards, moves one. */
  predicate KeepsOrder(a: Act) {
    !a.DeleteStep? && (a.MoveStep? ==> a.check.Immediate?)
  }

  lemma {:induction false} MovingKeepsShape(c: Circle, a: Act)
    requires InShape(c) && a.MoveStep? && a.check.Immediate? && Attempt(c, a).Some?
    ensures InShape(After(c, a))
  {
    NoMoveCommits(c, a.id, a.later, a.check.order);
  }

  lemma {:induction false} ActKeepsShape(c: Circle, a: Act)
    requires Sound(c) && InShape(c) && KeepsOrder(a)
    ensures InShape(After(c, a))
  {
    hide InShape, PositionsOk, HoldersOk, NumberingOk, AddedStep, EditedStep, MovedStep, BidPut, BidWithdrawn;
    hide BidSelected, ClaimStep, LeaseStep, SubmitStep, CompleteStep, CloseTask, ReturnStep, Reopened, Retried;
    hide CancelStep;
    if Attempt(c, a).Some? {
      match a
      case AddStep(id, kind, mode, requirements) => AddKeepsShape(c, id, kind, mode, requirements);
      case Claim(_, _, _, _, _) => StartingKeepsShape(c, a);
      case Lease(_, _, _, _, _) => StartingKeepsShape(c, a);
      case Submit(_, _) => FinishingKeepsShape(c, a);
      case Complete(exec, result, now) =>
        if result.Succeeded? {
          FinishingKeepsShape(c, a);
        } else {
          BreakingKeepsShape(c, exec, result, now);
        }
      case SelectBid(id, requester, policy) => SelectKeepsShape(c, id, requester, policy);
      case Return(requester, id, now) => RewindKeepsShape(c, requester, id, now);
      case ReopenTask(requester, now) => ReopenKeepsShape(c, requester, now);
      case RetryStep(requester) => RetryKeepsShape(c, requester);
      case Cancel(requester, now) => CancelKeepsShape(c, requester, now);
      case MoveStep(_, _, _) => MovingKeepsShape(c, a);
      case _ => QuietActKeepsShape(c, a);
    }
  }

  /** Without deletions of steps, statuses by position read completed*, at most one current, pending*. Moves cannot
      change that under the constraint as it is declared. */
  lemma {:induction false} RouteKeepsShape(acts: seq<Act>)
    requires forall i :: 0 <= i < |acts| ==> KeepsOrder(acts[i])
    ensures InShape(Played(EMPTY, acts)) && OneCurrent(Played(EMPTY, acts).steps)
  {
    PlayKeepsSound(acts);
    if acts != [] {
      hide InShape, KeepsOrder, After;
      RouteKeepsShape(acts[..|acts| - 1]);
      PlayKeepsSound(acts[..|acts| - 1]);
      ActKeepsShape(Played(EMPTY, acts[..|acts| - 1]), acts[|acts| - 1]);
    }
  }

  // ----- getting stuck -----

  /** Planned work with steps but none to start. */
  ghost predicate Stalled(c: Circle) {
    c.lifecycle.Planned? && c.steps.Keys != {} && !HasCurrent(c.steps)
  }

  /** Deleting a step stalls the route exactly when it was the current one and others remain: nothing is promoted. */
  lemma {:induction false} DeletionStallsExactlyWhen(c: Circle, id: StepId, check: Check)
    requires Sound(c) && HasCurrent(c.steps) && DeletedStep(c, id, check).Some?
    ensures Stalled(DeletedStep(c, id, check).value) <==> Current(c.steps[id]) && c.steps.Keys != {id}
  {
    DeletionIs(c, id, check);
    var c' := DeletedStep(c, id, check).value;
    assert c'.steps.Keys == c.steps.Keys - {id};
    if Current(c.steps[id]) {
      OthersNotCurrent(c.steps, id);
    } else {
      var s :| s in c.steps && Current(c.steps[s]);
      assert s in c'.steps && Current(c'.steps[s]);
    }
  }

  const TWO_STEPS := [AddStep(1, Human, Simple, {7}), AddStep(2, Human, Simple, {7}), DeleteStep(1, Immediate([2]))]

  lemma {:induction false} TwoStepsAdded() returns (c: Circle)
    ensures c == After(After(EMPTY, TWO_STEPS[0]), TWO_STEPS[1])
    ensures c.live && c.lifecycle.Planned? && c.ledger == map[] && c.bids == map[]
    ensures c.steps ==
      map[1 := WorkStep(1, Human, Ready, None, None, Simple, {7}),
          2 := WorkStep(2, Human, Pending, None, None, Simple, {7})]
  {
    assert Positions(map[]) == {};
    var c1 := After(EMPTY, TWO_STEPS[0]);
    assert c1.steps == map[1 := WorkStep(1, Human, Ready, None, None, Simple, {7})];
    assert Positions(c1.steps) == {1};
    c := After(c1, TWO_STEPS[1]);
  }

  lemma {:induction false} FirstOfTwoCommits(c: Circle)
    requires PositionsOk(c.steps) && c.lifecycle.Planned? && c.steps.Keys == {1, 2}
    requires c.steps[1].position == 1 && c.steps[2].position == 2
    ensures DeletedStep(c, 1, Immediate([2])).Some?
  {
    assert Behind(c, 1) == {2} && Visits([2], {2});
    hide PositionsOk, Behind, DeletedStep;
    DeletionCommitsExactlyInOrder(c, 1, [2]);
  }

  lemma {:induction false} FirstOfTwoIsDeleted(c: Circle)
    requires Sound(c) && c.lifecycle.Planned? && c.steps.Keys == {1, 2}
    requires c.steps[1].position == 1 && c.steps[2].position == 2 && c.steps[1].status.Ready?
    ensures Stalled(After(c, TWO_STEPS[2]))
  {
    hide PositionsOk, OneCurrent, HoldersOk, LifecycleTells, LedgerOk, DeletedStep, Stalled;
    FirstOfTwoCommits(c);
    assert HasCurrent(c.steps) by { assert 1 in c.steps && Current(c.steps[1]); }
    DeletionStallsExactlyWhen(c, 1, Immediate([2]));
  }

  /** A concrete stall: of two steps the first is deleted, and the second stays pending. */
  lemma {:induction false} DeletedFirstStepStalls()
    ensures Stalled(Played(EMPTY, TWO_STEPS))
  {
    hide Sound, Stalled, After;
    var c2 := TwoStepsAdded();
    PlayedSoFar(EMPTY, TWO_STEPS, 0);
    PlayedSoFar(EMPTY, TWO_STEPS, 1);
    PlayedSoFar(EMPTY, TWO_STEPS, 2);
    assert TWO_STEPS[..0] == [] && TWO_STEPS[..3] == TWO_STEPS;
    PlayKeepsSound(TWO_STEPS[..2]);
    FirstOfTwoIsDeleted(c2);
  }

  /** Nothing can be started, finished or decided on a stalled route. */
  lemma {:induction false} StalledRefuses(c: Circle, a: Act)
    requires RowsOk(c.steps, c.ledger) && StepsMatch(c.steps, c.ledger) && Stalled(c)
    requires a.Claim? || a.Lease? || a.Submit? || a.Complete? || a.SelectBid? || a.PutBid? || a.Cancel? || a.RetryStep?
    ensures Attempt(c, a).None?
  {
    if a.Complete? {
      if a.exec in c.ledger && c.ledger[a.exec].status.Running? {
        RunningStepIsStarted(c.steps, c.ledger, a.exec);
      }
      hide RowsOk, StepsMatch;
      forall s | s in c.steps ensures !Current(c.steps[s]) {}
    } else {
      hide RowsOk, StepsMatch;
      forall s | s in c.steps ensures !Current(c.steps[s]) {}
      assert With(c.steps, Ready) == {} && With(c.steps, Assigned) == {};
    }
  }

  lemma {:induction false} StalledEdits(c: Circle, a: Act)
    requires Stalled(c) && (a.AddStep? || a.EditStep? || a.MoveStep? || a.DeleteStep?)
    ensures Stalled(After(c, a)) || After(c, a).steps.Keys == {}
  {
    forall s | s in c.steps ensures !Current(c.steps[s]) {}
    if Attempt(c, a).Some? {
      if a.MoveStep? {
        var other := MoveIs(c, a.id, a.later, a.check);
      } else if a.DeleteStep? {
        DeletionIs(c, a.id, a.check);
      }
    }
  }

  lemma {:induction false} StalledStaysStalled(c: Circle, a: Act)
    requires Sound(c) && Stalled(c)
    ensures Stalled(After(c, a)) || After(c, a).steps.Keys == {}
  {
    if a.AddStep? || a.EditStep? || a.MoveStep? || a.DeleteStep? {
      StalledEdits(c, a);
    } else if !(a.Close? || a.Return? || a.ReopenTask? || a.SetLive? || a.WithdrawBid?) {
      StalledRefuses(c, a);
    }
  }

  /** A stalled route never starts again unless every step is deleted: adding steps does not help. */
  lemma {:induction false} StalledUntilEmptied(c: Circle, acts: seq<Act>)
    requires Sound(c) && Stalled(c)
    requires forall i :: 0 <= i <= |acts| ==> Played(c, acts[..i]).steps.Keys != {}
    ensures Stalled(Played(c, acts)) && Sound(Played(c, acts))
  {
    hide Stalled, Sound, After;
    if acts != [] {
      var earlier := acts[..|acts| - 1];
      forall i | 0 <= i <= |earlier| ensures Played(c, earlier[..i]).steps.Keys != {} {
        assert earlier[..i] == acts[..i];
      }
      StalledUntilEmptied(c, earlier);
      StalledStaysStalled(Played(c, earlier), acts[|acts| - 1]);
      ActKeepsSound(Played(c, earlier), acts[|acts| - 1]);
      assert acts[..|acts|] == acts;
    }
  }
}
