/** The joint invariant of the circle survives every act, hence every run. */
module CircleActs {
  import opened Wrappers
  import opened Forest
  import opened Circle
  import opened CircleInvariant
  import opened Renumbering

  lemma {:induction false} ClaimKeepsSound(c: Circle, actor: ActorId, skills: set<nat>, policy: Mode, exec: ExecId,
                                           now: int)
    requires Sound(c) && ClaimStep(c, actor, skills, policy, exec, now).Some?
    ensures Sound(ClaimStep(c, actor, skills, policy, exec, now).value)
  {
    var s := First(c.steps, Claimable(c.steps)).value;
    StartKeepsSound(c, s, actor, exec, c.steps[s].selectedBid, PromiseOf(c, s), now);
  }

  lemma {:induction false} LeaseKeepsSound(c: Circle, kind: StepKind, allowed: bool, exec: ExecId, actor: ActorId,
                                           now: int)
    requires Sound(c) && LeaseStep(c, kind, allowed, exec, actor, now).Some?
    ensures Sound(LeaseStep(c, kind, allowed, exec, actor, now).value)
  {
    var s := First(c.steps, ReadyOf(c.steps, kind)).value;
    StartKeepsSound(c, s, actor, exec, None, None, now);
  }

  /** The statement that ends the running executions of a started step touches exactly one row. */
  lemma {:induction false} SettlesOneRow(steps: Steps, ledger: Ledger, s: StepId, status: ExecStatus, now: int)
    returns (exec: ExecId)
    requires LedgerOk(steps, ledger) && Has(steps, s, Started)
    ensures Runs(ledger, exec, s)
    ensures Settle(ledger, s, status, now) == ledger[exec := ledger[exec].(status := status, finishedAt := Some(now))]
    ensures RunningOf(ledger, s) == {exec}
  {
    assert StepMatches(steps[s], s, ledger);
    exec :| Runs(ledger, exec, s);
  }

  lemma {:induction false} SubmitKeepsSound(c: Circle, actor: ActorId, now: int)
    requires Sound(c) && SubmitStep(c, actor, now).Some?
    ensures Sound(SubmitStep(c, actor, now).value)
  {
    var s := First(c.steps, HeldBy(c.steps, actor)).value;
    var exec := SettlesOneRow(c.steps, c.ledger, s, Succeeded, now);
    FinishKeepsSound(c, exec, c.ledger[exec].(status := Succeeded, finishedAt := Some(now)));
  }

  lemma {:induction false} CompleteKeepsSound(c: Circle, exec: ExecId, result: ExecStatus, now: int)
    requires Sound(c) && CompleteStep(c, exec, result, now).Some?
    ensures Sound(CompleteStep(c, exec, result, now).value)
  {
    var row := c.ledger[exec].(status := result, finishedAt := Some(now));
    if result.Succeeded? {
      FinishKeepsSound(c, exec, row);
    } else {
      FailKeepsSound(c, exec, row);
    }
  }

  lemma {:induction false} CancelKeepsSound(c: Circle, requester: bool, now: int)
    requires Sound(c) && CancelStep(c, requester, now).Some?
    ensures Sound(CancelStep(c, requester, now).value)
  {
    var s := First(c.steps, RunningAutomated(c)).value;
    var e :| Runs(c.ledger, e, s) &&
      CancelStep(c, requester, now).value.ledger ==
        c.ledger[e := c.ledger[e].(status := Cancelled, finishedAt := Some(now))];
    FailKeepsSound(c, e, c.ledger[e].(status := Cancelled, finishedAt := Some(now)));
  }

  lemma {:induction false} CloseKeepsSound(c: Circle, requester: bool, openBelow: bool)
    requires Sound(c) && CloseTask(c, requester, openBelow).Some?
    ensures Sound(CloseTask(c, requester, openBelow).value)
  {
  }

  lemma {:induction false} RewindKeepsHolders(steps: Steps, bids: Bids, from: nat)
    requires HoldersOk(steps, bids) && forall s :: s in steps ==> steps[s].status.Completed?
    ensures HoldersOk(Rewound(steps, from), bids)
  {
    forall s | s in steps ensures HolderOk(Rewound(steps, from)[s], s, bids) {
      assert HolderOk(steps[s], s, bids);
    }
  }

  lemma {:induction false} RewindKeepsStatuses(steps: Steps, from: nat)
    requires forall s, t :: s in steps && t in steps && steps[s].position == steps[t].position ==> s == t
    requires forall s :: s in steps ==> steps[s].status.Completed?
    ensures OneCurrent(Rewound(steps, from)) && LifecycleTells(Planned, Rewound(steps, from))
  {
  }

  lemma {:induction false} RewindKeepsRoute(steps: Steps, bids: Bids, from: nat)
    requires PositionsOk(steps) && HoldersOk(steps, bids) && forall s :: s in steps ==> steps[s].status.Completed?
    ensures RouteOk(Planned, Rewound(steps, from), bids)
  {
    var steps' := Rewound(steps, from);
    SamePositions(steps, steps');
    RewindKeepsHolders(steps, bids, from);
    RewindKeepsStatuses(steps, from);
    hide PositionsOk, HoldersOk, LifecycleTells, OneCurrent;
  }

  /** Every success of a completed step is taken back: the step matches as a ready or pending one. */
  lemma {:induction false} RetiredStepMatches(st: WorkStep, s: StepId, ledger: Ledger, ledger': Ledger,
                                              status: StepStatus)
    requires StepMatches(st, s, ledger) && st.status.Completed? && (status.Ready? || status.Pending?)
    requires forall e :: Runs(ledger', e, s) ==> Runs(ledger, e, s)
    requires forall e :: !Succeeds(ledger', e, s)
    ensures StepMatches(st.(status := status, claimedBy := None), s, ledger')
  {
  }

  lemma {:induction false} RewindKeepsMatches(steps: Steps, ledger: Ledger, from: nat, returned: StepId, now: int)
    requires StepsMatch(steps, ledger) && forall s :: s in steps ==> steps[s].status.Completed?
    ensures StepsMatch(Rewound(steps, from), RewoundLedger(steps, ledger, from, returned, now))
  {
    var steps', ledger' := Rewound(steps, from), RewoundLedger(steps, ledger, from, returned, now);
    forall s | s in steps' ensures StepMatches(steps'[s], s, ledger') {
      if steps[s].position >= from {
        RetiredStepMatches(steps[s], s, ledger, ledger', steps'[s].status);
      } else {
        UntouchedStepMatches(steps[s], steps'[s], s, ledger, ledger');
      }
    }
  }

  lemma {:induction false} RewindKeepsLedger(steps: Steps, ledger: Ledger, from: nat, returned: StepId, now: int)
    requires LedgerOk(steps, ledger) && forall s :: s in steps ==> steps[s].status.Completed?
    ensures LedgerOk(Rewound(steps, from), RewoundLedger(steps, ledger, from, returned, now))
  {
    SameNumbering(ledger, RewoundLedger(steps, ledger, from, returned, now));
    RewindKeepsMatches(steps, ledger, from, returned, now);
  }

  lemma {:induction false} ReturnKeepsSound(c: Circle, requester: bool, s: StepId, now: int)
    requires Sound(c) && ReturnStep(c, requester, s, now).Some?
    ensures Sound(ReturnStep(c, requester, s, now).value)
  {
    RewindKeepsRoute(c.steps, c.bids, c.steps[s].position);
    RewindKeepsLedger(c.steps, c.ledger, c.steps[s].position, s, now);
  }

  lemma {:induction false} RetireKeepsMatches(steps: Steps, ledger: Ledger, s: StepId, now: int)
    requires StepsMatch(steps, ledger) && Has(steps, s, Completed)
    ensures StepsMatch(steps[s := steps[s].(status := Ready, claimedBy := None)], Retire(ledger, s, now))
  {
    var ledger' := Retire(ledger, s, now);
    RetiredStepMatches(steps[s], s, ledger, ledger', Ready);
    OneStepKeepsLedger(steps, s, steps[s].(status := Ready, claimedBy := None), ledger, ledger');
  }

  lemma {:induction false} RetireKeepsLedger(steps: Steps, ledger: Ledger, s: StepId, now: int)
    requires LedgerOk(steps, ledger) && Has(steps, s, Completed)
    ensures LedgerOk(steps[s := steps[s].(status := Ready, claimedBy := None)], Retire(ledger, s, now))
  {
    SameNumbering(ledger, Retire(ledger, s, now));
    RetireKeepsMatches(steps, ledger, s, now);
  }

  lemma {:induction false} ReopenKeepsSound(c: Circle, requester: bool, now: int)
    requires Sound(c) && Reopened(c, requester, now).Some?
    ensures Sound(Reopened(c, requester, now).value)
  {
    var c' := Reopened(c, requester, now).value;
    var s :| IsLast(c.steps, s) && c'.steps == c.steps[s := c.steps[s].(status := Ready, claimedBy := None)] &&
      c'.ledger == Retire(c.ledger, s, now);
    OneStepKeepsRoute(Planned, c.steps, c.bids, s, c'.steps[s]);
    RetireKeepsLedger(c.steps, c.ledger, s, now);
  }

  lemma {:induction false} RetryKeepsSound(c: Circle, requester: bool)
    requires Sound(c) && Retried(c, requester).Some?
    ensures Sound(Retried(c, requester).value)
  {
    var s := First(c.steps, With(c.steps, Failed) * Automated(c.steps)).value;
    var row := c.steps[s].(status := Ready, claimedBy := None);
    OthersNotCurrent(c.steps, s);
    OneStepKeepsRoute(Planned, c.steps, c.bids, s, row);
    UntouchedStepMatches(c.steps[s], row, s, c.ledger, c.ledger);
    OneStepKeepsLedger(c.steps, s, row, c.ledger, c.ledger);
  }

  lemma {:induction false} AddKeepsStatuses(steps: Steps, id: StepId, row: WorkStep)
    requires OneCurrent(steps) && LifecycleTells(Planned, steps) && id !in steps
    requires row.status == (if steps == map[] then Ready else Pending)
    ensures OneCurrent(steps[id := row]) && LifecycleTells(Planned, steps[id := row])
  {
    var steps' := steps[id := row];
    forall s, st | Has(steps', s, st) && (st.Started? || st.Failed?) ensures Has(steps, s, st) {}
  }

  lemma {:induction false} NewHolderIsOk(steps: Steps, bids: Bids, id: StepId, row: WorkStep)
    requires HoldersOk(steps, bids) && id !in steps && row.claimedBy.None? && row.selectedBid.None?
    requires !row.status.Assigned?
    ensures HoldersOk(steps[id := row], bids)
  {
  }

  lemma {:induction false} AddKeepsRoute(steps: Steps, bids: Bids, id: StepId, row: WorkStep)
    requires RouteOk(Planned, steps, bids) && id !in steps && row.position == MaxOf(Positions(steps)) + 1
    requires row.status == (if steps == map[] then Ready else Pending) && row.claimedBy.None? && row.selectedBid.None?
    ensures RouteOk(Planned, steps[id := row], bids)
  {
    AddKeepsPositions(steps, id, row);
    hide PositionsOk, HoldersOk;
    AddKeepsStatuses(steps, id, row);
    NewHolderIsOk(steps, bids, id, row);
  }

  lemma {:induction false} AddKeepsLedger(steps: Steps, ledger: Ledger, id: StepId, row: WorkStep)
    requires LedgerOk(steps, ledger) && id !in steps && (row.status.Ready? || row.status.Pending?)
    ensures LedgerOk(steps[id := row], ledger)
  {
    assert forall e :: e in ledger ==> ledger[e].step != id;
  }

  lemma {:induction false} AddKeepsSound(c: Circle, id: StepId, kind: StepKind, mode: Mode, requirements: set<nat>)
    requires Sound(c) && AddedStep(c, id, kind, mode, requirements).Some?
    ensures Sound(AddedStep(c, id, kind, mode, requirements).value)
  {
    var row := AddedStep(c, id, kind, mode, requirements).value.steps[id];
    AddKeepsRoute(c.steps, c.bids, id, row);
    AddKeepsLedger(c.steps, c.ledger, id, row);
  }

  /** Rows that keep their status, holder, selected bid and kind. */
  ghost predicate SameStatuses(steps: Steps, steps': Steps) {
    && steps'.Keys == steps.Keys
    && forall s :: s in steps ==> steps'[s].status == steps[s].status && steps'[s].claimedBy == steps[s].claimedBy &&
                                  steps'[s].selectedBid == steps[s].selectedBid && steps'[s].kind == steps[s].kind
  }

  lemma {:induction false} SameStatusesKeepRoute(lifecycle: Lifecycle, steps: Steps, steps': Steps, bids: Bids)
    requires RouteOk(lifecycle, steps, bids) && SameStatuses(steps, steps') && PositionsOk(steps')
    ensures RouteOk(lifecycle, steps', bids)
  {
    assert forall s, st :: Has(steps', s, st) <==> Has(steps, s, st);
    forall s | s in steps' ensures HolderOk(steps'[s], s, bids) {
      assert s in steps && HolderOk(steps[s], s, bids);
    }
  }

  lemma {:induction false} SameStatusesKeepLedger(steps: Steps, steps': Steps, ledger: Ledger)
    requires LedgerOk(steps, ledger) && SameStatuses(steps, steps')
    ensures LedgerOk(steps', ledger)
  {
    forall s | s in steps' ensures StepMatches(steps'[s], s, ledger) {
      assert s in steps;
      UntouchedStepMatches(steps[s], steps'[s], s, ledger, ledger);
    }
  }

  lemma {:induction false} SameStatusesKeepSound(c: Circle, steps': Steps)
    requires Sound(c) && SameStatuses(c.steps, steps') && PositionsOk(steps')
    ensures Sound(c.(steps := steps'))
  {
    SameStatusesKeepRoute(c.lifecycle, c.steps, steps', c.bids);
    SameStatusesKeepLedger(c.steps, steps', c.ledger);
  }

  lemma {:induction false} EditKeepsSound(c: Circle, id: StepId, newMode: Option<Mode>, requirements: set<nat>)
    requires Sound(c) && EditedStep(c, id, newMode, requirements).Some?
    ensures Sound(EditedStep(c, id, newMode, requirements).value)
  {
    var steps' := EditedStep(c, id, newMode, requirements).value.steps;
    SamePositions(c.steps, steps');
    SameStatusesKeepSound(c, steps');
  }

  lemma {:induction false} SwapIsQuiet(steps: Steps, id: StepId, other: StepId, later: bool)
    requires PositionsOk(steps) && id in steps && Adjacent(steps, id, other, later)
    ensures PositionsOk(Swapped(steps, id, other)) && SameStatuses(steps, Swapped(steps, id, other))
  {
    var a, b := steps[id].(position := steps[other].position), steps[other].(position := steps[id].position);
    SwapKeepsPositions(steps, id, other, a, b);
    hide PositionsOk;
  }

  lemma {:induction false} MoveKeepsSound(c: Circle, id: StepId, later: bool, check: Check)
    requires Sound(c) && MovedStep(c, id, later, check).Some?
    ensures Sound(MovedStep(c, id, later, check).value)
  {
    var other := MoveIs(c, id, later, check);
    if MovedStep(c, id, later, check) != Some(c) {
      SwapIsQuiet(c.steps, id, other, later);
      SameStatusesKeepSound(c, Swapped(c.steps, id, other));
    }
  }

  lemma {:induction false} DropKeepsHolders(steps: Steps, bids: Bids, id: StepId, steps': Steps, bids': Bids)
    requires HoldersOk(steps, bids) && steps'.Keys == steps.Keys - {id}
    requires forall s :: s in steps' ==> exists p: nat :: steps'[s] == steps[s].(position := p)
    requires bids' == BidsWithout(bids, id)
    ensures HoldersOk(steps', bids')
  {
    forall s | s in steps' ensures HolderOk(steps'[s], s, bids') {
      assert s in steps && s != id && HolderOk(steps[s], s, bids);
    }
  }

  lemma {:induction false} DropKeepsStatuses(lifecycle: Lifecycle, steps: Steps, id: StepId, steps': Steps)
    requires lifecycle.Planned? && OneCurrent(steps) && LifecycleTells(lifecycle, steps) &&
      steps'.Keys == steps.Keys - {id}
    requires forall s :: s in steps' ==> steps'[s].status == steps[s].status
    ensures OneCurrent(steps') && LifecycleTells(lifecycle, steps')
  {
    assert forall s, st :: Has(steps', s, st) ==> Has(steps, s, st);
  }

  lemma {:induction false} DeleteKeepsRoute(steps: Steps, bids: Bids, id: StepId)
    requires RouteOk(Planned, steps, bids) && id in steps
    ensures RouteOk(Planned, ClosedUp(steps, id), BidsWithout(bids, id))
  {
    var steps' := ClosedUp(steps, id);
    DeleteKeepsPositions(steps, id, steps');
    DropKeepsStatuses(Planned, steps, id, steps');
    forall s | s in steps' ensures exists p: nat :: steps'[s] == steps[s].(position := p) {
      assert steps'[s] == steps[s].(position := steps'[s].position);
    }
    DropKeepsHolders(steps, bids, id, steps', BidsWithout(bids, id));
  }

  lemma {:induction false} DropKeepsMatches(steps: Steps, ledger: Ledger, id: StepId, steps': Steps, ledger': Ledger)
    requires StepsMatch(steps, ledger) && steps'.Keys == steps.Keys - {id}
    requires forall s :: s in steps' ==>
      steps'[s].status == steps[s].status && steps'[s].claimedBy == steps[s].claimedBy
    requires ledger' == LedgerWithout(ledger, id)
    ensures StepsMatch(steps', ledger')
  {
    forall s | s in steps' ensures StepMatches(steps'[s], s, ledger') {
      assert s in steps && s != id;
      assert SameFor(ledger, ledger', s);
      UntouchedStepMatches(steps[s], steps'[s], s, ledger, ledger');
    }
  }

  lemma {:induction false} DeleteKeepsLedger(steps: Steps, ledger: Ledger, id: StepId)
    requires LedgerOk(steps, ledger) && id in steps
    ensures LedgerOk(ClosedUp(steps, id), LedgerWithout(ledger, id))
  {
    var ledger' := LedgerWithout(ledger, id);
    DropKeepsNumbering(ledger, id, ledger');
    DropKeepsMatches(steps, ledger, id, ClosedUp(steps, id), ledger');
  }

  lemma {:induction false} DeleteKeepsSound(c: Circle, id: StepId, check: Check)
    requires Sound(c) && DeletedStep(c, id, check).Some?
    ensures Sound(DeletedStep(c, id, check).value)
  {
    DeletionIs(c, id, check);
    DeleteKeepsRoute(c.steps, c.bids, id);
    DeleteKeepsLedger(c.steps, c.ledger, id);
  }

  lemma {:induction false} BidsKeepSound(c: Circle, bids': Bids)
    requires Sound(c) && HoldersOk(c.steps, bids')
    ensures Sound(c.(bids := bids'))
  {
  }

  lemma {:induction false} PutBidKeepsSound(c: Circle, s: StepId, actor: ActorId, minutes: nat, skills: set<nat>,
                                            policy: Mode, now: int)
    requires Sound(c) && BidPut(c, s, actor, minutes, skills, policy, now).Some?
    ensures Sound(BidPut(c, s, actor, minutes, skills, policy, now).value)
  {
    var bids' := BidPut(c, s, actor, minutes, skills, policy, now).value.bids;
    forall t | t in c.steps ensures HolderOk(c.steps[t], t, bids') {
      assert HolderOk(c.steps[t], t, c.bids);
    }
    BidsKeepSound(c, bids');
  }

  lemma {:induction false} WithdrawKeepsSound(c: Circle, s: StepId, actor: ActorId)
    requires Sound(c) && BidWithdrawn(c, s, actor).Some?
    ensures Sound(BidWithdrawn(c, s, actor).value)
  {
    var bids' := BidWithdrawn(c, s, actor).value.bids;
    forall t | t in c.steps ensures HolderOk(c.steps[t], t, bids') {
      assert HolderOk(c.steps[t], t, c.bids);
    }
    BidsKeepSound(c, bids');
  }

  lemma {:induction false} ReadyStepMeansPlanned(c: Circle, s: StepId)
    requires OneCurrent(c.steps) && LifecycleTells(c.lifecycle, c.steps) && s in c.steps
    requires c.steps[s].status.Ready? || c.steps[s].status.Assigned?
    ensures c.lifecycle.Planned?
  {
  }

  lemma {:induction false} SelectionKeepsHolders(c: Circle, s: StepId, requester: bool, policy: Mode)
    requires OneCurrent(c.steps) && HoldersOk(c.steps, c.bids) && BidSelected(c, s, requester, policy).Some?
    ensures var c' := BidSelected(c, s, requester, policy).value;
      && HoldersOk(c.steps, c'.bids) && HolderOk(c'.steps[s], s, c'.bids)
      && c'.steps == c.steps[s := c'.steps[s]] && c'.ledger == c.ledger && c'.lifecycle == c.lifecycle
      && c'.steps[s].position == c.steps[s].position && c'.steps[s].status.Assigned? && c.steps[s].status.Ready?
  {
    var c' := BidSelected(c, s, requester, policy).value;
    OthersNotCurrent(c.steps, s);
    forall t | t in c.steps ensures HolderOk(c.steps[t], t, c'.bids) {
      assert HolderOk(c.steps[t], t, c.bids);
    }
  }

  lemma {:induction false} SelectKeepsSound(c: Circle, s: StepId, requester: bool, policy: Mode)
    requires Sound(c) && BidSelected(c, s, requester, policy).Some?
    ensures Sound(BidSelected(c, s, requester, policy).value)
  {
    var c' := BidSelected(c, s, requester, policy).value;
    ReadyStepMeansPlanned(c, s);
    OthersNotCurrent(c.steps, s);
    SelectionKeepsHolders(c, s, requester, policy);
    hide HoldersOk, BidSelected, LifecycleTells, PositionsOk, NumberingOk, RowsOk;
    OneStepKeepsRoute(Planned, c.steps, c'.bids, s, c'.steps[s]);
    UntouchedStepMatches(c.steps[s], c'.steps[s], s, c.ledger, c.ledger);
    OneStepKeepsLedger(c.steps, s, c'.steps[s], c.ledger, c.ledger);
  }

  lemma {:induction false} RouteActKeepsSound(c: Circle, a: Act)
    requires Sound(c) &&
      (a.AddStep? || a.EditStep? || a.MoveStep? || a.DeleteStep? || a.PutBid? || a.WithdrawBid? || a.SelectBid?)
    requires Attempt(c, a).Some?
    ensures Sound(Attempt(c, a).value)
  {
    match a
    case AddStep(id, kind, mode, requirements) => AddKeepsSound(c, id, kind, mode, requirements);
    case EditStep(id, newMode, requirements) => EditKeepsSound(c, id, newMode, requirements);
    case MoveStep(id, later, check) => MoveKeepsSound(c, id, later, check);
    case DeleteStep(id, check) => DeleteKeepsSound(c, id, check);
    case PutBid(id, actor, minutes, skills, policy, now) =>
      PutBidKeepsSound(c, id, actor, minutes, skills, policy, now);
    case WithdrawBid(id, actor) => WithdrawKeepsSound(c, id, actor);
    case SelectBid(id, requester, policy) => SelectKeepsSound(c, id, requester, policy);
  }

  lemma {:induction false} WorkActKeepsSound(c: Circle, a: Act)
    requires Sound(c) &&
      !(a.AddStep? || a.EditStep? || a.MoveStep? || a.DeleteStep? || a.PutBid? || a.WithdrawBid? || a.SelectBid?)
    requires Attempt(c, a).Some?
    ensures Sound(Attempt(c, a).value)
  {
    match a
    case Claim(actor, skills, policy, exec, now) => ClaimKeepsSound(c, actor, skills, policy, exec, now);
    case Submit(actor, now) => SubmitKeepsSound(c, actor, now);
    case Close(requester, openBelow) => CloseKeepsSound(c, requester, openBelow);
    case Return(requester, id, now) => ReturnKeepsSound(c, requester, id, now);
    case ReopenTask(requester, now) => ReopenKeepsSound(c, requester, now);
    case RetryStep(requester) => RetryKeepsSound(c, requester);
    case Cancel(requester, now) => CancelKeepsSound(c, requester, now);
    case Lease(kind, allowed, exec, actor, now) => LeaseKeepsSound(c, kind, allowed, exec, actor, now);
    case Complete(exec, result, now) => CompleteKeepsSound(c, exec, result, now);
    case SetLive(_) =>
  }

  lemma {:induction false} ActKeepsSound(c: Circle, a: Act)
    requires Sound(c)
    ensures Sound(After(c, a))
  {
    if Attempt(c, a).Some? {
      if a.AddStep? || a.EditStep? || a.MoveStep? || a.DeleteStep? || a.PutBid? || a.WithdrawBid? || a.SelectBid? {
        RouteActKeepsSound(c, a);
      } else {
        WorkActKeepsSound(c, a);
      }
    }
  }

  /** The joint invariant of route, lifecycle, ledger and bids holds after any sequence of acts on an empty circle. */
  lemma {:induction false} PlayKeepsSound(acts: seq<Act>)
    ensures Sound(Played(EMPTY, acts))
  {
    if acts != [] {
      PlayKeepsSound(acts[..|acts| - 1]);
      ActKeepsSound(Played(EMPTY, acts[..|acts| - 1]), acts[|acts| - 1]);
    }
  }
}
