/** The circle as the server runs it: each act is a transaction that updates steps, executions, bids and the node one
    statement at a time. Every transaction is tied to the act of the same name. */
module CircleStore {
  import opened Wrappers
  import opened Forest
  import opened Circle
  import opened CircleInvariant
  import opened CircleActs
  import opened Renumbering

  // ----- queries -----

  lemma {:induction false} FirstIsUnique(steps: Steps, among: set<StepId>, s: StepId)
    requires PositionsOk(steps) && IsFirst(steps, among, s)
    ensures First(steps, among) == Some(s)
  {
    assert s in among * steps.Keys;
  }

  /** The row with the smallest position. */
  method FirstByPosition(steps: Steps, among: set<StepId>) returns (first: Option<StepId>)
    requires PositionsOk(steps)
    ensures first == First(steps, among)
  {
    first := None;
    var rows := among * steps.Keys;
    var left := rows;
    while left != {}
      invariant left <= rows
      invariant if first.Some? then IsFirst(steps, rows - left, first.value) else left == rows
      decreases left
    {
      var s :| s in left;
      if first.None? || steps[s].position < steps[first.value].position {
        first := Some(s);
      }
      left := left - {s};
    }
    if first.Some? {
      assert rows - left == rows;
      assert IsFirst(steps, among, first.value);
      FirstIsUnique(steps, among, first.value);
    } else {
      assert rows == {};
      assert forall s :: IsFirst(steps, among, s) ==> s in rows;
    }
  }

  lemma {:induction false} MaxIsUnique(s: set<nat>, m: nat)
    requires (m in s || (s == {} && m == 0)) && forall x :: x in s ==> x <= m
    ensures MaxOf(s) == m
  {
  }

  method Highest(s: set<nat>) returns (m: nat)
    ensures m == MaxOf(s)
  {
    m := 0;
    var left := s;
    while left != {}
      invariant left <= s && (m in s - left || (left == s && m == 0)) && forall x :: x in s - left ==> x <= m
      decreases left
    {
      var x :| x in left;
      assert forall y :: y in s - (left - {x}) ==> y == x || y in s - left;
      if x > m || left == s {
        m := x;
      }
      left := left - {x};
    }
    assert s - left == s;
    MaxIsUnique(s, m);
  }

  lemma {:induction false} LastIsUnique(steps: Steps, s: StepId)
    requires PositionsOk(steps) && IsLast(steps, s)
    ensures forall t :: IsLast(steps, t) ==> t == s
  {
  }

  /** The row with the greatest position. */
  method LastByPosition(steps: Steps) returns (last: Option<StepId>)
    requires PositionsOk(steps)
    ensures if last.Some? then IsLast(steps, last.value) && (forall t :: IsLast(steps, t) ==> t == last.value)
            else steps.Keys == {}
  {
    last := None;
    var left := steps.Keys;
    while left != {}
      invariant left <= steps.Keys
      invariant if last.Some? then last.value in steps && forall t :: t in steps && t !in left ==>
        steps[t].position <= steps[last.value].position
                else left == steps.Keys
      decreases left
    {
      var s :| s in left;
      if last.None? || steps[s].position > steps[last.value].position {
        last := Some(s);
      }
      left := left - {s};
    }
    if last.Some? {
      LastIsUnique(steps, last.value);
    }
  }

  /** The best offered bid in the order of promise, submission time and actor. */
  method ShortestBid(bids: Bids, s: StepId) returns (winner: Option<ActorId>)
    ensures winner.Some? <==> exists a :: (s, a) in bids && bids[(s, a)].status.Offered?
    ensures winner.Some? ==> (s, winner.value) in bids && bids[(s, winner.value)].status.Offered?
    ensures winner.Some? ==> forall a :: (s, a) in bids && bids[(s, a)].status.Offered? ==>
      var x, y := bids[(s, winner.value)], bids[(s, a)];
      && x.promise <= y.promise
      && (x.promise == y.promise ==> x.submittedAt <= y.submittedAt)
      && (x.promise == y.promise && x.submittedAt == y.submittedAt ==> winner.value <= a)
    ensures forall a: ActorId :: IsWinner(bids, s, a) <==> winner == Some(a)
  {
    winner := None;
    var offered := set b | b in bids && b.0 == s && bids[b].status.Offered?;
    var left := offered;
    while left != {}
      invariant left <= offered
      invariant if winner.Some? then (s, winner.value) in offered - left &&
                  forall b :: b in offered - left ==> Beats(winner.value, bids[(s, winner.value)], b.1, bids[b])
                else left == offered
      decreases left
    {
      var b: (StepId, ActorId) :| b in left;
      if winner.None? {
        winner := Some(b.1);
      } else {
        var best, bid := bids[(s, winner.value)], bids[b];
        if bid.promise < best.promise ||
           (bid.promise == best.promise && bid.submittedAt < best.submittedAt) ||
           (bid.promise == best.promise && bid.submittedAt == best.submittedAt && b.1 < winner.value) {
          winner := Some(b.1);
        }
      }
      left := left - {b};
    }
    assert offered - left == offered;
    forall a | (s, a) in bids && bids[(s, a)].status.Offered? ensures (s, a) in offered {}
  }

  // ----- work acts -----

  /** Starts a step: the step, a new attempt in the ledger, the node. */
  method Start(c: Circle, s: StepId, actor: ActorId, exec: ExecId, bid: Option<ActorId>, promise: Option<nat>, now: int)
    returns (c': Circle)
    requires s in c.steps
    ensures c' == StartStep(c, s, actor, exec, bid, promise, now)
  {
    var steps := c.steps[s := c.steps[s].(status := Started, claimedBy := Some(actor))];
    var last := Highest(Attempts(c.ledger, s));
    var ledger := c.ledger[exec := Execution(s, last + 1, Running, actor, bid, promise, now, None)];
    c' := Circle(c.live, Active, steps, ledger, c.bids);
  }

  method Claiming(c: Circle, actor: ActorId, skills: set<nat>, policy: Mode, exec: ExecId, now: int)
    returns (c': Option<Circle>)
    requires PositionsOk(c.steps)
    ensures c' == ClaimStep(c, actor, skills, policy, exec, now)
  {
    if !c.live || exec in c.ledger { return None; }
    var current := FirstByPosition(c.steps, Claimable(c.steps));
    if current.None? || !c.lifecycle.Planned? { return None; }
    var row := c.steps[current.value];
    var mode := row.mode;
    if mode.Inherit? {
      mode := policy;
    }
    var mine := row.status.Assigned? && row.claimedBy == Some(actor);
    var open := row.status.Ready? && mode.Simple? && row.requirements != {} && row.requirements <= skills;
    if !mine && !open { return None; }
    var promise := None;
    var selected := c.steps[current.value].selectedBid;
    if selected.Some? && (current.value, selected.value) in c.bids {
      promise := Some(c.bids[(current.value, selected.value)].promise);
    }
    var started := Start(c, current.value, actor, exec, selected, promise, now);
    return Some(started);
  }

  method Leasing(c: Circle, kind: StepKind, allowed: bool, exec: ExecId, actor: ActorId, now: int)
    returns (c': Option<Circle>)
    requires PositionsOk(c.steps)
    ensures c' == LeaseStep(c, kind, allowed, exec, actor, now)
  {
    if !c.live || !c.lifecycle.Planned? || !(kind.Api? || kind.Script?) || exec in c.ledger { return None; }
    var ready := FirstByPosition(c.steps, ReadyOf(c.steps, kind));
    if ready.None? || !allowed { return None; }
    var started := Start(c, ready.value, actor, exec, None, None, now);
    return Some(started);
  }

  /** Completes a step and lets the next pending one be ready, or sends the node to review. */
  method Finish(c: Circle, s: StepId, ledger: Ledger) returns (c': Circle)
    requires PositionsOk(c.steps) && s in c.steps
    ensures c' == FinishStep(c, s, ledger)
  {
    var steps := c.steps[s := c.steps[s].(status := Completed)];
    SamePositions(c.steps, steps);
    var lifecycle := Review;
    var next := FirstByPosition(steps, With(steps, Pending));
    if next.Some? {
      steps := steps[next.value := steps[next.value].(status := Ready)];
      lifecycle := Planned;
    }
    c' := Circle(c.live, lifecycle, steps, ledger, c.bids);
  }

  /** Ends the running executions of a step and counts them. */
  method SettleRows(ledger: Ledger, s: StepId, status: ExecStatus, now: int) returns (ledger': Ledger, rows: nat)
    ensures ledger' == Settle(ledger, s, status, now) && rows == |RunningOf(ledger, s)|
  {
    ledger', rows := ledger, 0;
    var running := RunningOf(ledger, s);
    var left := running;
    while left != {}
      invariant left <= running && rows + |left| == |running| && ledger'.Keys == ledger.Keys
      invariant forall e :: e in ledger ==>
        ledger'[e] ==
          if e in running && e !in left then ledger[e].(status := status, finishedAt := Some(now)) else ledger[e]
      decreases left
    {
      var e :| e in left;
      ledger' := ledger'[e := ledger[e].(status := status, finishedAt := Some(now))];
      left, rows := left - {e}, rows + 1;
    }
  }

  method Submitting(c: Circle, actor: ActorId, now: int) returns (c': Option<Circle>)
    requires PositionsOk(c.steps)
    ensures c' == SubmitStep(c, actor, now)
  {
    if !c.live { return None; }
    var mine := FirstByPosition(c.steps, HeldBy(c.steps, actor));
    if mine.None? || !c.lifecycle.Active? { return None; }
    var ledger, rows := SettleRows(c.ledger, mine.value, Succeeded, now);
    if rows != 1 { return None; }
    var finished := Finish(c, mine.value, ledger);
    return Some(finished);
  }

  method Completing(c: Circle, exec: ExecId, result: ExecStatus, now: int) returns (c': Option<Circle>)
    requires PositionsOk(c.steps)
    ensures c' == CompleteStep(c, exec, result, now)
  {
    if !(result.Succeeded? || result.Broken? || result.TimedOut?) || !c.live { return None; }
    if exec !in c.ledger || !c.ledger[exec].status.Running? || c.ledger[exec].step !in c.steps { return None; }
    var s := c.ledger[exec].step;
    var ledger := c.ledger[exec := c.ledger[exec].(status := result, finishedAt := Some(now))];
    if result.Succeeded? {
      var finished := Finish(c, s, ledger);
      return Some(finished);
    }
    var steps := c.steps[s := c.steps[s].(status := StepStatus.Failed)];
    return Some(Circle(c.live, Blocked, steps, ledger, c.bids));
  }

  method Closing(c: Circle, requester: bool, openBelow: bool) returns (c': Option<Circle>)
    ensures c' == CloseTask(c, requester, openBelow)
  {
    if !c.live || !requester || !c.lifecycle.Review? { return None; }
    if openBelow { return None; }
    return Some(c.(lifecycle := Closed));
  }

  /** Opens the returned step and everything behind it, and takes back the successes they had. */
  method Returning(c: Circle, requester: bool, s: StepId, now: int) returns (c': Option<Circle>)
    ensures c' == ReturnStep(c, requester, s, now)
  {
    if !c.live || !requester || !c.lifecycle.Review? { return None; }
    if s !in c.steps || !c.steps[s].status.Completed? { return None; }
    var from := c.steps[s].position;
    var steps := c.steps;
    var left := c.steps.Keys;
    while left != {}
      invariant left <= c.steps.Keys && steps.Keys == c.steps.Keys
      invariant forall t :: t in c.steps ==> steps[t] == if t in left then c.steps[t] else Rewound(c.steps, from)[t]
      decreases left
    {
      var t :| t in left;
      if steps[t].position >= from {
        steps := steps[t := steps[t].(status := if steps[t].position == from then Ready else Pending,
                                      claimedBy := None)];
      }
      left := left - {t};
    }
    assert steps == Rewound(c.steps, from);
    var ledger := RetireRows(c.steps, c.ledger, from, s, now);
    return Some(Circle(c.live, Planned, steps, ledger, c.bids));
  }

  method RetireRows(steps: Steps, ledger: Ledger, from: nat, returned: StepId, now: int) returns (ledger': Ledger)
    ensures ledger' == RewoundLedger(steps, ledger, from, returned, now)
  {
    ledger' := ledger;
    var left := ledger.Keys;
    while left != {}
      invariant left <= ledger.Keys && ledger'.Keys == ledger.Keys
      invariant forall e :: e in ledger ==>
        ledger'[e] == if e in left then ledger[e] else RewoundLedger(steps, ledger, from, returned, now)[e]
      decreases left
    {
      var e :| e in left;
      var row := ledger[e];
      if row.status.Succeeded? && row.step in steps && steps[row.step].position >= from {
        row := row.(status := if row.step == returned then Returned else Superseded);
        if row.finishedAt.None? {
          row := row.(finishedAt := Some(now));
        }
        ledger' := ledger'[e := row];
      }
      left := left - {e};
    }
  }

  method RetryingStep(c: Circle, requester: bool) returns (c': Option<Circle>)
    requires PositionsOk(c.steps)
    ensures c' == Retried(c, requester)
  {
    if !c.live || !requester || !c.lifecycle.Blocked? { return None; }
    var failed := FirstByPosition(c.steps, With(c.steps, StepStatus.Failed) * Automated(c.steps));
    if failed.None? { return None; }
    var steps := c.steps[failed.value := c.steps[failed.value].(status := Ready, claimedBy := None)];
    return Some(Circle(c.live, Planned, steps, c.ledger, c.bids));
  }

  lemma {:induction false} ReopenedLast(c: Circle, requester: bool, now: int, last: StepId)
    requires PositionsOk(c.steps) && IsLast(c.steps, last) && c.live && requester && c.lifecycle.Closed?
    ensures Reopened(c, requester, now) ==
      Some(c.(lifecycle := Planned, steps := c.steps[last := c.steps[last].(status := Ready, claimedBy := None)],
              ledger := Retire(c.ledger, last, now)))
  {
    LastIsUnique(c.steps, last);
  }

  method Reopening(c: Circle, requester: bool, now: int) returns (c': Option<Circle>)
    requires PositionsOk(c.steps)
    ensures c' == Reopened(c, requester, now)
  {
    if !c.live || !requester || !c.lifecycle.Closed? { return None; }
    var last := LastByPosition(c.steps);
    if last.None? { return None; }
    var steps := c.steps[last.value := c.steps[last.value].(status := Ready, claimedBy := None)];
    var ledger := c.ledger;
    var left := ledger.Keys;
    while left != {}
      invariant left <= c.ledger.Keys && ledger.Keys == c.ledger.Keys
      invariant forall e :: e in c.ledger ==>
        ledger[e] == if e in left then c.ledger[e] else Retire(c.ledger, last.value, now)[e]
      decreases left
    {
      var e :| e in left;
      if Succeeds(ledger, e, last.value) {
        ledger := ledger[e := ledger[e].(status := Returned, finishedAt := if ledger[e].finishedAt.None? then Some(now)
                                                                           else ledger[e].finishedAt)];
      }
      left := left - {e};
    }
    assert ledger == Retire(c.ledger, last.value, now);
    ReopenedLast(c, requester, now, last.value);
    return Some(Circle(c.live, Planned, steps, ledger, c.bids));
  }

  lemma {:induction false} CancelledOne(c: Circle, requester: bool, now: int, s: StepId, e: ExecId)
    requires StepsMatch(c.steps, c.ledger) && c.live && requester && c.lifecycle.Active? && s in c.steps &&
      Runs(c.ledger, e, s)
    requires First(c.steps, RunningAutomated(c)) == Some(s)
    ensures CancelStep(c, requester, now) ==
      Some(c.(lifecycle := Blocked, steps := c.steps[s := c.steps[s].(status := StepStatus.Failed)],
              ledger := c.ledger[e := c.ledger[e].(status := Cancelled, finishedAt := Some(now))]))
  {
    assert StepMatches(c.steps[s], s, c.ledger);
  }

  method Cancelling(c: Circle, requester: bool, now: int) returns (c': Option<Circle>)
    requires PositionsOk(c.steps) && StepsMatch(c.steps, c.ledger)
    ensures c' == CancelStep(c, requester, now)
  {
    if !c.live || !requester || !c.lifecycle.Active? { return None; }
    var running := set t | t in With(c.steps, Started) * Automated(c.steps) && RunningOf(c.ledger, t) != {};
    assert running == RunningAutomated(c) by {
      forall t, e | Runs(c.ledger, e, t) ensures e in RunningOf(c.ledger, t) {}
    }
    var first := FirstByPosition(c.steps, running);
    if first.None? { return None; }
    var e :| e in RunningOf(c.ledger, first.value);
    CancelledOne(c, requester, now, first.value, e);
    var ledger := c.ledger[e := c.ledger[e].(status := Cancelled, finishedAt := Some(now))];
    var steps := c.steps[first.value := c.steps[first.value].(status := StepStatus.Failed)];
    return Some(Circle(c.live, Blocked, steps, ledger, c.bids));
  }

  // ----- route edits -----

  method Adding(c: Circle, id: StepId, kind: StepKind, mode: Mode, requirements: set<nat>) returns (c': Option<Circle>)
    ensures c' == AddedStep(c, id, kind, mode, requirements)
  {
    if !c.live || !c.lifecycle.Planned? || id in c.steps { return None; }
    var last := Highest(Positions(c.steps));
    var status := Pending;
    if |c.steps| == 0 {
      status := Ready;
    }
    var stored := if kind.Human? then mode else Inherit;
    var steps := c.steps[id := WorkStep(last + 1, kind, status, None, None, stored, requirements)];
    return Some(c.(steps := steps));
  }

  method Editing(c: Circle, id: StepId, newMode: Option<Mode>, requirements: set<nat>) returns (c': Option<Circle>)
    ensures c' == EditedStep(c, id, newMode, requirements)
  {
    if !c.live || !c.lifecycle.Planned? || id !in c.steps { return None; }
    var row := c.steps[id];
    if newMode.Some? {
      row := row.(mode := newMode.value);
    }
    if row.kind.Human? {
      row := row.(requirements := requirements);
    }
    return Some(c.(steps := c.steps[id := row]));
  }

  /** One update of positions. Checked at once, it stops at the first row whose target is still stored elsewhere. */
  method UpdatePositions(steps: Steps, target: map<StepId, nat>, check: Check) returns (steps': Option<Steps>)
    ensures steps' == Rewritten(steps, target, check)
  {
    match check {
      case Deferred => return Some(Renumbered(steps, target));
      case Immediate(order) =>
        if !Visits(order, target.Keys) || !(target.Keys <= steps.Keys) { return None; }
        VisitsEach(order, target.Keys);
        var written := steps;
        for i := 0 to |order|
          invariant written.Keys == steps.Keys
          invariant forall s :: s in order ==> s in written && s in target
          invariant WrittenInOrder(written, order[i..], target) == WrittenInOrder(steps, order, target)
        {
          var s := order[i];
          assert order[i..][1..] == order[i + 1..];
          if Occupied(written, target[s], s) { return None; }
          written := written[s := written[s].(position := target[s])];
        }
        return Some(written);
    }
  }

  /** Looks up the neighbour, then asks for the two positions to be exchanged in one update. */
  method MovingStep(c: Circle, id: StepId, later: bool, check: Check) returns (c': Option<Circle>)
    requires PositionsOk(c.steps)
    ensures c' == MovedStep(c, id, later, check)
  {
    if !c.lifecycle.Planned? || id !in c.steps { return None; }
    var position := c.steps[id].position;
    var wanted := if later then position + 1 else position - 1;
    var others := set s | s in c.steps && c.steps[s].position == wanted;
    assert forall s :: s in others <==> Adjacent(c.steps, id, s, later);
    if others == {} { return Some(c); }
    var other :| other in others;
    assert forall s :: Adjacent(c.steps, id, s, later) ==> s == other;
    var steps := UpdatePositions(c.steps, Exchanged(c.steps, id, other), check);
    if steps.None? { return None; }
    return Some(c.(steps := steps.value));
  }

  /** Deletes a step with what hangs on it, then closes the gap in one update. */
  method Deleting(c: Circle, id: StepId, check: Check) returns (c': Option<Circle>)
    ensures c' == DeletedStep(c, id, check)
  {
    if !c.lifecycle.Planned? || id !in c.steps { return None; }
    var position := c.steps[id].position;
    var ledger := map e | e in c.ledger && c.ledger[e].step != id :: c.ledger[e];
    var bids := map b | b in c.bids && b.0 != id :: c.bids[b];
    var rest := c.steps - {id};
    var steps := UpdatePositions(rest, map s | s in rest && rest[s].position > position :: rest[s].position - 1, check);
    if steps.None? { return None; }
    return Some(Circle(c.live, c.lifecycle, steps.value, ledger, bids));
  }

  // ----- bids -----

  /** A new bid, or the actor's earlier one offered again with the new promise and its first submission time. */
  method Bidding(c: Circle, s: StepId, actor: ActorId, minutes: nat, skills: set<nat>, policy: Mode, now: int)
    returns (c': Option<Circle>)
    ensures c' == BidPut(c, s, actor, minutes, skills, policy, now)
  {
    if minutes < 1 || minutes > MAX_PROMISE { return None; }
    if !c.live || s !in c.steps { return None; }
    var row := c.steps[s];
    if !row.kind.Human? || !row.status.Ready? || row.claimedBy.Some? || !Effective(row.mode, policy).Exchange? {
      return None;
    }
    if !(row.requirements <= skills) { return None; }
    var bid := Bid(minutes, Offered, now);
    if (s, actor) in c.bids {
      bid := c.bids[(s, actor)].(promise := minutes, status := Offered);
    }
    return Some(c.(bids := c.bids[(s, actor) := bid]));
  }

  method Withdrawing(c: Circle, s: StepId, actor: ActorId) returns (c': Option<Circle>)
    ensures c' == BidWithdrawn(c, s, actor)
  {
    if (s, actor) !in c.bids || !c.bids[(s, actor)].status.Offered? { return None; }
    return Some(c.(bids := c.bids[(s, actor) := c.bids[(s, actor)].(status := Withdrawn)]));
  }

  /** Closes the bids of a step, then assigns the step to the winner. */
  method Selecting(c: Circle, s: StepId, requester: bool, policy: Mode) returns (c': Option<Circle>)
    ensures c' == BidSelected(c, s, requester, policy)
    ensures c'.Some? ==> s in c'.value.steps && c'.value.steps[s].claimedBy.Some?
    ensures c'.Some? ==>
      var w := c'.value.steps[s].claimedBy.value;
      && (s, w) in c.bids
      && forall b :: (s, b) in c.bids && c.bids[(s, b)].status.Offered? ==>
        c.bids[(s, w)].promise <= c.bids[(s, b)].promise
  {
    if s !in c.steps || !c.steps[s].kind.Human? || !c.steps[s].status.Ready? || c.steps[s].claimedBy.Some? {
      return None;
    }
    var mode := c.steps[s].mode;
    if mode.Inherit? {
      mode := policy;
    }
    if !requester || !mode.Exchange? { return None; }
    var winner := ShortestBid(c.bids, s);
    if winner.None? { return None; }
    var bids := c.bids;
    var left := bids.Keys;
    while left != {}
      invariant left <= c.bids.Keys && bids.Keys == c.bids.Keys
      invariant forall b :: b in c.bids ==>
        bids[b] == if b in left then c.bids[b] else Decided(c.bids, s, winner.value)[b]
      decreases left
    {
      var b :| b in left;
      if b.0 == s && bids[b].status.Offered? {
        bids := bids[b := bids[b].(status := if b.1 == winner.value then Won else Lost)];
      }
      left := left - {b};
    }
    assert bids == Decided(c.bids, s, winner.value);
    var steps := c.steps[s := c.steps[s].(status := Assigned, claimedBy := winner, selectedBid := winner)];
    return Some(Circle(c.live, c.lifecycle, steps, c.ledger, bids));
  }

  // ----- the tables -----

  method AttemptEdit(c: Circle, a: Act) returns (next: Option<Circle>)
    requires PositionsOk(c.steps)
    requires a.AddStep? || a.EditStep? || a.MoveStep? || a.DeleteStep? || a.PutBid? || a.WithdrawBid? || a.SelectBid?
    ensures next == Attempt(c, a)
  {
    match a {
      case AddStep(id, kind, mode, requirements) => next := Adding(c, id, kind, mode, requirements);
      case EditStep(id, newMode, requirements) => next := Editing(c, id, newMode, requirements);
      case MoveStep(id, later, check) => next := MovingStep(c, id, later, check);
      case DeleteStep(id, check) => next := Deleting(c, id, check);
      case PutBid(id, actor, minutes, skills, policy, now) =>
        next := Bidding(c, id, actor, minutes, skills, policy, now);
      case WithdrawBid(id, actor) => next := Withdrawing(c, id, actor);
      case SelectBid(id, requester, policy) => next := Selecting(c, id, requester, policy);
    }
  }

  method AttemptWork(c: Circle, a: Act) returns (next: Option<Circle>)
    requires PositionsOk(c.steps) && StepsMatch(c.steps, c.ledger)
    requires !(a.AddStep? || a.EditStep? || a.MoveStep? || a.DeleteStep? || a.PutBid? || a.WithdrawBid? || a.SelectBid?)
    ensures next == Attempt(c, a)
  {
    match a {
      case Claim(actor, skills, policy, exec, now) => next := Claiming(c, actor, skills, policy, exec, now);
      case Submit(actor, now) => next := Submitting(c, actor, now);
      case Close(requester, openBelow) => next := Closing(c, requester, openBelow);
      case Return(requester, id, now) => next := Returning(c, requester, id, now);
      case ReopenTask(requester, now) => next := Reopening(c, requester, now);
      case RetryStep(requester) => next := RetryingStep(c, requester);
      case Cancel(requester, now) => next := Cancelling(c, requester, now);
      case Lease(kind, allowed, exec, actor, now) => next := Leasing(c, kind, allowed, exec, actor, now);
      case Complete(exec, result, now) => next := Completing(c, exec, result, now);
      case SetLive(value) => next := if c.lifecycle.Planned? then Some(c.(live := value)) else None;
    }
  }

  /** Some sequence of acts on an empty circle leads here. */
  ghost predicate Reachable(c: Circle) {
    exists acts :: c == Played(EMPTY, acts)
  }

  lemma {:induction false} ReachableIsSound(c: Circle)
    requires Reachable(c)
    ensures Sound(c) && PositionsOk(c.steps) && StepsMatch(c.steps, c.ledger)
  {
    var acts :| c == Played(EMPTY, acts);
    PlayKeepsSound(acts);
  }

  lemma {:induction false} ReachableForTransactions(c: Circle)
    requires Reachable(c)
    ensures PositionsOk(c.steps) && StepsMatch(c.steps, c.ledger)
  {
    ReachableIsSound(c);
  }

  lemma {:induction false} ActStaysReachable(c: Circle, a: Act)
    requires Reachable(c)
    ensures Reachable(After(c, a))
  {
    var acts :| c == Played(EMPTY, acts);
    assert (acts + [a])[..|acts|] == acts;
    assert After(c, a) == Played(EMPTY, acts + [a]);
  }

  method Transact(c: Circle, a: Act) returns (accepted: bool, c': Circle)
    requires PositionsOk(c.steps) && StepsMatch(c.steps, c.ledger)
    ensures c' == After(c, a) && (accepted <==> Attempt(c, a).Some?)
  {
    var next: Option<Circle>;
    if a.AddStep? || a.EditStep? || a.MoveStep? || a.DeleteStep? || a.PutBid? || a.WithdrawBid? || a.SelectBid? {
      next := AttemptEdit(c, a);
    } else {
      next := AttemptWork(c, a);
    }
    accepted := next.Some?;
    c' := if accepted then next.value else c;
  }

  /** The rows of one node's circle, updated in place. An act either commits or leaves every row alone. */
  class TaskCircle {
    var live: bool
    var lifecycle: Lifecycle
    var steps: Steps
    var ledger: Ledger
    var bids: Bids

    ghost predicate Valid()
      reads this
    {
      Reachable(State())
    }

    function State(): Circle
      reads this
    {
      Circle(live, lifecycle, steps, ledger, bids)
    }

    constructor ()
      ensures Valid() && State() == EMPTY
    {
      live, lifecycle, steps, ledger, bids := true, Planned, map[], map[], map[];
      new;
      assert Played(EMPTY, []) == State();
    }

    method Perform(a: Act) returns (accepted: bool)
      requires Valid()
      modifies this
      ensures Valid() && State() == After(old(State()), a)
      ensures accepted <==> Attempt(old(State()), a).Some?
    {
      var c := State();
      ReachableForTransactions(c);
      var c';
      accepted, c' := Transact(c, a);
      ActStaysReachable(c, a);
      live, lifecycle, steps, ledger, bids := c'.live, c'.lifecycle, c'.steps, c'.ledger, c'.bids;
    }
  }
}
