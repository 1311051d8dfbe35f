/** Where the two state machines meet: every act on a circle moves the lifecycle of its node along an edge that the
    workspace allows, so a workspace and its circles advance in step. */
module Lifecycles {
  import opened Wrappers
  import opened Forest
  import Commands
  import opened Circle
  import opened CircleInvariant
  import opened CircleActs

  /** The lifecycle action an accepted act performs on its node. */
  function ActionOf(a: Act, after: Circle): Option<Commands.Action> {
    match a
    case Claim(_, _, _, _, _) => Some(Commands.Start)
    case Lease(_, _, _, _, _) => Some(Commands.Start)
    case Submit(_, _) => Some(Commands.Finish(after.lifecycle.Review?))
    case Complete(_, result, _) =>
      Some(if result.Succeeded? then Commands.Finish(after.lifecycle.Review?) else Commands.Block)
    case Cancel(_, _) => Some(Commands.Block)
    case Close(_, _) => Some(Commands.Accept)
    case Return(_, _, _) => Some(Commands.SendBack)
    case ReopenTask(_, _) => Some(Commands.Reopen)
    case RetryStep(_) => Some(Commands.Retry)
    case _ => None
  }

  /** The row of node `x` says what the circle of `x` says. */
  predicate Agrees(w: Commands.Workspace, x: NodeId, c: Circle) {
    x in w.nodes && (c.live <==> Live(w.nodes, x)) && w.nodes[x].lifecycle == c.lifecycle
  }

  lemma {:induction false} CompletionLeavesActive(c: Circle, exec: ExecId, result: ExecStatus, now: int)
    requires Sound(c) && CompleteStep(c, exec, result, now).Some?
    ensures c.live && c.lifecycle.Active?
  {
    RunningStepIsStarted(c.steps, c.ledger, exec);
  }

  predicate Follows(c: Circle, c': Circle, action: Commands.Action) {
    c.live && c'.live && c.lifecycle == Commands.Source(action) && c'.lifecycle == Commands.Destination(action)
  }

  lemma {:induction false} FinishStepEdge(c: Circle, s: StepId, ledger: Ledger)
    requires s in c.steps && c.live && c.lifecycle.Active?
    ensures var c' := FinishStep(c, s, ledger); Follows(c, c', Commands.Finish(c'.lifecycle.Review?))
  {
  }

  lemma {:induction false} SubmissionFollowsEdge(c: Circle, a: Act)
    requires Attempt(c, a).Some? && a.Submit?
    ensures Follows(c, After(c, a), ActionOf(a, After(c, a)).value)
  {
    var s := First(c.steps, HeldBy(c.steps, a.actor)).value;
    FinishStepEdge(c, s, Settle(c.ledger, s, Succeeded, a.now));
  }

  lemma {:induction false} CompletionFollowsEdge(c: Circle, a: Act)
    requires Sound(c) && Attempt(c, a).Some? && a.Complete?
    ensures Follows(c, After(c, a), ActionOf(a, After(c, a)).value)
  {
    CompletionLeavesActive(c, a.exec, a.result, a.now);
    if a.result.Succeeded? {
      FinishStepEdge(c, c.ledger[a.exec].step,
                     c.ledger[a.exec := c.ledger[a.exec].(status := a.result, finishedAt := Some(a.now))]);
    }
  }

  lemma {:induction false} WorkFollowsEdge(c: Circle, a: Act)
    requires Sound(c) && Attempt(c, a).Some? && (a.Claim? || a.Lease? || a.Submit? || a.Complete? || a.Cancel?)
    ensures Follows(c, After(c, a), ActionOf(a, After(c, a)).value)
  {
    hide Sound, SubmitStep, CompleteStep;
    if a.Submit? {
      SubmissionFollowsEdge(c, a);
    } else if a.Complete? {
      CompletionFollowsEdge(c, a);
    }
  }

  lemma {:induction false} DecisionFollowsEdge(c: Circle, a: Act)
    requires Attempt(c, a).Some? && (a.Close? || a.Return? || a.ReopenTask? || a.RetryStep?)
    ensures Follows(c, After(c, a), ActionOf(a, After(c, a)).value)
  {
  }

  lemma {:induction false} EditKeepsLifecycle(c: Circle, a: Act)
    requires Attempt(c, a).Some?
    requires a.AddStep? || a.EditStep? || a.MoveStep? || a.DeleteStep? || a.PutBid? || a.WithdrawBid? || a.SelectBid?
    ensures After(c, a).lifecycle == c.lifecycle && After(c, a).live == c.live
  {
  }

  lemma {:induction false} ActFollowsEdge(c: Circle, a: Act)
    requires Sound(c) && Attempt(c, a).Some?
    ensures var action := ActionOf(a, After(c, a));
      if action.Some? then Follows(c, After(c, a), action.value)
      else After(c, a).lifecycle == c.lifecycle && (After(c, a).live == c.live || (a.SetLive? && c.lifecycle.Planned?))
  {
    if a.Claim? || a.Lease? || a.Submit? || a.Complete? || a.Cancel? {
      WorkFollowsEdge(c, a);
    } else if a.Close? || a.Return? || a.ReopenTask? || a.RetryStep? {
      DecisionFollowsEdge(c, a);
    } else if !a.SetLive? {
      EditKeepsLifecycle(c, a);
    }
  }

  lemma {:induction false} AgreesAfter(w: Commands.Workspace, x: NodeId, c: Circle, c': Circle, action: Commands.Action)
    requires Agrees(w, x, c) && Follows(c, c', action) && (action.Accept? ==> !Commands.HasOpenDescendants(w.nodes, x))
    ensures var (reply, w') := Commands.AdvanceNode(w, x, action); reply.Done? && Agrees(w', x, c')
  {
  }

  /** An accepted act is an accepted lifecycle command of the workspace, and row and circle agree again afterwards. A
      closing act must have looked at the live work below the node. */
  lemma {:induction false} ActAdvancesNode(w: Commands.Workspace, x: NodeId, c: Circle, a: Act)
    requires Sound(c) && Agrees(w, x, c) && Attempt(c, a).Some? && ActionOf(a, After(c, a)).Some?
    requires a.Close? ==> (a.openBelow <==> Commands.HasOpenDescendants(w.nodes, x))
    ensures var (reply, w') := Commands.AdvanceNode(w, x, ActionOf(a, After(c, a)).value);
      reply.Done? && Agrees(w', x, After(c, a))
  {
    ActFollowsEdge(c, a);
    assert ActionOf(a, After(c, a)).value.Accept? ==> a.Close? && !a.openBelow;
    AgreesAfter(w, x, c, After(c, a), ActionOf(a, After(c, a)).value);
  }
}
