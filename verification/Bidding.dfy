/** The bid protocol of a step: who wins, and what nobody can change between the selection and the winner's start. */
module Bidding {
  import opened Wrappers
  import opened Forest
  import opened Circle
  import opened CircleInvariant
  import opened CircleActs
  import opened Renumbering

  // ----- the winner -----

  function OfferedBy(bids: Bids, s: StepId): set<ActorId> {
    set b | b in bids && b.0 == s && bids[b].status.Offered? :: b.1
  }

  lemma {:induction false} BeatsIsTotal(a: ActorId, x: Bid, b: ActorId, y: Bid)
    ensures Beats(a, x, b, y) || Beats(b, y, a, x)
    ensures Beats(a, x, b, y) && Beats(b, y, a, x) ==> a == b
  {
  }

  ghost predicate WinsAmong(bids: Bids, s: StepId, among: set<ActorId>, a: ActorId) {
    a in among && (s, a) in bids && forall b :: b in among && (s, b) in bids ==> Beats(a, bids[(s, a)], b, bids[(s, b)])
  }

  lemma {:induction false} SomeoneWinsAmong(bids: Bids, s: StepId, among: set<ActorId>)
    requires among != {} && forall a :: a in among ==> (s, a) in bids
    ensures exists a :: WinsAmong(bids, s, among, a)
  {
    var x :| x in among;
    if among == {x} {
      assert WinsAmong(bids, s, among, x);
    } else {
      var rest := among - {x};
      assert among == rest + {x} && rest != {};
      SomeoneWinsAmong(bids, s, rest);
      var y :| WinsAmong(bids, s, rest, y);
      BeatsIsTotal(x, bids[(s, x)], y, bids[(s, y)]);
      var best := if Beats(x, bids[(s, x)], y, bids[(s, y)]) then x else y;
      assert WinsAmong(bids, s, among, best);
    }
  }

  /** As soon as one bid is offered there is exactly one winner, whatever order the rows are read in. */
  lemma {:induction false} ExactlyOneWinner(bids: Bids, s: StepId)
    ensures OfferedBy(bids, s) != {} <==> exists a :: IsWinner(bids, s, a)
    ensures forall a, b :: IsWinner(bids, s, a) && IsWinner(bids, s, b) ==> a == b
  {
    var offered := OfferedBy(bids, s);
    forall a ensures a in offered <==> (s, a) in bids && bids[(s, a)].status.Offered? {
      if (s, a) in bids && bids[(s, a)].status.Offered? {
        assert (s, a).1 in offered;
      }
    }
    if offered != {} {
      SomeoneWinsAmong(bids, s, offered);
      var a :| WinsAmong(bids, s, offered, a);
      assert IsWinner(bids, s, a);
    }
    forall a, b | IsWinner(bids, s, a) && IsWinner(bids, s, b) ensures a == b {
      BeatsIsTotal(a, bids[(s, a)], b, bids[(s, b)]);
    }
  }

  // ----- selection -----

  /** Step `s` is bound to actor `w` by a won bid of `promise` minutes, and nobody else is bidding. */
  ghost predicate Bound(c: Circle, s: StepId, w: ActorId, promise: nat) {
    && Has(c.steps, s, Assigned) && c.steps[s].claimedBy == Some(w) && c.steps[s].selectedBid == Some(w)
    && (s, w) in c.bids && c.bids[(s, w)].status.Won? && c.bids[(s, w)].promise == promise
    && forall a :: (s, a) in c.bids ==> !c.bids[(s, a)].status.Offered?
  }

  /** Selection succeeds exactly when bids can be closed; it binds the step to the winner among the offered bids, which
      become won or lost, and touches nothing else. */
  lemma {:induction false} SelectionBindsTheWinner(c: Circle, s: StepId, requester: bool, policy: Mode, w: ActorId)
    requires IsWinner(c.bids, s, w) && BidSelected(c, s, requester, policy).Some?
    ensures var c' := BidSelected(c, s, requester, policy).value;
      && Bound(c', s, w, c.bids[(s, w)].promise)
      && c'.bids.Keys == c.bids.Keys
      && (forall b :: b in c.bids ==>
            c'.bids[b] == if b.0 == s && c.bids[b].status.Offered? then
                            c.bids[b].(status := if b.1 == w then Won else Lost)
                          else c.bids[b])
      && (forall t :: t != s ==> (t in c'.steps <==> t in c.steps) && (t in c.steps ==> c'.steps[t] == c.steps[t]))
      && c'.ledger == c.ledger && c'.lifecycle == c.lifecycle && c'.live == c.live
  {
    ExactlyOneWinner(c.bids, s);
  }

  /** The step goes to the shortest promise on offer; among equal promises to the earliest submission, and among those
      to the smallest actor id. */
  lemma {:induction false} SelectionTakesTheShortest(c: Circle, s: StepId, requester: bool, policy: Mode)
    returns (w: ActorId)
    requires BidSelected(c, s, requester, policy).Some?
    ensures BidSelected(c, s, requester, policy).value.steps[s].claimedBy == Some(w)
    ensures (s, w) in c.bids && c.bids[(s, w)].status.Offered?
    ensures forall b :: (s, b) in c.bids && c.bids[(s, b)].status.Offered? ==>
      var x, y := c.bids[(s, w)], c.bids[(s, b)];
      && x.promise <= y.promise
      && (x.promise == y.promise ==> x.submittedAt <= y.submittedAt)
      && (x.promise == y.promise && x.submittedAt == y.submittedAt ==> w <= b)
  {
    w := BidSelected(c, s, requester, policy).value.steps[s].claimedBy.value;
  }

  lemma {:induction false} SelectionNeedsABid(c: Circle, s: StepId, requester: bool, policy: Mode)
    requires Sound(c) && s in c.steps
    ensures BidSelected(c, s, requester, policy).Some? <==>
      && requester && c.steps[s].kind.Human? && c.steps[s].status.Ready? && Effective(c.steps[s].mode, policy).Exchange?
      && OfferedBy(c.bids, s) != {}
  {
    ExactlyOneWinner(c.bids, s);
    assert HolderOk(c.steps[s], s, c.bids);
  }

  /** A bid keeps its place in the queue for ever, and only its own actor changes its promise or offers it again:
      bidding anew keeps the first submission time. */
  lemma {:induction false} BidsBelongToTheirActor(c: Circle, a: Act, s: StepId, actor: ActorId)
    requires (s, actor) in c.bids
    ensures var c' := After(c, a);
      || (a.DeleteStep? && a.id == s)
      || (&& (s, actor) in c'.bids
          && c'.bids[(s, actor)].submittedAt == c.bids[(s, actor)].submittedAt
          && ((a.PutBid? && a.id == s && a.actor == actor) ||
              (c'.bids[(s, actor)].promise == c.bids[(s, actor)].promise &&
               (c'.bids[(s, actor)].status.Offered? ==> c.bids[(s, actor)].status.Offered?))))
  {
  }

  // ----- from selection to start -----

  /** A bound step is the current one, so it is the one a claim looks at. */
  lemma {:induction false} BoundStepIsFirst(c: Circle, s: StepId, w: ActorId, promise: nat)
    requires OneCurrent(c.steps) && Bound(c, s, w, promise)
    ensures First(c.steps, Claimable(c.steps)) == Some(s)
  {
    assert s in Claimable(c.steps) * c.steps.Keys;
  }

  /** The winner started: a new running execution of the step carries the winning promise. */
  ghost predicate StartedOn(c: Circle, c': Circle, a: Act, s: StepId, w: ActorId, promise: nat) {
    && a.Claim? && a.actor == w && Has(c'.steps, s, Started)
    && a.exec !in c.ledger && Runs(c'.ledger, a.exec, s)
    && c'.ledger[a.exec].startedBy == w && c'.ledger[a.exec].promise == Some(promise)
  }

  lemma {:induction false} ClaimOfBoundStep(c: Circle, a: Act, s: StepId, w: ActorId, promise: nat)
    requires Sound(c) && Bound(c, s, w, promise) && a.Claim? && Attempt(c, a).Some?
    ensures StartedOn(c, After(c, a), a, s, w, promise)
  {
    BoundStepIsFirst(c, s, w, promise);
  }

  lemma {:induction false} BoundMeansPlanned(c: Circle, s: StepId, w: ActorId, promise: nat)
    requires Sound(c) && Bound(c, s, w, promise)
    ensures c.lifecycle.Planned? && OneCurrent(c.steps) && forall t :: t in c.steps && t != s ==> !Current(c.steps[t])
  {
    OthersNotCurrent(c.steps, s);
    ReadyStepMeansPlanned(c, s);
  }

  lemma {:induction false} NothingRunsWhileBound(c: Circle, s: StepId, w: ActorId, promise: nat, e: ExecId)
    requires Sound(c) && Bound(c, s, w, promise) && e in c.ledger
    ensures !c.ledger[e].status.Running?
  {
    if c.ledger[e].status.Running? {
      RunningStepIsStarted(c.steps, c.ledger, e);
      OthersNotCurrent(c.steps, s);
    }
  }

  lemma {:induction false} NothingReadyWhileBound(c: Circle, a: Act, s: StepId)
    requires Has(c.steps, s, Assigned) && (forall t :: t in c.steps && t != s ==> !Current(c.steps[t])) && a.Lease?
    ensures Attempt(c, a).None?
  {
    assert With(c.steps, Ready) == {};
  }

  lemma {:induction false} PlannedRefuses(c: Circle, a: Act)
    requires c.lifecycle.Planned? && (a.Submit? || a.Cancel? || a.RetryStep? || a.Close? || a.Return? || a.ReopenTask?)
    ensures Attempt(c, a).None?
  {
  }

  lemma {:induction false} CompletionNeedsRunning(c: Circle, a: Act)
    requires a.Complete? && (a.exec in c.ledger ==> !c.ledger[a.exec].status.Running?)
    ensures Attempt(c, a).None?
  {
  }

  /** Work acts other than a claim need a step in another state, so they are refused on a circle with a bound step. */
  lemma {:induction false} BoundRefuses(c: Circle, a: Act, s: StepId, w: ActorId, promise: nat)
    requires Sound(c) && Bound(c, s, w, promise)
    requires a.Submit? || a.Complete? || a.Lease? || a.Cancel? || a.RetryStep? || a.Close? || a.Return? || a.ReopenTask?
    ensures Attempt(c, a).None?
  {
    BoundMeansPlanned(c, s, w, promise);
    if a.Complete? {
      if a.exec in c.ledger {
        NothingRunsWhileBound(c, s, w, promise, a.exec);
      }
      CompletionNeedsRunning(c, a);
    } else if a.Lease? {
      NothingReadyWhileBound(c, a, s);
    } else {
      PlannedRefuses(c, a);
    }
  }

  lemma {:induction false} BidsOfBoundStepStay(c: Circle, a: Act, s: StepId, w: ActorId, promise: nat)
    requires Sound(c) && Bound(c, s, w, promise) && (a.PutBid? || a.WithdrawBid? || a.SelectBid?)
    ensures Bound(After(c, a), s, w, promise)
  {
    OthersNotCurrent(c.steps, s);
  }

  lemma {:induction false} OtherDeletionKeepsBound(c: Circle, id: StepId, check: Check, s: StepId, w: ActorId,
                                                   promise: nat)
    requires Bound(c, s, w, promise) && DeletedStep(c, id, check).Some? && id != s
    ensures Bound(DeletedStep(c, id, check).value, s, w, promise)
  {
    DeletionIs(c, id, check);
  }

  lemma {:induction false} DeletionKeepsBound(c: Circle, a: Act, s: StepId, w: ActorId, promise: nat)
    requires Bound(c, s, w, promise) && a.DeleteStep?
    ensures Bound(After(c, a), s, w, promise) || (a.id == s && s !in After(c, a).steps)
  {
    if Attempt(c, a).Some? {
      if a.id == s {
        DeletionIs(c, a.id, a.check);
      } else {
        OtherDeletionKeepsBound(c, a.id, a.check, s, w, promise);
      }
    }
  }

  lemma {:induction false} RouteEditsKeepBound(c: Circle, a: Act, s: StepId, w: ActorId, promise: nat)
    requires Bound(c, s, w, promise) && (a.AddStep? || a.EditStep? || a.MoveStep? || a.SetLive?)
    ensures Bound(After(c, a), s, w, promise)
  {
  }

  /** No act can change the winner or the promise of a bound step: it stays bound, or it is deleted, or its winner
      starts on exactly that promise. */
  lemma {:induction false} ActKeepsBound(c: Circle, a: Act, s: StepId, w: ActorId, promise: nat)
    requires Sound(c) && Bound(c, s, w, promise)
    ensures var c' := After(c, a);
      || Bound(c', s, w, promise)
      || (a.DeleteStep? && a.id == s && s !in c'.steps)
      || StartedOn(c, c', a, s, w, promise)
  {
    hide Sound, Bound, Attempt, StartedOn;
    if a.PutBid? || a.WithdrawBid? || a.SelectBid? {
      BidsOfBoundStepStay(c, a, s, w, promise);
    } else if a.AddStep? || a.EditStep? || a.MoveStep? || a.SetLive? {
      RouteEditsKeepBound(c, a, s, w, promise);
    } else if a.Claim? {
      if Attempt(c, a).Some? {
        ClaimOfBoundStep(c, a, s, w, promise);
      }
    } else if a.DeleteStep? {
      DeletionKeepsBound(c, a, s, w, promise);
    } else {
      BoundRefuses(c, a, s, w, promise);
    }
  }

  ghost predicate Held(c: Circle, s: StepId, w: ActorId, promise: nat) {
    Sound(c) && Bound(c, s, w, promise)
  }

  ghost predicate HeldUntil(c: Circle, acts: seq<Act>, i: nat, s: StepId, w: ActorId, promise: nat) {
    i <= |acts| && forall j :: 0 <= j <= i ==> Held(Played(c, acts[..j]), s, w, promise)
  }

  lemma {:induction false} HeldLonger(c: Circle, acts: seq<Act>, i: nat, s: StepId, w: ActorId, promise: nat)
    requires acts != [] && HeldUntil(c, acts[..|acts| - 1], i, s, w, promise)
    ensures HeldUntil(c, acts, i, s, w, promise)
    ensures i == |acts| - 1 && Held(Played(c, acts), s, w, promise) ==> HeldUntil(c, acts, i + 1, s, w, promise)
  {
    hide Held, After;
    var earlier := acts[..|acts| - 1];
    forall j | 0 <= j <= i ensures Held(Played(c, acts[..j]), s, w, promise) {
      assert acts[..j] == earlier[..j];
    }
    assert acts[..|acts|] == acts;
  }

  lemma {:induction false} ActKeepsHeld(c: Circle, a: Act, s: StepId, w: ActorId, promise: nat)
    requires Held(c, s, w, promise)
    ensures Held(After(c, a), s, w, promise) || (a.DeleteStep? && a.id == s) ||
      StartedOn(c, After(c, a), a, s, w, promise)
  {
    hide Sound, Bound, StartedOn, After;
    ActKeepsBound(c, a, s, w, promise);
    ActKeepsSound(c, a);
  }

  /** From selection on, the step stays bound to the winner until it is deleted or the winner starts; the execution
      then carries exactly the promise that was selected. */
  lemma {:induction false} WinnerStartsOnThePromise(c: Circle, acts: seq<Act>, s: StepId, w: ActorId, promise: nat)
    returns (i: nat)
    requires Held(c, s, w, promise)
    ensures HeldUntil(c, acts, i, s, w, promise)
    ensures i == |acts| || (acts[i].DeleteStep? && acts[i].id == s) ||
      StartedOn(Played(c, acts[..i]), After(Played(c, acts[..i]), acts[i]), acts[i], s, w, promise)
  {
    hide Held, StartedOn, After;
    if acts == [] {
      i := 0;
    } else {
      var earlier := acts[..|acts| - 1];
      i := WinnerStartsOnThePromise(c, earlier, s, w, promise);
      HeldLonger(c, acts, i, s, w, promise);
      assert acts[..i] == earlier[..i];
      if i == |earlier| {
        assert earlier[..i] == earlier;
        ActKeepsHeld(Played(c, earlier), acts[i], s, w, promise);
        i := if Held(Played(c, acts), s, w, promise) then i + 1 else i;
      }
    }
  }

  /** Either the step is held to the end, or its hold ended by deletion or by the holder's start on the promise. */
  ghost predicate HeldOrStarted(c: Circle, acts: seq<Act>, i: nat, s: StepId, w: ActorId, promise: nat) {
    && i <= |acts|
    && (i == |acts| ==> Has(Played(c, acts).steps, s, Assigned) && Played(c, acts).steps[s].claimedBy == Some(w))
    && (i < |acts| ==>
      || (acts[i].DeleteStep? && acts[i].id == s)
      || (&& acts[i].Claim? && acts[i].actor == w
          && var d := After(Played(c, acts[..i]), acts[i]);
            && Runs(d.ledger, acts[i].exec, s) && d.ledger[acts[i].exec].startedBy == w
            && d.ledger[acts[i].exec].promise == Some(promise)))
  }

  lemma {:induction false} HeldStepIsStarted(c: Circle, acts: seq<Act>, s: StepId, w: ActorId, promise: nat)
    returns (i: nat)
    requires Held(c, s, w, promise)
    ensures HeldOrStarted(c, acts, i, s, w, promise)
  {
    hide Held, HeldUntil, StartedOn, Played, After;
    i := WinnerStartsOnThePromise(c, acts, s, w, promise);
    assert acts[..|acts|] == acts;
    HeldAt(c, acts, i, s, w, promise);
    HeldTells(Played(c, acts[..i]), s, w, promise);
    if i < |acts| && !(acts[i].DeleteStep? && acts[i].id == s) {
      StartTells(Played(c, acts[..i]), After(Played(c, acts[..i]), acts[i]), acts[i], s, w, promise);
    }
  }

  lemma {:induction false} HeldAt(c: Circle, acts: seq<Act>, i: nat, s: StepId, w: ActorId, promise: nat)
    requires HeldUntil(c, acts, i, s, w, promise)
    ensures i <= |acts| && Held(Played(c, acts[..i]), s, w, promise)
  {
    hide Held, Played;
  }

  lemma {:induction false} HeldTells(c: Circle, s: StepId, w: ActorId, promise: nat)
    requires Held(c, s, w, promise)
    ensures Has(c.steps, s, Assigned) && c.steps[s].claimedBy == Some(w)
  {
    hide Sound;
  }

  lemma {:induction false} StartTells(c: Circle, c': Circle, a: Act, s: StepId, w: ActorId, promise: nat)
    requires StartedOn(c, c', a, s, w, promise)
    ensures a.Claim? && a.actor == w && Runs(c'.ledger, a.exec, s)
    ensures c'.ledger[a.exec].startedBy == w && c'.ledger[a.exec].promise == Some(promise)
  {
    hide Sound;
  }

  /** A selection seen through to the start, over any run: as long as the step is not deleted it stays with the holder
      of the shortest promise, and the execution that holder starts carries a promise no longer than any that was
      offered. */
  lemma {:induction false} ShortestPromiseIsStarted(acts: seq<Act>, s: StepId, requester: bool, policy: Mode,
                                                    more: seq<Act>)
    returns (w: ActorId, i: nat)
    requires BidSelected(Played(EMPTY, acts), s, requester, policy).Some?
    ensures var c := Played(EMPTY, acts);
      var c' := BidSelected(c, s, requester, policy).value;
      && c'.steps[s].claimedBy == Some(w) && (s, w) in c.bids
      && (forall b :: (s, b) in c.bids && c.bids[(s, b)].status.Offered? ==>
        c.bids[(s, w)].promise <= c.bids[(s, b)].promise)
      && HeldOrStarted(c', more, i, s, w, c.bids[(s, w)].promise)
  {
    var c := Played(EMPTY, acts);
    var c' := BidSelected(c, s, requester, policy).value;
    w := SelectionTakesTheShortest(c, s, requester, policy);
    PlayKeepsSound(acts);
    SelectKeepsSound(c, s, requester, policy);
    SelectedIsBound(c, s, requester, policy, w);
    hide Sound, Played, BidSelected, Bound, HeldOrStarted;
    i := HeldStepIsStarted(c', more, s, w, c.bids[(s, w)].promise);
  }

  lemma {:induction false} SelectedIsBound(c: Circle, s: StepId, requester: bool, policy: Mode, w: ActorId)
    requires BidSelected(c, s, requester, policy).Some? && (s, w) in c.bids
    requires BidSelected(c, s, requester, policy).value.steps[s].claimedBy == Some(w)
    ensures Bound(BidSelected(c, s, requester, policy).value, s, w, c.bids[(s, w)].promise)
  {
    assert IsWinner(c.bids, s, w);
    SelectionBindsTheWinner(c, s, requester, policy, w);
  }
}
