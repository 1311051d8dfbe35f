/** Whose promise an execution carries. A return or a reopening leaves the selected bid on the step, so the promise of
    an earlier winner is handed to whoever starts the step next. */
module Promises {
  import opened Wrappers
  import opened Forest
  import opened Circle
  import opened CircleInvariant
  import opened CircleActs
  import opened Bidding
  import opened Renumbering

  // ----- what became of the last selection -----

  /** The history of a step: no selection yet, or the winner of the last one and whether the step was opened again
      since. */
  datatype Trail = Untendered | Tendered(winner: ActorId, reopened: bool)

  function OpenedAgain(t: Trail): Trail {
    match t
    case Untendered => Untendered
    case Tendered(w, _) => Tendered(w, true)
  }

  /** A return opens its step and everything behind it, a reopening the last step. */
  ghost predicate Opens(c: Circle, a: Act, s: StepId) {
    || (a.Return? && a.id in c.steps && s in c.steps && c.steps[s].position >= c.steps[a.id].position)
    || (a.ReopenTask? && IsLast(c.steps, s))
  }

  ghost function Traced(t: Trail, c: Circle, a: Act, s: StepId): Trail {
    if Attempt(c, a).None? then t
    else if a.DeleteStep? && a.id == s then Untendered
    else if a.SelectBid? && a.id == s then
      if w :| IsWinner(c.bids, s, w) then Tendered(w, false) else t
    else if Opens(c, a, s) then OpenedAgain(t)
    else t
  }

  ghost function TrailOf(acts: seq<Act>, s: StepId): Trail {
    if acts == [] then Untendered
    else
      var earlier := acts[..|acts| - 1];
      Traced(TrailOf(earlier, s), Played(EMPTY, earlier), acts[|acts| - 1], s)
  }

  function WonBy(t: Trail): Option<ActorId> {
    match t
    case Untendered => None
    case Tendered(w, _) => Some(w)
  }

  predicate Idle(st: WorkStep) {
    st.status.Ready? || st.status.Pending?
  }

  /** What a step shows of its history. */
  predicate Tells(st: WorkStep, t: Trail) {
    && st.selectedBid == WonBy(t)
    && (t.Tendered? ==> st.kind.Human? && (Idle(st) ==> t.reopened) && (st.status.Assigned? ==> !t.reopened))
  }

  ghost predicate Shown(c: Circle, s: StepId, t: Trail) {
    if s in c.steps then Tells(c.steps[s], t) else t.Untendered?
  }

  // ----- every act keeps the history readable -----

  /** Neither selected nor opened again: the bid stays, and only an automated step becomes idle. */
  predicate Quiet(st: WorkStep, st': WorkStep) {
    && st'.selectedBid == st.selectedBid && st'.kind == st.kind
    && (Idle(st') ==> Idle(st) || !st.kind.Human?)
    && (st'.status.Assigned? ==> st.status.Assigned?)
  }

  ghost predicate QuietFor(c: Circle, c': Circle, s: StepId) {
    s in c.steps && s in c'.steps && Quiet(c.steps[s], c'.steps[s])
  }

  lemma {:induction false} StartIsQuiet(c: Circle, a: Act, s: StepId)
    requires s in c.steps && Attempt(c, a).Some? && (a.Claim? || a.Lease?)
    ensures QuietFor(c, After(c, a), s)
  {
  }

  lemma {:induction false} FinishIsQuiet(c: Circle, t: StepId, ledger: Ledger, s: StepId)
    requires s in c.steps && t in c.steps
    ensures QuietFor(c, FinishStep(c, t, ledger), s)
  {
  }

  lemma {:induction false} EndIsQuiet(c: Circle, a: Act, s: StepId)
    requires s in c.steps && Attempt(c, a).Some? && (a.Submit? || a.Complete? || a.Cancel? || a.RetryStep? || a.Close?)
    ensures QuietFor(c, After(c, a), s)
  {
    if a.Submit? {
      var t := First(c.steps, HeldBy(c.steps, a.actor)).value;
      FinishIsQuiet(c, t, Settle(c.ledger, t, Succeeded, a.now), s);
    } else if a.Complete? && a.result.Succeeded? {
      FinishIsQuiet(c, c.ledger[a.exec].step, After(c, a).ledger, s);
    }
  }

  lemma {:induction false} EditIsQuiet(c: Circle, a: Act, s: StepId)
    requires s in c.steps && Attempt(c, a).Some? && !(a.DeleteStep? && a.id == s) && !(a.SelectBid? && a.id == s)
    requires a.AddStep? || a.EditStep? || a.MoveStep? || a.DeleteStep? || a.PutBid? || a.WithdrawBid? || a.SelectBid? ||
      a.SetLive?
    ensures QuietFor(c, After(c, a), s)
  {
    if a.MoveStep? {
      var other := MoveIs(c, a.id, a.later, a.check);
    } else if a.DeleteStep? {
      DeletionIs(c, a.id, a.check);
    }
  }

  lemma {:induction false} OpeningShows(c: Circle, a: Act, s: StepId, t: Trail)
    requires PositionsOk(c.steps) && s in c.steps && Tells(c.steps[s], t) && Attempt(c, a).Some? &&
      (a.Return? || a.ReopenTask?)
    ensures Shown(After(c, a), s, if Opens(c, a, s) then OpenedAgain(t) else t)
  {
  }

  lemma {:induction false} SelectionShows(c: Circle, a: Act, s: StepId, t: Trail)
    requires Attempt(c, a).Some? && a.SelectBid? && a.id == s
    ensures Shown(After(c, a), s, Traced(t, c, a, s))
  {
    ExactlyOneWinner(c.bids, s);
  }

  lemma {:induction false} NewStepShows(c: Circle, a: Act, s: StepId)
    requires s !in c.steps
    ensures Traced(Untendered, c, a, s).Untendered? && Shown(After(c, a), s, Untendered)
  {
    if Attempt(c, a).Some? {
      if a.MoveStep? {
        var other := MoveIs(c, a.id, a.later, a.check);
      } else if a.DeleteStep? {
        DeletionIs(c, a.id, a.check);
      }
    }
  }

  lemma {:induction false} QuietShows(c: Circle, a: Act, s: StepId, t: Trail)
    requires QuietFor(c, After(c, a), s) && Tells(c.steps[s], t)
    ensures Shown(After(c, a), s, t)
  {
    hide Attempt, After;
  }

  lemma {:induction false} DeletedShows(c: Circle, a: Act, s: StepId)
    requires a.DeleteStep? && a.id == s && Attempt(c, a).Some?
    ensures Shown(After(c, a), s, Untendered)
  {
    DeletionIs(c, s, a.check);
  }

  lemma {:induction false} ActShows(c: Circle, a: Act, s: StepId, t: Trail)
    requires PositionsOk(c.steps) && Shown(c, s, t)
    ensures Shown(After(c, a), s, Traced(t, c, a, s))
  {
    hide Attempt, PositionsOk, Tells, QuietFor, OpenedAgain, IsWinner, IsLast;
    if Attempt(c, a).Some? {
      if s !in c.steps {
        NewStepShows(c, a, s);
      } else if a.SelectBid? && a.id == s {
        SelectionShows(c, a, s, t);
      } else if a.DeleteStep? && a.id == s {
        DeletedShows(c, a, s);
      } else if a.Return? || a.ReopenTask? {
        OpeningShows(c, a, s, t);
      } else if a.Claim? || a.Lease? {
        StartIsQuiet(c, a, s);
        QuietShows(c, a, s, t);
      } else if a.Submit? || a.Complete? || a.Cancel? || a.RetryStep? || a.Close? {
        EndIsQuiet(c, a, s);
        QuietShows(c, a, s, t);
      } else {
        EditIsQuiet(c, a, s);
        QuietShows(c, a, s, t);
      }
    }
  }

  /** After any acts a step names exactly the winner of its last selection, if it had one. It is idle with that bid only
      after it was opened again, and assigned only if it was not. */
  lemma {:induction false} StepShowsItsTrail(acts: seq<Act>, s: StepId)
    ensures Shown(Played(EMPTY, acts), s, TrailOf(acts, s))
  {
    if acts != [] {
      var earlier := acts[..|acts| - 1];
      StepShowsItsTrail(earlier, s);
      PlayKeepsSound(earlier);
      ActShows(Played(EMPTY, earlier), acts[|acts| - 1], s, TrailOf(earlier, s));
    }
  }

  /** A ready step names a bid exactly if it was selected, then opened again by a return or a reopening, and not
      selected since. */
  lemma {:induction false} ReadyStepNamesABidExactlyWhen(acts: seq<Act>, s: StepId)
    requires Has(Played(EMPTY, acts).steps, s, Ready)
    ensures Played(EMPTY, acts).steps[s].selectedBid.Some? <==> exists w :: TrailOf(acts, s) == Tendered(w, true)
  {
    StepShowsItsTrail(acts, s);
  }

  // ----- whose promise -----

  lemma {:induction false} ClaimTakesTheBid(c: Circle, a: Act)
    requires Sound(c) && a.Claim? && Attempt(c, a).Some?
    ensures a.exec in After(c, a).ledger
    ensures var row := After(c, a).ledger[a.exec];
      && row.startedBy == a.actor && row.step in c.steps && row.bid == c.steps[row.step].selectedBid
      && (match row.bid
          case None => row.promise.None?
          case Some(w) => (row.step, w) in c.bids && row.promise == Some(c.bids[(row.step, w)].promise))
      && (c.steps[row.step].status.Ready? || (c.steps[row.step].status.Assigned? && row.bid == Some(a.actor)))
  {
    var s := First(c.steps, Claimable(c.steps)).value;
    assert HolderOk(c.steps[s], s, c.bids);
  }

  /** A claim starts on the promise of the last selection's winner. It is somebody else's promise exactly if the step
      was selected for somebody else, opened again since, and not selected again. */
  lemma {:induction false} PromiseIsSomebodyElsesExactlyWhen(acts: seq<Act>, a: Act)
    requires a.Claim? && Attempt(Played(EMPTY, acts), a).Some?
    ensures a.exec in After(Played(EMPTY, acts), a).ledger
    ensures var c := Played(EMPTY, acts);
      var row := After(c, a).ledger[a.exec];
      && row.startedBy == a.actor && row.bid == WonBy(TrailOf(acts, row.step))
      && (match row.bid
          case None => row.promise.None?
          case Some(w) => (row.step, w) in c.bids && row.promise == Some(c.bids[(row.step, w)].promise))
      && (row.bid.Some? && row.bid != Some(row.startedBy) <==>
          exists w :: w != a.actor && TrailOf(acts, row.step) == Tendered(w, true))
  {
    PlayKeepsSound(acts);
    var c := Played(EMPTY, acts);
    hide Sound, Attempt, Played, TrailOf;
    ClaimTakesTheBid(c, a);
    StepShowsItsTrail(acts, After(c, a).ledger[a.exec].step);
  }

  // ----- a concrete run -----

  /** A circle of one step. */
  predicate Solo(c: Circle, lifecycle: Lifecycle, st: WorkStep) {
    c.live && c.lifecycle == lifecycle && c.steps == map[1 := st]
  }

  lemma {:induction false} SoloFirst(steps: Steps, among: set<StepId>, st: WorkStep)
    requires steps == map[1 := st]
    ensures First(steps, among) == if 1 in among then Some(1) else None
  {
    if 1 in among {
      assert 1 in among * steps.Keys;
    }
  }

  lemma {:induction false} SoloClaim(c: Circle, st: WorkStep, actor: ActorId, skills: set<nat>, policy: Mode,
                                     exec: ExecId, now: int)
    requires Solo(c, Planned, st) && MayClaim(st, actor, skills, policy) && exec !in c.ledger
    ensures ClaimStep(c, actor, skills, policy, exec, now) ==
      Some(StartStep(c, 1, actor, exec, c.steps[1].selectedBid, PromiseOf(c, 1), now))
    ensures Solo(StartStep(c, 1, actor, exec, c.steps[1].selectedBid, PromiseOf(c, 1), now), Active,
                 st.(status := Started, claimedBy := Some(actor)))
  {
    SoloFirst(c.steps, Claimable(c.steps), st);
  }

  lemma {:induction false} SoloSubmit(c: Circle, st: WorkStep, actor: ActorId, exec: ExecId, now: int)
    requires Solo(c, Active, st) && st.status.Started? && st.claimedBy == Some(actor)
    requires exec in c.ledger && c.ledger.Keys == {exec} && Runs(c.ledger, exec, 1)
    ensures SubmitStep(c, actor, now).Some?
    ensures var c' := SubmitStep(c, actor, now).value;
      Solo(c', Review, st.(status := Completed)) && c'.bids == c.bids && c'.ledger.Keys == {exec}
  {
    SoloFirst(c.steps, HeldBy(c.steps, actor), st);
    assert RunningOf(c.ledger, 1) == {exec};
    var done := c.steps[1 := c.steps[1].(status := Completed)];
    SoloFirst(done, With(done, Pending), st.(status := Completed));
  }

  const TENDERED := WorkStep(1, Human, Ready, None, None, Exchange, {7})

  /** Actor 10 wins the step, does it, and gets it back; the step is then opened to anyone and actor 11 takes it. */
  const HANDOVER := [
    AddStep(1, Human, Exchange, {7}), PutBid(1, 10, 30, {7}, Exchange, 0), SelectBid(1, true, Exchange),
    Claim(10, {7}, Exchange, 100, 0), Submit(10, 60), Return(true, 1, 70), EditStep(1, Some(Simple), {7}),
    Claim(11, {7}, Simple, 101, 80)]

  lemma {:induction false} HandoverIsTendered() returns (c: Circle)
    ensures c == After(After(EMPTY, HANDOVER[0]), HANDOVER[1])
    ensures Solo(c, Planned, TENDERED) && c.bids == map[(1, 10) := Bid(30, Offered, 0)] && c.ledger == map[]
  {
    assert Positions(map[]) == {};
    var c1 := After(EMPTY, HANDOVER[0]);
    assert Solo(c1, Planned, TENDERED);
    c := After(c1, HANDOVER[1]);
  }

  lemma {:induction false} HandoverOpens() returns (c: Circle)
    ensures c == After(After(After(EMPTY, HANDOVER[0]), HANDOVER[1]), HANDOVER[2])
    ensures Solo(c, Planned, TENDERED.(status := Assigned, claimedBy := Some(10), selectedBid := Some(10)))
    ensures c.bids == map[(1, 10) := Bid(30, Won, 0)] && c.ledger == map[]
  {
    var c2 := HandoverIsTendered();
    hide AddedStep, BidPut;
    assert IsWinner(c2.bids, 1, 10);
    c := After(c2, HANDOVER[2]);
    SelectionBindsTheWinner(c2, 1, true, Exchange, 10);
  }

  lemma {:induction false} HandoverIsDone(c: Circle) returns (c': Circle)
    requires Solo(c, Planned, TENDERED.(status := Assigned, claimedBy := Some(10), selectedBid := Some(10)))
    requires c.bids == map[(1, 10) := Bid(30, Won, 0)] && c.ledger == map[]
    ensures c' == After(After(c, HANDOVER[3]), HANDOVER[4])
    ensures Solo(c', Review, TENDERED.(status := Completed, claimedBy := Some(10), selectedBid := Some(10)))
    ensures c'.bids == c.bids && c'.ledger.Keys == {100}
  {
    SoloClaim(c, c.steps[1], 10, {7}, Exchange, 100, 0);
    hide ClaimStep;
    var c4 := After(c, HANDOVER[3]);
    assert c4.ledger.Keys == {100};
    hide SubmitStep, StartStep;
    SoloSubmit(c4, c4.steps[1], 10, 100, 60);
    c' := After(c4, HANDOVER[4]);
  }

  lemma {:induction false} HandoverReturns(c: Circle)
    requires Solo(c, Review, TENDERED.(status := Completed, claimedBy := Some(10), selectedBid := Some(10)))
    ensures var c' := After(c, HANDOVER[5]);
      Solo(c', Planned, TENDERED.(selectedBid := Some(10))) && c'.bids == c.bids && c'.ledger.Keys == c.ledger.Keys
  {
  }

  lemma {:induction false} HandoverEnds(c: Circle)
    requires Solo(c, Planned, TENDERED.(selectedBid := Some(10)))
    requires c.bids == map[(1, 10) := Bid(30, Won, 0)] && c.ledger.Keys == {100}
    ensures var c' := After(After(c, HANDOVER[6]), HANDOVER[7]);
      && c'.bids == c.bids
      && 101 in c'.ledger && c'.ledger[101].startedBy == 11 &&
         c'.ledger[101].bid == Some(10) && c'.ledger[101].promise == Some(30)
  {
    var c7 := After(c, HANDOVER[6]);
    SoloClaim(c7, c7.steps[1], 11, {7}, Simple, 101, 80);
  }

  /** A promise can end up with an actor who never made it: a return does not forget the selected bid. */
  lemma {:induction false} ReturnedStepCarriesOldPromise()
    ensures var c := Played(EMPTY, HANDOVER);
      && 101 in c.ledger && c.ledger[101].startedBy == 11 && c.ledger[101].bid == Some(10) &&
        c.ledger[101].promise == Some(30)
      && (1, 11) !in c.bids && (1, 10) in c.bids && c.bids[(1, 10)].promise == 30
  {
    assert HANDOVER[..0] == [] && HANDOVER[..8] == HANDOVER;
    PlayedSoFar(EMPTY, HANDOVER, 0);
    PlayedSoFar(EMPTY, HANDOVER, 1);
    PlayedSoFar(EMPTY, HANDOVER, 2);
    var c3 := HandoverOpens();
    PlayedSoFar(EMPTY, HANDOVER, 3);
    PlayedSoFar(EMPTY, HANDOVER, 4);
    PlayedSoFar(EMPTY, HANDOVER, 5);
    var c5 := HandoverIsDone(c3);
    HandoverReturns(c5);
    PlayedSoFar(EMPTY, HANDOVER, 6);
    PlayedSoFar(EMPTY, HANDOVER, 7);
    HandoverEnds(After(c5, HANDOVER[5]));
  }
}
