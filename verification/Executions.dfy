/** The execution ledger over time: rows keep their terms, and a finished row is final unless its success is taken
    back. */
module Executions {
  import opened Wrappers
  import opened Forest
  import opened Circle
  import opened CircleInvariant
  import opened CircleActs
  import opened Renumbering

  predicate SameTerms(x: Execution, y: Execution) {
    x.step == y.step && x.attempt == y.attempt && x.startedBy == y.startedBy && x.bid == y.bid &&
    x.promise == y.promise && x.startedAt == y.startedAt
  }

  /** The only ways a status changes: a running execution finishes, and a success is returned or superseded. */
  predicate Follows(a: ExecStatus, b: ExecStatus) {
    || a == b
    || a.Running?
    || (a.Succeeded? && (b.Returned? || b.Superseded?))
  }

  predicate Evolved(x: Execution, y: Execution) {
    && SameTerms(x, y)
    && Follows(x.status, y.status)
    && (x.finishedAt.Some? ==> y.finishedAt == x.finishedAt)
  }

  lemma {:induction false} InsertionEvolves(c: Circle, a: Act, e: ExecId)
    requires e in c.ledger && (a.Claim? || a.Lease?) && Attempt(c, a).Some?
    ensures e in After(c, a).ledger && After(c, a).ledger[e] == c.ledger[e]
  {
  }

  lemma {:induction false} FinishKeepsLedgerArgument(c: Circle, s: StepId, ledger: Ledger)
    requires s in c.steps
    ensures FinishStep(c, s, ledger).ledger == ledger
  {
  }

  lemma {:induction false} FinishingEvolves(c: Circle, a: Act, e: ExecId)
    requires RowsOk(c.steps, c.ledger) && e in c.ledger && (a.Submit? || a.Complete? || a.Cancel?) &&
      Attempt(c, a).Some?
    ensures e in After(c, a).ledger && Evolved(c.ledger[e], After(c, a).ledger[e])
  {
    if a.Submit? {
      var s := First(c.steps, HeldBy(c.steps, a.actor)).value;
      FinishKeepsLedgerArgument(c, s, Settle(c.ledger, s, Succeeded, a.now));
    }
  }

  lemma {:induction false} RetiringEvolves(c: Circle, a: Act, e: ExecId)
    requires RowsOk(c.steps, c.ledger) && e in c.ledger && (a.Return? || a.ReopenTask?) && Attempt(c, a).Some?
    ensures e in After(c, a).ledger && Evolved(c.ledger[e], After(c, a).ledger[e])
  {
  }

  /** Every act keeps the terms of every execution. Only deleting its step removes one. */
  lemma {:induction false} ActEvolves(c: Circle, a: Act, e: ExecId)
    requires RowsOk(c.steps, c.ledger) && e in c.ledger
    ensures if a.DeleteStep? && a.id == c.ledger[e].step && Attempt(c, a).Some? then e !in After(c, a).ledger
            else e in After(c, a).ledger && Evolved(c.ledger[e], After(c, a).ledger[e])
  {
    if Attempt(c, a).Some? {
      if a.Claim? || a.Lease? {
        InsertionEvolves(c, a, e);
      } else if a.Submit? || a.Complete? || a.Cancel? {
        FinishingEvolves(c, a, e);
      } else if a.Return? || a.ReopenTask? {
        RetiringEvolves(c, a, e);
      } else if a.DeleteStep? {
        DeletionIs(c, a.id, a.check);
      } else {
        QuietActKeepsLedger(c, a);
      }
    }
  }

  lemma {:induction false} QuietActKeepsLedger(c: Circle, a: Act)
    requires a.AddStep? || a.EditStep? || a.MoveStep? || a.PutBid? || a.WithdrawBid? || a.SelectBid? || a.Close? ||
      a.RetryStep? || a.SetLive?
    ensures After(c, a).ledger == c.ledger
  {
  }

  /** Executions are immutable facts: as long as its step is not deleted a row stays, with its terms; once finished it
      changes status only from succeeded to returned or superseded, so a cancelled one never takes a late result. */
  lemma {:induction false} ExecutionsKeepTheirTerms(c: Circle, acts: seq<Act>, e: ExecId)
    requires Sound(c) && e in c.ledger
    requires forall i :: 0 <= i < |acts| ==> !(acts[i].DeleteStep? && acts[i].id == c.ledger[e].step)
    ensures var c' := Played(c, acts); Sound(c') && e in c'.ledger && Evolved(c.ledger[e], c'.ledger[e])
  {
    if acts != [] {
      var earlier := acts[..|acts| - 1];
      ExecutionsKeepTheirTerms(c, earlier, e);
      ActKeepsSound(Played(c, earlier), acts[|acts| - 1]);
      ActEvolves(Played(c, earlier), acts[|acts| - 1], e);
    }
  }

  lemma {:induction false} FinalRowStays(x: Execution, y: Execution)
    requires Evolved(x, y) && !x.status.Running? && !x.status.Succeeded? && x.finishedAt.Some?
    ensures y == x
  {
  }

  /** A finished execution that did not succeed is final, and a late result for any finished one is refused. */
  lemma {:induction false} NoLateResult(c: Circle, acts: seq<Act>, e: ExecId, result: ExecStatus, now: int)
    requires Sound(c) && e in c.ledger && !c.ledger[e].status.Running?
    requires forall i :: 0 <= i < |acts| ==> !(acts[i].DeleteStep? && acts[i].id == c.ledger[e].step)
    ensures CompleteStep(Played(c, acts), e, result, now).None?
    ensures !c.ledger[e].status.Succeeded? ==> e in Played(c, acts).ledger && Played(c, acts).ledger[e] == c.ledger[e]
  {
    ExecutionsKeepTheirTerms(c, acts, e);
    if !c.ledger[e].status.Succeeded? {
      FinalRowStays(c.ledger[e], Played(c, acts).ledger[e]);
    }
  }

  /** A step is completed exactly while one of its executions counts as succeeded. */
  lemma {:induction false} CompletedMeansOneSuccess(acts: seq<Act>, s: StepId)
    ensures var c := Played(EMPTY, acts);
      |set e | e in c.ledger && Succeeds(c.ledger, e, s)| == if Has(c.steps, s, Completed) then 1 else 0
  {
    PlayKeepsSound(acts);
    var c := Played(EMPTY, acts);
    var wins := set e | e in c.ledger && Succeeds(c.ledger, e, s);
    if s in c.steps {
      assert StepMatches(c.steps[s], s, c.ledger);
      if e :| Succeeds(c.ledger, e, s) {
        assert wins == {e};
      } else {
        assert wins == {};
      }
    } else {
      assert wins == {};
    }
  }

  /** What a return takes back: the one success of the returned step becomes returned, the successes of the steps behind
      it become superseded, and everything before it keeps its success. */
  lemma {:induction false} ReturnRetiresExactly(c: Circle, requester: bool, s: StepId, now: int) returns (e: ExecId)
    requires Sound(c) && ReturnStep(c, requester, s, now).Some?
    ensures var c' := ReturnStep(c, requester, s, now).value;
      && Succeeds(c.ledger, e, s) && c'.ledger[e].status.Returned?
      && (forall f :: f in c.ledger && f != e && c'.ledger[f] != c.ledger[f] ==>
            c.ledger[f].status.Succeeded? && c'.ledger[f].status.Superseded? &&
              c.steps[c.ledger[f].step].position > c.steps[s].position)
      && (forall t :: t in c'.steps ==> (Has(c'.steps, t, Completed) <==> c.steps[t].position < c.steps[s].position))
  {
    var c' := ReturnStep(c, requester, s, now).value;
    assert StepMatches(c.steps[s], s, c.ledger);
    e :| Succeeds(c.ledger, e, s);
    forall f | f in c.ledger && f != e && c'.ledger[f] != c.ledger[f]
      ensures c.ledger[f].status.Succeeded? && c'.ledger[f].status.Superseded? &&
        c.steps[c.ledger[f].step].position > c.steps[s].position
    {
      assert c.ledger[f].step != s by { assert c.ledger[f].step == s ==> Succeeds(c.ledger, f, s); }
    }
  }

  // ----- promises -----

  ghost predicate PromisesOk(ledger: Ledger) {
    forall e :: e in ledger && ledger[e].promise.Some? ==> 1 <= ledger[e].promise.value <= MAX_PROMISE
  }

  lemma {:induction false} StartKeepsPromises(c: Circle, s: StepId, actor: ActorId, exec: ExecId, bid: Option<ActorId>,
                                              promise: Option<nat>, now: int)
    requires PromisesOk(c.ledger) && s in c.steps && (promise.Some? ==> 1 <= promise.value <= MAX_PROMISE)
    ensures PromisesOk(StartStep(c, s, actor, exec, bid, promise, now).ledger)
  {
  }

  lemma {:induction false} StartingKeepsPromises(c: Circle, a: Act)
    requires HoldersOk(c.steps, c.bids) && PromisesOk(c.ledger) && (a.Claim? || a.Lease?) && Attempt(c, a).Some?
    ensures PromisesOk(After(c, a).ledger)
  {
    if a.Claim? {
      var s := First(c.steps, Claimable(c.steps)).value;
      StartKeepsPromises(c, s, a.actor, a.exec, c.steps[s].selectedBid, PromiseOf(c, s), a.now);
    } else {
      var s := First(c.steps, ReadyOf(c.steps, a.kind)).value;
      StartKeepsPromises(c, s, a.actor, a.exec, None, None, a.now);
    }
  }

  lemma {:induction false} OnlyStartsInsert(c: Circle, a: Act)
    requires Attempt(c, a).Some? && !a.Claim? && !a.Lease?
    ensures After(c, a).ledger.Keys <= c.ledger.Keys
  {
    if a.Submit? {
      var s := First(c.steps, HeldBy(c.steps, a.actor)).value;
      FinishKeepsLedgerArgument(c, s, Settle(c.ledger, s, Succeeded, a.now));
    }
  }

  lemma {:induction false} ActKeepsPromises(c: Circle, a: Act)
    requires Sound(c) && PromisesOk(c.ledger)
    ensures PromisesOk(After(c, a).ledger)
  {
    if Attempt(c, a).Some? {
      if a.Claim? || a.Lease? {
        StartingKeepsPromises(c, a);
      } else {
        OnlyStartsInsert(c, a);
        forall e | e in After(c, a).ledger ensures SameTerms(c.ledger[e], After(c, a).ledger[e]) {
          ActEvolves(c, a, e);
        }
      }
    }
  }
}
