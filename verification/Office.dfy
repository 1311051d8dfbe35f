/** Many circles and one table of estimation statistics: every finished promise is observed once, by whoever made the
    submission, and never again. */
module Office {
  import opened Wrappers
  import opened Forest
  import opened Circle
  import opened CircleInvariant
  import opened CircleActs
  import opened Executions
  import opened Estimation

  type Table = map<ActorId, Stats>

  datatype Office = Office(circles: map<NodeId, Circle>, stats: Table)

  datatype Job = Job(node: NodeId, act: Act)

  ghost function CircleAt(o: Office, n: NodeId): Circle {
    if n in o.circles then o.circles[n] else EMPTY
  }

  function Lookup(stats: Table, actor: ActorId): Option<Stats> {
    if actor in stats then Some(stats[actor]) else None
  }

  // ----- what a submission observes -----

  predicate Observable(ledger: Ledger, s: StepId, e: ExecId) {
    Succeeds(ledger, e, s) && ledger[e].promise.Some?
  }

  ghost predicate LatestObservable(ledger: Ledger, s: StepId, e: ExecId) {
    Observable(ledger, s, e) && forall f :: Observable(ledger, s, f) ==> ledger[f].attempt <= ledger[e].attempt
  }

  /** The query behind the statistics: the succeeded execution of the step with a promise and the highest attempt. */
  ghost function Latest(ledger: Ledger, s: StepId): Option<ExecId> {
    if e :| LatestObservable(ledger, s, e) then Some(e) else None
  }

  /** Times are in seconds, promises in minutes. */
  function Compared(row: Execution): Option<Observation> {
    if row.finishedAt.None? || row.promise.None? || row.promise.value == 0 then None
    else Some(Observe(row.promise.value, (row.finishedAt.value - row.startedAt) as real / 60.0))
  }

  function Recording(stats: Table, row: Execution): Table {
    match Compared(row)
    case None => stats
    case Some(observation) => stats[row.startedBy := Upserted(Lookup(stats, row.startedBy), observation)]
  }

  /** The step a submission by `actor` finishes. */
  ghost function Submitted(c: Circle, actor: ActorId): Option<StepId> {
    First(c.steps, HeldBy(c.steps, actor))
  }

  ghost function Observing(stats: Table, ledger: Ledger, s: StepId): Table {
    var e := Latest(ledger, s);
    if e.Some? then Recording(stats, ledger[e.value]) else stats
  }

  ghost function Done(o: Office, j: Job): Office {
    var c := CircleAt(o, j.node);
    match Attempt(c, j.act)
    case None => o
    case Some(c') =>
      var s := if j.act.Submit? then Submitted(c, j.act.actor) else None;
      Office(o.circles[j.node := c'], if s.Some? then Observing(o.stats, c'.ledger, s.value) else o.stats)
  }

  ghost function Worked(jobs: seq<Job>): Office {
    if jobs == [] then Office(map[], map[]) else Done(Worked(jobs[..|jobs| - 1]), jobs[|jobs| - 1])
  }

  // ----- what should be observed -----

  predicate RunsFor(ledger: Ledger, e: ExecId, actor: ActorId) {
    e in ledger && ledger[e].status.Running? && ledger[e].startedBy == actor
  }

  /** An accepted submission by `actor` ends the one execution the actor runs there. It is worth an observation exactly
      when that execution carried a promise. */
  ghost function Credit(c: Circle, a: Act, actor: ActorId): seq<Observation> {
    if a.Submit? && a.actor == actor && Attempt(c, a).Some? then
      if e :| RunsFor(c.ledger, e, actor) then
        if c.ledger[e].promise.Some? && c.ledger[e].promise.value >= 1 then
          [Observe(c.ledger[e].promise.value, (a.now - c.ledger[e].startedAt) as real / 60.0)]
        else []
      else []
    else []
  }

  /** The observations an actor has earned along a run, over all circles, in order. */
  ghost function Earned(jobs: seq<Job>, actor: ActorId): seq<Observation> {
    if jobs == [] then []
    else
      var earlier, j := jobs[..|jobs| - 1], jobs[|jobs| - 1];
      Earned(earlier, actor) + Credit(CircleAt(Worked(earlier), j.node), j.act, actor)
  }

  // ----- a submission observes the attempt it finishes -----

  /** The step was started, so it had no success before; after the submission the only one is the attempt just
      finished. */
  lemma {:induction false} FinishedAttemptIsLatest(steps: Steps, ledger: Ledger, s: StepId, exec: ExecId, now: int)
    requires StepsMatch(steps, ledger) && Has(steps, s, Started) && Runs(ledger, exec, s)
    ensures var ledger' := ledger[exec := ledger[exec].(status := Succeeded, finishedAt := Some(now))];
      Latest(ledger', s) == if ledger[exec].promise.Some? then Some(exec) else None
  {
    assert StepMatches(steps[s], s, ledger);
    var ledger' := ledger[exec := ledger[exec].(status := Succeeded, finishedAt := Some(now))];
    forall e | Succeeds(ledger', e, s) ensures e == exec {
      assert e != exec ==> Succeeds(ledger, e, s);
    }
    if ledger[exec].promise.Some? {
      assert LatestObservable(ledger', s, exec);
    }
  }

  lemma {:induction false} SubmittedLedger(c: Circle, actor: ActorId, now: int) returns (exec: ExecId)
    requires LedgerOk(c.steps, c.ledger) && SubmitStep(c, actor, now).Some?
    ensures var s := Submitted(c, actor);
      && s.Some? && Has(c.steps, s.value, Started) && Runs(c.ledger, exec, s.value) && c.ledger[exec].startedBy == actor
      && SubmitStep(c, actor, now).value.ledger ==
        c.ledger[exec := c.ledger[exec].(status := Succeeded, finishedAt := Some(now))]
  {
    var s := Submitted(c, actor).value;
    exec := SettlesOneRow(c.steps, c.ledger, s, Succeeded, now);
    assert StepMatches(c.steps[s], s, c.ledger);
  }

  /** A circle runs one execution at a time. */
  lemma {:induction false} OneRunning(c: Circle, e: ExecId, f: ExecId)
    requires Sound(c) && e in c.ledger && f in c.ledger && c.ledger[e].status.Running? && c.ledger[f].status.Running?
    ensures e == f
  {
    RunningStepIsStarted(c.steps, c.ledger, e);
    RunningStepIsStarted(c.steps, c.ledger, f);
    assert c.ledger[e].step == c.ledger[f].step;
    assert Runs(c.ledger, e, c.ledger[e].step) && Runs(c.ledger, f, c.ledger[e].step);
    assert StepMatches(c.steps[c.ledger[e].step], c.ledger[e].step, c.ledger);
  }

  /** What finishing `row` now is worth. */
  function Worth(row: Execution, now: int): seq<Observation> {
    if row.promise.Some? && row.promise.value >= 1 then
      [Observe(row.promise.value, (now - row.startedAt) as real / 60.0)]
    else []
  }

  lemma {:induction false} CreditIsWorth(c: Circle, actor: ActorId, now: int, exec: ExecId, who: ActorId)
    requires Sound(c) && SubmitStep(c, actor, now).Some? && RunsFor(c.ledger, exec, actor)
    ensures Credit(c, Submit(actor, now), who) == if who == actor then Worth(c.ledger[exec], now) else []
  {
    hide Sound, SubmitStep;
    forall e | RunsFor(c.ledger, e, actor) ensures e == exec {
      OneRunning(c, e, exec);
    }
  }

  lemma {:induction false} RecordingTakesWorth(stats: Table, row: Execution, now: int, who: ActorId)
    requires row.promise.Some? ==> row.promise.value >= 1
    ensures var stats' := if row.promise.Some? then Recording(stats, row.(status := Succeeded, finishedAt := Some(now)))
                          else stats;
      Lookup(stats', who) ==
        if who == row.startedBy && Worth(row, now) != [] then Some(Upserted(Lookup(stats, who), Worth(row, now)[0]))
        else Lookup(stats, who)
  {
  }

  /** The table a submission leaves: the row of the submitting actor takes the one observation that was earned, if any;
      other rows stay. */
  lemma {:induction false} SubmissionRecordsCredit(c: Circle, actor: ActorId, now: int, stats: Table, who: ActorId,
                                                   credit: seq<Observation>)
    requires Sound(c) && PromisesOk(c.ledger) && SubmitStep(c, actor, now).Some? &&
      credit == Credit(c, Submit(actor, now), who)
    ensures Submitted(c, actor).Some? && |credit| <= 1
    ensures var stats' := Observing(stats, SubmitStep(c, actor, now).value.ledger, Submitted(c, actor).value);
      Lookup(stats', who) == if credit == [] then Lookup(stats, who) else Some(Upserted(Lookup(stats, who), credit[0]))
  {
    var exec := SubmittedLedger(c, actor, now);
    hide SubmitStep, Submitted, Recording, PromisesOk, Latest, Upserted;
    FinishedAttemptIsLatest(c.steps, c.ledger, Submitted(c, actor).value, exec, now);
    hide Sound;
    CreditIsWorth(c, actor, now, exec, who);
    RecordingTakesWorth(stats, c.ledger[exec], now, who);
  }

  ghost predicate OfficeOk(o: Office) {
    forall n :: Sound(CircleAt(o, n)) && PromisesOk(CircleAt(o, n).ledger)
  }

  lemma {:induction false} JobKeepsOffice(o: Office, j: Job)
    requires OfficeOk(o)
    ensures OfficeOk(Done(o, j))
  {
    var c := CircleAt(o, j.node);
    hide Sound, PromisesOk, Attempt, Observing;
    ActKeepsSound(c, j.act);
    ActKeepsPromises(c, j.act);
    forall n ensures CircleAt(Done(o, j), n) == (if n == j.node then After(c, j.act) else CircleAt(o, n)) {}
  }

  lemma {:induction false} WorkKeepsOffice(jobs: seq<Job>)
    ensures OfficeOk(Worked(jobs))
  {
    if jobs != [] {
      WorkKeepsOffice(jobs[..|jobs| - 1]);
      JobKeepsOffice(Worked(jobs[..|jobs| - 1]), jobs[|jobs| - 1]);
    }
  }

  lemma {:induction false} JobRecordsCredit(o: Office, j: Job, who: ActorId, credit: seq<Observation>)
    requires Sound(CircleAt(o, j.node)) && PromisesOk(CircleAt(o, j.node).ledger) &&
      credit == Credit(CircleAt(o, j.node), j.act, who)
    ensures |credit| <= 1
    ensures Lookup(Done(o, j).stats, who) ==
      if credit == [] then Lookup(o.stats, who) else Some(Upserted(Lookup(o.stats, who), credit[0]))
  {
    if j.act.Submit? && Attempt(CircleAt(o, j.node), j.act).Some? {
      SubmissionRecordsCredit(CircleAt(o, j.node), j.act.actor, j.act.now, o.stats, who, credit);
    }
  }

  lemma {:induction false} RecordedOneMore(obs: seq<Observation>, o: Observation)
    ensures Recorded(obs + [o]) == Some(Upserted(Recorded(obs), o))
  {
    hide Upserted;
    assert (obs + [o])[..|obs|] == obs;
  }

  /** Along every run over all circles an actor's row is exactly the statistics of the observations earned: one for each
      accepted submission of an execution that carried a promise. */
  lemma {:induction false} EveryPromiseIsObservedOnce(jobs: seq<Job>, actor: ActorId)
    ensures Lookup(Worked(jobs).stats, actor) == Recorded(Earned(jobs, actor))
  {
    hide Credit, Done, Upserted, Sound, PromisesOk;
    if jobs != [] {
      var earlier, j := jobs[..|jobs| - 1], jobs[|jobs| - 1];
      var o := Worked(earlier);
      var credit := Credit(CircleAt(o, j.node), j.act, actor);
      EveryPromiseIsObservedOnce(earlier, actor);
      WorkKeepsOffice(earlier);
      JobRecordsCredit(o, j, actor, credit);
      if credit == [] {
        assert Earned(earlier, actor) + credit == Earned(earlier, actor);
      } else {
        assert credit == [credit[0]];
        RecordedOneMore(Earned(earlier, actor), credit[0]);
      }
    }
  }

  // ----- one submission in minutes -----

  /** The one observation of a submission whose execution ran for `minutes`. */
  lemma {:induction false} CreditOfPromise(c: Circle, actor: ActorId, now: int, exec: ExecId, p: nat, minutes: real,
                                           who: ActorId)
    requires Sound(c) && PromisesOk(c.ledger) && SubmitStep(c, actor, now).Some?
    requires RunsFor(c.ledger, exec, actor) && c.ledger[exec].promise == Some(p)
    requires minutes == (now - c.ledger[exec].startedAt) as real / 60.0
    ensures p >= 1 && Credit(c, Submit(actor, now), who) == if who == actor then [Observe(p, minutes)] else []
  {
    hide Sound, SubmitStep, Credit, Observe;
    CreditIsWorth(c, actor, now, exec, who);
  }

  lemma {:induction false} TablesAfterSubmission(o: Office, n: NodeId, actor: ActorId, now: int, exec: ExecId, p: nat,
                                                 minutes: real, who: ActorId)
    requires var c := CircleAt(o, n);
      && Sound(c) && PromisesOk(c.ledger) && SubmitStep(c, actor, now).Some?
      && RunsFor(c.ledger, exec, actor) && c.ledger[exec].promise == Some(p)
      && minutes == (now - c.ledger[exec].startedAt) as real / 60.0
    ensures p >= 1
    ensures Lookup(Done(o, Job(n, Submit(actor, now))).stats, who) ==
      if who == actor then Some(Upserted(Lookup(o.stats, actor), Observe(p, minutes))) else Lookup(o.stats, who)
  {
    var c := CircleAt(o, n);
    CreditOfPromise(c, actor, now, exec, p, minutes, who);
    hide Sound, PromisesOk, SubmitStep, Done, Credit, Observe, Upserted;
    JobRecordsCredit(o, Job(n, Submit(actor, now)), who, Credit(c, Submit(actor, now), who));
  }

  lemma {:induction false} OfficeObserves(o: Office, n: NodeId, actor: ActorId, now: int, exec: ExecId, p: nat,
                                          minutes: real)
    requires OfficeOk(o) && SubmitStep(CircleAt(o, n), actor, now).Some?
    requires var c := CircleAt(o, n);
      && RunsFor(c.ledger, exec, actor) && c.ledger[exec].promise == Some(p)
      && minutes == (now - c.ledger[exec].startedAt) as real / 60.0
    ensures var o' := Done(o, Job(n, Submit(actor, now)));
      && p >= 1 && actor in o'.stats
      && AddsLateness(if actor in o.stats then o.stats[actor] else NO_STATS, o'.stats[actor], p, minutes)
      && forall who :: who != actor ==>
        (who in o'.stats <==> who in o.stats) && (who in o.stats ==> o'.stats[who] == o.stats[who])
  {
    var o' := Done(o, Job(n, Submit(actor, now)));
    CreditOfPromise(CircleAt(o, n), actor, now, exec, p, minutes, actor);
    hide Sound, PromisesOk, SubmitStep, Done, Observe, Upserted, AddsLateness;
    forall who ensures Lookup(o'.stats, who) ==
      if who == actor then Some(Upserted(Lookup(o.stats, actor), Observe(p, minutes))) else Lookup(o.stats, who)
    {
      TablesAfterSubmission(o, n, actor, now, exec, p, minutes, who);
    }
    hide CircleAt, OfficeOk;
    LatenessIsAdded(Lookup(o.stats, actor), p, minutes);
    SameTable(o.stats, o'.stats, actor);
  }

  /** What an accepted submission adds to the actor's row, over any run and in minutes: the running execution was
      started at `startedAt` on a promise of `p` minutes. Later than promised counts as a positive error, long overruns
      are those beyond twice the promise, and their severity is the excess over two promises. Other actors' rows
      stay. */
  lemma {:induction false} SubmissionIsObserved(jobs: seq<Job>, n: NodeId, actor: ActorId, now: int, e: ExecId, p: nat)
    requires var c := CircleAt(Worked(jobs), n);
      && SubmitStep(c, actor, now).Some?
      && e in c.ledger && c.ledger[e].status.Running? && c.ledger[e].startedBy == actor
      && c.ledger[e].promise == Some(p)
    ensures var o := Worked(jobs);
      var minutes := (now - CircleAt(o, n).ledger[e].startedAt) as real / 60.0;
      var o' := Done(o, Job(n, Submit(actor, now)));
      && p >= 1 && actor in o'.stats
      && AddsLateness(if actor in o.stats then o.stats[actor] else NO_STATS, o'.stats[actor], p, minutes)
      && forall who :: who != actor ==>
        (who in o'.stats <==> who in o.stats) && (who in o.stats ==> o'.stats[who] == o.stats[who])
  {
    var o := Worked(jobs);
    WorkKeepsOffice(jobs);
    hide Worked, Done, SubmitStep, OfficeOk, CircleAt, AddsLateness;
    OfficeObserves(o, n, actor, now, e, p, (now - CircleAt(o, n).ledger[e].startedAt) as real / 60.0);
  }

  lemma {:induction false} SameTable(stats: Table, stats': Table, actor: ActorId)
    requires forall who :: who != actor ==> Lookup(stats', who) == Lookup(stats, who)
    ensures forall who :: who != actor ==>
      (who in stats' <==> who in stats) && (who in stats ==> stats'[who] == stats[who])
  {
    forall who | who != actor
      ensures (who in stats' <==> who in stats) && (who in stats ==> stats'[who] == stats[who])
    {
      assert Lookup(stats', who) == Lookup(stats, who);
    }
  }

  // ----- counting -----

  /** An accepted submission by `actor` whose execution carried a promise. */
  ghost predicate KeepsPromise(c: Circle, a: Act, actor: ActorId) {
    a.Submit? && a.actor == actor && Attempt(c, a).Some? && exists e ::
      RunsFor(c.ledger, e, actor) && c.ledger[e].promise.Some?
  }

  ghost function PromisedSubmissions(jobs: seq<Job>, actor: ActorId): nat {
    if jobs == [] then 0
    else
      var earlier, j := jobs[..|jobs| - 1], jobs[|jobs| - 1];
      PromisedSubmissions(earlier, actor) + if KeepsPromise(CircleAt(Worked(earlier), j.node), j.act, actor) then 1
                                            else 0
  }

  lemma {:induction false} CreditCounts(c: Circle, a: Act, actor: ActorId)
    requires Sound(c) && PromisesOk(c.ledger)
    ensures |Credit(c, a, actor)| == if KeepsPromise(c, a, actor) then 1 else 0
  {
    forall e, f | RunsFor(c.ledger, e, actor) && RunsFor(c.ledger, f, actor) ensures e == f {
      OneRunning(c, e, f);
    }
  }

  lemma {:induction false} EarnedCounts(jobs: seq<Job>, actor: ActorId)
    ensures |Earned(jobs, actor)| == PromisedSubmissions(jobs, actor)
  {
    hide Credit, Done, KeepsPromise, Sound, PromisesOk;
    if jobs != [] {
      EarnedCounts(jobs[..|jobs| - 1], actor);
      WorkKeepsOffice(jobs[..|jobs| - 1]);
      CreditCounts(CircleAt(Worked(jobs[..|jobs| - 1]), jobs[|jobs| - 1].node), jobs[|jobs| - 1].act, actor);
    }
  }

  /** An actor's observation count is the number of that actor's submissions whose execution carried a promise. */
  lemma {:induction false} CountIsPromisedSubmissions(jobs: seq<Job>, actor: ActorId)
    ensures var stored := Lookup(Worked(jobs).stats, actor);
      (if stored.Some? then stored.value.count else 0) == PromisedSubmissions(jobs, actor)
  {
    EveryPromiseIsObservedOnce(jobs, actor);
    EarnedCounts(jobs, actor);
    RecurrenceIsBatch(Earned(jobs, actor));
  }
}
