/** What a revision precondition is worth: a writer that names the revision it read is accepted only if nobody committed
    in between, so its change is made on exactly the state it saw. */
module Writers {
  import opened Wrappers
  import opened Forest
  import opened Commands

  /** The revision a command names. Lifecycle actions and writers of other tables name none. */
  function Named(c: Command): Option<nat> {
    match c
    case Create(_, _, _, _, expected) => expected
    case Update(_, _, _, _, expected) => expected
    case Move(_, _, expected) => expected
    case Remove(_, expected) => expected
    case Restore(_, expected) => expected
    case Advance(_, _) => None
    case Touch => None
  }

  predicate AcceptedAt(w: Workspace, cs: seq<Command>, i: nat)
    requires i < |cs|
  {
    Perform(Run(w, cs[..i]), cs[i]).0.Done?
  }

  function StateAt(w: Workspace, cs: seq<Command>, i: nat): Workspace
    requires i <= |cs|
  {
    Run(w, cs[..i])
  }

  lemma {:induction false} AcceptedNamesTheRevision(w: Workspace, c: Command)
    requires Perform(w, c).0.Done? && Named(c).Some?
    ensures Named(c).value == w.revision
  {
    hide LiveBranch, LedByGoal, FullyPlanned, Moved, Stamp, Revived, RemovedBranch, Logged, LoggedRemovals;
  }

  lemma {:induction false} AcceptedTakesTheNext(w: Workspace, c: Command)
    requires Perform(w, c).0.Done?
    ensures Step(w, c).revision == w.revision + 1
  {
    hide LiveBranch, LedByGoal, FullyPlanned, Moved, Stamp, Revived, RemovedBranch, Logged, LoggedRemovals,
      HasOpenDescendants;
  }

  lemma {:induction false} FailsOnlyOnAnotherRevision(w: Workspace, c: Command)
    requires Perform(w, c).0.PreconditionFailed?
    ensures Named(c).Some? && Named(c).value != w.revision
  {
    hide LiveBranch, LedByGoal, FullyPlanned, Moved, Stamp, Revived, RemovedBranch, Logged, LoggedRemovals,
      HasOpenDescendants;
  }

  /** Revisions count commits: between two points of a run the revision stays exactly if nothing was committed, and then
      the whole state stayed. */
  lemma {:induction false} RevisionsCountCommits(w: Workspace, cs: seq<Command>, k: nat, i: nat)
    requires k <= i <= |cs|
    ensures StateAt(w, cs, k).revision <= StateAt(w, cs, i).revision
    ensures StateAt(w, cs, k).revision == StateAt(w, cs, i).revision <==> StateAt(w, cs, k) == StateAt(w, cs, i)
    ensures StateAt(w, cs, k) == StateAt(w, cs, i) <==> forall j :: k <= j < i ==> !AcceptedAt(w, cs, j)
    decreases i
  {
    hide Perform, Step, Run;
    if k < i {
      RevisionsCountCommits(w, cs, k, i - 1);
      RunSoFar(w, cs, i - 1);
      if AcceptedAt(w, cs, i - 1) {
        AcceptedTakesTheNext(StateAt(w, cs, i - 1), cs[i - 1]);
      } else {
        RefusalChangesNothing(StateAt(w, cs, i - 1), cs[i - 1]);
      }
    }
  }

  /** An accepted writer saw every earlier commit: whoever read the revision it names read the very state it changes. */
  lemma {:induction false} WinnerSawEveryCommit(w: Workspace, cs: seq<Command>, k: nat, i: nat)
    requires k <= i < |cs| && AcceptedAt(w, cs, i) && Named(cs[i]) == Some(StateAt(w, cs, k).revision)
    ensures StateAt(w, cs, k) == StateAt(w, cs, i) && forall j :: k <= j < i ==> !AcceptedAt(w, cs, j)
  {
    hide Perform, Step, Run, Named;
    AcceptedNamesTheRevision(StateAt(w, cs, i), cs[i]);
    RevisionsCountCommits(w, cs, k, i);
  }

  /** Of two commands of one run that name the same revision at most one is accepted. */
  lemma {:induction false} AtMostOneWriterWins(w: Workspace, cs: seq<Command>, i: nat, j: nat)
    requires i < j < |cs| && Named(cs[i]).Some? && Named(cs[i]) == Named(cs[j])
    ensures !AcceptedAt(w, cs, i) || !AcceptedAt(w, cs, j)
  {
    hide Perform, Step, Run, Named;
    if AcceptedAt(w, cs, i) {
      AcceptedNamesTheRevision(StateAt(w, cs, i), cs[i]);
      if AcceptedAt(w, cs, j) {
        WinnerSawEveryCommit(w, cs, i, j);
      }
    }
  }

  /** A writer is told that the revision moved on only if somebody committed after it read. */
  lemma {:induction false} LoserWasOvertaken(w: Workspace, cs: seq<Command>, k: nat, i: nat)
    requires k <= i < |cs| && Perform(StateAt(w, cs, i), cs[i]).0.PreconditionFailed?
    requires Named(cs[i]) == Some(StateAt(w, cs, k).revision)
    ensures exists j :: k <= j < i && AcceptedAt(w, cs, j)
  {
    hide Perform, Step, Run, Named;
    FailsOnlyOnAnotherRevision(StateAt(w, cs, i), cs[i]);
    RevisionsCountCommits(w, cs, k, i);
  }
}
