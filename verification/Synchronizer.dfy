/** A synchronization as it runs: the schedule row and the saved issues are updated statement by statement, and any
    statement may be the last. */
module Synchronizer {
  import opened Wrappers
  import opened JiraSync

  type Serving = (Query, nat, Token, nat) -> Option<Page>

  function ServingOf(serve: Serving, q: Query): (nat, Token, nat) -> Option<Page> {
    (n: nat, token: Token, max: nat) => serve(q, n, token, max)
  }

  ghost predicate OrderlyService(service: Service, serve: Serving) {
    forall q :: service.at(q, "") == 0 && Orderly(service.results(q), At(service, q), ServingOf(serve, q)) &&
      Modest(ServingOf(serve, q))
  }

  lemma {:induction false} UsableOneMore(issues: seq<Issue>, i: nat)
    requires i < |issues|
    ensures UsableIn(issues[..i + 1]) == UsableIn(issues[..i]) + if Usable(issues[i]) then {issues[i]} else {}
  {
    assert issues[..i + 1] == issues[..i] + [issues[i]];
  }

  lemma {:induction false} ContinuationInRange(service: Service, s: Sync, now: int)
    requires Caught(service, s) && forall q :: service.at(q, "") == 0
    ensures var begun := Opening(s, now);
      At(service, begun.cycle.value)(begun.token) <= |service.results(begun.cycle.value)|
  {
  }

  class Schedule {
    var cursor: Option<int>
    var token: Token
    var cycle: Option<Query>
    var saved: set<Issue>

    function State(): Sync
      reads this
    {
      Sync(cursor, token, cycle, saved)
    }

    constructor ()
      ensures State() == IDLE
    {
      cursor, token, cycle, saved := None, "", None, {};
    }

    /** Saves the issues one by one, skipping those without key or title. */
    method Save(issues: seq<Issue>, failedAfter: Option<nat>) returns (ok: bool)
      modifies this`saved
      ensures ok <==> !(failedAfter.Some? && failedAfter.value < |issues|)
      ensures saved == old(saved) + UsableIn(if ok then issues else issues[..failedAfter.value])
    {
      for i := 0 to |issues|
        invariant saved == old(saved) + UsableIn(issues[..i])
        invariant failedAfter.Some? ==> i <= failedAfter.value || failedAfter.value >= |issues|
      {
        if failedAfter == Some(i) { return false; }
        UsableOneMore(issues, i);
        if issues[i].key == "" || Blank(issues[i].title) { continue; }
        saved := saved + {issues[i]};
      }
      assert issues[..|issues|] == issues;
      return true;
    }

    /** One synchronization. The run it amounts to is a faithful one, so a schedule that starts idle stays caught up. */
    method Synchronize(service: Service, serve: Serving, now: int, limit: nat, failedAfter: Option<nat>, recorded: bool)
      returns (ok: bool, run: Run)
      requires 1 <= limit && OrderlyService(service, serve) && Caught(service, State())
      modifies this
      ensures State() == Ran(old(State()), run) && Faithful(service, old(State()), run) && Caught(service, State())
      ensures run.now == now && ok == Records(run)
    {
      hide Caught, Brings, Reads, UsableIn, Orderly, Modest;
      if token == "" || cycle.None? {
        var from := if cursor.None? then None else Some(cursor.value - OVERLAP);
        cycle := Some(Query(from, now));
        token := "";
      }
      var q := cycle.value;
      assert State() == Opening(old(State()), now);
      ContinuationInRange(service, old(State()), now);
      var found := SearchIssues(service.results(q), At(service, q), ServingOf(serve, q), token, limit);
      run := Run(now, limit, found, failedAfter, recorded);
      RunKeepsCaught(service, old(State()), run);
      if found.None? { return false, run; }
      ok := Save(found.value.issues, failedAfter);
      if !ok { return false, run; }
      if !recorded { return false, run; }
      if found.value.last || found.value.next == "" {
        cursor := Some(q.upper);
        token, cycle := "", None;
      } else {
        token := found.value.next;
      }
      return true, run;
    }
  }
}
