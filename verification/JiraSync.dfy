/** Importing issues in cycles: a cycle freezes its query, reads the result in batches over several runs, each batch in
    pages, and moves the cursor only when everything has been saved. */
module JiraSync {
  import opened Wrappers

  /** An opaque continuation token; the empty one starts from the beginning. */
  type Token = string

  datatype Issue = Issue(id: string, key: string, title: string, updated: string)

  datatype Page = Page(issues: seq<Issue>, next: Token, last: bool)

  /** What a cycle asks for: the issues updated in a closed window of minutes. */
  datatype Query = Query(from: Option<int>, upper: int)

  datatype Batch = Batch(issues: seq<Issue>, next: Token, last: bool)

  const PAGE_SIZE := 50
  const OVERLAP := 2 // minutes

  // ----- paging -----

  /** The service pages a fixed sequence of results: a page starts where its token points; it is marked as the last one,
      or comes without a token, only at the end, and otherwise its token points behind it. */
  predicate Serves(results: seq<Issue>, at: Token -> nat, token: Token, page: Page) {
    && at(token) + |page.issues| <= |results|
    && page.issues == results[at(token)..at(token) + |page.issues|]
    && (page.last || page.next == "" ==> at(token) + |page.issues| == |results|)
    && (!page.last && page.next != "" ==> at(page.next) == at(token) + |page.issues|)
  }

  /** A batch that brings the first `limit` of the `read` issues behind its token and continues behind all of them. */
  predicate Brings(results: seq<Issue>, at: Token -> nat, token: Token, limit: nat, read: nat, batch: Batch) {
    && at(token) + read <= |results|
    && batch.issues == results[at(token)..at(token) + if read < limit then read else limit]
    && (batch.last || batch.next == "" ==> at(token) + read == |results|)
    && (!batch.last && batch.next != "" ==> at(batch.next) == at(token) + read)
  }

  /** A batch that drops nothing. */
  predicate Reads(results: seq<Issue>, at: Token -> nat, token: Token, limit: nat, batch: Batch) {
    |batch.issues| <= limit && Serves(results, at, token, Page(batch.issues, batch.next, batch.last))
  }

  /** A batch drops nothing exactly if the pages read for it held no more issues than the limit. */
  lemma {:induction false} BatchDropsNothingExactlyWhen(results: seq<Issue>, at: Token -> nat, token: Token, limit: nat,
                                                        read: nat, batch: Batch)
    requires Brings(results, at, token, limit, read, batch)
    ensures Reads(results, at, token, limit, batch) <==> read <= limit
  {
  }

  /** `issues` are the results from the start token on. */
  predicate Collected(results: seq<Issue>, at: Token -> nat, start: Token, issues: seq<Issue>) {
    at(start) + |issues| <= |results| && issues == results[at(start)..at(start) + |issues|]
  }

  lemma {:induction false} PageExtends(results: seq<Issue>, at: Token -> nat, start: Token, issues: seq<Issue>,
                                       token: Token, page: Page)
    requires Collected(results, at, start, issues) && at(token) == at(start) + |issues| &&
      Serves(results, at, token, page)
    ensures Collected(results, at, start, issues + page.issues)
    ensures page.last || page.next == "" ==> at(start) + |issues + page.issues| == |results|
    ensures !page.last && page.next != "" ==> at(page.next) == at(start) + |issues + page.issues|
  {
  }

  lemma {:induction false} BatchBrings(results: seq<Issue>, at: Token -> nat, start: Token, limit: nat,
                                       issues: seq<Issue>, next: Token, last: bool)
    requires Collected(results, at, start, issues)
    requires if last || next == "" then at(start) + |issues| == |results| else at(next) == at(start) + |issues|
    ensures Brings(results, at, start, limit, |issues|,
                   Batch(if |issues| > limit then issues[..limit] else issues, next, last))
  {
  }

  ghost predicate Orderly(results: seq<Issue>, at: Token -> nat, serve: (nat, Token, nat) -> Option<Page>) {
    forall n, token, max :: serve(n, token, max).Some? ==> Serves(results, at, token, serve(n, token, max).value)
  }

  /** No page is longer than was asked for. */
  ghost predicate Modest(serve: (nat, Token, nat) -> Option<Page>) {
    forall n, token, max :: serve(n, token, max).Some? ==> |serve(n, token, max).value.issues| <= max
  }

  /** Requests pages until the batch is full or the result ends. `serve` answers the n-th request; it may fail. The loop
      ends because every further page brings an issue. The batch has at most `limit` issues, and drops none if no page
      is longer than was asked for. */
  method SearchIssues(results: seq<Issue>, at: Token -> nat, serve: (nat, Token, nat) -> Option<Page>, start: Token,
                      limit: nat)
    returns (found: Option<Batch>)
    requires 1 <= limit && at(start) <= |results| && Orderly(results, at, serve)
    ensures found.Some? ==>
      |found.value.issues| <= limit && exists read: nat :: Brings(results, at, start, limit, read, found.value)
    ensures found.Some? && Modest(serve) ==> Reads(results, at, start, limit, found.value)
  {
    var issues: seq<Issue> := [];
    var next, last := start, false;
    var n := 0;
    while |issues| < limit
      invariant Collected(results, at, start, issues) && (Modest(serve) ==> |issues| <= limit)
      invariant !last && at(next) == at(start) + |issues|
      invariant if n > 0 then next != "" else issues == []
      decreases limit - |issues|
    {
      var pageSize := limit - |issues|;
      if pageSize > PAGE_SIZE {
        pageSize := PAGE_SIZE;
      }
      var answer := serve(n, next, pageSize);
      n := n + 1;
      if answer.None? { return None; }
      var page := answer.value;
      PageExtends(results, at, start, issues, next, page);
      issues := issues + page.issues;
      last := page.last;
      if page.last || page.next == "" || |page.issues| == 0 {
        next := page.next;
        break;
      }
      next := page.next;
    }
    BatchBrings(results, at, start, limit, issues, next, last);
    ghost var read := |issues|;
    if |issues| > limit {
      issues := issues[..limit];
    }
    found := Some(Batch(issues, next, last));
    assert Brings(results, at, start, limit, read, found.value);
    BatchDropsNothingExactlyWhen(results, at, start, limit, read, found.value);
  }

  // ----- one run -----

  datatype Sync = Sync(cursor: Option<int>, token: Token, cycle: Option<Query>, saved: set<Issue>)

  /** What happens to a run: the batch it reads, how many issues it saves before a failure, and whether it gets to
      record its progress. */
  datatype Run = Run(now: int, limit: nat, found: Option<Batch>, failedAfter: Option<nat>, recorded: bool)

  /** White space as Unicode has it. */
  predicate White(c: char) {
    || '\t' <= c <= '\r' || c == ' ' || c == '\U{85}' || c == '\U{A0}' || c == '\U{1680}'
    || '\U{2000}' <= c <= '\U{200A}'
    || c == '\U{2028}' || c == '\U{2029}' || c == '\U{202F}' || c == '\U{205F}' || c == '\U{3000}'
  }

  predicate Blank(s: string) {
    forall c :: c in s ==> White(c)
  }

  predicate Usable(issue: Issue) {
    issue.key != "" && !Blank(issue.title)
  }

  function UsableIn(issues: seq<Issue>): set<Issue> {
    set issue | issue in issues && Usable(issue)
  }

  /** A run continues the open cycle, or freezes a new one up to the current minute. */
  function Opening(s: Sync, now: int): Sync {
    if s.token == "" || s.cycle.None? then
      s.(token := "", cycle := Some(Query(if s.cursor.None? then None else Some(s.cursor.value - OVERLAP), now)))
    else s
  }

  function Ran(s: Sync, run: Run): Sync {
    var begun := Opening(s, run.now);
    if run.found.None? then begun
    else
      var batch := run.found.value;
      if run.failedAfter.Some? && run.failedAfter.value < |batch.issues| then
        begun.(saved := begun.saved + UsableIn(batch.issues[..run.failedAfter.value]))
      else
        var kept := begun.(saved := begun.saved + UsableIn(batch.issues));
        if !run.recorded then kept
        else if batch.last || batch.next == "" then
          kept.(cursor := Some(begun.cycle.value.upper), token := "", cycle := None)
        else kept.(token := batch.next)
  }

  /** What the service holds: for each query a fixed result and the positions of its tokens. */
  datatype Service = Service(results: Query -> seq<Issue>, at: (Query, Token) -> nat)

  function At(service: Service, q: Query): Token -> nat {
    token => service.at(q, token)
  }

  /** The run's batch, if any, is what the service serves for the cycle and token in force. */
  predicate Faithful(service: Service, s: Sync, run: Run) {
    var begun := Opening(s, run.now);
    var q := begun.cycle.value;
    && service.at(q, "") == 0
    && (run.found.Some? ==> Reads(service.results(q), At(service, q), begun.token, run.limit, run.found.value))
  }

  function Synced(s: Sync, runs: seq<Run>): Sync {
    if runs == [] then s else Ran(Synced(s, runs[..|runs| - 1]), runs[|runs| - 1])
  }

  ghost predicate AllFaithful(service: Service, s: Sync, runs: seq<Run>) {
    forall i :: 0 <= i < |runs| ==> Faithful(service, Synced(s, runs[..i]), runs[i])
  }

  const IDLE := Sync(None, "", None, {})

  // ----- completeness -----

  /** Everything before the continuation of the open cycle has been saved. */
  ghost predicate Caught(service: Service, s: Sync) {
    s.token != "" ==>
      && s.cycle.Some?
      && service.at(s.cycle.value, s.token) <= |service.results(s.cycle.value)|
      && UsableIn(service.results(s.cycle.value)[..service.at(s.cycle.value, s.token)]) <= s.saved
  }

  lemma {:induction false} UsableUpTo(issues: seq<Issue>, i: nat, n: nat)
    requires i + n <= |issues|
    ensures UsableIn(issues[..i + n]) == UsableIn(issues[..i]) + UsableIn(issues[i..i + n])
  {
    assert issues[..i + n] == issues[..i] + issues[i..i + n];
  }

  /** One run, whether it fails or not, keeps what was caught. It moves the cursor only to the frozen upper bound of its
      cycle, and only when every usable issue of the cycle's result has been saved. */
  lemma {:induction false} RunKeepsCaught(service: Service, s: Sync, run: Run)
    requires Caught(service, s) && Faithful(service, s, run)
    ensures Caught(service, Ran(s, run)) && s.saved <= Ran(s, run).saved
    ensures Ran(s, run).cursor != s.cursor ==>
      var q := Opening(s, run.now).cycle.value;
      Ran(s, run).cursor == Some(q.upper) && UsableIn(service.results(q)) <= Ran(s, run).saved
  {
    var begun := Opening(s, run.now);
    var q := begun.cycle.value;
    assert UsableIn(service.results(q)[..0]) == {};
    if run.found.Some? {
      var batch := run.found.value;
      var start := service.at(q, begun.token);
      UsableUpTo(service.results(q), start, |batch.issues|);
      if start + |batch.issues| == |service.results(q)| {
        assert service.results(q)[..|service.results(q)|] == service.results(q);
      }
    }
  }

  lemma {:induction false} SyncedIsCaught(service: Service, runs: seq<Run>)
    requires AllFaithful(service, IDLE, runs)
    ensures Caught(service, Synced(IDLE, runs))
  {
    if runs != [] {
      FaithfulEarlier(service, runs);
      SyncedIsCaught(service, runs[..|runs| - 1]);
      RunKeepsCaught(service, Synced(IDLE, runs[..|runs| - 1]), runs[|runs| - 1]);
    }
  }

  lemma {:induction false} FaithfulEarlier(service: Service, runs: seq<Run>)
    requires runs != [] && AllFaithful(service, IDLE, runs)
    ensures AllFaithful(service, IDLE, runs[..|runs| - 1]) &&
      Faithful(service, Synced(IDLE, runs[..|runs| - 1]), runs[|runs| - 1])
  {
    var earlier := runs[..|runs| - 1];
    forall i | 0 <= i < |earlier| ensures Faithful(service, Synced(IDLE, earlier[..i]), earlier[i]) {
      assert earlier[..i] == runs[..i];
    }
  }

  /** A concrete case: the service puts three issues on a page although two were asked for. The third is cut off, yet
      the cycle completes and the cursor moves. */
  lemma {:induction false} OverlongPageLosesAnIssue(a: Issue, b: Issue, c: Issue, at: Token -> nat)
    requires Usable(a) && Usable(b) && Usable(c) && c != a && c != b && at("") == 0
    ensures var page, batch := Page([a, b, c], "", true), Batch([a, b], "", true);
      && Serves([a, b, c], at, "", page) && Brings([a, b, c], at, "", 2, 3, batch) &&
        !Reads([a, b, c], at, "", 2, batch)
      && var s := Ran(IDLE, Run(5, 2, Some(batch), None, true)); s.cursor == Some(5) && c !in s.saved
  {
    var batch := Batch([a, b], "", true);
    assert [a, b, c][0..2] == [a, b];
    assert at("") + |batch.issues| == 2;
  }

  // ----- which issues are saved -----

  /** The characters trimmed from a title before it is looked at. */
  const WHITE_SPACE := "\t\n\U{B}\U{C}\r \U{85}\U{A0}\U{1680}" +
    "\U{2000}\U{2001}\U{2002}\U{2003}\U{2004}\U{2005}\U{2006}\U{2007}\U{2008}\U{2009}\U{200A}" +
    "\U{2028}\U{2029}\U{202F}\U{205F}\U{3000}"

  lemma {:induction false} WhiteSpaceIsListed(c: char)
    ensures White(c) <==> c in WHITE_SPACE
  {
    var ascii := "\t\n\U{B}\U{C}\r \U{85}\U{A0}\U{1680}";
    var spaces := "\U{2000}\U{2001}\U{2002}\U{2003}\U{2004}\U{2005}\U{2006}\U{2007}\U{2008}\U{2009}\U{200A}";
    var others := "\U{2028}\U{2029}\U{202F}\U{205F}\U{3000}";
    assert WHITE_SPACE == ascii + spaces + others;
  }

  lemma {:induction false} UsableIsTitled(issue: Issue)
    ensures Usable(issue) <==> issue.key != "" && exists c :: c in issue.title && c !in WHITE_SPACE
  {
    forall c ensures White(c) <==> c in WHITE_SPACE {
      WhiteSpaceIsListed(c);
    }
  }

  /** Whenever a run moves the cursor, every issue of its cycle's result that has a key and some visible character in
      its title has been saved. */
  lemma {:induction false} CursorMovesPastSavedIssues(service: Service, runs: seq<Run>, issue: Issue)
    requires runs != [] && AllFaithful(service, IDLE, runs)
    requires var s, run := Synced(IDLE, runs[..|runs| - 1]), runs[|runs| - 1];
      && Synced(IDLE, runs).cursor != s.cursor
      && issue in service.results(Opening(s, run.now).cycle.value)
    requires issue.key != "" && exists c :: c in issue.title && c !in WHITE_SPACE
    ensures issue in Synced(IDLE, runs).saved
  {
    var s, run := Synced(IDLE, runs[..|runs| - 1]), runs[|runs| - 1];
    FaithfulEarlier(service, runs);
    SyncedIsCaught(service, runs[..|runs| - 1]);
    RunKeepsCaught(service, s, run);
    UsableIsTitled(issue);
    assert issue in UsableIn(service.results(Opening(s, run.now).cycle.value));
  }

  /** After any runs each saved issue has a key and some visible character in its title, and some run found it. */
  lemma {:induction false} SavedIssuesWereFound(runs: seq<Run>, issue: Issue) returns (i: nat)
    requires issue in Synced(IDLE, runs).saved
    ensures issue.key != "" && exists c :: c in issue.title && c !in WHITE_SPACE
    ensures i < |runs| && runs[i].found.Some? && issue in runs[i].found.value.issues
  {
    UsableIsTitled(issue);
    hide Usable;
    if issue in Synced(IDLE, runs[..|runs| - 1]).saved {
      i := SavedIssuesWereFound(runs[..|runs| - 1], issue);
    } else {
      i := |runs| - 1;
    }
  }

  // ----- the batches of a cycle -----

  /** Whether a run records progress, and whether it opens a new cycle. */
  predicate Records(run: Run) {
    run.found.Some? && !(run.failedAfter.Some? && run.failedAfter.value < |run.found.value.issues|) && run.recorded
  }

  predicate Reopens(s: Sync) {
    s.token == "" || s.cycle.None?
  }

  /** The batches recorded since the current cycle began, concatenated; repeated reads of a failed run are not
      counted. */
  function BatchesOfCycle(runs: seq<Run>): seq<Issue> {
    if runs == [] then []
    else
      var s, run := Synced(IDLE, runs[..|runs| - 1]), runs[|runs| - 1];
      (if Reopens(s) then [] else BatchesOfCycle(runs[..|runs| - 1])) +
        (if Records(run) then run.found.value.issues else [])
  }

  /** `read` is what the cycle has brought so far. */
  predicate Progressed(service: Service, s: Sync, read: seq<Issue>) {
    s.token != "" ==>
      && s.cycle.Some?
      && service.at(s.cycle.value, s.token) <= |service.results(s.cycle.value)|
      && read == service.results(s.cycle.value)[..service.at(s.cycle.value, s.token)]
  }

  lemma {:induction false} RecordedRunProgresses(service: Service, s: Sync, run: Run, read: seq<Issue>)
    requires Progressed(service, s, read) && Faithful(service, s, run) && Records(run) && (Reopens(s) ==> read == [])
    ensures var q := Opening(s, run.now).cycle.value;
      var read' := read + run.found.value.issues;
      Progressed(service, Ran(s, run), read') && (Ran(s, run).token == "" ==> read' == service.results(q))
  {
    var begun := Opening(s, run.now);
    var q, batch := begun.cycle.value, run.found.value;
    var start, all := service.at(q, begun.token), service.results(q);
    assert read == all[..start];
    assert all[..start + |batch.issues|] == all[..start] + all[start..start + |batch.issues|];
    assert all[..|all|] == all;
  }

  lemma {:induction false} UnrecordedRunStays(service: Service, s: Sync, run: Run, read: seq<Issue>)
    requires Progressed(service, s, read) && !Records(run)
    ensures Progressed(service, Ran(s, run), read)
  {
  }

  /** Across failed and restarted runs the batches of a cycle concatenate to the front of the cycle's result, and to the
      whole of it when the cycle completes. */
  lemma {:induction false} BatchesConcatenate(service: Service, runs: seq<Run>)
    requires AllFaithful(service, IDLE, runs)
    ensures Progressed(service, Synced(IDLE, runs), BatchesOfCycle(runs))
    ensures runs != [] && Records(runs[|runs| - 1]) && Synced(IDLE, runs).token == "" ==>
      BatchesOfCycle(runs) ==
        service.results(Opening(Synced(IDLE, runs[..|runs| - 1]), runs[|runs| - 1].now).cycle.value)
  {
    if runs != [] {
      var s, run := Synced(IDLE, runs[..|runs| - 1]), runs[|runs| - 1];
      FaithfulEarlier(service, runs);
      BatchesConcatenate(service, runs[..|runs| - 1]);
      var read := if Reopens(s) then [] else BatchesOfCycle(runs[..|runs| - 1]);
      SyncedIsCaught(service, runs[..|runs| - 1]);
      if Records(run) {
        RecordedRunProgresses(service, s, run, read);
      } else {
        UnrecordedRunStays(service, s, run, read);
        assert read + [] == read;
      }
    }
  }

  // ----- coverage -----

  /** Whether a run completes its cycle. */
  predicate Completes(s: Sync, run: Run) {
    Records(run) && (run.found.value.last || run.found.value.next == "")
  }

  predicate InWindow(q: Query, time: int) {
    (q.from.Some? ==> q.from.value <= time) && time <= q.upper
  }

  /** Some completed cycle asked for this time. */
  ghost predicate CoveredBy(runs: seq<Run>, i: nat, time: int) {
    && i < |runs| && Completes(Synced(IDLE, runs[..i]), runs[i])
    && InWindow(Opening(Synced(IDLE, runs[..i]), runs[i].now).cycle.value, time)
  }

  /** The window of an open cycle reaches back behind the cursor. */
  predicate WindowOverlaps(s: Sync) {
    s.cycle.Some? && s.token != "" ==>
      s.cycle.value.from == if s.cursor.None? then None else Some(s.cursor.value - OVERLAP)
  }

  lemma {:induction false} WindowsOverlap(runs: seq<Run>)
    ensures WindowOverlaps(Synced(IDLE, runs))
  {
    if runs != [] {
      WindowsOverlap(runs[..|runs| - 1]);
    }
  }

  /** Successive windows leave no gap: every time up to the cursor was asked for by some completed cycle. */
  lemma {:induction false} NoTimeIsMissed(runs: seq<Run>, time: int) returns (i: nat)
    requires Synced(IDLE, runs).cursor.Some? && time <= Synced(IDLE, runs).cursor.value
    ensures CoveredBy(runs, i, time)
  {
    var earlier, run := runs[..|runs| - 1], runs[|runs| - 1];
    var s := Synced(IDLE, earlier);
    WindowsOverlap(earlier);
    if Completes(s, run) && InWindow(Opening(s, run.now).cycle.value, time) {
      i := |earlier|;
    } else {
      i := NoTimeIsMissed(earlier, time);
      assert earlier[..i] == runs[..i];
    }
  }
}
