/** The committed events of the core, read page by page by the gateway's consumer. Events become visible when their
    transaction commits but carry the time it began, so they may appear behind others; the consumer waits for the tail
    of the feed to settle. */
module EventFeed {
  import opened Wrappers
  import opened Forest

  datatype Aggregate = WorkNode | Other

  datatype FeedEvent = FeedEvent(id: nat, at: int, aggregate: Aggregate, node: NodeId, revision: Option<nat>)

  /** One row of the outbound journal. */
  datatype Row = Row(event: FeedEvent, suppressed: bool)

  type Journal = map<nat, Row>

  const PAGE := 100
  const SETTLE := 2000 // milliseconds

  // ----- order and pages -----

  predicate Before(a: FeedEvent, b: FeedEvent) {
    a.at < b.at || (a.at == b.at && a.id < b.id)
  }

  /** The cursor names the last event consumed. */
  predicate Ahead(cursor: Option<FeedEvent>, e: FeedEvent) {
    cursor.None? || Before(cursor.value, e)
  }

  predicate Sorted(rows: seq<FeedEvent>) {
    forall i, j :: 0 <= i < j < |rows| ==> Before(rows[i], rows[j])
  }

  predicate UniqueIds(outbox: set<FeedEvent>) {
    forall e, f :: e in outbox && f in outbox && e.id == f.id ==> e == f
  }

  /** The answer to ORDER BY occurred_at, id LIMIT n over the events after the cursor. */
  predicate IsAnswer(outbox: set<FeedEvent>, cursor: Option<FeedEvent>, n: nat, rows: seq<FeedEvent>) {
    && Sorted(rows) && |rows| <= n
    && (forall e :: e in rows ==> e in outbox && Ahead(cursor, e))
    && (forall e :: e in outbox && Ahead(cursor, e) && e !in rows ==>
      |rows| == n && forall p :: p in rows ==> Before(p, e))
  }

  /** A page is the answer for `limit` rows; one more row is asked for to know whether others follow. */
  method ListCommitted(outbox: set<FeedEvent>, cursor: Option<FeedEvent>, limit: nat, rows: seq<FeedEvent>)
    returns (items: seq<FeedEvent>, more: bool, next: Option<FeedEvent>)
    requires 1 <= limit && IsAnswer(outbox, cursor, limit + 1, rows)
    ensures IsAnswer(outbox, cursor, limit, items)
    ensures more <==> exists e :: e in outbox && Ahead(cursor, e) && e !in items
    ensures next == if items == [] then cursor else Some(items[|items| - 1])
  {
    items := rows;
    more := |items| > limit;
    if more {
      items := items[..limit];
      assert rows[limit] in rows && rows[limit] !in items;
      forall e | e in outbox && Ahead(cursor, e) && e !in items ensures forall p :: p in items ==> Before(p, e) {
        if e in rows {
          assert e == rows[limit];
        }
      }
    }
    next := cursor;
    if |items| > 0 {
      next := Some(items[|items| - 1]);
    }
  }

  // ----- one page -----

  /** The events of a page up to the first one younger than the cutoff. */
  function Stable(page: seq<FeedEvent>, cutoff: int): (stable: seq<FeedEvent>)
    ensures |stable| <= |page| && stable == page[..|stable|]
    ensures forall e :: e in stable ==> e.at <= cutoff
    ensures |stable| < |page| ==> page[|stable|].at > cutoff
  {
    if page == [] || page[0].at > cutoff then [] else [page[0]] + Stable(page[1..], cutoff)
  }

  /** Revisions up to the one the gateway itself created are echoes. */
  predicate Echo(e: FeedEvent, lastNative: nat) {
    e.revision.Some? && e.revision.value <= lastNative
  }

  /** The row an event is worth: only work nodes with a mapping are journaled. */
  function RowFor(mapped: map<NodeId, nat>, e: FeedEvent): Option<Row> {
    if e.aggregate.WorkNode? && e.node in mapped then Some(Row(e, Echo(e, mapped[e.node]))) else None
  }

  /** Inserting a page, one event at a time, skipping ids already there. */
  function Journaled(journal: Journal, mapped: map<NodeId, nat>, events: seq<FeedEvent>): Journal {
    if events == [] then journal
    else
      var before, e := Journaled(journal, mapped, events[..|events| - 1]), events[|events| - 1];
      if e.id in before || RowFor(mapped, e).None? then before else before[e.id := RowFor(mapped, e).value]
  }

  // ----- the feed and its consumer -----

  /** A page as read, with what was visible when it was read. */
  datatype Fetched = Fetched(time: int, seen: set<FeedEvent>, page: seq<FeedEvent>)

  datatype Feed = Feed(outbox: set<FeedEvent>, mapped: map<NodeId, nat>, journal: Journal, cursor: Option<FeedEvent>,
                       fetched: Option<Fetched>)

  datatype Move =
    | Publish(now: int, events: set<FeedEvent>)
    | MapNode(now: int, node: NodeId, revision: nat)
    | Fetch(now: int, page: seq<FeedEvent>)
    | Apply(now: int)
    | Crash(now: int)

  const SILENT := Feed({}, map[], map[], None, None)

  /** What a move consumes. The cutoff is taken when the page is applied, not when it was read. */
  function Taken(f: Feed, m: Move): seq<FeedEvent> {
    if m.Apply? && f.fetched.Some? then Stable(f.fetched.value.page, m.now - SETTLE) else []
  }

  function Advanced(f: Feed, m: Move): Feed {
    match m
    case Publish(_, events) =>
      if UniqueIds(f.outbox + events) then f.(outbox := f.outbox + events) else f
    case MapNode(_, node, revision) =>
      if node in f.mapped then f else f.(mapped := f.mapped[node := revision])
    case Fetch(now, page) =>
      if f.fetched.None? && IsAnswer(f.outbox, f.cursor, PAGE, page) then
        f.(fetched := Some(Fetched(now, f.outbox, page)))
      else f
    case Apply(_) =>
      var taken := Taken(f, m);
      if taken == [] then f.(fetched := None)
      else f.(journal := Journaled(f.journal, f.mapped, taken), cursor := Some(taken[|taken| - 1]), fetched := None)
    case Crash(_) => f.(fetched := None)
  }

  function Fed(moves: seq<Move>): Feed {
    if moves == [] then SILENT else Advanced(Fed(moves[..|moves| - 1]), moves[|moves| - 1])
  }

  ghost predicate FeedOk(f: Feed) {
    && UniqueIds(f.outbox)
    && (f.cursor.Some? ==> f.cursor.value in f.outbox)
    && (f.fetched.Some? ==>
      f.fetched.value.seen <= f.outbox && IsAnswer(f.fetched.value.seen, f.cursor, PAGE, f.fetched.value.page))
  }

  lemma {:induction false} MoveKeepsFeed(f: Feed, m: Move)
    requires FeedOk(f)
    ensures FeedOk(Advanced(f, m)) && f.outbox <= Advanced(f, m).outbox
  {
    if m.Apply? && Taken(f, m) != [] {
      var taken := Taken(f, m);
      assert taken[|taken| - 1] in taken && taken[|taken| - 1] in f.fetched.value.page;
    }
  }

  /** A page that was read stays as it was read until it is applied or lost. */
  lemma {:induction false} PageStays(moves: seq<Move>, i: nat)
    requires i < |moves| && moves[i].Fetch? && Fed(moves[..i]).fetched.None? && Fed(moves[..i + 1]).fetched.Some?
    requires forall j :: i < j < |moves| ==> !moves[j].Apply? && !moves[j].Crash?
    ensures Fed(moves).fetched == Some(Fetched(moves[i].now, Fed(moves[..i]).outbox, moves[i].page))
    decreases |moves|
  {
    var earlier := moves[..|moves| - 1];
    if i == |earlier| {
      assert moves[..i + 1] == moves && moves[..i] == earlier;
    } else {
      assert earlier[..i] == moves[..i] && earlier[..i + 1] == moves[..i + 1];
      PageStays(earlier, i);
    }
  }

  lemma {:induction false} FedIsOk(moves: seq<Move>)
    ensures FeedOk(Fed(moves))
  {
    if moves != [] {
      FedIsOk(moves[..|moves| - 1]);
      MoveKeepsFeed(Fed(moves[..|moves| - 1]), moves[|moves| - 1]);
    }
  }

  // ----- what a page does to the cursor -----

  lemma {:induction false} OrderIsTotal(outbox: set<FeedEvent>, a: FeedEvent, b: FeedEvent)
    requires UniqueIds(outbox) && a in outbox && b in outbox
    ensures a == b || Before(a, b) || Before(b, a)
    ensures !(Before(a, b) && Before(b, a))
  {
  }

  /** The cursor passes exactly the events taken, among those that were visible when the page was read. */
  lemma {:induction false} CursorPassesWhatIsTaken(f: Feed, m: Move, e: FeedEvent)
    requires FeedOk(f)
    ensures e in Taken(f, m) ==> e in f.outbox && Ahead(f.cursor, e) && !Ahead(Advanced(f, m).cursor, e)
    ensures e in f.outbox && Ahead(f.cursor, e) && !Ahead(Advanced(f, m).cursor, e) ==>
      f.fetched.Some? && (e in Taken(f, m) <==> e in f.fetched.value.seen)
  {
    if m.Apply? && Taken(f, m) != [] {
      var page, taken := f.fetched.value.page, Taken(f, m);
      var last := taken[|taken| - 1];
      assert page[|taken| - 1] == last && forall k :: 0 <= k < |taken| ==> taken[k] == page[k];
      assert last in page;
      if e in f.fetched.value.seen {
        OrderIsTotal(f.outbox, e, last);
        assert e in page ==> exists k :: 0 <= k < |page| && page[k] == e;
      }
    }
  }

  /** The cursor only grows. */
  lemma {:induction false} CursorOnlyGrows(f: Feed, m: Move, e: FeedEvent)
    requires FeedOk(f) && !Ahead(f.cursor, e)
    ensures !Ahead(Advanced(f, m).cursor, e)
  {
    if m.Apply? && Taken(f, m) != [] {
      var taken := Taken(f, m);
      assert taken[|taken| - 1] in taken && taken[|taken| - 1] in f.fetched.value.page;
    }
  }

  // ----- every event once -----

  /** How often a run consumes an event. */
  function Consumptions(moves: seq<Move>, e: FeedEvent): nat {
    if moves == [] then 0
    else Consumptions(moves[..|moves| - 1], e) + multiset(Taken(Fed(moves[..|moves| - 1]), moves[|moves| - 1]))[e]
  }

  lemma {:induction false} SortedCounts(rows: seq<FeedEvent>, e: FeedEvent)
    requires Sorted(rows)
    ensures multiset(rows)[e] == if e in rows then 1 else 0
    decreases |rows|
  {
    if rows != [] {
      var rest, last := rows[..|rows| - 1], rows[|rows| - 1];
      SortedCounts(rest, e);
      assert rows == rest + [last];
      assert last !in rest;
    }
  }

  lemma {:induction false} TakenCounts(f: Feed, m: Move, e: FeedEvent)
    requires FeedOk(f)
    ensures multiset(Taken(f, m))[e] == if e in Taken(f, m) then 1 else 0
  {
    SortedCounts(Taken(f, m), e);
  }

  /** The event is visible and the cursor is past it. */
  predicate Behind(f: Feed, e: FeedEvent) {
    e in f.outbox && !Ahead(f.cursor, e)
  }

  /** This move leaves the event behind the cursor although the page in hand, if any, was read before it was visible. */
  predicate Skips(f: Feed, m: Move, e: FeedEvent) {
    !Behind(f, e) && Behind(Advanced(f, m), e) && !(m.Apply? && f.fetched.Some? && e in f.fetched.value.seen)
  }

  lemma {:induction false} MoveConsumesOrSkips(f: Feed, m: Move, e: FeedEvent)
    requires FeedOk(f)
    ensures multiset(Taken(f, m))[e] == if !Behind(f, e) && Behind(Advanced(f, m), e) && !Skips(f, m, e) then 1 else 0
    ensures Behind(f, e) ==> Behind(Advanced(f, m), e)
  {
    MoveKeepsFeed(f, m);
    TakenCounts(f, m, e);
    CursorPassesWhatIsTaken(f, m, e);
    if !Ahead(f.cursor, e) {
      CursorOnlyGrows(f, m, e);
    }
  }

  ghost predicate SkippedAt(moves: seq<Move>, i: nat, e: FeedEvent) {
    i < |moves| && Skips(Fed(moves[..i]), moves[i], e)
  }

  ghost predicate Skipped(moves: seq<Move>, e: FeedEvent) {
    exists i: nat :: SkippedAt(moves, i, e)
  }

  lemma {:induction false} SkippedBefore(moves: seq<Move>, i: nat, e: FeedEvent)
    requires moves != [] && i < |moves| - 1
    ensures SkippedAt(moves, i, e) <==> SkippedAt(moves[..|moves| - 1], i, e)
  {
    assert moves[..|moves| - 1][..i] == moves[..i];
  }

  lemma {:induction false} SkippedEarlier(moves: seq<Move>, e: FeedEvent)
    requires moves != []
    ensures Skipped(moves, e) <==> Skipped(moves[..|moves| - 1], e) || SkippedAt(moves, |moves| - 1, e)
  {
    var earlier := moves[..|moves| - 1];
    if i: nat :| SkippedAt(earlier, i, e) {
      SkippedBefore(moves, i, e);
    }
    if i: nat :| SkippedAt(moves, i, e) {
      if i < |moves| - 1 {
        SkippedBefore(moves, i, e);
      }
    }
  }

  /** Whatever crashes, page sizes and interleavings: an event is consumed at most once and only when the cursor passes
      it, and an event behind the cursor was consumed exactly if it was visible in the page the cursor moved on. */
  lemma {:induction false} ConsumedExactlyWhenSeen(moves: seq<Move>, e: FeedEvent)
    ensures Consumptions(moves, e) == if Behind(Fed(moves), e) && !Skipped(moves, e) then 1 else 0
    ensures Skipped(moves, e) ==> Behind(Fed(moves), e)
  {
    if moves != [] {
      var earlier := moves[..|moves| - 1];
      ConsumedExactlyWhenSeen(earlier, e);
      FedIsOk(earlier);
      SkippedEarlier(moves, e);
      MoveConsumesOrSkips(Fed(earlier), moves[|moves| - 1], e);
    }
  }

  // ----- settled runs -----

  /** The settle hypothesis: whenever a page is applied, every event that is at most as old as the cutoff, including any
      published later, was visible when the page was read. */
  ghost predicate Settled(moves: seq<Move>) {
    forall i, e ::
      0 <= i < |moves| && Taken(Fed(moves[..i]), moves[i]) != [] && e in Fed(moves).outbox &&
        e.at <= moves[i].now - SETTLE ==>
      e in Fed(moves[..i]).fetched.value.seen
  }

  lemma {:induction false} OutboxGrows(moves: seq<Move>, i: nat)
    requires i <= |moves|
    ensures Fed(moves[..i]).outbox <= Fed(moves).outbox
    decreases |moves|
  {
    if i == |moves| {
      assert moves[..i] == moves;
    } else {
      OutboxGrows(moves[..|moves| - 1], i);
      assert moves[..|moves| - 1][..i] == moves[..i];
      FedIsOk(moves[..|moves| - 1]);
      MoveKeepsFeed(Fed(moves[..|moves| - 1]), moves[|moves| - 1]);
    }
  }

  /** The cursor stands on an event that some page took, no younger than the cutoff of that page. */
  ghost predicate CursorCutoff(moves: seq<Move>, i: nat) {
    && i < |moves| && Taken(Fed(moves[..i]), moves[i]) != []
    && Fed(moves).cursor.Some? && Fed(moves).cursor.value.at <= moves[i].now - SETTLE
  }

  lemma {:induction false} CursorHasCutoff(moves: seq<Move>) returns (i: nat)
    ensures Fed(moves).cursor.Some? ==> CursorCutoff(moves, i)
  {
    i := 0;
    if moves != [] {
      var earlier, m := moves[..|moves| - 1], moves[|moves| - 1];
      i := CursorHasCutoff(earlier);
      if Taken(Fed(earlier), m) != [] {
        i := |earlier|;
        var taken := Taken(Fed(earlier), m);
        assert taken[|taken| - 1] in taken;
      } else if Fed(moves).cursor.Some? {
        assert earlier[..i] == moves[..i];
      }
    }
  }

  lemma {:induction false} BehindMeansOlder(f: Feed, e: FeedEvent, cutoff: int)
    requires Behind(f, e) && f.cursor.Some? && f.cursor.value.at <= cutoff
    ensures e.at <= cutoff
  {
  }

  lemma {:induction false} SkipOnApply(f: Feed, m: Move, e: FeedEvent)
    requires FeedOk(f) && Skips(f, m, e) && Taken(f, m) != []
    ensures e in Advanced(f, m).outbox && e.at <= m.now - SETTLE && e !in f.fetched.value.seen
  {
    var taken := Taken(f, m);
    assert taken[|taken| - 1] in taken;
    BehindMeansOlder(Advanced(f, m), e, m.now - SETTLE);
  }

  lemma {:induction false} SkipOnPublish(f: Feed, m: Move, e: FeedEvent)
    requires Skips(f, m, e) && Taken(f, m) == []
    ensures e !in f.outbox && e in Advanced(f, m).outbox && f.cursor.Some? && !Ahead(f.cursor, e)
  {
  }

  lemma {:induction false} FedSoFar(moves: seq<Move>, i: nat)
    requires i < |moves|
    ensures Fed(moves[..i + 1]) == Advanced(Fed(moves[..i]), moves[i])
  {
    assert moves[..i + 1][..i] == moves[..i];
  }

  lemma {:induction false} LateEventWasUnseen(moves: seq<Move>, i: nat, k: nat, e: FeedEvent)
    requires k < i <= |moves| && e !in Fed(moves[..i]).outbox && Taken(Fed(moves[..k]), moves[k]) != []
    ensures Fed(moves[..k]).fetched.Some? && e !in Fed(moves[..k]).fetched.value.seen
  {
    OutboxGrows(moves[..i], k);
    assert moves[..i][..k] == moves[..k];
    FedIsOk(moves[..k]);
  }

  lemma {:induction false} LateEventBreaksSettlement(moves: seq<Move>, i: nat, e: FeedEvent)
    requires i <= |moves| && e in Fed(moves).outbox && e !in Fed(moves[..i]).outbox
    requires Fed(moves[..i]).cursor.Some? && !Ahead(Fed(moves[..i]).cursor, e)
    ensures !Settled(moves)
  {
    var k := CursorHasCutoff(moves[..i]);
    assert moves[..i][..k] == moves[..k];
    LateEventWasUnseen(moves, i, k, e);
    assert e.at <= moves[k].now - SETTLE;
  }

  /** A skip is a breach of the settle hypothesis. */
  lemma {:induction false} SkippingBreaksSettlement(moves: seq<Move>, i: nat, e: FeedEvent)
    requires i < |moves| && Skips(Fed(moves[..i]), moves[i], e)
    ensures !Settled(moves)
  {
    FedSoFar(moves, i);
    OutboxGrows(moves, i + 1);
    FedIsOk(moves[..i]);
    if Taken(Fed(moves[..i]), moves[i]) != [] {
      SkipOnApply(Fed(moves[..i]), moves[i], e);
    } else {
      SkipOnPublish(Fed(moves[..i]), moves[i], e);
      LateEventBreaksSettlement(moves, i, e);
    }
  }

  /** On a settled run nothing is lost and nothing is taken twice: the events consumed are exactly those up to the
      cursor. */
  lemma {:induction false} SettledRunsLoseNothing(moves: seq<Move>, e: FeedEvent)
    requires Settled(moves) && e in Fed(moves).outbox
    ensures Consumptions(moves, e) == if Ahead(Fed(moves).cursor, e) then 0 else 1
  {
    ConsumedExactlyWhenSeen(moves, e);
    if i: nat :| SkippedAt(moves, i, e) {
      SkippingBreaksSettlement(moves, i, e);
    }
  }
}
