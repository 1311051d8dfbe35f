/** The consumer as it runs: cursor and journal are updated in place, page by page. */
module Consumer {
  import opened Wrappers
  import opened Forest
  import opened EventFeed

  lemma {:induction false} JournaledOneMore(journal: Journal, mapped: map<NodeId, nat>, events: seq<FeedEvent>, i: nat)
    requires i < |events|
    ensures var before := Journaled(journal, mapped, events[..i]);
      Journaled(journal, mapped, events[..i + 1]) ==
        if events[i].id in before || RowFor(mapped, events[i]).None? then before
        else before[events[i].id := RowFor(mapped, events[i]).value]
  {
    assert events[..i + 1][..i] == events[..i];
  }

  lemma {:induction false} JournaledNothing(journal: Journal, mapped: map<NodeId, nat>, events: seq<FeedEvent>)
    ensures Journaled(journal, mapped, events[..0]) == journal
  {
  }

  lemma {:induction false} StableIsPrefix(page: seq<FeedEvent>, cutoff: int, n: nat)
    requires n <= |page| && (forall k :: 0 <= k < n ==> page[k].at <= cutoff) && (n < |page| ==> page[n].at > cutoff)
    ensures Stable(page, cutoff) == page[..n]
  {
    if n > 0 {
      StableIsPrefix(page[1..], cutoff, n - 1);
      assert page[..n] == [page[0]] + page[1..][..n - 1];
    }
  }

  /** The events of a page before the first one that is too young. */
  method SettledFront(page: seq<FeedEvent>, cutoff: int) returns (stable: seq<FeedEvent>)
    ensures stable == Stable(page, cutoff)
  {
    stable := [];
    while |stable| < |page| && page[|stable|].at <= cutoff
      invariant stable <= page && forall k :: 0 <= k < |stable| ==> page[k].at <= cutoff
    {
      stable := stable + [page[|stable|]];
    }
    StableIsPrefix(page, cutoff, |stable|);
  }

  class EventConsumer {
    var journal: Journal
    var cursor: Option<FeedEvent>

    /** The feed as this consumer leaves it, over what the core and the mappings hold. */
    function State(outbox: set<FeedEvent>, mapped: map<NodeId, nat>, fetched: Option<Fetched>): Feed
      reads this
    {
      Feed(outbox, mapped, journal, cursor, fetched)
    }

    constructor ()
      ensures State({}, map[], None) == SILENT
    {
      journal := map[];
      cursor := None;
    }

    /** Applies a page that was read before: keep its settled front, journal it, move the cursor. The result tells
        whether another page should follow at once. */
    method ConsumePage(outbox: set<FeedEvent>, mapped: map<NodeId, nat>, fetched: Fetched, hasMore: bool, now: int)
      returns (again: bool)
      modifies this
      ensures State(outbox, mapped, None) == Advanced(old(State(outbox, mapped, Some(fetched))), Apply(now))
      ensures again <==> hasMore && |Taken(old(State(outbox, mapped, Some(fetched))), Apply(now))| == PAGE
    {
      hide Journaled;
      ghost var f := State(outbox, mapped, Some(fetched));
      var page := fetched.page;
      var cutoff := now - SETTLE;
      var stable := SettledFront(page, cutoff);
      assert Taken(f, Apply(now)) == stable;
      if |stable| == 0 { return false; }
      JournaledNothing(f.journal, mapped, stable);
      for i := 0 to |stable|
        invariant journal == Journaled(f.journal, mapped, stable[..i]) && cursor == f.cursor
      {
        var e := stable[i];
        JournaledOneMore(f.journal, mapped, stable, i);
        if e.aggregate.WorkNode? && e.node in mapped && e.id !in journal {
          journal := journal[e.id := Row(e, Echo(e, mapped[e.node]))];
        }
      }
      assert stable[..|stable|] == stable;
      cursor := Some(stable[|stable| - 1]);
      return hasMore && |stable| == PAGE;
    }
  }
}
