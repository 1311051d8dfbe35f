/** The fixed-window limiter in front of authentication: one stored row for each scope and identifier. */
module RateLimiter {
  import opened Wrappers

  /** Times are in seconds. */
  datatype Limits = Limits(limit: nat, window: nat, blockFor: nat)

  datatype Row = Row(start: int, count: nat, blockedUntil: Option<int>)

  /** Inserts the first attempt; a later one restarts an expired window or counts in the open one, and blocks when the
      count exceeds the limit. An unexpired block stays as it is. */
  function Consumed(limits: Limits, stored: Option<Row>, now: int): Row {
    match stored
    case None => Row(now, 1, None)
    case Some(row) =>
      var expired := row.start <= now - limits.window;
      var count := if expired then 1 else row.count + 1;
      Row(if expired then now else row.start,
          count,
          if row.blockedUntil.Some? && row.blockedUntil.value > now then row.blockedUntil
          else if count > limits.limit then Some(now + limits.blockFor)
          else None)
  }

  /** An attempt goes through when it leaves no block behind. */
  function Admitted(limits: Limits, stored: Option<Row>, now: int): bool {
    Consumed(limits, stored, now).blockedUntil.None?
  }

  /** The stored row, kept by an upsert and read by the same statement. */
  class Limiter {
    const limits: Limits
    var row: Option<Row>

    constructor (limits: Limits)
      ensures this.limits == limits && row == None
    {
      this.limits := limits;
      row := None;
    }

    /** Seconds to wait, zero when the attempt is admitted. */
    method Consume(now: int) returns (retryAfter: int)
      modifies this
      ensures row == Some(Consumed(limits, old(row), now))
      ensures retryAfter == 0 <==> Admitted(limits, old(row), now)
      ensures retryAfter >= 0
    {
      if row.None? {
        row := Some(Row(now, 1, None));
        return 0;
      }
      var start, count, blockedUntil := row.value.start, row.value.count + 1, row.value.blockedUntil;
      if start <= now - limits.window {
        start, count := now, 1;
      }
      if blockedUntil.None? || blockedUntil.value <= now {
        blockedUntil := if count > limits.limit then Some(now + limits.blockFor) else None;
      }
      row := Some(Row(start, count, blockedUntil));
      if blockedUntil.None? { return 0; }
      retryAfter := blockedUntil.value - now;
      if retryAfter < 1 {
        retryAfter := 1;
      }
    }
  }

  /** The row after a sequence of attempts at the given times. */
  function After(limits: Limits, times: seq<int>): Option<Row> {
    if times == [] then None else Some(Consumed(limits, After(limits, times[..|times| - 1]), times[|times| - 1]))
  }

  predicate Chronological(times: seq<int>) {
    forall i, j :: 0 <= i <= j < |times| ==> times[i] <= times[j]
  }

  predicate Passes(limits: Limits, times: seq<int>, i: nat)
    requires i < |times|
  {
    Admitted(limits, After(limits, times[..i]), times[i])
  }

  /** How many attempts at times in [from, to) were admitted. */
  function AdmittedIn(limits: Limits, times: seq<int>, from: int, to: int): nat {
    if times == [] then 0
    else
      var last := |times| - 1;
      var one := if from <= times[last] < to && Passes(limits, times, last) then 1 else 0;
      AdmittedIn(limits, times[..last], from, to) + one
  }

  /** All attempts are over before `to`. */
  predicate Before(times: seq<int>, to: int) {
    forall i :: 0 <= i < |times| ==> times[i] < to
  }

  lemma {:induction false} LaterFromAdmitsFewer(limits: Limits, times: seq<int>, from: int, later: int, to: int)
    requires from <= later
    ensures AdmittedIn(limits, times, later, to) <= AdmittedIn(limits, times, from, to)
  {
    if times != [] {
      LaterFromAdmitsFewer(limits, times[..|times| - 1], from, later, to);
    }
  }

  lemma {:induction false} NothingFromThenOn(limits: Limits, times: seq<int>, from: int, to: int)
    requires Before(times, from)
    ensures AdmittedIn(limits, times, from, to) == 0
  {
    if times != [] {
      NothingFromThenOn(limits, times[..|times| - 1], from, to);
    }
  }

  /** What a window can admit; the very first attempt passes whatever the limit. */
  function Bound(limits: Limits): nat {
    if limits.limit == 0 then 1 else limits.limit
  }

  function Capped(limits: Limits, count: nat): nat {
    if count < Bound(limits) then count else Bound(limits)
  }

  /** Where a run of attempts stands: the last one lies in the open window, which admitted no more than it counted and
      no more than the limit. */
  lemma {:induction false} OpenWindow(limits: Limits, times: seq<int>, to: int)
    requires Chronological(times) && times != [] && limits.window > 0
    ensures var row := After(limits, times).value;
      && row.start <= times[|times| - 1] < row.start + limits.window
      && row.count >= 1
      && AdmittedIn(limits, times, row.start, to) <= Capped(limits, row.count)
  {
    var earlier, now := times[..|times| - 1], times[|times| - 1];
    if earlier == [] {
      assert After(limits, earlier).None?;
      assert AdmittedIn(limits, earlier, now, to) == 0;
    } else {
      OpenWindow(limits, earlier, to);
      var row := After(limits, earlier).value;
      if row.start <= now - limits.window {
        assert Before(earlier, now) by {
          assert forall i :: 0 <= i < |earlier| ==> earlier[i] <= earlier[|earlier| - 1];
        }
        NothingFromThenOn(limits, earlier, now, to);
      }
    }
  }

  /** Looking back less than a window behind the open one, at most one earlier window contributes. */
  lemma {:induction false} LookBack(limits: Limits, times: seq<int>, from: int, to: int)
    requires Chronological(times) && times != [] && limits.window > 0
    requires After(limits, times).value.start - limits.window < from
    ensures AdmittedIn(limits, times, from, to) <= Bound(limits) + Capped(limits, After(limits, times).value.count)
  {
    var earlier, now := times[..|times| - 1], times[|times| - 1];
    if earlier == [] {
      assert AdmittedIn(limits, earlier, from, to) == 0;
    } else {
      OpenWindow(limits, earlier, to);
      var row := After(limits, earlier).value;
      if row.start <= now - limits.window {
        LaterFromAdmitsFewer(limits, earlier, row.start, from, to);
      } else {
        LookBack(limits, earlier, from, to);
      }
    }
  }

  /** In any interval of the window's length, wherever it starts, at most twice the limit is admitted. */
  lemma {:induction false} SlidingWindowAdmitsTwice(limits: Limits, times: seq<int>, from: int)
    requires Chronological(times) && limits.window > 0
    ensures AdmittedIn(limits, times, from, from + limits.window) <= 2 * Bound(limits)
  {
    if times != [] {
      if times[|times| - 1] >= from + limits.window {
        SlidingWindowAdmitsTwice(limits, times[..|times| - 1], from);
      } else {
        OpenWindow(limits, times, from + limits.window);
        LookBack(limits, times, from, from + limits.window);
      }
    }
  }

  lemma {:induction false} StartStays(limits: Limits, times: seq<int>, i: nat)
    requires Chronological(times) && 1 <= i <= |times| && limits.window > 0
    requires times[|times| - 1] < After(limits, times[..i]).value.start + limits.window
    ensures After(limits, times).value.start == After(limits, times[..i]).value.start
    decreases |times|
  {
    if i == |times| {
      assert times[..i] == times;
    } else {
      assert times[..|times| - 1][..i] == times[..i];
      StartStays(limits, times[..|times| - 1], i);
    }
  }

  /** A fixed window, from the attempt that opened it until its length has passed, admits at most the limit. */
  lemma {:induction false} FixedWindowAdmitsLimit(limits: Limits, times: seq<int>, i: nat)
    requires Chronological(times) && 1 <= i <= |times| && limits.window > 0
    ensures var start := After(limits, times[..i]).value.start;
      AdmittedIn(limits, times, start, start + limits.window) <= Bound(limits)
    decreases |times|
  {
    var start := After(limits, times[..i]).value.start;
    if times[|times| - 1] < start + limits.window {
      StartStays(limits, times, i);
      OpenWindow(limits, times, start + limits.window);
    } else {
      assert times[..|times| - 1][..i] == times[..i] by {
        OpenWindow(limits, times[..i], start);
        assert i < |times|;
      }
      FixedWindowAdmitsLimit(limits, times[..|times| - 1], i);
    }
  }

  /** Once blocked, an identifier stays blocked until the time that was set then: attempts in between neither pass nor
      postpone it. */
  lemma {:induction false} BlockHolds(limits: Limits, times: seq<int>, later: seq<int>, until: int)
    requires times != [] && After(limits, times).value.blockedUntil == Some(until) && Before(later, until)
    ensures After(limits, times + later).value.blockedUntil == Some(until)
    ensures later != [] ==> !Passes(limits, times + later, |times + later| - 1)
  {
    if later == [] {
      assert times + later == times;
    } else {
      var earlier := later[..|later| - 1];
      assert (times + later)[..|times + later| - 1] == times + earlier;
      BlockHolds(limits, times, earlier, until);
    }
  }

  /** The first attempt beyond the limit of an open window blocks. */
  lemma {:induction false} ExceedingBlocks(limits: Limits, stored: Row, now: int)
    requires stored.blockedUntil.None? && now < stored.start + limits.window
    ensures Admitted(limits, Some(stored), now) <==> stored.count < limits.limit
    ensures !Admitted(limits, Some(stored), now) ==>
      Consumed(limits, Some(stored), now).blockedUntil == Some(now + limits.blockFor)
  {
  }
}
