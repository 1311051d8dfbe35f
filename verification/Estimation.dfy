/** The running statistics of how well an actor keeps promises. They are kept by a recurrence, one observation at a
    time; here they are proved equal to their definitions over all observations. */
module Estimation {
  import opened Wrappers

  /** How a finished execution compares with its promise. */
  datatype Observation = Observation(error: real, ratio: real)

  function Observe(promised: nat, minutes: real): Observation
    requires promised >= 1
  {
    Observation((minutes - promised as real) / promised as real, minutes / promised as real)
  }

  function Abs(x: real): real {
    if x < 0.0 then -x else x
  }

  datatype Stats = Stats(count: nat, mean: real, m2: real, meanAbs: real, overruns: nat, severity: real)

  /** The row a first observation inserts. */
  function Fresh(o: Observation): Stats
  {
    var e := o.error;
    Stats(1, e, 0.0, Abs(e), if o.ratio > 2.0 then 1 else 0, if o.ratio > 2.0 then o.ratio - 2.0 else 0.0)
  }

  /** Insert, or on conflict update every column from the stored row and the excluded one. */
  function Upserted(stored: Option<Stats>, o: Observation): Stats
  {
    var new' := Fresh(o);
    match stored
    case None => new'
    case Some(old') =>
      var n := (old'.count + 1) as real;
      var mean := old'.mean + (new'.mean - old'.mean) / n;
      Stats(old'.count + 1,
            mean,
            old'.m2 + (new'.mean - old'.mean) * (new'.mean - mean),
            old'.meanAbs + (new'.meanAbs - old'.meanAbs) / n,
            old'.overruns + new'.overruns,
            old'.severity + new'.severity)
  }

  /** What the table holds after a sequence of observations. */
  function Recorded(obs: seq<Observation>): Option<Stats>
  {
    if obs == [] then None else Some(Upserted(Recorded(obs[..|obs| - 1]), obs[|obs| - 1]))
  }

  // ----- the definitions -----

  /** What is summed over the observations. */
  datatype Term = Signed | Absolute | Squared(center: real) | Overrun | Severity

  function Value(t: Term, o: Observation): real
  {
    match t
    case Signed => o.error
    case Absolute => Abs(o.error)
    case Squared(c) => (o.error - c) * (o.error - c)
    case Overrun => if o.ratio > 2.0 then 1.0 else 0.0
    case Severity => if o.ratio > 2.0 then o.ratio - 2.0 else 0.0
  }

  function Total(t: Term, obs: seq<Observation>): real
  {
    if obs == [] then 0.0 else Total(t, obs[..|obs| - 1]) + Value(t, obs[|obs| - 1])
  }

  function Mean(obs: seq<Observation>): real
    requires obs != []
  {
    Total(Signed, obs) / |obs| as real
  }

  function SquaredDeviations(obs: seq<Observation>): real
    requires obs != []
  {
    Total(Squared(Mean(obs)), obs)
  }

  // ----- the recurrence meets the definitions -----

  /** Adding one error to a sum of squares around `c`. */
  lemma {:induction false} ShiftStep(q: real, s: real, n: real, c: real, e: real)
    ensures q - 2.0 * c * s + n * c * c + (e - c) * (e - c) == q + e * e - 2.0 * c * (s + e) + (n + 1.0) * c * c
  {
    assert (e - c) * (e - c) == e * e - 2.0 * c * e + c * c;
    assert 2.0 * c * (s + e) == 2.0 * c * s + 2.0 * c * e;
    assert (n + 1.0) * c * c == n * c * c + c * c;
  }

  lemma {:induction false} SquareValue(o: Observation)
    ensures Value(Squared(0.0), o) == o.error * o.error
  {
    var e := o.error;
    assert e - 0.0 == e;
  }

  /** The sum of squares around `c`, in terms of the sums around zero. */
  predicate Around(squares: real, q: real, s: real, n: real, c: real) {
    squares == q - 2.0 * c * s + n * c * c
  }

  lemma {:induction false} AroundOneMore(squares: real, q: real, s: real, n: real, c: real, o: Observation)
    requires Around(squares, q, s, n, c)
    ensures Around(squares + Value(Squared(c), o), q + Value(Squared(0.0), o), s + Value(Signed, o), n + 1.0, c)
  {
    SquareValue(o);
    ShiftStep(q, s, n, c, o.error);
  }

  /** Shifting the centre of a sum of squares. */
  lemma {:induction false} SquaresAround(obs: seq<Observation>, c: real)
    ensures Around(Total(Squared(c), obs), Total(Squared(0.0), obs), Total(Signed, obs), |obs| as real, c)
  {
    if obs != [] {
      hide Around, Value;
      var rest, o := obs[..|obs| - 1], obs[|obs| - 1];
      SquaresAround(rest, c);
      AroundOneMore(Total(Squared(c), rest), Total(Squared(0.0), rest), Total(Signed, rest), |rest| as real, c, o);
      assert |obs| as real == |rest| as real + 1.0;
    }
  }

  lemma {:induction false} Product(a: real, b: real, c: real)
    requires c != 0.0 && a == b / c
    ensures c * a == b
  {
  }

  /** One step of the recurrence: `s` and `q` are the sums of the errors and of their squares so far. */
  lemma {:induction false} WelfordStep(n: real, mean: real, s: real, q: real, x: real)
    requires n >= 1.0 && n * mean == s
    ensures var mean' := mean + (x - mean) / (n + 1.0);
      && (n + 1.0) * mean' == s + x
      && q - mean * s + (x - mean) * (x - mean') == q + x * x - mean' * (s + x)
  {
    var mean' := mean + (x - mean) / (n + 1.0);
    Product((x - mean) / (n + 1.0), x - mean, n + 1.0);
    assert (n + 1.0) * mean' == s + x by {
      assert (n + 1.0) * mean' == (n + 1.0) * mean + (n + 1.0) * ((x - mean) / (n + 1.0));
      assert (n + 1.0) * mean == s + mean;
    }
    assert mean' * (s + mean) == mean * (s + x) by {
      assert s + mean == (n + 1.0) * mean;
      Reorder(mean', n + 1.0, mean);
    }
    CrossProduct(x, mean, mean', s);
  }

  lemma {:induction false} Reorder(a: real, b: real, c: real)
    ensures a * (b * c) == c * (b * a)
  {
  }

  lemma {:induction false} CrossProduct(x: real, mean: real, mean': real, s: real)
    requires mean' * (s + mean) == mean * (s + x)
    ensures (x - mean) * (x - mean') - mean * s == x * x - mean' * (s + x)
  {
    assert (x - mean) * (x - mean') == x * x - x * mean' - mean * x + mean * mean';
    assert mean' * (s + mean) == mean' * s + mean' * mean;
    assert mean * (s + x) == mean * s + mean * x;
    assert mean' * (s + x) == mean' * s + mean' * x;
  }

  /** The stored mean and spread, in terms of the sums of the errors and of their squares. */
  predicate ErrorsSumTo(st: Stats, s: real, q: real) {
    st.count as real * st.mean == s && st.m2 == q - st.mean * s
  }

  lemma {:induction false} UpsertAddsError(st: Stats, o: Observation, s: real, q: real)
    requires st.count >= 1 && ErrorsSumTo(st, s, q)
    ensures ErrorsSumTo(Upserted(Some(st), o), s + o.error, q + o.error * o.error)
  {
    WelfordStep(st.count as real, st.mean, s, q, o.error);
  }

  predicate SizesSumTo(st: Stats, a: real) {
    st.count as real * st.meanAbs == a
  }

  lemma {:induction false} UpsertAddsSize(st: Stats, o: Observation, a: real)
    requires st.count >= 1 && SizesSumTo(st, a)
    ensures SizesSumTo(Upserted(Some(st), o), a + Abs(o.error))
  {
    WelfordStep(st.count as real, st.meanAbs, a, 0.0, Abs(o.error));
  }

  lemma {:induction false} CountIsLength(obs: seq<Observation>)
    requires obs != []
    ensures Recorded(obs).value.count == |obs|
  {
    if |obs| > 1 {
      CountIsLength(obs[..|obs| - 1]);
    }
  }

  lemma {:induction false} RecordedErrors(obs: seq<Observation>)
    requires obs != []
    ensures ErrorsSumTo(Recorded(obs).value, Total(Signed, obs), Total(Squared(0.0), obs))
  {
    var rest, o := obs[..|obs| - 1], obs[|obs| - 1];
    SquareValue(o);
    if rest != [] {
      hide ErrorsSumTo, Upserted;
      CountIsLength(rest);
      RecordedErrors(rest);
      UpsertAddsError(Recorded(rest).value, o, Total(Signed, rest), Total(Squared(0.0), rest));
    }
  }

  lemma {:induction false} RecordedSizes(obs: seq<Observation>)
    requires obs != []
    ensures SizesSumTo(Recorded(obs).value, Total(Absolute, obs))
  {
    var rest, o := obs[..|obs| - 1], obs[|obs| - 1];
    if rest != [] {
      CountIsLength(rest);
      RecordedSizes(rest);
      UpsertAddsSize(Recorded(rest).value, o, Total(Absolute, rest));
    }
  }

  lemma {:induction false} RecordedOverruns(obs: seq<Observation>)
    requires obs != []
    ensures Recorded(obs).value.overruns as real == Total(Overrun, obs)
    ensures Recorded(obs).value.severity == Total(Severity, obs)
  {
    var rest := obs[..|obs| - 1];
    if rest != [] {
      RecordedOverruns(rest);
    }
  }

  lemma {:induction false} Quotient(n: real, a: real, b: real)
    requires n != 0.0 && n * a == b
    ensures a == b / n
  {
  }

  lemma {:induction false} MeanTimesSum(n: real, mean: real, s: real)
    requires n * mean == s
    ensures 2.0 * mean * s - n * mean * mean == mean * s
  {
    assert n * mean * mean == mean * s;
  }

  lemma {:induction false} MeanAndSpread(obs: seq<Observation>, st: Stats)
    requires obs != [] && Recorded(obs) == Some(st)
    ensures st.count == |obs| && st.mean == Mean(obs) && st.m2 == Total(Squared(st.mean), obs)
  {
    CountIsLength(obs);
    RecordedErrors(obs);
    SpreadIsDeviations(obs, st);
  }

  lemma {:induction false} SpreadIsDeviations(obs: seq<Observation>, st: Stats)
    requires obs != [] && st.count == |obs| && ErrorsSumTo(st, Total(Signed, obs), Total(Squared(0.0), obs))
    ensures st.mean == Mean(obs) && st.m2 == Total(Squared(st.mean), obs)
  {
    Quotient(|obs| as real, st.mean, Total(Signed, obs));
    SquaresAround(obs, st.mean);
    MeanTimesSum(|obs| as real, st.mean, Total(Signed, obs));
  }

  lemma {:induction false} MeanSize(obs: seq<Observation>, st: Stats)
    requires obs != [] && st.count == |obs| && SizesSumTo(st, Total(Absolute, obs))
    ensures st.meanAbs == Total(Absolute, obs) / |obs| as real
  {
    Quotient(|obs| as real, st.meanAbs, Total(Absolute, obs));
  }

  /** After any sequence of observations the table holds the count, the mean relative error, the sum of squared
      deviations from that mean, the mean absolute error, the number of long overruns and their summed severity. */
  lemma {:induction false} RecurrenceIsBatch(obs: seq<Observation>)
    ensures Recorded(obs).Some? <==> obs != []
    ensures obs != [] ==> var st := Recorded(obs).value;
      && st.count == |obs|
      && st.mean == Mean(obs)
      && st.m2 == SquaredDeviations(obs)
      && st.meanAbs == Total(Absolute, obs) / |obs| as real
      && st.overruns as real == Total(Overrun, obs)
      && st.severity == Total(Severity, obs)
  {
    if obs != [] {
      var st := Recorded(obs).value;
      MeanAndSpread(obs, st);
      RecordedSizes(obs);
      MeanSize(obs, st);
      RecordedOverruns(obs);
    }
  }

  // ----- what one observation adds -----

  const NO_STATS := Stats(0, 0.0, 0.0, 0.0, 0, 0.0)

  function StatsOf(stored: Option<Stats>): Stats {
    if stored.Some? then stored.value else NO_STATS
  }

  lemma {:induction false} MeanShifts(n: real, mean: real, x: real)
    requires n >= 0.0
    ensures (n + 1.0) * (mean + (x - mean) / (n + 1.0)) == n * mean + x
  {
    Product((x - mean) / (n + 1.0), x - mean, n + 1.0);
    assert (n + 1.0) * (mean + (x - mean) / (n + 1.0)) == (n + 1.0) * mean + (n + 1.0) * ((x - mean) / (n + 1.0));
  }

  /** Counts and sums move by exactly the new observation. */
  predicate Adds(st: Stats, st': Stats, o: Observation) {
    && st'.count == st.count + 1
    && st'.count as real * st'.mean == st.count as real * st.mean + o.error
    && st'.count as real * st'.meanAbs == st.count as real * st.meanAbs + (if o.error < 0.0 then -o.error else o.error)
    && st'.overruns == st.overruns + (if o.ratio > 2.0 then 1 else 0)
    && st'.severity == st.severity + (if o.ratio > 2.0 then o.ratio - 2.0 else 0.0)
  }

  lemma {:induction false} UpsertAdds(stored: Option<Stats>, o: Observation)
    ensures Adds(StatsOf(stored), Upserted(stored, o), o)
  {
    if stored.Some? {
      var st := stored.value;
      MeanShifts(st.count as real, st.mean, o.error);
      MeanShifts(st.count as real, st.meanAbs, Abs(o.error));
      assert (st.count + 1) as real == st.count as real + 1.0;
    }
  }

  lemma {:induction false} QuotientSigns(x: real, y: real, q: real)
    requires q > 0.0 && x == y / q
    ensures x * q == y && (x < 0.0 <==> y < 0.0) && (x > 0.0 <==> y > 0.0)
  {
    Product(x, y, q);
    SignOfProduct(q, x);
  }

  /** What is observed: how late the work was, as a share of its promise. */
  predicate Measures(o: Observation, p: nat, minutes: real) {
    && o.error * p as real == minutes - p as real
    && (o.error < 0.0 <==> minutes < p as real)
    && (o.ratio > 2.0 <==> minutes > 2.0 * p as real)
    && (o.ratio - 2.0) * p as real == minutes - 2.0 * p as real
  }

  lemma {:induction false} ObservationMeasures(p: nat, minutes: real)
    requires p >= 1
    ensures Measures(Observe(p, minutes), p, minutes)
  {
    var q := p as real;
    var o := Observe(p, minutes);
    QuotientSigns(o.error, minutes - q, q);
    assert o.ratio - 2.0 == (minutes - 2.0 * q) / q by {
      Quotient(q, o.ratio - 2.0, minutes - 2.0 * q) by {
        Product(o.ratio, minutes, q);
      }
    }
    QuotientSigns(o.ratio - 2.0, minutes - 2.0 * q, q);
  }

  lemma {:induction false} MovedBy(a: real, b: real, e: real, p: real, x: real)
    requires a == b + e && e * p == x
    ensures (a - b) * p == x
  {
    assert a - b == e;
  }

  /** What work of `minutes` on a promise of `p` minutes adds to a row: one observation whose error is positive when the
      work was late, and a long overrun when it took more than twice the promise. Sums are taken in minutes. */
  predicate AddsLateness(st: Stats, st': Stats, p: nat, minutes: real) {
    && st'.count == st.count + 1
    && (st'.count as real * st'.mean - st.count as real * st.mean) * p as real == minutes - p as real
    && (st'.count as real * st'.meanAbs - st.count as real * st.meanAbs) * p as real ==
         (if minutes < p as real then p as real - minutes else minutes - p as real)
    && st'.overruns == st.overruns + (if minutes > 2.0 * p as real then 1 else 0)
    && (st'.severity - st.severity) * p as real ==
         (if minutes > 2.0 * p as real then minutes - 2.0 * p as real else 0.0)
  }

  lemma {:induction false} MeasuredLateness(st: Stats, st': Stats, o: Observation, p: nat, minutes: real)
    requires Adds(st, st', o) && Measures(o, p, minutes)
    ensures AddsLateness(st, st', p, minutes)
  {
    var q := p as real;
    assert (-o.error) * q == -(o.error * q);
    MovedBy(st'.count as real * st'.mean, st.count as real * st.mean, o.error, q, minutes - q);
    MovedBy(st'.count as real * st'.meanAbs, st.count as real * st.meanAbs,
            if o.error < 0.0 then -o.error else o.error, q,
            if minutes < q then q - minutes else minutes - q);
    MovedBy(st'.severity, st.severity, if o.ratio > 2.0 then o.ratio - 2.0 else 0.0, q,
            if minutes > 2.0 * q then minutes - 2.0 * q else 0.0);
  }

  lemma {:induction false} LatenessIsAdded(stored: Option<Stats>, p: nat, minutes: real)
    requires p >= 1
    ensures AddsLateness(StatsOf(stored), Upserted(stored, Observe(p, minutes)), p, minutes)
  {
    hide *;
    UpsertAdds(stored, Observe(p, minutes));
    ObservationMeasures(p, minutes);
    MeasuredLateness(StatsOf(stored), Upserted(stored, Observe(p, minutes)), Observe(p, minutes), p, minutes);
  }

  lemma {:induction false} SignOfProduct(q: real, x: real)
    requires q > 0.0
    ensures (q * x < 0.0 <==> x < 0.0) && (q * x > 0.0 <==> x > 0.0)
  {
  }

  // ----- what follows from the definitions -----

  lemma {:induction false} TotalOfTwo(t: Term, a: seq<Observation>, b: seq<Observation>)
    ensures Total(t, a + b) == Total(t, a) + Total(t, b)
  {
    if b == [] {
      assert a + b == a;
    } else {
      TotalOfTwo(t, a, b[..|b| - 1]);
      assert (a + b)[..|a + b| - 1] == a + b[..|b| - 1];
    }
  }

  lemma {:induction false} FindLast(a: seq<Observation>, b: seq<Observation>) returns (i: nat)
    requires a != [] && multiset(a) == multiset(b)
    ensures i < |b| && b[i] == a[|a| - 1]
    ensures multiset(a[..|a| - 1]) == multiset(b[..i] + b[i + 1..])
  {
    var rest, o := a[..|a| - 1], a[|a| - 1];
    assert a == rest + [o];
    assert o in multiset(b);
    i :| 0 <= i < |b| && b[i] == o;
    assert b == b[..i] + [o] + b[i + 1..];
    assert multiset(b) == multiset(b[..i]) + multiset{o} + multiset(b[i + 1..]);
    assert multiset(b[..i] + b[i + 1..]) == multiset(b[..i]) + multiset(b[i + 1..]);
    assert multiset(a) == multiset(rest) + multiset{o};
    Cancels(multiset(rest), multiset(b[..i] + b[i + 1..]), o);
  }

  lemma {:induction false} Cancels(a: multiset<Observation>, b: multiset<Observation>, o: Observation)
    requires a + multiset{o} == b + multiset{o}
    ensures a == b
  {
    assert a == a + multiset{o} - multiset{o};
    assert b == b + multiset{o} - multiset{o};
  }

  lemma {:induction false} TotalWithout(t: Term, b: seq<Observation>, i: nat)
    requires i < |b|
    ensures Total(t, b) == Total(t, b[..i] + b[i + 1..]) + Value(t, b[i])
  {
    TotalOfTwo(t, b[..i], b[i + 1..]);
    TotalOfTwo(t, b[..i + 1], b[i + 1..]);
    assert b == b[..i + 1] + b[i + 1..];
    assert b[..i + 1][..i] == b[..i];
  }

  /** A sum does not depend on the order of its terms. */
  lemma {:induction false} TotalIgnoresOrder(t: Term, a: seq<Observation>, b: seq<Observation>)
    requires multiset(a) == multiset(b)
    ensures Total(t, a) == Total(t, b)
    decreases |a|
  {
    if a == [] {
      assert |multiset(a)| == |a| && |multiset(b)| == |b|;
    } else {
      var i := FindLast(a, b);
      TotalIgnoresOrder(t, a[..|a| - 1], b[..i] + b[i + 1..]);
      TotalWithout(t, b, i);
    }
  }

  /** The statistics depend on the observations only, not on the order they came in. */
  lemma {:induction false} OrderDoesNotMatter(a: seq<Observation>, b: seq<Observation>)
    requires multiset(a) == multiset(b)
    ensures Recorded(a) == Recorded(b)
  {
    assert |multiset(a)| == |a| && |multiset(b)| == |b|;
    RecurrenceIsBatch(a);
    RecurrenceIsBatch(b);
    if a != [] {
      TotalIgnoresOrder(Signed, a, b);
      TotalIgnoresOrder(Absolute, a, b);
      TotalIgnoresOrder(Squared(Mean(a)), a, b);
      TotalIgnoresOrder(Overrun, a, b);
      TotalIgnoresOrder(Severity, a, b);
    }
  }

  lemma {:induction false} SignsOfTotals(obs: seq<Observation>, c: real)
    ensures Total(Squared(c), obs) >= 0.0
    ensures -Total(Absolute, obs) <= Total(Signed, obs) <= Total(Absolute, obs)
    ensures 0.0 <= Total(Overrun, obs) <= |obs| as real
    ensures Total(Severity, obs) >= 0.0
  {
    if obs != [] {
      SignsOfTotals(obs[..|obs| - 1], c);
      Square(obs[|obs| - 1].error - c);
    }
  }

  lemma {:induction false} Square(x: real)
    ensures x * x >= 0.0
  {
  }

  lemma {:induction false} OnlyZeroSquaresToZero(x: real)
    requires x * x == 0.0
    ensures x == 0.0
  {
    if x > 0.0 {
      SmallerRoot(0.0, x);
    } else if x < 0.0 {
      SmallerRoot(0.0, -x);
    }
  }

  lemma {:induction false} AllEqualWhenNoDeviation(obs: seq<Observation>, c: real, o: Observation)
    requires o in obs
    ensures Total(Squared(c), obs) == 0.0 ==> o.error == c
  {
    var last, rest := obs[|obs| - 1], obs[..|obs| - 1];
    Square(last.error - c);
    SignsOfTotals(rest, c);
    if Total(Squared(c), obs) == 0.0 {
      if o == last {
        OnlyZeroSquaresToZero(o.error - c);
      } else {
        assert o in rest;
        AllEqualWhenNoDeviation(rest, c, o);
      }
    }
  }

  lemma {:induction false} MeanWithinSize(obs: seq<Observation>, st: Stats)
    requires obs != [] && st.count == |obs| && SizesSumTo(st, Total(Absolute, obs)) &&
      st.count as real * st.mean == Total(Signed, obs)
    ensures Abs(st.mean) <= st.meanAbs
  {
    SignsOfTotals(obs, 0.0);
    SmallerSum(|obs| as real, st.mean, st.meanAbs, Total(Signed, obs), Total(Absolute, obs));
  }

  lemma {:induction false} OverrunsWithinCount(obs: seq<Observation>, st: Stats)
    requires obs != [] && Recorded(obs) == Some(st)
    ensures st.overruns <= |obs| && st.severity >= 0.0
  {
    RecordedOverruns(obs);
    SignsOfTotals(obs, 0.0);
  }

  lemma {:induction false} SpreadIsSane(obs: seq<Observation>, st: Stats)
    requires obs != [] && Recorded(obs) == Some(st)
    ensures st.m2 >= 0.0 && (st.m2 == 0.0 ==> forall o :: o in obs ==> o.error == st.mean)
  {
    MeanAndSpread(obs, st);
    SignsOfTotals(obs, st.mean);
    NoDeviationMeansEqual(obs, st.mean);
  }

  lemma {:induction false} MeanIsSane(obs: seq<Observation>, st: Stats)
    requires obs != [] && Recorded(obs) == Some(st)
    ensures st.count == |obs| && Abs(st.mean) <= st.meanAbs
  {
    hide Recorded, Total;
    CountIsLength(obs);
    assert st.count as real * st.mean == Total(Signed, obs) by { RecordedErrors(obs); }
    assert SizesSumTo(st, Total(Absolute, obs)) by { RecordedSizes(obs); }
    MeanWithinSize(obs, st);
  }

  /** The columns stay within their meaning: no negative spread, a mean no larger than the mean absolute error, no more
      overruns than observations; and the spread vanishes only when all errors are equal. */
  lemma {:induction false} StoredRowIsSane(obs: seq<Observation>, st: Stats)
    requires obs != [] && Recorded(obs) == Some(st)
    ensures st.m2 >= 0.0
    ensures Abs(st.mean) <= st.meanAbs
    ensures st.overruns <= st.count && st.severity >= 0.0
    ensures st.m2 == 0.0 ==> forall o :: o in obs ==> o.error == st.mean
  {
    SpreadIsSane(obs, st);
    MeanIsSane(obs, st);
    OverrunsWithinCount(obs, st);
  }

  lemma {:induction false} NoDeviationMeansEqual(obs: seq<Observation>, c: real)
    ensures Total(Squared(c), obs) == 0.0 ==> forall o :: o in obs ==> o.error == c
  {
    forall o | o in obs ensures Total(Squared(c), obs) == 0.0 ==> o.error == c {
      AllEqualWhenNoDeviation(obs, c, o);
    }
  }

  lemma {:induction false} SmallerSum(n: real, mean: real, meanAbs: real, s: real, a: real)
    requires n > 0.0 && n * mean == s && n * meanAbs == a && -a <= s <= a
    ensures Abs(mean) <= meanAbs
  {
    SmallerFactor(n, mean, meanAbs);
    assert n * (-mean) == -(n * mean);
    SmallerFactor(n, -mean, meanAbs);
  }

  lemma {:induction false} SmallerFactor(n: real, a: real, b: real)
    requires n > 0.0 && n * a <= n * b
    ensures a <= b
  {
    Positive(n, a - b);
  }

  lemma {:induction false} Positive(n: real, d: real)
    requires n > 0.0
    ensures d > 0.0 ==> n * d > 0.0
  {
  }

  // ----- what the reader derives -----

  /** The figures shown beside a bid; `stability` is a square root, which is given here by its defining property. */
  datatype Figures = Figures(count: nat, mean: real, meanAbs: real, stability: real, overrunRate: real,
                             meanSeverity: real)

  predicate IsRoot(y: real, x: real) {
    y >= 0.0 && y * y == x
  }

  /** Reading a row: missing statistics count as zeros, and no division by zero happens. */
  predicate Shown(stored: Option<Stats>, f: Figures) {
    var st := if stored.Some? then stored.value else Stats(0, 0.0, 0.0, 0.0, 0, 0.0);
    && f.count == st.count && f.mean == st.mean && f.meanAbs == st.meanAbs
    && (if st.count > 1 then IsRoot(f.stability, st.m2 / (st.count - 1) as real) else f.stability == 0.0)
    && f.overrunRate == (if st.count > 0 then st.overruns as real / st.count as real else 0.0)
    && f.meanSeverity == (if st.overruns > 0 then st.severity / st.overruns as real else 0.0)
  }

  lemma {:induction false} StabilitySquared(y: real, m2: real, n: nat)
    requires n > 1 && IsRoot(y, m2 / (n - 1) as real)
    ensures y * y * (n - 1) as real == m2
  {
    Product(y * y, m2, (n - 1) as real);
  }

  /** Stability is the sample standard deviation of the relative errors. */
  lemma {:induction false} StabilityIsSampleDeviation(obs: seq<Observation>, st: Stats, f: Figures)
    requires obs != [] && Recorded(obs) == Some(st) && Shown(Some(st), f)
    ensures f.stability >= 0.0 && if |obs| > 1 then
                                    f.stability * f.stability * (|obs| - 1) as real == SquaredDeviations(obs)
                                  else f.stability == 0.0
  {
    hide Shown, Recorded;
    CountIsLength(obs);
    MeanAndSpread(obs, st);
    FiguresOf(st, f, SquaredDeviations(obs));
  }

  /** The overrun rate is the share of work that took more than twice its promise, and the severity the mean excess over
      two of that work alone. */
  lemma {:induction false} OverrunFigures(obs: seq<Observation>, st: Stats, f: Figures)
    requires obs != [] && Recorded(obs) == Some(st) && Shown(Some(st), f)
    ensures f.overrunRate == Total(Overrun, obs) / |obs| as real
    ensures Total(Overrun, obs) > 0.0 ==> f.meanSeverity == Total(Severity, obs) / Total(Overrun, obs)
  {
    CountIsLength(obs);
    RecordedOverruns(obs);
  }

  /** The other figures: how many observations, their mean error and its mean size, and zeros where there is nothing to
      show. */
  lemma {:induction false} FiguresShowTheRecord(obs: seq<Observation>, f: Figures)
    requires Shown(Recorded(obs), f)
    ensures f.count == |obs|
    ensures f.count as real * f.mean == Total(Signed, obs) && f.count as real * f.meanAbs == Total(Absolute, obs)
    ensures Total(Overrun, obs) == 0.0 ==> f.meanSeverity == 0.0
    ensures obs == [] ==> f == Figures(0, 0.0, 0.0, 0.0, 0.0, 0.0)
  {
    if obs == [] {
      hide IsRoot;
      NothingIsShown(f);
    } else {
      var st := Recorded(obs).value;
      hide *;
      RowIsShown(st, f);
      CountIsLength(obs);
      RecordedErrors(obs);
      RecordedSizes(obs);
      RecordedOverruns(obs);
      SumsAreShown(st, f, Total(Signed, obs), Total(Squared(0.0), obs), Total(Absolute, obs));
    }
  }

  lemma {:induction false} NothingIsShown(f: Figures)
    requires Shown(None, f)
    ensures f == Figures(0, 0.0, 0.0, 0.0, 0.0, 0.0)
  {
  }

  lemma {:induction false} RowIsShown(st: Stats, f: Figures)
    requires Shown(Some(st), f)
    ensures f.count == st.count && f.mean == st.mean && f.meanAbs == st.meanAbs
    ensures st.overruns == 0 ==> f.meanSeverity == 0.0
  {
  }

  lemma {:induction false} SumsAreShown(st: Stats, f: Figures, s: real, q: real, a: real)
    requires ErrorsSumTo(st, s, q) && SizesSumTo(st, a)
    requires f.count == st.count && f.mean == st.mean && f.meanAbs == st.meanAbs
    ensures f.count as real * f.mean == s && f.count as real * f.meanAbs == a
  {
  }

  /** Given the square root there is something to show for every row, also where all errors are equal. */
  lemma {:induction false} FiguresAreShown(stored: Option<Stats>, root: real) returns (f: Figures)
    requires stored.Some? && stored.value.count > 1 ==>
      root >= 0.0 && root * root * (stored.value.count - 1) as real == stored.value.m2
    ensures Shown(stored, f)
  {
    var st := StatsOf(stored);
    if st.count > 1 {
      var n := (st.count - 1) as real;
      assert n * (root * root) == st.m2;
      Quotient(n, root * root, st.m2);
    }
    f := Figures(st.count, st.mean, st.meanAbs, if st.count > 1 then root else 0.0,
                 if st.count > 0 then st.overruns as real / st.count as real else 0.0,
                 if st.overruns > 0 then st.severity / st.overruns as real else 0.0);
  }

  lemma {:induction false} FiguresOf(st: Stats, f: Figures, squares: real)
    requires st.count >= 1 && st.m2 == squares && Shown(Some(st), f)
    ensures f.stability >= 0.0 && if st.count > 1 then f.stability * f.stability * (st.count - 1) as real == squares
                                  else f.stability == 0.0
  {
    if st.count > 1 {
      hide IsRoot;
      StabilitySquared(f.stability, squares, st.count);
    }
  }

  lemma {:induction false} RootIsUnique(y: real, z: real, x: real)
    requires IsRoot(y, x) && IsRoot(z, x)
    ensures y == z
  {
    if y < z {
      SmallerRoot(y, z);
    } else if z < y {
      SmallerRoot(z, y);
    }
  }

  lemma {:induction false} SmallerRoot(y: real, z: real)
    requires 0.0 <= y < z
    ensures y * y < z * z
  {
    Positive(z, z - y);
    assert z * (z - y) == z * z - z * y;
    assert y * (z - y) == y * z - y * y;
    assert y * (z - y) >= 0.0;
  }

  lemma {:induction false} FiguresOfOneRow(stored: Option<Stats>, f: Figures, g: Figures)
    requires Shown(stored, f) && Shown(stored, g)
    ensures f == g
  {
    if stored.Some? && stored.value.count > 1 {
      RootIsUnique(f.stability, g.stability, stored.value.m2 / (stored.value.count - 1) as real);
    }
  }

  /** Whatever order the same observations came in, every reader is shown the same figures: a square root is
      determined. */
  lemma {:induction false} FiguresAreDetermined(obs: seq<Observation>, other: seq<Observation>, f: Figures, g: Figures)
    requires multiset(obs) == multiset(other) && Shown(Recorded(obs), f) && Shown(Recorded(other), g)
    ensures f == g
  {
    hide Shown, Recorded;
    OrderDoesNotMatter(obs, other);
    FiguresOfOneRow(Recorded(obs), f, g);
  }
}
