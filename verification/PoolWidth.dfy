/** `measure_width`: escalate the offered concurrency until the estimate stops following it. */
module PoolWidth {
  const MIN_HOLD_S := 0.25
  const TRACKING_TOLERANCE := 0.15
  const DRIFT_TOLERANCE := 0.15

  /** The system under measurement: the throughput seen at the n-th measurement, for an offered
      concurrency and a hold time. */
  type Submit = (nat, int, real) -> real

  // ----- statistics.median

  function InsertReal(x: real, s: seq<real>): (r: seq<real>)
    ensures |r| == |s| + 1
  {
    if s == [] || x <= s[0] then [x] + s else [s[0]] + InsertReal(x, s[1..])
  }

  function SortReals(s: seq<real>): (r: seq<real>)
    ensures |r| == |s|
  {
    if s == [] then [] else InsertReal(s[0], SortReals(s[1..]))
  }

  function Median(s: seq<real>): real
    requires s != []
  {
    var v, n := SortReals(s), |s|;
    if n % 2 == 1 then v[n / 2] else (v[n / 2 - 1] + v[n / 2]) / 2.0
  }

  ghost predicate AllWithin(s: seq<real>, lo: real, hi: real) { forall i :: 0 <= i < |s| ==> lo <= s[i] <= hi }

  lemma {:induction false} InsertWithin(x: real, s: seq<real>, lo: real, hi: real)
    requires lo <= x <= hi && AllWithin(s, lo, hi)
    ensures AllWithin(InsertReal(x, s), lo, hi)
  {
    if s == [] || x <= s[0] {
    } else {
      InsertWithin(x, s[1..], lo, hi);
    }
  }

  lemma {:induction false} SortWithin(s: seq<real>, lo: real, hi: real)
    requires AllWithin(s, lo, hi)
    ensures AllWithin(SortReals(s), lo, hi)
  {
    if s != [] {
      SortWithin(s[1..], lo, hi);
      InsertWithin(s[0], SortReals(s[1..]), lo, hi);
    }
  }

  lemma MedianWithin(s: seq<real>, lo: real, hi: real)
    requires s != [] && AllWithin(s, lo, hi)
    ensures lo <= Median(s) <= hi
  {
    SortWithin(s, lo, hi);
  }

  ghost predicate Ascending(s: seq<real>) { forall i, j :: 0 <= i < j < |s| ==> s[i] <= s[j] }

  lemma {:induction false} InsertAbove(x: real, s: seq<real>, lo: real)
    requires lo <= x && forall i :: 0 <= i < |s| ==> lo <= s[i]
    ensures forall i :: 0 <= i < |s| + 1 ==> lo <= InsertReal(x, s)[i]
  {
    if s == [] || x <= s[0] {
    } else {
      InsertAbove(x, s[1..], lo);
    }
  }

  lemma PutInFront(x: real, s: seq<real>)
    requires Ascending(s) && forall i :: 0 <= i < |s| ==> x <= s[i]
    ensures Ascending([x] + s)
  {
  }

  lemma {:induction false} InsertAscends(x: real, s: seq<real>)
    requires Ascending(s)
    ensures Ascending(InsertReal(x, s))
  {
    if s == [] {
    } else if x <= s[0] {
      PutInFront(x, s);
    } else {
      InsertAscends(x, s[1..]);
      InsertAbove(x, s[1..], s[0]);
      PutInFront(s[0], InsertReal(x, s[1..]));
    }
  }

  lemma {:induction false} InsertContents(x: real, s: seq<real>)
    ensures multiset(InsertReal(x, s)) == multiset(s) + multiset{x}
  {
    if s == [] || x <= s[0] {
    } else {
      InsertContents(x, s[1..]);
      assert s == [s[0]] + s[1..];
    }
  }

  /** The sorted readings are the readings, in ascending order. */
  lemma {:induction false} SortsReals(s: seq<real>)
    ensures Ascending(SortReals(s)) && multiset(SortReals(s)) == multiset(s)
  {
    if s != [] {
      SortsReals(s[1..]);
      InsertAscends(s[0], SortReals(s[1..]));
      InsertContents(s[0], SortReals(s[1..]));
      assert s == [s[0]] + s[1..];
    }
  }

  /** How many readings are at most x, and how many are at least x. */
  function AtMost(s: seq<real>, x: real): nat {
    if s == [] then 0 else AtMost(s[..|s| - 1], x) + if s[|s| - 1] <= x then 1 else 0
  }

  function AtLeast(s: seq<real>, x: real): nat {
    if s == [] then 0 else AtLeast(s[..|s| - 1], x) + if s[|s| - 1] >= x then 1 else 0
  }

  lemma {:induction false} CountsJoin(a: seq<real>, b: seq<real>, x: real)
    ensures AtMost(a + b, x) == AtMost(a, x) + AtMost(b, x) && AtLeast(a + b, x) == AtLeast(a, x) + AtLeast(b, x)
  {
    if b == [] {
      assert a + b == a;
    } else {
      CountsJoin(a, b[..|b| - 1], x);
      assert (a + b)[..|a + b| - 1] == a + b[..|b| - 1];
    }
  }

  lemma {:induction false} InsertCounts(y: real, s: seq<real>, x: real)
    ensures AtMost(InsertReal(y, s), x) == AtMost(s, x) + if y <= x then 1 else 0
    ensures AtLeast(InsertReal(y, s), x) == AtLeast(s, x) + if y >= x then 1 else 0
  {
    CountsOfOne(y, x);
    if s == [] || y <= s[0] {
      CountsJoin([y], s, x);
    } else {
      InsertCounts(y, s[1..], x);
      CountsJoin([s[0]], InsertReal(y, s[1..]), x);
      CountsJoin([s[0]], s[1..], x);
      assert s == [s[0]] + s[1..];
    }
  }

  lemma CountsOfOne(y: real, x: real)
    ensures AtMost([y], x) == (if y <= x then 1 else 0) && AtLeast([y], x) == if y >= x then 1 else 0
  {
    assert [y][..0] == [];
  }

  lemma {:induction false} SortCounts(s: seq<real>, x: real)
    ensures AtMost(SortReals(s), x) == AtMost(s, x) && AtLeast(SortReals(s), x) == AtLeast(s, x)
  {
    if s != [] {
      SortCounts(s[1..], x);
      InsertCounts(s[0], SortReals(s[1..]), x);
      CountsJoin([s[0]], s[1..], x);
      CountsOfOne(s[0], x);
      assert s == [s[0]] + s[1..];
    }
  }

  lemma {:induction false} AllCount(s: seq<real>, x: real)
    ensures (forall i :: 0 <= i < |s| ==> s[i] <= x) ==> AtMost(s, x) == |s|
    ensures (forall i :: 0 <= i < |s| ==> s[i] >= x) ==> AtLeast(s, x) == |s|
  {
    if s != [] { AllCount(s[..|s| - 1], x); }
  }

  lemma {:induction false} JoinedCount(a: seq<real>, b: seq<real>, x: real)
    ensures (forall i :: 0 <= i < |a| ==> a[i] <= x) ==> AtMost(a + b, x) >= |a|
    ensures (forall i :: 0 <= i < |b| ==> b[i] >= x) ==> AtLeast(a + b, x) >= |b|
  {
    CountsJoin(a, b, x);
    AllCount(a, x);
    AllCount(b, x);
  }

  lemma FrontIsBelow(v: seq<real>, k: nat)
    requires Ascending(v) && k < |v|
    ensures var front := v[..k + 1]; forall i :: 0 <= i < |front| ==> front[i] <= v[k]
  {
  }

  lemma FrontCounts(v: seq<real>, k: nat)
    requires Ascending(v) && k < |v|
    ensures AtMost(v, v[k]) >= k + 1
  {
    FrontIsBelow(v, k);
    JoinedCount(v[..k + 1], v[k + 1..], v[k]);
    assert v == v[..k + 1] + v[k + 1..];
  }

  lemma BackIsAbove(v: seq<real>, k: nat)
    requires Ascending(v) && k < |v|
    ensures var back := v[k..]; forall i :: 0 <= i < |back| ==> back[i] >= v[k]
  {
  }

  lemma BackCounts(v: seq<real>, k: nat)
    requires Ascending(v) && k < |v|
    ensures AtLeast(v, v[k]) >= |v| - k
  {
    BackIsAbove(v, k);
    JoinedCount(v[..k], v[k..], v[k]);
    assert v == v[..k] + v[k..];
  }

  /** At place k of the sorted readings k + 1 of them are at most it, and those from k on at least it. */
  lemma PlaceIsReading(s: seq<real>, k: nat)
    requires k < |s|
    ensures SortReals(s)[k] in s
    ensures AtMost(s, SortReals(s)[k]) >= k + 1 && AtLeast(s, SortReals(s)[k]) >= |s| - k
  {
    var v := SortReals(s);
    SortsReals(s);
    assert v[k] in multiset(v);
    FrontCounts(v, k);
    BackCounts(v, k);
    SortCounts(s, v[k]);
  }

  /** What a median is, by counting: the mean of two readings, the lower with at least half of them at most
      it and more than half at least it, the upper the other way round. For an odd number both are the
      reading in the middle. */
  ghost predicate IsMedian(s: seq<real>, m: real) {
    exists a, b :: MiddlePair(s, a, b) && 2.0 * m == a + b
  }

  ghost predicate MiddlePair(s: seq<real>, a: real, b: real) {
    && a in s && b in s && a <= b
    && 2 * AtMost(s, a) >= |s| && 2 * AtLeast(s, a) > |s|
    && 2 * AtMost(s, b) > |s| && 2 * AtLeast(s, b) >= |s|
  }

  lemma MiddleOf(s: seq<real>, i: nat, j: nat)
    requires i <= j < |s| && 2 * i + 2 >= |s| > 2 * i && 2 * j + 2 > |s| >= 2 * j
    ensures MiddlePair(s, SortReals(s)[i], SortReals(s)[j])
  {
    PlaceIsReading(s, i);
    PlaceIsReading(s, j);
    PlacesAscend(s, i, j);
    PairIs(s, SortReals(s)[i], SortReals(s)[j], i, j);
  }

  lemma PlacesAscend(s: seq<real>, i: nat, j: nat)
    requires i <= j < |s|
    ensures SortReals(s)[i] <= SortReals(s)[j]
  {
    SortsReals(s);
  }

  lemma PairIs(s: seq<real>, a: real, b: real, i: nat, j: nat)
    requires a in s && b in s && a <= b
    requires i <= j < |s| && 2 * i + 2 >= |s| > 2 * i && 2 * j + 2 > |s| >= 2 * j
    requires AtMost(s, a) >= i + 1 && AtLeast(s, a) >= |s| - i && AtMost(s, b) >= j + 1 && AtLeast(s, b) >= |s| - j
    ensures MiddlePair(s, a, b)
  {
  }

  lemma MedianMeans(s: seq<real>)
    requires s != []
    ensures IsMedian(s, Median(s))
  {
    var n := |s|;
    var i := if n % 2 == 1 then n / 2 else n / 2 - 1;
    MiddleOf(s, i, n / 2);
    MeanOf(s, SortReals(s)[i], SortReals(s)[n / 2], Median(s));
  }

  lemma MeanOf(s: seq<real>, a: real, b: real, m: real)
    requires MiddlePair(s, a, b) && 2.0 * m == a + b
    ensures IsMedian(s, m)
  {
  }

  lemma {:induction false} CountsApart(s: seq<real>, x: real, y: real)
    requires x < y
    ensures AtMost(s, x) + AtLeast(s, y) <= |s|
  {
    if s != [] { CountsApart(s[..|s| - 1], x, y); }
  }

  lemma MiddlePairIsDetermined(s: seq<real>, a: real, b: real, c: real, d: real)
    requires MiddlePair(s, a, b) && MiddlePair(s, c, d)
    ensures a == c && b == d
  {
    if a < c { CountsApart(s, a, c); }
    if c < a { CountsApart(s, c, a); }
    if b < d { CountsApart(s, b, d); }
    if d < b { CountsApart(s, d, b); }
  }

  /** Counting leaves no choice: only the median is one. */
  lemma MedianIsDetermined(s: seq<real>, m: real)
    requires s != []
    ensures IsMedian(s, m) <==> m == Median(s)
  {
    MedianMeans(s);
    if IsMedian(s, m) { OneMedian(s, m, Median(s)); }
  }

  lemma OneMedian(s: seq<real>, m: real, k: real)
    requires IsMedian(s, m) && IsMedian(s, k)
    ensures m == k
  {
    var a, b :| MiddlePair(s, a, b) && 2.0 * m == a + b;
    var c, d :| MiddlePair(s, c, d) && 2.0 * k == c + d;
    MiddlePairIsDetermined(s, a, b, c, d);
  }

  /** The median of an odd number of readings is one of them. */
  lemma OddMedianIsReading(s: seq<real>)
    requires |s| % 2 == 1
    ensures Median(s) in s
  {
    PlaceIsReading(s, |s| / 2);
  }

  // ----- one round of the loop

  function Abs(x: real): real { if x >= 0.0 then x else -x }

  function Estimate(submit: Submit, n: nat, offered: int, hold: real): real { submit(n, offered, hold) * hold }

  /** `reps` measurements at one offered concurrency, starting with the n-th overall. */
  function Estimates(submit: Submit, n: nat, offered: int, hold: real, reps: nat): (es: seq<real>)
    ensures |es| == reps && forall i :: 0 <= i < reps ==> es[i] == Estimate(submit, n + i, offered, hold)
  {
    seq(reps, i requires 0 <= i < reps => Estimate(submit, n + i, offered, hold))
  }

  function Largest(s: seq<real>): real
    requires s != []
  {
    if |s| == 1 then s[0] else
      var m := Largest(s[..|s| - 1]);
      if m >= s[|s| - 1] then m else s[|s| - 1]
  }

  function Smallest(s: seq<real>): real
    requires s != []
  {
    if |s| == 1 then s[0] else
      var m := Smallest(s[..|s| - 1]);
      if m <= s[|s| - 1] then m else s[|s| - 1]
  }

  /** The readings' range as a fraction of the largest. */
  function Spread(s: seq<real>): real
    requires s != []
  {
    if Largest(s) != 0.0 then (Largest(s) - Smallest(s)) / Largest(s) else 0.0
  }

  /** What the spread is: the range of the readings over the largest of them, or 0 if that is 0. */
  ghost predicate IsSpread(s: seq<real>, x: real) {
    exists lo, hi :: lo in s && hi in s && AllWithin(s, lo, hi) && if hi == 0.0 then x == 0.0 else x * hi == hi - lo
  }

  lemma SpreadMeans(s: seq<real>)
    requires s != []
    ensures IsSpread(s, Spread(s))
  {
    LargestIs(s);
    SmallestIs(s);
    var lo, hi := Smallest(s), Largest(s);
    assert AllWithin(s, lo, hi);
  }

  lemma {:induction false} LargestIs(s: seq<real>)
    requires s != []
    ensures Largest(s) in s && forall i :: 0 <= i < |s| ==> s[i] <= Largest(s)
  {
    if |s| > 1 { LargestIs(s[..|s| - 1]); }
  }

  lemma {:induction false} SmallestIs(s: seq<real>)
    requires s != []
    ensures Smallest(s) in s && forall i :: 0 <= i < |s| ==> Smallest(s) <= s[i]
  {
    if |s| > 1 { SmallestIs(s[..|s| - 1]); }
  }

  /** A row of the trace: a level, or the confirmation of one. */
  datatype Entry =
    | Level(offered: int, estimates: seq<real>, median: real, spread: real, tracking: bool)
    | Confirmation(offered: int, estimates: seq<real>, median: real, drift: real)

  datatype Outcome =
    | Running(offered: int, calls: nat, trace: seq<Entry>)
    | Returned(width: real, offered: int, hold: real, reps: nat, spread: real, trace: seq<Entry>)
    | Raised(why: string)

  predicate Tracking(est: real, offered: int)
    requires offered >= 1
  {
    Abs(est - offered as real) / offered as real <= TRACKING_TOLERANCE
  }

  function Floor(est: real): real { if est >= 0.000000001 then est else 0.000000001 }

  function Drift(est: real, cest: real): real {
    assert Floor(est) > 0.0;
    Abs(cest - est) / Floor(est)
  }

  predicate Drifted(est: real, cest: real) { Drift(est, cest) > DRIFT_TOLERANCE }

  /** The settings a measurement runs under. */
  datatype Setup = Setup(submit: Submit, hold: real, start: int, reps: nat, max: int)

  function Confirm(offered: int, max: int): int { if offered * 2 <= max then offered * 2 else max }

  /** One pass through the loop body, or the exit past it. */
  function Round(p: Setup, o: int, calls: nat, trace: seq<Entry>): Outcome
    requires o >= 1
  {
    if o > p.max then Raised("tracked all the way to max_offered")
    else if p.reps == 0 then Raised("no median for empty data")
    else
      var ests := Estimates(p.submit, calls, o, p.hold, p.reps);
      var est := Median(ests);
      var trace1 := trace + [Level(o, ests, est, Spread(ests), Tracking(est, o))];
      if Tracking(est, o) then Running(o * 2, calls + p.reps, trace1)
      else
        var confirm := Confirm(o, p.max);
        var cests := Estimates(p.submit, calls + p.reps, confirm, p.hold, p.reps);
        var cest := Median(cests);
        var trace2 := trace1 + [Confirmation(confirm, cests, cest, Drift(est, cest))];
        if Drifted(est, cest) then Running(confirm, calls + p.reps + p.reps, trace2)
        else Returned((est + cest) / 2.0, o, p.hold, p.reps, Spread(ests), trace2)
  }

  function Start(p: Setup): Outcome {
    if p.hold < MIN_HOLD_S then Raised("hold below the floor")
    else Running(if p.start >= 2 then p.start else 2, 0, [])
  }

  /** The outcome after at most `rounds` rounds; still `Running` if they did not suffice. */
  function Run(p: Setup, rounds: nat): (r: Outcome)
    ensures r.Running? ==> r.offered >= 2 && p.hold >= MIN_HOLD_S
  {
    if rounds == 0 then Start(p)
    else
      var s := Run(p, rounds - 1);
      if s.Running? then Round(p, s.offered, s.calls, s.trace) else s
  }

  /** The loop body for an offered concurrency within bounds. */
  method LoopBody(p: Setup, offered: int, calls: nat, trace: seq<Entry>) returns (r: Outcome)
    requires 1 <= offered <= p.max
    ensures r == Round(p, offered, calls, trace)
  {
    if p.reps == 0 {
      return Raised("no median for empty data");
    }
    var ests := Estimates(p.submit, calls, offered, p.hold, p.reps);
    var est := Median(ests);
    var trace1 := trace + [Level(offered, ests, est, Spread(ests), Tracking(est, offered))];
    if !Tracking(est, offered) {
      var confirm := Confirm(offered, p.max);
      var cests := Estimates(p.submit, calls + p.reps, confirm, p.hold, p.reps);
      var cest := Median(cests);
      var trace2 := trace1 + [Confirmation(confirm, cests, cest, Drift(est, cest))];
      if Drifted(est, cest) {
        return Running(confirm, calls + p.reps + p.reps, trace2);
      }
      return Returned((est + cest) / 2.0, offered, p.hold, p.reps, Spread(ests), trace2);
    }
    r := Running(offered * 2, calls + p.reps, trace1);
  }

  /** The loop, stopped after `rounds` rounds: without a bound on the measurement error it need not
      end by itself (see NeverFinishes). */
  method MeasureWidth(p: Setup, rounds: nat) returns (r: Outcome)
    ensures r == Run(p, rounds)
  {
    r := Start(p);
    var done := 0;
    while done < rounds && r.Running? && r.offered <= p.max
      invariant done <= rounds && r == Run(p, done)
      decreases rounds - done
    {
      OneRound(p, done + 1);
      r := LoopBody(p, r.offered, r.calls, r.trace);
      done := done + 1;
    }
    if done < rounds {
      if r.Running? {
        PastMaximum(p, done);
        RunStays(p, done + 1, rounds);
        r := Raised("tracked all the way to max_offered");
      } else {
        RunStays(p, done, rounds);
      }
    }
  }

  lemma OneRound(p: Setup, rounds: nat)
    requires rounds > 0 && Run(p, rounds - 1).Running?
    ensures var s := Run(p, rounds - 1); Run(p, rounds) == Round(p, s.offered, s.calls, s.trace)
  {
  }

  lemma PastMaximum(p: Setup, done: nat)
    requires Run(p, done).Running? && Run(p, done).offered > p.max
    ensures Run(p, done + 1) == Raised("tracked all the way to max_offered")
  {
    OneRound(p, done + 1);
  }

  /** A finished measurement stays finished. */
  lemma {:induction false} RunStays(p: Setup, k: nat, rounds: nat)
    requires k <= rounds && !Run(p, k).Running?
    ensures Run(p, rounds) == Run(p, k)
  {
    if k < rounds { RunStays(p, k, rounds - 1); }
  }

  // ----- what the trace of every run says

  lemma DivisionTest(x: real, y: real, k: real)
    requires y > 0.0
    ensures x / y <= k <==> x <= k * y
  {
    assert x == (x / y) * y;
  }

  lemma TrackingMeans(est: real, o: int)
    requires o >= 1
    ensures Tracking(est, o) <==> o as real * 0.85 <= est <= o as real * 1.15
  {
    DivisionTest(Abs(est - o as real), o as real, TRACKING_TOLERANCE);
  }

  /** How many measurements the rows of a trace hold. */
  function Readings(trace: seq<Entry>): nat {
    if trace == [] then 0 else Readings(trace[..|trace| - 1]) + |trace[|trace| - 1].estimates|
  }

  /** The estimates are pool size readings taken one after another, at one offered concurrency. */
  ghost predicate Measured(p: Setup, first: nat, o: int, es: seq<real>) {
    |es| == p.reps && forall i :: 0 <= i < |es| ==> es[i] == p.submit(first + i, o, p.hold) * p.hold
  }

  /** Behind these rows the loop goes on, with `o` offered next: at the start, twice a level that tracks,
      or what an unstable confirmation offered. */
  ghost predicate GoesOn(p: Setup, rows: seq<Entry>, o: int) {
    if rows == [] then o >= 2 && o >= p.start && (o == 2 || o == p.start)
    else
      var row := rows[|rows| - 1];
      if row.Level? then row.tracking && o == 2 * row.offered else row.drift > 0.15 && o == row.offered
  }

  /** What a row says, given the rows before it. */
  ghost predicate RowIs(p: Setup, rows: seq<Entry>, row: Entry) {
    && Measured(p, Readings(rows), row.offered, row.estimates) && IsMedian(row.estimates, row.median)
    && match row
       case Level(o, es, m, spread, tracking) =>
         && GoesOn(p, rows, o) && 2 <= o <= p.max && IsSpread(es, spread)
         && (tracking <==> o as real * 0.85 <= m <= o as real * 1.15)
       case Confirmation(o, _, m, drift) => rows != [] && Confirms(p, rows[|rows| - 1], o, m, drift)
  }

  ghost predicate Confirms(p: Setup, level: Entry, o: int, m: real, drift: real) {
    && level.Level? && !level.tracking
    && o <= 2 * level.offered && o <= p.max && (o == 2 * level.offered || o == p.max)
    && drift >= 0.0 && Deviates(level.median, m, drift)
  }

  /** The distance of the medians is the drift times the former, or times 1e-9 where that is greater. */
  ghost predicate Deviates(before: real, m: real, drift: real) {
    && (before >= 0.000000001 ==> drift * before == m - before || drift * before == before - m)
    && (before < 0.000000001 ==> drift == 1000000000.0 * (m - before) || drift == 1000000000.0 * (before - m))
  }

  ghost predicate RowsAre(p: Setup, trace: seq<Entry>) {
    forall k :: 0 <= k < |trace| ==> RowIs(p, trace[..k], trace[k])
  }

  /** Where a run stands: between rows, or returned behind a stable confirmation, with the mean of the two
      medians, the level and its spread, or raised for a short hold, for want of readings, or behind rows
      that go on past the maximum. */
  ghost predicate OutcomeIs(p: Setup, r: Outcome) {
    match r
    case Running(o, calls, trace) => RowsAre(p, trace) && GoesOn(p, trace, o) && calls == Readings(trace) && o >= 2
    case Returned(width, offered, hold, reps, spread, trace) =>
      && RowsAre(p, trace) && |trace| >= 2 && hold == p.hold >= 0.25 && reps == p.reps
      && var level, check := trace[|trace| - 2], trace[|trace| - 1];
         && level.Level? && check.Confirmation? && check.drift <= 0.15
         && offered == level.offered && spread == level.spread && 2.0 * width == level.median + check.median
    case Raised(_) =>
      p.hold < 0.25 || p.reps == 0 || exists rows, o :: GoesOn(p, rows, o) && RowsAre(p, rows) && o > p.max
  }

  lemma AddRow(p: Setup, trace: seq<Entry>, row: Entry)
    requires RowsAre(p, trace) && RowIs(p, trace, row)
    ensures RowsAre(p, trace + [row]) && Readings(trace + [row]) == Readings(trace) + |row.estimates|
  {
    var t := trace + [row];
    assert t[..|trace|] == trace;
    forall k | 0 <= k < |t| ensures RowIs(p, t[..k], t[k]) {
      if k < |trace| { assert t[..k] == trace[..k]; }
    }
  }

  lemma EstimatesAreMeasured(p: Setup, first: nat, o: int)
    ensures Measured(p, first, o, Estimates(p.submit, first, o, p.hold, p.reps))
  {
  }

  lemma Summary(es: seq<real>)
    requires es != []
    ensures IsMedian(es, Median(es)) && IsSpread(es, Spread(es))
  {
    MedianMeans(es);
    SpreadMeans(es);
  }

  lemma ScaleOf(x: real, d: real, q: real)
    requires d > 0.0 && x >= 0.0 && q == x / d
    ensures q >= 0.0 && q * d == x
  {
  }

  lemma DriftDeviates(before: real, m: real)
    ensures Drift(before, m) >= 0.0 && Deviates(before, m, Drift(before, m))
  {
    ScaleOf(Abs(m - before), Floor(before), Drift(before, m));
  }

  /** What the round of a level ends in, given what its readings say. */
  lemma LevelRound(p: Setup, o: int, trace: seq<Entry>, row: Entry)
    requires OutcomeIs(p, Running(o, Readings(trace), trace)) && row.Level? && row.offered == o <= p.max
    requires Measured(p, Readings(trace), o, row.estimates)
    requires IsMedian(row.estimates, row.median) && IsSpread(row.estimates, row.spread)
    requires row.tracking <==> Tracking(row.median, o)
    ensures RowsAre(p, trace + [row]) && Readings(trace + [row]) == Readings(trace) + p.reps
  {
    TrackingMeans(row.median, o);
    AddRow(p, trace, row);
  }

  lemma ConfirmRound(p: Setup, trace: seq<Entry>, level: Entry, row: Entry)
    requires RowsAre(p, trace + [level]) && level.Level? && !level.tracking && level.offered <= p.max
    requires row.Confirmation? && row.offered == Confirm(level.offered, p.max)
    requires Measured(p, Readings(trace + [level]), row.offered, row.estimates)
    requires IsMedian(row.estimates, row.median) && row.drift == Drift(level.median, row.median)
    ensures var t := trace + [level] + [row]; RowsAre(p, t) && Readings(t) == Readings(trace + [level]) + p.reps
  {
    DriftDeviates(level.median, row.median);
    AddRow(p, trace + [level], row);
  }

  lemma LevelOf(p: Setup, o: int, calls: nat) returns (level: Entry)
    requires 1 <= o <= p.max && p.reps > 0
    ensures level.Level? && level.offered == o && Measured(p, calls, o, level.estimates)
    ensures IsMedian(level.estimates, level.median) && IsSpread(level.estimates, level.spread)
    ensures level.tracking == Tracking(level.median, o)
    ensures level.estimates == Estimates(p.submit, calls, o, p.hold, p.reps)
    ensures level.median == Median(level.estimates) && level.spread == Spread(level.estimates)
  {
    var es := Estimates(p.submit, calls, o, p.hold, p.reps);
    EstimatesAreMeasured(p, calls, o);
    Summary(es);
    level := Level(o, es, Median(es), Spread(es), Tracking(Median(es), o));
  }

  lemma RowOf(p: Setup, level: Entry, calls: nat) returns (row: Entry)
    requires level.Level? && level.offered >= 1 && p.reps > 0
    ensures row.Confirmation? && row.offered == Confirm(level.offered, p.max)
    ensures Measured(p, calls, row.offered, row.estimates) && IsMedian(row.estimates, row.median)
    ensures row.estimates == Estimates(p.submit, calls, row.offered, p.hold, p.reps)
    ensures row.median == Median(row.estimates) && row.drift == Drift(level.median, row.median)
  {
    var o := Confirm(level.offered, p.max);
    var es := Estimates(p.submit, calls, o, p.hold, p.reps);
    EstimatesAreMeasured(p, calls, o);
    Summary(es);
    row := Confirmation(o, es, Median(es), Drift(level.median, Median(es)));
  }

  lemma RoundTracks(p: Setup, o: int, calls: nat, trace: seq<Entry>, level: Entry)
    requires 1 <= o <= p.max && p.reps > 0 && level.Level? && level.offered == o && level.tracking
    requires level.estimates == Estimates(p.submit, calls, o, p.hold, p.reps)
    requires level.median == Median(level.estimates) && level.spread == Spread(level.estimates)
    requires Tracking(level.median, o)
    ensures Round(p, o, calls, trace) == Running(o * 2, calls + p.reps, trace + [level])
  {
  }

  lemma RoundEscapes(p: Setup, o: int, calls: nat, trace: seq<Entry>, level: Entry, row: Entry)
    requires 1 <= o <= p.max && p.reps > 0 && level.Level? && level.offered == o && !level.tracking
    requires level.estimates == Estimates(p.submit, calls, o, p.hold, p.reps)
    requires level.median == Median(level.estimates) && level.spread == Spread(level.estimates)
    requires row.Confirmation? && row.offered == Confirm(o, p.max) && row.drift == Drift(level.median, row.median)
    requires row.estimates == Estimates(p.submit, calls + p.reps, row.offered, p.hold, p.reps)
    requires row.median == Median(row.estimates) && !Tracking(level.median, o)
    ensures var t := trace + [level] + [row];
            Round(p, o, calls, trace) ==
            if row.drift > DRIFT_TOLERANCE then Running(row.offered, calls + p.reps + p.reps, t)
            else Returned((level.median + row.median) / 2.0, o, p.hold, p.reps, level.spread, t)
  {
  }

  lemma EscapeMeans(p: Setup, o: int, calls: nat, trace: seq<Entry>, level: Entry)
    requires p.hold >= 0.25 && 2 <= o <= p.max && p.reps > 0 && level.Level? && level.offered == o && !level.tracking
    requires level.estimates == Estimates(p.submit, calls, o, p.hold, p.reps)
    requires level.median == Median(level.estimates) && level.spread == Spread(level.estimates)
    requires !Tracking(level.median, o)
    requires RowsAre(p, trace + [level]) && Readings(trace + [level]) == calls + p.reps
    ensures OutcomeIs(p, Round(p, o, calls, trace))
  {
    var row := RowOf(p, level, calls + p.reps);
    RoundEscapes(p, o, calls, trace, level, row);
    ConfirmRound(p, trace, level, row);
    Settled(p, o, calls, trace, level, row);
  }

  lemma TrackMeans(p: Setup, o: int, calls: nat, trace: seq<Entry>, level: Entry)
    requires 2 <= o <= p.max && p.reps > 0 && level.Level? && level.offered == o && level.tracking
    requires level.estimates == Estimates(p.submit, calls, o, p.hold, p.reps)
    requires level.median == Median(level.estimates) && level.spread == Spread(level.estimates)
    requires Tracking(level.median, o)
    requires RowsAre(p, trace + [level]) && Readings(trace + [level]) == calls + p.reps
    ensures OutcomeIs(p, Round(p, o, calls, trace))
  {
    RoundTracks(p, o, calls, trace, level);
    Going(p, o, calls, trace, level);
  }

  /** One round adds a level, and behind one that does not track its confirmation. */
  lemma RoundMeans(p: Setup, o: int, calls: nat, trace: seq<Entry>)
    requires p.hold >= 0.25 && OutcomeIs(p, Running(o, calls, trace))
    ensures OutcomeIs(p, Round(p, o, calls, trace))
  {
    if p.reps > 0 && o <= p.max {
      var level := LevelOf(p, o, calls);
      LevelRound(p, o, trace, level);
      if level.tracking {
        TrackMeans(p, o, calls, trace, level);
      } else {
        EscapeMeans(p, o, calls, trace, level);
      }
    }
  }

  lemma Going(p: Setup, o: int, calls: nat, trace: seq<Entry>, level: Entry)
    requires RowsAre(p, trace + [level]) && level.Level? && level.tracking && level.offered == o >= 2
    requires Readings(trace + [level]) == calls + p.reps
    ensures OutcomeIs(p, Running(o * 2, calls + p.reps, trace + [level]))
  {
  }

  lemma Settled(p: Setup, o: int, calls: nat, trace: seq<Entry>, level: Entry, row: Entry)
    requires p.hold >= 0.25 && level.Level? && row.Confirmation? && level.offered == o && row.offered >= 2
    requires RowsAre(p, trace + [level] + [row]) && Readings(trace + [level] + [row]) == calls + p.reps + p.reps
    ensures var t := trace + [level] + [row];
            if row.drift > 0.15 then OutcomeIs(p, Running(row.offered, calls + p.reps + p.reps, t))
            else OutcomeIs(p, Returned((level.median + row.median) / 2.0, o, p.hold, p.reps, level.spread, t))
  {
    var t := trace + [level] + [row];
    assert t[|t| - 2] == level && t[|t| - 1] == row;
  }

  /** In every run each row of the trace is what its readings say, each level follows from the rows before
      it, and a returned width is the mean of a level that did not track and its stable confirmation. */
  lemma {:induction false} TraceMeans(p: Setup, rounds: nat)
    ensures OutcomeIs(p, Run(p, rounds))
  {
    if rounds > 0 {
      TraceMeans(p, rounds - 1);
      var s := Run(p, rounds - 1);
      if s.Running? {
        RoundMeans(p, s.offered, s.calls, s.trace);
        OneRound(p, rounds);
      }
    }
  }

  // ----- measurements with a bounded relative error

  /** What a pool of width `w` can run of an offered concurrency. */
  function Served(offered: int, w: real): real { if offered as real <= w then offered as real else w }

  /** The error a relative error `e` allows on a value. */
  function Band(e: real, m: real): real { e * m }

  /** Every measurement is within a relative error `e` of min(offered, W) / hold. */
  ghost predicate Accurate(p: Setup, w: real, e: real)
    requires p.hold > 0.0
  {
    forall n: nat, o: int :: o >= 1 ==>
      Abs(p.submit(n, o, p.hold) - Served(o, w) / p.hold) <= Band(e, Served(o, w) / p.hold)
  }

  lemma TimesHold(x: real, m: real, e: real, hold: real)
    requires hold > 0.0 && Abs(x - m / hold) <= Band(e, m / hold)
    ensures m - Band(e, m) <= x * hold <= m + Band(e, m)
  {
    var q := m / hold;
    assert q * hold == m;
    ScaleUp(q - Band(e, q), x, hold);
    ScaleUp(x, q + Band(e, q), hold);
    Regroup(q, e, hold);
  }

  lemma ScaleUp(a: real, b: real, k: real)
    requires a <= b && k > 0.0
    ensures a * k <= b * k
  {
  }

  lemma Regroup(q: real, e: real, hold: real)
    ensures (q - Band(e, q)) * hold == q * hold - Band(e, q * hold)
    ensures (q + Band(e, q)) * hold == q * hold + Band(e, q * hold)
  {
  }

  /** The median of one level is as accurate as its measurements. */
  lemma LevelIsAccurate(p: Setup, w: real, e: real, calls: nat, o: int)
    requires p.hold > 0.0 && p.reps >= 1 && o >= 1 && Accurate(p, w, e)
    ensures var m := Served(o, w); var est := Median(Estimates(p.submit, calls, o, p.hold, p.reps));
            m - Band(e, m) <= est <= m + Band(e, m)
  {
    var m, es := Served(o, w), Estimates(p.submit, calls, o, p.hold, p.reps);
    forall i | 0 <= i < |es| ensures m - Band(e, m) <= es[i] <= m + Band(e, m) {
      TimesHold(p.submit(calls + i, o, p.hold), m, e, p.hold);
    }
    MedianWithin(es, m - Band(e, m), m + Band(e, m));
  }

  lemma ErrorAtMost(e: real, m: real)
    requires e <= 0.15 && m >= 0.0
    ensures Band(e, m) <= 0.15 * m
  {
  }

  lemma DriftMeans(est: real, cest: real)
    ensures Drifted(est, cest) <==> Abs(cest - est) > 0.15 * Floor(est)
  {
    DivisionTest(Abs(cest - est), Floor(est), DRIFT_TOLERANCE);
  }

  // ----- safety: what is returned is the width

  lemma EscapeLinear(est: real, o: real, w: real, m: real, d: real)
    requires o >= 1.0 && w > 0.0 && m == (if o <= w then o else w) && d <= 0.15 * m
    requires m - d <= est <= m + d && !(o * 0.85 <= est <= o * 1.15)
    ensures o > w && est < o * 0.85
  {
  }

  /** Leaving the tracking regime means the pool is saturated. */
  lemma EscapeMeansSaturated(est: real, o: int, w: real, e: real, m: real)
    requires o >= 1 && w > 0.0 && e <= 0.15 && m == Served(o, w)
    requires m - Band(e, m) <= est <= m + Band(e, m) && !Tracking(est, o)
    ensures o as real > w && m == w && est < o as real * 0.85
  {
    TrackingMeans(est, o);
    ErrorAtMost(e, m);
    EscapeLinear(est, o as real, w, m, Band(e, m));
  }

  lemma AverageBelowOffered(est: real, cest: real, o: int)
    requires o >= 2 && est < o as real * 0.85 && !Drifted(est, cest)
    ensures (est + cest) / 2.0 < o as real
  {
    DriftMeans(est, cest);
  }

  lemma AverageWithin(x: real, y: real, lo: real, hi: real)
    requires lo <= x <= hi && lo <= y <= hi
    ensures lo <= (x + y) / 2.0 <= hi
  {
  }

  /** The two medians of a round that returned. */
  lemma ReturningRound(p: Setup, o: int, calls: nat, trace: seq<Entry>) returns (est: real, cest: real)
    requires o >= 1 && Round(p, o, calls, trace).Returned?
    ensures p.reps >= 1 && o <= p.max && o <= Confirm(o, p.max)
    ensures est == Median(Estimates(p.submit, calls, o, p.hold, p.reps)) && !Tracking(est, o)
    ensures cest == Median(Estimates(p.submit, calls + p.reps, Confirm(o, p.max), p.hold, p.reps))
    ensures !Drifted(est, cest)
    ensures Round(p, o, calls, trace).width == (est + cest) / 2.0 && Round(p, o, calls, trace).offered == o
  {
    est := Median(Estimates(p.submit, calls, o, p.hold, p.reps));
    cest := Median(Estimates(p.submit, calls + p.reps, Confirm(o, p.max), p.hold, p.reps));
  }

  lemma ReturnIsSafe(est: real, cest: real, o: int, confirm: int, w: real, e: real, m: real, m': real)
    requires 2 <= o <= confirm && w > 0.0 && e <= 0.15 && m == Served(o, w) && m' == Served(confirm, w)
    requires m - Band(e, m) <= est <= m + Band(e, m) && m' - Band(e, m') <= cest <= m' + Band(e, m')
    requires !Tracking(est, o) && !Drifted(est, cest)
    ensures o as real > w && w - Band(e, w) <= (est + cest) / 2.0 <= w + Band(e, w) && (est + cest) / 2.0 < o as real
  {
    EscapeMeansSaturated(est, o, w, e, m);
    AverageBelowOffered(est, cest, o);
    AverageWithin(est, cest, w - Band(e, w), w + Band(e, w));
  }

  lemma RoundIsSafe(p: Setup, w: real, e: real, o: int, calls: nat, trace: seq<Entry>)
    requires p.hold > 0.0 && w > 0.0 && e <= 0.15 && Accurate(p, w, e) && o >= 2
    requires Round(p, o, calls, trace).Returned?
    ensures var r := Round(p, o, calls, trace);
            r.offered as real > w && w - Band(e, w) <= r.width <= w + Band(e, w) && r.width < r.offered as real
  {
    var est, cest := ReturningRound(p, o, calls, trace);
    LevelIsAccurate(p, w, e, calls, o);
    LevelIsAccurate(p, w, e, calls + p.reps, Confirm(o, p.max));
    ReturnIsSafe(est, cest, o, Confirm(o, p.max), w, e, Served(o, w), Served(Confirm(o, p.max), w));
  }

  /** With measurements within e <= 0.15, any width returned is within e of the true one, was taken
      with more offered than the pool could run, and is never the offered value. */
  lemma {:induction false} ReturnedWidthIsTrue(p: Setup, w: real, e: real, rounds: nat)
    requires p.hold > 0.0 && w > 0.0 && e <= 0.15 && Accurate(p, w, e)
    requires Run(p, rounds).Returned?
    ensures var r := Run(p, rounds);
            r.offered as real > w && w - Band(e, w) <= r.width <= w + Band(e, w) && r.width < r.offered as real
  {
    if rounds > 0 {
      var s := Run(p, rounds - 1);
      if s.Running? {
        RoundIsSafe(p, w, e, s.offered, s.calls, s.trace);
      } else {
        ReturnedWidthIsTrue(p, w, e, rounds - 1);
      }
    }
  }

  // ----- termination

  /** The largest error, 3/43, under which two readings of one width cannot drift apart. */
  ghost predicate Steady(e: real) { e * 2.15 <= 0.15 }

  lemma DriftLinear(est: real, cest: real, w: real, d: real)
    requires 2.15 * d <= 0.15 * w
    requires w - d <= est <= w + d && w - d <= cest <= w + d
    ensures Abs(cest - est) <= 0.15 * Floor(est)
  {
  }

  lemma SteadyError(e: real, w: real)
    requires Steady(e) && w > 0.0
    ensures 2.15 * Band(e, w) <= 0.15 * w
  {
    ErrorAtMost(e * 2.15, w);
    Reassociate(e, w);
  }

  lemma Reassociate(e: real, w: real)
    ensures Band(e * 2.15, w) == 2.15 * Band(e, w)
  {
  }

  lemma SteadyCannotDrift(est: real, cest: real, w: real, e: real)
    requires w > 0.0 && Steady(e)
    requires w - Band(e, w) <= est <= w + Band(e, w) && w - Band(e, w) <= cest <= w + Band(e, w)
    ensures !Drifted(est, cest)
  {
    DriftMeans(est, cest);
    SteadyError(e, w);
    DriftLinear(est, cest, w, Band(e, w));
  }

  /** The first escape from tracking returns. */
  lemma EscapeReturns(p: Setup, w: real, e: real, o: int, calls: nat, trace: seq<Entry>)
    requires p.hold > 0.0 && w > 0.0 && Steady(e) && Accurate(p, w, e) && o >= 2 && p.reps >= 1
    requires o <= p.max && !Tracking(Median(Estimates(p.submit, calls, o, p.hold, p.reps)), o)
    ensures Round(p, o, calls, trace).Returned?
  {
    var confirm := Confirm(o, p.max);
    LevelIsAccurate(p, w, e, calls, o);
    LevelIsAccurate(p, w, e, calls + p.reps, confirm);
    var est := Median(Estimates(p.submit, calls, o, p.hold, p.reps));
    var cest := Median(Estimates(p.submit, calls + p.reps, confirm, p.hold, p.reps));
    EscapeMeansSaturated(est, o, w, e, Served(o, w));
    SteadyCannotDrift(est, cest, w, e);
  }

  lemma {:induction false} OfferedGrows(p: Setup, w: real, e: real, rounds: nat)
    requires p.hold > 0.0 && w > 0.0 && Steady(e) && Accurate(p, w, e)
    ensures Run(p, rounds).Running? ==> Run(p, rounds).offered >= rounds + 2
  {
    if rounds > 0 {
      OfferedGrows(p, w, e, rounds - 1);
      var s := Run(p, rounds - 1);
      if s.Running? && s.offered <= p.max && p.reps >= 1
         && !Tracking(Median(Estimates(p.submit, s.calls, s.offered, p.hold, p.reps)), s.offered) {
        EscapeReturns(p, w, e, s.offered, s.calls, s.trace);
      }
    }
  }

  /** With measurements within 3/43 the loop ends: after as many rounds as `max_offered` it has
      returned or raised. */
  lemma MeasurementEnds(p: Setup, w: real, e: real, rounds: nat)
    requires p.hold > 0.0 && w > 0.0 && Steady(e) && Accurate(p, w, e) && rounds >= 1 && rounds > p.max
    ensures !Run(p, rounds).Running?
  {
    OfferedGrows(p, w, e, rounds - 1);
  }

  lemma TrackingDoubles(p: Setup, w: real, e: real, o: int, calls: nat, trace: seq<Entry>)
    requires p.hold > 0.0 && w > 0.0 && Steady(e) && Accurate(p, w, e) && 2 <= o <= p.max
    ensures Round(p, o, calls, trace).Running? ==> Round(p, o, calls, trace).offered == o * 2
  {
    if p.reps >= 1 && !Tracking(Median(Estimates(p.submit, calls, o, p.hold, p.reps)), o) {
      EscapeReturns(p, w, e, o, calls, trace);
    }
  }

  lemma FinishedAgree(p: Setup, k: nat, rounds: nat)
    requires !Run(p, k).Running? && !Run(p, rounds).Running?
    ensures Run(p, k) == Run(p, rounds)
  {
    if k <= rounds { RunStays(p, k, rounds); } else { RunStays(p, rounds, k); }
  }

  lemma RoundMovesOn(p: Setup, w: real, e: real, done: nat, s: Outcome, r: Outcome)
    requires p.hold > 0.0 && w > 0.0 && Steady(e) && Accurate(p, w, e)
    requires s == Run(p, done) && s.Running? && s.offered <= p.max
    requires r == Round(p, s.offered, s.calls, s.trace)
    ensures r == Run(p, done + 1) && (r.Running? ==> r.offered == s.offered * 2)
  {
    OneRound(p, done + 1);
    TrackingDoubles(p, w, e, s.offered, s.calls, s.trace);
  }

  lemma EveryLongRun(p: Setup, w: real, e: real, done: nat)
    requires p.hold > 0.0 && w > 0.0 && Steady(e) && Accurate(p, w, e) && !Run(p, done).Running?
    ensures forall rounds: nat :: rounds >= 1 && rounds > p.max ==> Run(p, done) == Run(p, rounds)
  {
    forall rounds: nat | rounds >= 1 && rounds > p.max ensures Run(p, done) == Run(p, rounds) {
      MeasurementEnds(p, w, e, rounds);
      FinishedAgree(p, done, rounds);
    }
  }

  /** The loop as the source has it: with measurements within 3/43 it ends by itself, with the outcome
      that every long enough run of rounds has. */
  method MeasureToTheEnd(p: Setup, ghost w: real, ghost e: real) returns (r: Outcome)
    requires p.hold > 0.0 && w > 0.0 && Steady(e) && Accurate(p, w, e)
    ensures !r.Running?
    ensures forall rounds: nat :: rounds >= 1 && rounds > p.max ==> r == Run(p, rounds)
  {
    r := Start(p);
    ghost var done: nat := 0;
    while r.Running? && r.offered <= p.max
      invariant r == Run(p, done)
      decreases if r.Running? then p.max + 1 - r.offered else 0
    {
      ghost var s := r;
      r := LoopBody(p, r.offered, r.calls, r.trace);
      RoundMovesOn(p, w, e, done, s, r);
      done := done + 1;
    }
    if r.Running? {
      PastMaximum(p, done);
      r := Raised("tracked all the way to max_offered");
      done := done + 1;
    }
    EveryLongRun(p, w, e, done);
  }

  /** A level that tracked: the pool is nearly as wide as what was offered. */
  lemma TrackedLevelMeansWide(p: Setup, w: real, e: real, calls: nat, o: int)
    requires p.hold > 0.0 && p.reps >= 1 && o >= 1 && w > 0.0 && 0.0 <= e && Accurate(p, w, e)
    requires Tracking(Median(Estimates(p.submit, calls, o, p.hold, p.reps)), o)
    ensures o as real * 0.85 <= w + Band(e, w)
  {
    LevelIsAccurate(p, w, e, calls, o);
    TrackingMeans(Median(Estimates(p.submit, calls, o, p.hold, p.reps)), o);
    BandGrows(e, Served(o, w), w);
  }

  lemma BandGrows(e: real, m: real, w: real)
    requires 0.0 <= e && m <= w
    ensures Band(e, m) <= Band(e, w)
  {
  }

  lemma {:induction false} RunningMeansTracked(p: Setup, w: real, e: real, rounds: nat)
    requires p.hold > 0.0 && w > 0.0 && 0.0 <= e && Steady(e) && Accurate(p, w, e)
    requires 2 <= p.start && rounds >= 1 && p.reps >= 1 && Run(p, rounds).Running?
    ensures Run(p, rounds).offered as real * 0.425 <= w + Band(e, w)
  {
    var s := Run(p, rounds - 1);
    var est := Median(Estimates(p.submit, s.calls, s.offered, p.hold, p.reps));
    if !Tracking(est, s.offered) {
      EscapeReturns(p, w, e, s.offered, s.calls, s.trace);
    } else {
      TrackedLevelMeansWide(p, w, e, s.calls, s.offered);
    }
  }

  /** So a pool clearly narrower than half of `max_offered` is always measured, never refused. */
  lemma NarrowPoolIsMeasured(p: Setup, w: real, e: real, rounds: nat)
    requires p.hold >= MIN_HOLD_S && w > 0.0 && 0.0 <= e && Steady(e) && Accurate(p, w, e)
    requires 2 <= p.start <= p.max && p.reps >= 1 && rounds > p.max
    requires w + Band(e, w) < p.max as real * 0.425
    ensures Run(p, rounds).Returned?
  {
    MeasurementEnds(p, w, e, rounds);
    NeverRaised(p, w, e, rounds);
  }

  lemma {:induction false} NeverRaised(p: Setup, w: real, e: real, rounds: nat)
    requires p.hold >= MIN_HOLD_S && w > 0.0 && 0.0 <= e && Steady(e) && Accurate(p, w, e)
    requires 2 <= p.start <= p.max && p.reps >= 1
    requires w + Band(e, w) < p.max as real * 0.425
    ensures !Run(p, rounds).Raised?
  {
    if rounds > 0 {
      NeverRaised(p, w, e, rounds - 1);
      if rounds > 1 && Run(p, rounds - 1).Running? {
        RunningMeansTracked(p, w, e, rounds - 1);
      }
    }
  }

  // ----- beyond 3/43 it need not end

  /** A pool of width 4 whose readings alternate between the two ends of the error band. */
  function Wavering(e: real): Submit {
    (n: nat, o: int, hold: real) =>
      if hold == 0.0 then 0.0
      else (if n % 2 == 0 then 1.0 - e else 1.0 + e) * (Served(o, 4.0) / hold)
  }

  function WaveringSetup(e: real): Setup { Setup(Wavering(e), 0.5, 16, 1, 16) }

  lemma WaveringIsAccurate(e: real)
    requires 0.0 <= e < 1.0
    ensures Accurate(WaveringSetup(e), 4.0, e)
  {
    var p := WaveringSetup(e);
    forall n: nat, o: int | o >= 1
      ensures Abs(p.submit(n, o, p.hold) - Served(o, 4.0) / p.hold) <= Band(e, Served(o, 4.0) / p.hold)
    {
      WaverIsWithin(e, n, o, p.hold);
    }
  }

  lemma WaverIsWithin(e: real, n: nat, o: int, hold: real)
    requires 0.0 <= e && o >= 1 && hold > 0.0
    ensures Abs(Wavering(e)(n, o, hold) - Served(o, 4.0) / hold) <= Band(e, Served(o, 4.0) / hold)
  {
    BandEnds(e, Served(o, 4.0) / hold);
  }

  /** Both ends of the band around a value are within the band. */
  lemma BandEnds(e: real, q: real)
    requires 0.0 <= e && 0.0 <= q
    ensures Abs((1.0 - e) * q - q) <= Band(e, q) && Abs((1.0 + e) * q - q) <= Band(e, q)
  {
    BandAround(e, q);
  }

  lemma BandAround(e: real, q: real)
    requires 0.0 <= e && 0.0 <= q
    ensures (1.0 - e) * q == q - Band(e, q) && (1.0 + e) * q == q + Band(e, q) && Band(e, q) >= 0.0
  {
  }

  /** One round at offered = max = 16 ends where it began. */
  lemma WaveringRound(e: real, calls: nat, trace: seq<Entry>)
    requires 0.0 <= e < 1.0 && !Steady(e) && calls % 2 == 0
    ensures var r := Round(WaveringSetup(e), 16, calls, trace);
            r.Running? && r.offered == 16 && r.calls == calls + 2
  {
    WaveringMedian(e, calls);
    WaveringMedian(e, calls + 1);
    var est, cest := (1.0 - e) * 4.0, (1.0 + e) * 4.0;
    TrackingMeans(est, 16);
    DriftMeans(est, cest);
  }

  predicate AtSixteen(r: Outcome) { r.Running? && r.offered == 16 && r.calls % 2 == 0 }

  lemma StaysAtSixteen(e: real, s: Outcome, r: Outcome)
    requires 0.0 <= e < 1.0 && !Steady(e) && AtSixteen(s)
    requires r == Round(WaveringSetup(e), s.offered, s.calls, s.trace)
    ensures AtSixteen(r)
  {
    WaveringRound(e, s.calls, s.trace);
  }

  lemma {:induction false} WaveringRuns(e: real, rounds: nat)
    requires 0.0 <= e < 1.0 && !Steady(e)
    ensures AtSixteen(Run(WaveringSetup(e), rounds))
  {
    if rounds > 0 {
      WaveringRuns(e, rounds - 1);
      OneRound(WaveringSetup(e), rounds);
      StaysAtSixteen(e, Run(WaveringSetup(e), rounds - 1), Run(WaveringSetup(e), rounds));
    }
  }

  /** Measurements accurate within an error are accurate within a larger one. */
  lemma AccuracyIsMonotone(p: Setup, w: real, e: real, e': real)
    requires p.hold > 0.0 && w > 0.0 && 0.0 <= e <= e' && Accurate(p, w, e)
    ensures Accurate(p, w, e')
  {
    forall n: nat, o: int | o >= 1
      ensures Abs(p.submit(n, o, p.hold) - Served(o, w) / p.hold) <= Band(e', Served(o, w) / p.hold)
    {
      WiderBand(e, e', Served(o, w) / p.hold);
    }
  }

  lemma WiderBand(e: real, e': real, q: real)
    requires e <= e' && q >= 0.0
    ensures Band(e, q) <= Band(e', q)
  {
  }

  /** How far the readings waver under an error: all the way, but not to zero. */
  function Sway(e: real): real { if e < 1.0 then e else 0.5 }

  /** For every error above 3/43 there is a pool, measured within that error, on which the loop
      retries at `max_offered` for ever. */
  lemma NeverFinishes(e: real, rounds: nat)
    requires !Steady(e)
    ensures WaveringSetup(Sway(e)).hold > 0.0 && Accurate(WaveringSetup(Sway(e)), 4.0, e)
    ensures Run(WaveringSetup(Sway(e)), rounds).Running?
    ensures Run(WaveringSetup(Sway(e)), rounds).offered == WaveringSetup(Sway(e)).max
  {
    WaveringIsAccurate(Sway(e));
    AccuracyIsMonotone(WaveringSetup(Sway(e)), 4.0, Sway(e), e);
    WaveringRuns(Sway(e), rounds);
  }

  lemma WaveringReading(e: real, n: nat)
    ensures Estimate(Wavering(e), n, 16, 0.5) == (if n % 2 == 0 then 1.0 - e else 1.0 + e) * 4.0
  {
    assert Served(16, 4.0) / 0.5 == 8.0;
  }

  lemma MedianOfOne(x: real)
    ensures Median([x]) == x
  {
    assert SortReals([x][1..]) == [];
  }

  lemma WaveringMedian(e: real, n: nat)
    ensures Median(Estimates(Wavering(e), n, 16, 0.5, 1)) == (if n % 2 == 0 then 1.0 - e else 1.0 + e) * 4.0
  {
    WaveringReading(e, n);
    var x := Estimate(Wavering(e), n, 16, 0.5);
    assert Estimates(Wavering(e), n, 16, 0.5, 1) == [x];
    MedianOfOne(x);
  }
}
