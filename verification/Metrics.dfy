/** Nearest-rank percentile, the completion-rank window and throughput over it. */
module Metrics {
  import opened Arith
  import opened MapSum
  import opened PerfRecords
  import opened Seqs
  import opened Sorting
  import opened Totals
  import opened Wrappers

  // ----- percentile

  function Numbers(values: seq<Option<int>>): seq<int> {
    if values == [] then [] else
      (if values[0].Some? then [values[0].value] else []) + Numbers(values[1..])
  }

  /** Python's `-(-n * p // 100)`: floor division rounds toward minus infinity. */
  function CeilPercent(n: int, p: int): int { -((-(n * p)) / 100) }

  function Percentile(values: seq<Option<int>>, p: int): Option<int> {
    var vals := Sort(Numbers(values), Itself);
    if vals == [] || !(0 <= p <= 100) then None
    else if p == 0 then Some(vals[0])
    else
      var rank := if CeilPercent(|vals|, p) >= 1 then CeilPercent(|vals|, p) else 1;
      RankInRange(|vals|, p);
      Some(vals[rank - 1])
  }

  lemma RankInRange(n: nat, p: int)
    requires n >= 1 && 0 < p <= 100
    ensures 1 <= CeilPercent(n, p) <= n
    ensures 100 * CeilPercent(n, p) >= n * p && 100 * (CeilPercent(n, p) - 1) < n * p
  {
    assert n * p >= 1 && n * p <= n * 100;
  }

  /** The nearest-rank percentile is an observed value; at least p per cent of the values are at
      most it and fewer than p per cent are below it. */
  lemma PercentileRank(values: seq<Option<int>>, p: int)
    requires Numbers(values) != [] && 0 < p <= 100
    ensures var v := Percentile(values, p); var nums := Numbers(values);
            v.Some? && v.value in nums
            && 100 * CountWhere(nums, AtMost(v.value)) >= |nums| * p
            && 100 * CountWhere(nums, AtMost(v.value - 1)) < |nums| * p
  {
    var nums := Numbers(values);
    var v, k := PercentileIs(values, p);
    RankedIsMember(nums, k - 1);
    RankedCounts(nums, Sort(nums, Itself), k - 1);
  }

  lemma RankedIsMember(nums: seq<int>, k: nat)
    requires k < |nums|
    ensures Sort(nums, Itself)[k] in nums
  {
    SortMembers(nums, Itself, Sort(nums, Itself)[k]);
  }

  /** The value at place k of the sorted numbers, counted in the numbers themselves. */
  lemma RankedCounts(nums: seq<int>, vals: seq<int>, k: nat)
    requires vals == Sort(nums, Itself) && k < |vals|
    ensures CountWhere(nums, AtMost(vals[k])) >= k + 1 && CountWhere(nums, AtMost(vals[k] - 1)) <= k
  {
    SortOrder(nums, Itself);
    SortedCounts(vals, k);
    SortCount(nums, Itself, AtMost(vals[k]));
    SortCount(nums, Itself, AtMost(vals[k] - 1));
  }

  lemma PercentileIs(values: seq<Option<int>>, p: int) returns (v: int, k: nat)
    requires Numbers(values) != [] && 0 < p <= 100
    ensures var nums := Numbers(values);
            && 1 <= k <= |nums| && v == Sort(nums, Itself)[k - 1] && Percentile(values, p) == Some(v)
            && 100 * k >= |nums| * p && 100 * (k - 1) < |nums| * p
  {
    var nums := Numbers(values);
    RankInRange(|nums|, p);
    k := CeilPercent(|nums|, p);
    v := Sort(nums, Itself)[k - 1];
  }

  /** That rank property determines the percentile. */
  lemma PercentileIsDetermined(values: seq<Option<int>>, p: int, v: int)
    requires Numbers(values) != [] && 0 < p <= 100
    requires 100 * CountWhere(Numbers(values), AtMost(v)) >= |Numbers(values)| * p
    requires 100 * CountWhere(Numbers(values), AtMost(v - 1)) < |Numbers(values)| * p
    ensures Percentile(values, p) == Some(v)
  {
    PercentileRank(values, p);
    OneRank(Numbers(values), v, Percentile(values, p).value, |Numbers(values)| * p);
  }

  lemma OneRank(nums: seq<int>, v: int, w: int, rank: int)
    requires 100 * CountWhere(nums, AtMost(v)) >= rank > 100 * CountWhere(nums, AtMost(v - 1))
    requires 100 * CountWhere(nums, AtMost(w)) >= rank > 100 * CountWhere(nums, AtMost(w - 1))
    ensures v == w
  {
    if v < w { CountImplies(nums, AtMost(v), AtMost(w - 1)); }
    if w < v { CountImplies(nums, AtMost(w), AtMost(v - 1)); }
  }

  /** The order of the values does not matter. */
  lemma PercentileIgnoresOrder(values: seq<Option<int>>, values': seq<Option<int>>, p: int)
    requires multiset(Numbers(values)) == multiset(Numbers(values'))
    ensures Percentile(values, p) == Percentile(values', p)
  {
    SortIgnoresOrder(Numbers(values), Numbers(values'));
  }

  lemma SortIgnoresOrder(xs: seq<int>, ys: seq<int>)
    requires multiset(xs) == multiset(ys)
    ensures Sort(xs, Itself) == Sort(ys, Itself)
  {
    SortContents(ys, Itself);
    SortOrder(ys, Itself);
    SortRecovers(xs, Sort(ys, Itself), Itself);
  }

  lemma PercentileIsMonotone(values: seq<Option<int>>, p: int, q: int)
    requires Numbers(values) != [] && 0 <= p <= q <= 100
    ensures Percentile(values, p).Some? && Percentile(values, q).Some?
    ensures Percentile(values, p).value <= Percentile(values, q).value
  {
    var vals := Sort(Numbers(values), Itself);
    SortOrder(Numbers(values), Itself);
    var i, j := PercentileIndex(|vals|, p), PercentileIndex(|vals|, q);
    IndexIsMonotone(|vals|, p, q);
    if i < j { assert Itself(vals[i]) <= Itself(vals[j]); }
  }

  /** The position of the percentile in the sorted values. */
  function PercentileIndex(n: int, p: int): int {
    if p == 0 || CeilPercent(n, p) < 1 then 0 else CeilPercent(n, p) - 1
  }

  lemma IndexIsMonotone(n: nat, p: int, q: int)
    requires n >= 1 && 0 <= p <= q <= 100
    ensures 0 <= PercentileIndex(n, p) <= PercentileIndex(n, q) < n
  {
    if p > 0 { RankInRange(n, p); }
    if q > 0 { RankInRange(n, q); }
    MulMono(n, p, q);
    CeilIsMonotone(n * p, n * q);
  }

  lemma CeilIsMonotone(x: int, y: int)
    requires x <= y
    ensures -((-x) / 100) <= -((-y) / 100)
  {
  }

  // ----- the percentile among the values as they come

  predicate IsNumber(x: Option<int>) { x.Some? }

  function NumberUpTo(v: int): Option<int> -> bool { (x: Option<int>) => x.Some? && x.value <= v }

  lemma {:induction false} NumbersCount(values: seq<Option<int>>, v: int)
    ensures |Numbers(values)| == |Places(values, IsNumber)|
    ensures CountWhere(Numbers(values), AtMost(v)) == |Places(values, NumberUpTo(v))|
    ensures v in Numbers(values) <==> Some(v) in values
  {
    if values != [] {
      NumbersCount(values[1..], v);
      FirstPlace(values, IsNumber);
      FirstPlace(values, NumberUpTo(v));
      HeadCount(values[0], Numbers(values[1..]), v);
      assert values == [values[0]] + values[1..];
    }
  }

  lemma HeadCount(x: Option<int>, nums: seq<int>, v: int)
    ensures CountWhere((if x.Some? then [x.value] else []) + nums, AtMost(v)) ==
            (if x.Some? && x.value <= v then 1 else 0) + CountWhere(nums, AtMost(v))
  {
    if x.Some? {
      CountAdds([x.value], nums, AtMost(v));
      assert [x.value][..0] == [];
    } else {
      assert [] + nums == nums;
    }
  }

  /** There is a percentile iff p is a percentage and some value is a number.  It is then one of the values;
      among the numbers at least p per cent are at most it and fewer than p per cent below it, and for
      p = 0 none is below it. */
  lemma PercentileMeans(values: seq<Option<int>>, p: int)
    ensures Percentile(values, p).Some? <==> 0 <= p <= 100 && exists v :: Some(v) in values
    ensures Percentile(values, p).Some? ==> Percentile(values, p) in values
    ensures p == 0 ==> forall v :: Some(v) in values ==> Percentile(values, p).value <= v
    ensures Percentile(values, p).Some? && p > 0 ==>
              var v, n := Percentile(values, p).value, |set i | 0 <= i < |values| && values[i].Some?|;
              && 100 * |set i | 0 <= i < |values| && values[i].Some? && values[i].value <= v| >= n * p
              && 100 * |set i | 0 <= i < |values| && values[i].Some? && values[i].value <= v - 1| < n * p
  {
    forall v { NumbersCount(values, v); }
    if Numbers(values) != [] { assert Numbers(values)[0] in Numbers(values); }
    if Percentile(values, p).Some? {
      if p > 0 {
        PercentileRank(values, p);
        NumberPlaces(values, Percentile(values, p).value);
        NumberPlaces(values, Percentile(values, p).value - 1);
      } else {
        LeastNumber(Numbers(values));
      }
    }
  }

  lemma NumberPlaces(values: seq<Option<int>>, v: int)
    ensures Places(values, IsNumber) == set i | 0 <= i < |values| && values[i].Some?
    ensures Places(values, NumberUpTo(v)) == set i | 0 <= i < |values| && values[i].Some? && values[i].value <= v
  {
  }

  lemma LeastNumber(nums: seq<int>)
    requires nums != []
    ensures Sort(nums, Itself)[0] in nums && forall v :: v in nums ==> Sort(nums, Itself)[0] <= v
  {
    var vals := Sort(nums, Itself);
    SortOrder(nums, Itself);
    SortMembers(nums, Itself, vals[0]);
    forall v | v in nums ensures vals[0] <= v {
      SortMembers(nums, Itself, v);
      var i :| 0 <= i < |vals| && vals[i] == v;
      if i > 0 { assert Itself(vals[0]) <= Itself(vals[i]); }
    }
  }

  // ----- perf_window

  /** `by_completion`: the finished rows in completion order. */
  function ByCompletion(rows: seq<Row>): seq<Row> {
    Sort(Filter(rows, HasCompletion), CompletionKey)
  }

  datatype Window = Window(rows: seq<Row>, span: int, boundary: Option<int>)

  /** The rows that completed strictly after the boundary. */
  function After(rows: seq<Row>, boundary: int): seq<Row> {
    if rows == [] then [] else
      (if CompletionKey(rows[0]) > boundary then [rows[0]] else []) + After(rows[1..], boundary)
  }

  /** The window behind the first `warm` completions, up to the last. */
  function WarmWindow(done: seq<Row>, warm: nat): Window
    requires 0 < warm < |done|
  {
    var boundary := CompletionKey(done[warm - 1]);
    Window(After(done, boundary), CompletionKey(done[|done| - 1]) - boundary, Some(boundary))
  }

  function PerfWindow(rows: seq<Row>, warm: nat): Result<Window> {
    var done := ByCompletion(rows);
    if |done| <= warm then Err("too few completions")
    else if warm > 0 then Ok(WarmWindow(done, warm))
    else if Submits(rows) == [] then Err("warm_n=0 needs submit_ns on at least one row")
    else Ok(Window(done, CompletionKey(done[|done| - 1]) - Min(Submits(rows)), None))
  }

  lemma {:induction false} AfterKeepsAll(s: seq<Row>, b: int)
    requires forall i :: 0 <= i < |s| ==> CompletionKey(s[i]) > b
    ensures After(s, b) == s
  {
    if s != [] {
      AfterKeepsAll(s[1..], b);
      assert s == [s[0]] + s[1..];
    }
  }

  lemma {:induction false} AfterOfSorted(s: seq<Row>, b: int) returns (k: nat)
    requires SortedBy(s, CompletionKey)
    ensures k <= |s| && After(s, b) == s[k..]
    ensures k > 0 ==> CompletionKey(s[k - 1]) <= b
    ensures k < |s| ==> CompletionKey(s[k]) > b
  {
    if s == [] {
      k := 0;
    } else if CompletionKey(s[0]) > b {
      k := 0;
      AfterKeepsAll(s, b);
    } else {
      TailSorted(s, CompletionKey);
      k := AfterOfSorted(s[1..], b);
      DropsAdd(s, k);
      k := k + 1;
    }
  }

  /** The window is what is left of the completion order after dropping its first k rows, where k
      is at least the warm-up count, and exactly that count when the first row behind the warm-up
      completed strictly later than the last warm-up row. */
  lemma WindowIsSuffix(rows: seq<Row>, warm: nat) returns (k: nat)
    requires PerfWindow(rows, warm).Ok?
    ensures warm < |ByCompletion(rows)| && warm <= k <= |ByCompletion(rows)|
    ensures PerfWindow(rows, warm).value.rows == ByCompletion(rows)[k..]
    ensures SortedBy(ByCompletion(rows), CompletionKey)
    ensures k == warm <==>
            (warm == 0 || CompletionKey(ByCompletion(rows)[warm - 1]) < CompletionKey(ByCompletion(rows)[warm]))
  {
    SortOrder(Filter(rows, HasCompletion), CompletionKey);
    if warm == 0 {
      k := 0;
    } else {
      k := WarmWindowIsSuffix(ByCompletion(rows), warm);
    }
  }

  lemma WarmWindowIsSuffix(done: seq<Row>, warm: nat) returns (k: nat)
    requires SortedBy(done, CompletionKey) && 0 < warm < |done|
    ensures warm <= k <= |done| && WarmWindow(done, warm).rows == done[k..]
    ensures k == warm <==> CompletionKey(done[warm - 1]) < CompletionKey(done[warm])
  {
    var b := CompletionKey(done[warm - 1]);
    k := AfterOfSorted(done, b);
    assert forall i :: 0 <= i < warm ==> CompletionKey(done[i]) <= b;
  }

  // ----- throughput

  datatype Throughput = Throughput(successful: nat, windowDocs: nat, span: int, chunks: nat,
                                   docsPerS: Option<real>, chunksPerS: Option<real>, warm: nat,
                                   t0: Option<int>, t1: Option<int>)

  predicate Succeeded(r: Row) { r.ok }

  function TotalChunks(rows: seq<Row>): nat {
    if rows == [] then 0 else TotalChunks(rows[..|rows| - 1]) + rows[|rows| - 1].chunks.GetOr(0)
  }

  /** Events per second over a span in nanoseconds; no rate over an empty span. */
  function Rate(count: nat, span: int): Option<real> {
    if span > 0 then Some(count as real * 1_000_000_000.0 / span as real) else None
  }

  function LastCompletion(rows: seq<Row>): Option<int> {
    if rows == [] then None else
      var m := LastCompletion(rows[..|rows| - 1]);
      var c := CompletionKey(rows[|rows| - 1]);
      if m.Some? && m.value >= c then m else Some(c)
  }

  function Summary(rows: seq<Row>, span: int, warm: nat, t0: Option<int>): Throughput {
    var ok := Filter(rows, Succeeded);
    Throughput(|ok|, |rows|, span, TotalChunks(ok), Rate(|ok|, span), Rate(TotalChunks(ok), span),
               warm, t0, LastCompletion(rows))
  }

  function WindowStart(rows: seq<Row>, w: Window): Option<int> {
    if w.boundary.Some? then w.boundary
    else if Submits(rows) == [] then None else Some(Min(Submits(rows)))
  }

  function ThroughputOf(rows: seq<Row>, warm: nat): Result<Throughput> {
    var w := PerfWindow(rows, warm);
    if w.Err? then Err(w.error)
    else Ok(Summary(w.value.rows, w.value.span, warm, WindowStart(rows, w.value)))
  }

  // ----- what the figures say of the records

  /** The record completed, strictly later than the boundary where there is one. */
  predicate Behind(r: Row, b: Option<int>) {
    r.completion.Some? && (b.Some? ==> r.completion.value > b.value)
  }

  function InWindow(b: Option<int>): Row -> bool { (r: Row) => Behind(r, b) }

  function OkInWindow(b: Option<int>): Row -> bool { (r: Row) => Behind(r, b) && r.ok }

  function ChunkCount(r: Row): nat { if r.chunks.Some? then r.chunks.value else 0 }

  function Later(b: int): Row -> bool { (r: Row) => CompletionKey(r) > b }

  lemma {:induction false} AfterIsFilter(s: seq<Row>, b: int)
    ensures After(s, b) == Filter(s, Later(b))
  {
    if s != [] { AfterIsFilter(s[1..], b); }
  }

  lemma ByCompletionTotal(rows: seq<Row>, f: Row -> nat)
    ensures Total(ByCompletion(rows), f) == Total(rows, Only(HasCompletion, f))
  {
    SortTotal(Filter(rows, HasCompletion), CompletionKey, f);
    FilterTotal(rows, HasCompletion, f);
  }

  /** Any total over the window is one over the records in it, whatever their order. */
  lemma WindowTotal(rows: seq<Row>, warm: nat, f: Row -> nat)
    requires PerfWindow(rows, warm).Ok?
    ensures var w := PerfWindow(rows, warm).value;
            Total(w.rows, f) == Total(rows, Only(InWindow(w.boundary), f)) && (w.boundary.Some? <==> warm > 0)
  {
    var b := PerfWindow(rows, warm).value.boundary;
    if warm == 0 {
      ByCompletionTotal(rows, f);
      TotalSame(rows, Only(HasCompletion, f), Only(InWindow(b), f));
    } else {
      AfterIsFilter(ByCompletion(rows), b.value);
      FilterTotal(ByCompletion(rows), Later(b.value), f);
      ByCompletionTotal(rows, Only(Later(b.value), f));
      TotalSame(rows, Only(HasCompletion, Only(Later(b.value), f)), Only(InWindow(b), f));
    }
  }

  lemma {:induction false} ChunksAreTotal(rows: seq<Row>)
    ensures TotalChunks(rows) == Total(rows, ChunkCount)
  {
    if rows != [] { ChunksAreTotal(rows[..|rows| - 1]); }
  }

  /** The same, over the successful records in the window. */
  lemma OkTotal(rows: seq<Row>, warm: nat, f: Row -> nat)
    requires PerfWindow(rows, warm).Ok?
    ensures var w := PerfWindow(rows, warm).value;
            Total(Filter(w.rows, Succeeded), f) == Total(rows, Only(OkInWindow(w.boundary), f))
  {
    var w := PerfWindow(rows, warm).value;
    FilterTotal(w.rows, Succeeded, f);
    WindowTotal(rows, warm, Only(Succeeded, f));
    TotalSame(rows, Only(InWindow(w.boundary), Only(Succeeded, f)), Only(OkInWindow(w.boundary), f));
  }

  lemma CountsOfWindow(rows: seq<Row>, warm: nat)
    requires PerfWindow(rows, warm).Ok?
    ensures var w := PerfWindow(rows, warm).value; var b := w.boundary;
            && |w.rows| == |Places(rows, InWindow(b))| && |Filter(w.rows, Succeeded)| == |Places(rows, OkInWindow(b))|
            && TotalChunks(Filter(w.rows, Succeeded)) == Sum(Weights(rows, OkInWindow(b), ChunkCount))
  {
    var w := PerfWindow(rows, warm).value;
    LengthIsTotal(w.rows);
    WindowTotal(rows, warm, One);
    PlacesTotal(rows, InWindow(w.boundary));
    LengthIsTotal(Filter(w.rows, Succeeded));
    OkTotal(rows, warm, One);
    PlacesTotal(rows, OkInWindow(w.boundary));
    ChunksAreTotal(Filter(w.rows, Succeeded));
    OkTotal(rows, warm, ChunkCount);
    WeightsTotal(rows, OkInWindow(w.boundary), ChunkCount);
  }

  /** A value together with its count, over the whole span, is a rate in events per second. */
  ghost predicate IsRate(rate: Option<real>, count: nat, span: int) {
    if span > 0 then rate.Some? && rate.value * span as real == count as real * 1_000_000_000.0 else rate.None?
  }

  lemma RateIs(count: nat, span: int)
    ensures IsRate(Rate(count, span), count, span)
  {
    if span > 0 { Quotient(count as real * 1_000_000_000.0, span as real); }
  }

  lemma Quotient(x: real, y: real)
    requires y > 0.0
    ensures x / y * y == x
  {
  }

  /** Documents, successes, chunks and rates are those of the records that completed behind the boundary,
      in whatever order the records are listed. */
  lemma ThroughputMeans(rows: seq<Row>, warm: nat)
    requires ThroughputOf(rows, warm).Ok?
    ensures var t := ThroughputOf(rows, warm).value;
            var b := if warm > 0 then t.t0 else None;
            && t.warm == warm
            && t.windowDocs == |set i | 0 <= i < |rows| && Behind(rows[i], b)|
            && t.successful == |set i | 0 <= i < |rows| && Behind(rows[i], b) && rows[i].ok|
            && t.chunks == Sum(map i | 0 <= i < |rows| && Behind(rows[i], b) && rows[i].ok :: ChunkCount(rows[i]))
            && IsRate(t.docsPerS, t.successful, t.span) && IsRate(t.chunksPerS, t.chunks, t.span)
  {
    var t := ThroughputOf(rows, warm).value;
    var w := PerfWindow(rows, warm).value;
    WindowTotal(rows, warm, One);
    CountsOfWindow(rows, warm);
    WindowPlaces(rows, w.boundary);
    RateIs(t.successful, t.span);
    RateIs(t.chunks, t.span);
  }

  lemma WindowPlaces(rows: seq<Row>, b: Option<int>)
    ensures Places(rows, InWindow(b)) == set i | 0 <= i < |rows| && Behind(rows[i], b)
    ensures Places(rows, OkInWindow(b)) == set i | 0 <= i < |rows| && Behind(rows[i], b) && rows[i].ok
    ensures Weights(rows, OkInWindow(b), ChunkCount) ==
            map i | 0 <= i < |rows| && Behind(rows[i], b) && rows[i].ok :: ChunkCount(rows[i])
  {
  }

  /** An instant at which something completed and behind which nothing did. */
  ghost predicate IsLast(rows: seq<Row>, c: int) {
    && (exists r :: r in rows && r.completion == Some(c))
    && forall r :: r in rows && r.completion.Some? ==> r.completion.value <= c
  }

  lemma ByCompletionMembers(rows: seq<Row>, r: Row)
    ensures r in ByCompletion(rows) <==> r in rows && r.completion.Some?
  {
    SortMembers(Filter(rows, HasCompletion), CompletionKey, r);
  }

  lemma LastIsLast(rows: seq<Row>)
    requires ByCompletion(rows) != []
    ensures var done := ByCompletion(rows); IsLast(rows, CompletionKey(done[|done| - 1]))
  {
    var done := ByCompletion(rows);
    SortOrder(Filter(rows, HasCompletion), CompletionKey);
    var last := done[|done| - 1];
    ByCompletionMembers(rows, last);
    forall r | r in rows && r.completion.Some? ensures r.completion.value <= CompletionKey(last) {
      ByCompletionMembers(rows, r);
      var i :| 0 <= i < |done| && done[i] == r;
      if i < |done| - 1 { assert CompletionKey(done[i]) <= CompletionKey(last); }
    }
  }

  /** Where the window opens: with a warm-up at the completion of its last record, counted by at least
      `warm` completions up to it and fewer before it; without one at the first submit.  The span runs
      from there to the last completion of all. */
  lemma SpanMeans(rows: seq<Row>, warm: nat) returns (last: int)
    requires ThroughputOf(rows, warm).Ok?
    ensures var t := ThroughputOf(rows, warm).value;
            && t.t0.Some? && IsLast(rows, last) && t.span == last - t.t0.value
            && (warm == 0 ==> (exists r :: r in rows && r.submit == t.t0) &&
                              forall r :: r in rows && r.submit.Some? ==> t.t0.value <= r.submit.value)
            && (warm > 0 ==>
                  && |set i | 0 <= i < |rows| && CompletedBy(rows[i], t.t0.value)| >= warm
                  && |set i | 0 <= i < |rows| && CompletedBy(rows[i], t.t0.value - 1)| < warm)
  {
    var done := ByCompletion(rows);
    last := CompletionKey(done[|done| - 1]);
    LastIsLast(rows);
    if warm > 0 {
      BoundaryRank(rows, warm);
    } else {
      FirstSubmit(rows);
    }
  }

  lemma FirstSubmit(rows: seq<Row>)
    requires Submits(rows) != []
    ensures var m := Min(Submits(rows));
            (exists r :: r in rows && r.submit == Some(m)) &&
            forall r :: r in rows && r.submit.Some? ==> m <= r.submit.value
  {
    SubmitsMembers(rows, Min(Submits(rows)));
    forall r | r in rows && r.submit.Some? ensures Min(Submits(rows)) <= r.submit.value {
      SubmitsMembers(rows, r.submit.value);
    }
  }

  predicate CompletedBy(r: Row, c: int) { r.completion.Some? && r.completion.value <= c }

  function UpTo(c: int): Row -> bool { (r: Row) => CompletedBy(r, c) }

  lemma BoundaryRank(rows: seq<Row>, warm: nat)
    requires 0 < warm <= |ByCompletion(rows)|
    ensures var b := CompletionKey(ByCompletion(rows)[warm - 1]);
            && |set i | 0 <= i < |rows| && CompletedBy(rows[i], b)| >= warm
            && |set i | 0 <= i < |rows| && CompletedBy(rows[i], b - 1)| < warm
  {
    var done := ByCompletion(rows);
    var b := CompletionKey(done[warm - 1]);
    SortOrder(Filter(rows, HasCompletion), CompletionKey);
    CompletedCount(rows, b);
    CompletedCount(rows, b - 1);
    forall r | r in done ensures r.completion.Some? { ByCompletionMembers(rows, r); }
    FrontUpTo(done, warm);
    BackBehind(done, warm);
  }

  lemma CompletedCount(rows: seq<Row>, c: int)
    ensures |set i | 0 <= i < |rows| && CompletedBy(rows[i], c)| == |Places(ByCompletion(rows), UpTo(c))|
  {
    PlacesTotal(rows, UpTo(c));
    PlacesTotal(ByCompletion(rows), UpTo(c));
    ByCompletionTotal(rows, Only(UpTo(c), One));
    TotalSame(rows, Only(HasCompletion, Only(UpTo(c), One)), Only(UpTo(c), One));
    assert Places(rows, UpTo(c)) == set i | 0 <= i < |rows| && CompletedBy(rows[i], c);
  }

  lemma FrontUpTo(done: seq<Row>, warm: nat)
    requires 0 < warm <= |done| && SortedBy(done, CompletionKey) && forall r :: r in done ==> r.completion.Some?
    ensures |Places(done, UpTo(CompletionKey(done[warm - 1])))| >= warm
  {
    var b := CompletionKey(done[warm - 1]);
    assert done == done[..warm] + done[warm..];
    PlacesJoin(done[..warm], done[warm..], UpTo(b));
    forall r | r in done[..warm] ensures UpTo(b)(r) {
      var i :| 0 <= i < warm && done[i] == r;
      if i < warm - 1 { assert CompletionKey(done[i]) <= b; }
    }
    PlacesOfAll(done[..warm], UpTo(b));
  }

  lemma BackIsLater(done: seq<Row>, warm: nat, r: Row)
    requires 0 < warm <= |done| && SortedBy(done, CompletionKey) && r in done[warm - 1..]
    ensures CompletionKey(r) >= CompletionKey(done[warm - 1])
  {
    var i :| warm - 1 <= i < |done| && done[i] == r;
    if i > warm - 1 { assert CompletionKey(done[i]) >= CompletionKey(done[warm - 1]); }
  }

  lemma BackBehind(done: seq<Row>, warm: nat)
    requires 0 < warm <= |done| && SortedBy(done, CompletionKey) && forall r :: r in done ==> r.completion.Some?
    ensures |Places(done, UpTo(CompletionKey(done[warm - 1]) - 1))| < warm
  {
    var p := UpTo(CompletionKey(done[warm - 1]) - 1);
    var front, back := done[..warm - 1], done[warm - 1..];
    forall r | r in back ensures !p(r) { BackIsLater(done, warm, r); }
    PlacesOfAll(front, p);
    PlacesOfAll(back, p);
    PlacesJoin(front, back, p);
    assert done == front + back;
  }

  /** The window ends at its last completion, if anything completed in it. */
  lemma WindowEnds(rows: seq<Row>, warm: nat)
    requires ThroughputOf(rows, warm).Ok?
    ensures var t := ThroughputOf(rows, warm).value;
            var b := if warm > 0 then t.t0 else None;
            && (t.t1.Some? <==> exists r :: r in rows && Behind(r, b))
            && (t.t1.Some? ==> exists r :: r in rows && Behind(r, b) && r.completion == t.t1)
            && forall r :: r in rows && Behind(r, b) ==> t.t1.Some? && r.completion.value <= t.t1.value
  {
    var w := PerfWindow(rows, warm).value;
    LastCompletionIs(w.rows);
    forall r ensures r in w.rows <==> r in rows && Behind(r, w.boundary) {
      ByCompletionMembers(rows, r);
      if warm > 0 { AfterIsFilter(ByCompletion(rows), w.boundary.value); }
    }
  }

  lemma {:induction false} LastCompletionIs(rows: seq<Row>)
    ensures LastCompletion(rows).None? <==> rows == []
    ensures LastCompletion(rows).Some? ==> exists r :: r in rows && CompletionKey(r) == LastCompletion(rows).value
    ensures forall r :: r in rows ==> LastCompletion(rows).Some? && CompletionKey(r) <= LastCompletion(rows).value
  {
    if rows != [] {
      LastCompletionIs(rows[..|rows| - 1]);
      assert rows == rows[..|rows| - 1] + [rows[|rows| - 1]];
      assert rows[|rows| - 1] in rows;
    }
  }

  /** There is no figure iff no more records completed than the warm-up takes, or nothing was warmed up and
      no record was submitted. */
  lemma NoWindowIff(rows: seq<Row>, warm: nat)
    ensures ThroughputOf(rows, warm).Err? <==>
            || |set i | 0 <= i < |rows| && rows[i].completion.Some?| <= warm
            || (warm == 0 && forall r :: r in rows ==> r.submit.None?)
  {
    LengthIsTotal(ByCompletion(rows));
    ByCompletionTotal(rows, One);
    PlacesTotal(rows, HasCompletion);
    assert Places(rows, HasCompletion) == set i | 0 <= i < |rows| && rows[i].completion.Some?;
    forall x { SubmitsMembers(rows, x); }
    if Submits(rows) != [] { assert Submits(rows)[0] in Submits(rows); }
  }
}
