/** `classify_upload_time`: is a list of upload times durations or completion offsets?  And the rule
    for publishing a concurrency from it. */
module UploadTime {
  import opened Wrappers

  // ----- the classifier

  datatype Semantics = Duration | Offset | Ambiguous | Unclassifiable

  /** The unit a list of numbers is read in. */
  datatype Scale = Seconds | Milliseconds {
    function ToSeconds(x: real): real { if Seconds? then x * 1.0 else x * 0.001 }
  }

  datatype Verdict = Verdict(semantics: Semantics, scale: Option<Scale>, rejected: seq<Scale>)

  function Sum(xs: seq<real>): real {
    if xs == [] then 0.0 else Sum(xs[..|xs| - 1]) + xs[|xs| - 1]
  }

  function Max(xs: seq<real>): (m: real)
    requires xs != []
    ensures m in xs && forall x :: x in xs ==> x <= m
  {
    if |xs| == 1 then xs[0] else
      assert xs == [xs[0]] + xs[1..];
      var m := Max(xs[1..]);
      if xs[0] >= m then xs[0] else m
  }

  function NonNegative(values: seq<real>): (v: seq<real>)
    ensures forall x :: x in v ==> x >= 0.0 && x in values
  {
    if values == [] then [] else
      var n := |values| - 1;
      NonNegative(values[..n]) + (if values[n] >= 0.0 then [values[n]] else [])
  }

  function InSeconds(xs: seq<real>, k: Scale): (u: seq<real>)
    ensures |u| == |xs| && forall i :: 0 <= i < |xs| ==> u[i] == k.ToSeconds(xs[i])
  {
    seq(|xs|, i requires 0 <= i < |xs| => k.ToSeconds(xs[i]))
  }

  /** The most the pool can be busy during the batch. */
  function Capacity(threads: int, wall: real): real { threads as real * wall }

  /** No file ran longer than the batch and all together not longer than the pool. */
  predicate DurationFits(u: seq<real>, wall: real, threads: int)
    requires u != []
  {
    Max(u) <= wall * 1.10 && Sum(u) <= Capacity(threads, wall) * 1.10
  }

  /** The last completion is about the batch return. */
  predicate OffsetFits(u: seq<real>, wall: real)
    requires u != []
  {
    wall * 0.50 <= Max(u) <= wall * 1.10
  }

  /** What one scale says; `Unclassifiable` when it fits neither reading. */
  function AtScale(u: seq<real>, wall: real, threads: int): Semantics
    requires u != []
  {
    if DurationFits(u, wall, threads) then (if OffsetFits(u, wall) then Ambiguous else Duration)
    else if OffsetFits(u, wall) then Offset else Unclassifiable
  }

  /** Scales are tried in order until one fits a reading. */
  function FirstFit(v: seq<real>, wall: real, threads: int, scales: seq<Scale>, rejected: seq<Scale>): Verdict
    requires v != []
  {
    if scales == [] then Verdict(Unclassifiable, None, rejected)
    else
      var s := AtScale(InSeconds(v, scales[0]), wall, threads);
      if s != Unclassifiable then Verdict(s, Some(scales[0]), rejected)
      else FirstFit(v, wall, threads, scales[1..], rejected + [scales[0]])
  }

  /** Seconds first, milliseconds only if seconds fit neither reading. */
  const SCALES: seq<Scale> := [Seconds, Milliseconds]

  function Classification(values: seq<real>, wall: real, threads: int): Result<Verdict> {
    var v := NonNegative(values);
    if v == [] then Ok(Verdict(Unclassifiable, None, []))
    else if wall == 0.0 then Err("division by zero")
    else Ok(FirstFit(v, wall, threads, SCALES, []))
  }

  method ClassifyUploadTime(values: seq<real>, wall: real, threads: int) returns (r: Result<Verdict>)
    ensures r == Classification(values, wall, threads)
  {
    var v := NonNegative(values);
    if v == [] { return Ok(Verdict(Unclassifiable, None, [])); }
    var rejected: seq<Scale> := [];
    for i := 0 to |SCALES|
      invariant i > 0 ==> wall != 0.0
      invariant FirstFit(v, wall, threads, SCALES[i..], rejected) == FirstFit(v, wall, threads, SCALES, [])
    {
      var scale := SCALES[i];
      var u := InSeconds(v, scale);
      // The evidence divides by the wall time before any decision is taken.
      if wall == 0.0 { return Err("division by zero"); }
      var durationOk, offsetOk := DurationFits(u, wall, threads), OffsetFits(u, wall);
      if durationOk && !offsetOk { return Ok(Verdict(Duration, Some(scale), rejected)); }
      if offsetOk && !durationOk { return Ok(Verdict(Offset, Some(scale), rejected)); }
      if offsetOk && durationOk { return Ok(Verdict(Ambiguous, Some(scale), rejected)); }
      rejected := rejected + [scale];
    }
    r := Ok(Verdict(Unclassifiable, None, rejected));
  }

  lemma {:induction false} NonNegativeKeepsAll(values: seq<real>)
    requires forall i :: 0 <= i < |values| ==> values[i] >= 0.0
    ensures NonNegative(values) == values
  {
    if values != [] {
      var front, last := values[..|values| - 1], values[|values| - 1];
      NonNegativeKeepsAll(front);
      assert values == front + [last] && NonNegative(values) == NonNegative(front) + [last];
    }
  }

  lemma AlreadyInSeconds(xs: seq<real>)
    ensures InSeconds(xs, Seconds) == xs
  {
  }

  /** A list that fits a reading in seconds is classified by it. */
  lemma SecondsDecide(values: seq<real>, wall: real, threads: int)
    requires wall > 0.0 && values != [] && forall i :: 0 <= i < |values| ==> values[i] >= 0.0
    requires AtScale(values, wall, threads) != Unclassifiable
    ensures Classification(values, wall, threads) == Ok(Verdict(AtScale(values, wall, threads), Some(Seconds), []))
  {
    NonNegativeKeepsAll(values);
    AlreadyInSeconds(values);
  }

  // ----- the verdict, told from the values themselves

  /** The greatest of the values that are not negative. */
  ghost predicate IsGreatest(values: seq<real>, m: real) {
    m >= 0.0 && m in values && forall x :: x in values ==> x <= m
  }

  /** The values that are not negative, added up. */
  ghost function Positive(values: seq<real>): real {
    if values == [] then 0.0 else (if values[0] > 0.0 then values[0] else 0.0) + Positive(values[1..])
  }

  /** What a greatest and a total in seconds read as: durations inside the batch and the pool, or offsets
      that end about with the batch, both within a tenth. */
  ghost predicate ReadsAs(s: Semantics, m: real, sum: real, wall: real, threads: int) {
    var duration := 10.0 * m <= 11.0 * wall && 10.0 * sum <= 11.0 * (threads as real * wall);
    var offset := wall <= 2.0 * m && 10.0 * m <= 11.0 * wall;
    match s
    case Duration => duration && !offset
    case Offset => offset && !duration
    case Ambiguous => duration && offset
    case Unclassifiable => !duration && !offset
  }

  lemma {:induction false} PositiveJoins(a: seq<real>, b: seq<real>)
    ensures Positive(a + b) == Positive(a) + Positive(b)
  {
    if a == [] {
      assert a + b == b;
    } else {
      PositiveJoins(a[1..], b);
      assert (a + b)[1..] == a[1..] + b;
    }
  }

  lemma {:induction false} SumIsPositive(values: seq<real>)
    ensures Sum(NonNegative(values)) == Positive(values)
  {
    if values != [] {
      var n := |values| - 1;
      SumIsPositive(values[..n]);
      PositiveJoins(values[..n], [values[n]]);
      assert values == values[..n] + [values[n]] && [values[n]][1..] == [];
      var v := NonNegative(values[..n]);
      if values[n] >= 0.0 { SumOfPush(v, values[n]); } else { assert v + [] == v; }
    }
  }

  lemma SumOfPush(v: seq<real>, x: real)
    ensures Sum(v + [x]) == Sum(v) + x
  {
    assert (v + [x])[..|v|] == v;
  }

  lemma {:induction false} NonNegativeMembers(values: seq<real>, x: real)
    ensures x in NonNegative(values) <==> x in values && x >= 0.0
  {
    if values != [] {
      NonNegativeMembers(values[..|values| - 1], x);
      assert values == values[..|values| - 1] + [values[|values| - 1]];
    }
  }

  /** A scale multiplies the greatest and the total. */
  lemma {:induction false} ScaledSum(xs: seq<real>, k: Scale)
    ensures Sum(InSeconds(xs, k)) == if k.Seconds? then Sum(xs) else Sum(xs) * 0.001
  {
    if xs != [] {
      ScaledSum(xs[..|xs| - 1], k);
      assert InSeconds(xs, k)[..|xs| - 1] == InSeconds(xs[..|xs| - 1], k);
    }
  }

  lemma ScaledMax(xs: seq<real>, k: Scale)
    requires xs != []
    ensures Max(InSeconds(xs, k)) == if k.Seconds? then Max(xs) else Max(xs) * 0.001
  {
    var u := InSeconds(xs, k);
    var i :| 0 <= i < |xs| && xs[i] == Max(xs);
    assert u[i] in u;
    var j :| 0 <= j < |u| && u[j] == Max(u);
    assert xs[j] in xs;
  }

  lemma ScaleReads(v: seq<real>, k: Scale, wall: real, threads: int)
    requires v != []
    ensures ReadsAs(AtScale(InSeconds(v, k), wall, threads),
                    if k.Seconds? then Max(v) else Max(v) * 0.001, if k.Seconds? then Sum(v) else Sum(v) * 0.001,
                    wall, threads)
  {
    ScaledSum(v, k);
    ScaledMax(v, k);
  }

  lemma TwoScales(v: seq<real>, wall: real, threads: int)
    requires v != []
    ensures var a := AtScale(InSeconds(v, Seconds), wall, threads);
            var b := AtScale(InSeconds(v, Milliseconds), wall, threads);
            FirstFit(v, wall, threads, SCALES, []) ==
            if a != Unclassifiable then Verdict(a, Some(Seconds), [])
            else if b != Unclassifiable then Verdict(b, Some(Milliseconds), [Seconds])
            else Verdict(Unclassifiable, None, [Seconds, Milliseconds])
  {
    var rest := SCALES[1..];
    assert rest == [Milliseconds] && rest[1..] == [];
    assert FirstFit(v, wall, threads, rest[1..], [Seconds] + [Milliseconds]) ==
           Verdict(Unclassifiable, None, [Seconds] + [Milliseconds]);
    assert [] + [Seconds] == [Seconds];
  }

  /** The greatest value and the total of those that are not negative decide: read as seconds if that fits a
      reading, else as milliseconds if that does, seconds rejected, else as neither.  Without such a value
      nothing is read, and a batch of no duration is an error. */
  lemma VerdictMeans(values: seq<real>, wall: real, threads: int, m: real)
    ensures (forall x :: x in values ==> x < 0.0) ==>
              Classification(values, wall, threads) == Ok(Verdict(Unclassifiable, None, []))
    ensures IsGreatest(values, m) && wall == 0.0 ==> Classification(values, wall, threads).Err?
    ensures IsGreatest(values, m) && wall != 0.0 ==>
              var sum := Positive(values);
              && Classification(values, wall, threads).Ok?
              && var v := Classification(values, wall, threads).value;
                 if !ReadsAs(Unclassifiable, m, sum, wall, threads)
                 then ReadsAs(v.semantics, m, sum, wall, threads) && v.scale == Some(Seconds) && v.rejected == []
                 else && ReadsAs(v.semantics, m * 0.001, sum * 0.001, wall, threads)
                      && v.scale == (if v.semantics.Unclassifiable? then None else Some(Milliseconds))
                      && v.rejected == [Seconds] + if v.semantics.Unclassifiable? then [Milliseconds] else []
  {
    var v := NonNegative(values);
    if v != [] { assert v[0] in v; }
    if IsGreatest(values, m) {
      NonNegativeMembers(values, m);
      GreatestIsMax(values, m);
      SumIsPositive(values);
      TwoScales(v, wall, threads);
      ScaleReads(v, Seconds, wall, threads);
      ScaleReads(v, Milliseconds, wall, threads);
    }
  }

  lemma GreatestIsMax(values: seq<real>, m: real)
    requires IsGreatest(values, m) && NonNegative(values) != []
    ensures Max(NonNegative(values)) == m
  {
    NonNegativeMembers(values, m);
    NonNegativeMembers(values, Max(NonNegative(values)));
  }

  // ----- overlapping intervals, counted twice

  /** A file is being processed from `a` up to, but not at, `b`. */
  datatype Interval = Interval(a: real, b: real)

  predicate Busy(iv: Interval, t: real) { iv.a <= t < iv.b }

  /** How many intervals are busy at an instant. */
  function Depth(ivs: seq<Interval>, t: real): nat {
    if ivs == [] then 0 else
      Depth(ivs[..|ivs| - 1], t) + if Busy(ivs[|ivs| - 1], t) then 1 else 0
  }

  /** The part of an interval inside [lo, hi]. */
  function Clip(iv: Interval, lo: real, hi: real): real {
    var a := if iv.a >= lo then iv.a else lo;
    var b := if iv.b <= hi then iv.b else hi;
    if a < b then b - a else 0.0
  }

  function Work(ivs: seq<Interval>, lo: real, hi: real): real {
    if ivs == [] then 0.0 else Work(ivs[..|ivs| - 1], lo, hi) + Clip(ivs[|ivs| - 1], lo, hi)
  }

  ghost function Ends(ivs: seq<Interval>): set<real> {
    (set iv | iv in ivs :: iv.a) + (set iv | iv in ivs :: iv.b)
  }

  ghost function Inside(ends: set<real>, lo: real, hi: real): set<real> { set e | e in ends && lo < e < hi }

  lemma {:induction false} WorkSplits(ivs: seq<Interval>, lo: real, mid: real, hi: real)
    requires lo <= mid <= hi
    ensures Work(ivs, lo, hi) == Work(ivs, lo, mid) + Work(ivs, mid, hi)
  {
    if ivs != [] {
      WorkSplits(ivs[..|ivs| - 1], lo, mid, hi);
    }
  }

  lemma ClipOfEvenStretch(iv: Interval, lo: real, hi: real)
    requires lo < hi && !(lo < iv.a < hi) && !(lo < iv.b < hi)
    ensures Clip(iv, lo, hi) == if Busy(iv, lo) then hi - lo else 0.0
  {
  }

  /** `n` stretches of one length laid end to end. */
  function Stacked(n: nat, length: real): real {
    if n == 0 then 0.0 else Stacked(n - 1, length) + length
  }

  lemma OneMore(d: real, length: real)
    ensures (d + 1.0) * length == d * length + length
  {
  }

  lemma {:induction false} StackedIsProduct(n: nat, length: real)
    ensures Stacked(n, length) == n as real * length
  {
    if n > 0 {
      StackedIsProduct(n - 1, length);
      OneMore((n - 1) as real, length);
      assert n as real == (n - 1) as real + 1.0;
    }
  }

  lemma {:induction false} StackedAdds(n: nat, x: real, y: real)
    ensures Stacked(n, x) + Stacked(n, y) == Stacked(n, x + y)
  {
    if n > 0 { StackedAdds(n - 1, x, y); }
  }

  lemma {:induction false} StackedGrows(d: nat, n: nat, length: real)
    requires d <= n && length >= 0.0
    ensures 0.0 <= Stacked(d, length) <= Stacked(n, length)
  {
    if n > 0 {
      if d == n { StackedGrows(d - 1, n - 1, length); } else { StackedGrows(d, n - 1, length); }
    }
  }

  /** No interval begins or ends inside: each covers the whole stretch or none of it. */
  lemma {:induction false} WorkOfEvenStretch(ivs: seq<Interval>, lo: real, hi: real)
    requires lo < hi
    requires forall iv :: iv in ivs ==> !(lo < iv.a < hi) && !(lo < iv.b < hi)
    ensures Work(ivs, lo, hi) == Stacked(Depth(ivs, lo), hi - lo)
  {
    if ivs != [] {
      var n := |ivs| - 1;
      WorkOfEvenStretch(ivs[..n], lo, hi);
      assert ivs[n] in ivs;
      ClipOfEvenStretch(ivs[n], lo, hi);
    }
  }

  lemma NoEndInside(ivs: seq<Interval>, lo: real, hi: real)
    requires Inside(Ends(ivs), lo, hi) == {}
    ensures forall iv :: iv in ivs ==> !(lo < iv.a < hi) && !(lo < iv.b < hi)
  {
    forall iv | iv in ivs ensures !(lo < iv.a < hi) && !(lo < iv.b < hi) {
      assert iv.a in Ends(ivs) && iv.b in Ends(ivs);
      assert iv.a !in Inside(Ends(ivs), lo, hi) && iv.b !in Inside(Ends(ivs), lo, hi);
    }
  }

  lemma CutLeavesFewer(ends: set<real>, lo: real, mid: real, hi: real)
    requires mid in Inside(ends, lo, hi)
    ensures Inside(ends, lo, mid) < Inside(ends, lo, hi) && Inside(ends, mid, hi) < Inside(ends, lo, hi)
  {
    assert mid !in Inside(ends, lo, mid) && mid !in Inside(ends, mid, hi);
  }

  /** Never more than `threads` busy at once: the work in a stretch is at most threads times its
      length.  Induction on the interval ends inside the stretch. */
  lemma {:induction false} WorkIsBounded(ivs: seq<Interval>, lo: real, hi: real, threads: nat)
    requires lo <= hi
    requires forall t :: lo <= t < hi ==> Depth(ivs, t) <= threads
    ensures Work(ivs, lo, hi) <= Stacked(threads, hi - lo)
    decreases Inside(Ends(ivs), lo, hi)
  {
    if lo == hi {
      NoWorkInNothing(ivs, lo);
      StackedGrows(0, threads, 0.0);
    } else if Inside(Ends(ivs), lo, hi) == {} {
      NoEndInside(ivs, lo, hi);
      WorkOfEvenStretch(ivs, lo, hi);
      assert Depth(ivs, lo) <= threads;
      StackedGrows(Depth(ivs, lo), threads, hi - lo);
    } else {
      var mid :| mid in Inside(Ends(ivs), lo, hi);
      CutLeavesFewer(Ends(ivs), lo, mid, hi);
      WorkIsBounded(ivs, lo, mid, threads);
      WorkIsBounded(ivs, mid, hi, threads);
      WorkSplits(ivs, lo, mid, hi);
      StackedAdds(threads, mid - lo, hi - mid);
      assert (mid - lo) + (hi - mid) == hi - lo;
    }
  }

  lemma {:induction false} NoWorkInNothing(ivs: seq<Interval>, at: real)
    ensures Work(ivs, at, at) == 0.0
  {
    if ivs != [] { NoWorkInNothing(ivs[..|ivs| - 1], at); }
  }

  function Lengths(ivs: seq<Interval>): (ls: seq<real>)
    ensures |ls| == |ivs| && forall i :: 0 <= i < |ivs| ==> ls[i] == ivs[i].b - ivs[i].a
  {
    seq(|ivs|, i requires 0 <= i < |ivs| => ivs[i].b - ivs[i].a)
  }

  /** The files of one batch: each inside [0, wall], at most `threads` at once. */
  ghost predicate Batch(ivs: seq<Interval>, wall: real, threads: nat) {
    && (forall i :: 0 <= i < |ivs| ==> 0.0 <= ivs[i].a <= ivs[i].b <= wall)
    && (forall t :: 0.0 <= t < wall ==> Depth(ivs, t) <= threads)
  }

  lemma {:induction false} WorkIsSum(ivs: seq<Interval>, wall: real)
    requires forall i :: 0 <= i < |ivs| ==> 0.0 <= ivs[i].a <= ivs[i].b <= wall
    ensures Work(ivs, 0.0, wall) == Sum(Lengths(ivs))
  {
    if ivs != [] {
      WorkIsSum(ivs[..|ivs| - 1], wall);
      assert Lengths(ivs)[..|ivs| - 1] == Lengths(ivs[..|ivs| - 1]);
    }
  }

  /** Total busy time cannot exceed the pool. */
  lemma BusyWithinPool(ivs: seq<Interval>, wall: real, threads: nat)
    requires wall >= 0.0 && Batch(ivs, wall, threads)
    ensures Sum(Lengths(ivs)) <= Capacity(threads, wall) && Capacity(threads, wall) >= 0.0
  {
    WorkIsBounded(ivs, 0.0, wall, threads);
    WorkIsSum(ivs, wall);
    StackedIsProduct(threads, wall);
    StackedGrows(0, threads, wall);
  }

  // ----- what the classifier answers

  /** Real durations are never called offsets and never unclassifiable: the answer is `Duration`,
      or `Ambiguous` exactly when some file ran at least half of the batch. */
  lemma DurationsAreRecognised(ivs: seq<Interval>, wall: real, threads: nat)
    requires wall > 0.0 && ivs != [] && Batch(ivs, wall, threads)
    ensures Classification(Lengths(ivs), wall, threads)
            == Ok(Verdict(if Max(Lengths(ivs)) >= wall * 0.50 then Ambiguous else Duration, Some(Seconds), []))
  {
    var ls := Lengths(ivs);
    BusyWithinPool(ivs, wall, threads);
    var i :| 0 <= i < |ls| && ls[i] == Max(ls);
    SecondsDecide(ls, wall, threads);
  }

  /** Completion offsets whose last one is the batch return are never called durations: the answer
      is `Ambiguous`, or `Offset` exactly when they sum to more than the pool could be busy. */
  lemma OffsetsAreNotDurations(offsets: seq<real>, wall: real, threads: int)
    requires wall > 0.0 && offsets != [] && (forall x :: x in offsets ==> x >= 0.0) && Max(offsets) == wall
    ensures Classification(offsets, wall, threads)
            == Ok(Verdict(if Sum(offsets) > Capacity(threads, wall) * 1.10 then Offset else Ambiguous,
                          Some(Seconds), []))
  {
    forall i | 0 <= i < |offsets| ensures offsets[i] >= 0.0 { assert offsets[i] in offsets; }
    SecondsDecide(offsets, wall, threads);
  }

  // ----- engine_side_concurrency

  /** Published only under duration semantics. */
  function EngineSideConcurrency(ut: seq<real>, wall: real, threads: int): Option<real> {
    match Classification(ut, wall, threads)
    case Ok(Verdict(Duration, Some(scale), _)) =>
      if ut != [] && wall > 0.0 then Some(Sum(InSeconds(ut, scale)) / wall) else None
    case _ => None
  }

  lemma {:induction false} DroppingNegativesOnlyAdds(ut: seq<real>, k: Scale)
    ensures Sum(InSeconds(ut, k)) <= Sum(InSeconds(NonNegative(ut), k))
  {
    if ut != [] {
      var n := |ut| - 1;
      DroppingNegativesOnlyAdds(ut[..n], k);
      assert InSeconds(ut, k)[..n] == InSeconds(ut[..n], k);
      if ut[n] >= 0.0 {
        var v := NonNegative(ut[..n]);
        assert InSeconds(v + [ut[n]], k)[..|v|] == InSeconds(v, k);
      } else {
        assert NonNegative(ut) == NonNegative(ut[..n]);
      }
    }
  }

  lemma {:induction false} FirstFitFits(v: seq<real>, wall: real, threads: int, scales: seq<Scale>,
                                        rejected: seq<Scale>)
    requires v != []
    ensures var f := FirstFit(v, wall, threads, scales, rejected);
            f.scale.Some? ==> f.semantics == AtScale(InSeconds(v, f.scale.value), wall, threads)
  {
    if scales != [] { FirstFitFits(v, wall, threads, scales[1..], rejected + [scales[0]]); }
  }

  lemma DivideBound(s: real, t: real, wall: real)
    requires wall > 0.0 && s <= t * wall
    ensures s / wall <= t
  {
  }

  lemma CapacityPerWall(threads: int, wall: real)
    ensures Capacity(threads, wall) * 1.10 == (threads as real * 1.10) * wall
  {
  }

  lemma DurationVerdict(ut: seq<real>, wall: real, threads: int)
    requires EngineSideConcurrency(ut, wall, threads).Some?
    ensures NonNegative(ut) != [] && wall > 0.0 && Classification(ut, wall, threads).Ok?
    ensures var v := Classification(ut, wall, threads).value;
            v.scale.Some? && DurationFits(InSeconds(NonNegative(ut), v.scale.value), wall, threads)
            && EngineSideConcurrency(ut, wall, threads).value == Sum(InSeconds(ut, v.scale.value)) / wall
  {
    FirstFitFits(NonNegative(ut), wall, threads, SCALES, []);
  }

  /** No published concurrency exceeds the pool by more than the tolerance. */
  lemma PublishedConcurrencyIsPossible(ut: seq<real>, wall: real, threads: int)
    requires EngineSideConcurrency(ut, wall, threads).Some?
    ensures EngineSideConcurrency(ut, wall, threads).value <= threads as real * 1.10
  {
    DurationVerdict(ut, wall, threads);
    FittingSumIsPossible(ut, wall, threads, Classification(ut, wall, threads).value.scale.value);
  }

  lemma FittingSumIsPossible(ut: seq<real>, wall: real, threads: int, k: Scale)
    requires wall > 0.0 && NonNegative(ut) != [] && DurationFits(InSeconds(NonNegative(ut), k), wall, threads)
    ensures Sum(InSeconds(ut, k)) / wall <= threads as real * 1.10
  {
    DroppingNegativesOnlyAdds(ut, k);
    ShareIsPossible(Sum(InSeconds(ut, k)), wall, threads);
  }

  lemma ShareIsPossible(sum: real, wall: real, threads: int)
    requires wall > 0.0 && sum <= Capacity(threads, wall) * 1.10
    ensures sum / wall <= threads as real * 1.10
  {
    CapacityPerWall(threads, wall);
    DivideBound(sum, threads as real * 1.10, wall);
  }

  /** What a verdict in seconds publishes. */
  lemma PublishedInSeconds(ut: seq<real>, wall: real, threads: int, v: Verdict)
    requires Classification(ut, wall, threads) == Ok(v) && v.scale == Some(Seconds) && ut != [] && wall > 0.0
    ensures EngineSideConcurrency(ut, wall, threads) == if v.semantics.Duration? then Some(Sum(ut) / wall) else None
  {
    AlreadyInSeconds(ut);
  }

  /** For a real batch it does not exceed the pool at all. */
  lemma RealConcurrencyFitsThePool(ivs: seq<Interval>, wall: real, threads: nat)
    requires wall > 0.0 && ivs != [] && Batch(ivs, wall, threads)
    ensures var c := EngineSideConcurrency(Lengths(ivs), wall, threads);
            (c.Some? <==> Max(Lengths(ivs)) < wall * 0.50) && (c.Some? ==> c.value <= threads as real)
  {
    var ls := Lengths(ivs);
    DurationsAreRecognised(ivs, wall, threads);
    PublishedInSeconds(ls, wall, threads, Classification(ls, wall, threads).value);
    ShareOfPool(ivs, wall, threads);
  }

  lemma ShareOfPool(ivs: seq<Interval>, wall: real, threads: nat)
    requires wall > 0.0 && Batch(ivs, wall, threads)
    ensures Sum(Lengths(ivs)) / wall <= threads as real
  {
    BusyWithinPool(ivs, wall, threads);
    DivideBound(Sum(Lengths(ivs)), threads as real, wall);
  }
}
