/** The cost of a window read off a cumulative counter, and why neighbouring windows add up. */
module CostWindow {
  import opened Seqs
  import opened Wrappers

  /** One sample: instant, cumulative CPU, resident memory. */
  datatype Sample = Sample(t: int, cpu: Option<int>, rss: Option<int>)

  datatype Cost = Cost(cpu: int, peakRss: Option<int>, samples: nat, window: int)

  function UpTo(series: seq<Sample>, t: int): seq<Sample> {
    if series == [] then [] else
      (if series[0].t <= t then [series[0]] else []) + UpTo(series[1..], t)
  }

  function Between(series: seq<Sample>, t0: int, t1: int): seq<Sample> {
    if series == [] then [] else
      (if t0 < series[0].t <= t1 then [series[0]] else []) + Between(series[1..], t0, t1)
  }

  function Reading(x: Sample): seq<int> { if x.cpu.Some? then [x.cpu.value] else [] }

  function Readings(pts: seq<Sample>): seq<int> {
    if pts == [] then [] else Reading(pts[0]) + Readings(pts[1..])
  }

  function Greater(a: Option<int>, b: Option<int>): Option<int> {
    if a.None? then b else if b.None? then a else if a.value >= b.value then a else b
  }

  function PeakRss(pts: seq<Sample>): Option<int> {
    if pts == [] then None else Greater(pts[0].rss, PeakRss(pts[1..]))
  }

  function LastOf(s: seq<Sample>): seq<Sample> { if s == [] then [] else [s[|s| - 1]] }

  /** The samples a window is priced on: the last one at or before its start, then those inside. */
  function Points(series: seq<Sample>, t0: int, t1: int): seq<Sample> {
    LastOf(UpTo(series, t0)) + Between(series, t0, t1)
  }

  function CostOf(series: seq<Sample>, t0: Option<int>, t1: Option<int>): Option<Cost> {
    if series == [] || t0.None? || t1.None? || t1.value <= t0.value then None
    else
      var inside := Between(series, t0.value, t1.value);
      var cpus := Readings(Points(series, t0.value, t1.value));
      if inside == [] || |cpus| < 2 then None
      else Some(Cost(cpus[|cpus| - 1] - cpus[0], PeakRss(inside), |inside|, t1.value - t0.value))
  }

  // ----- sorted series are cut into runs

  ghost predicate TimeSorted(series: seq<Sample>) {
    forall i, j :: 0 <= i < j < |series| ==> series[i].t <= series[j].t
  }

  /** Where a sorted series is cut by an instant. */
  ghost predicate CutAt(series: seq<Sample>, i: nat, t: int) {
    i <= |series| && (i > 0 ==> series[i - 1].t <= t) && (i < |series| ==> t < series[i].t)
  }

  lemma {:induction false} UpToIsPrefix(series: seq<Sample>, t: int) returns (i: nat)
    requires TimeSorted(series)
    ensures CutAt(series, i, t) && UpTo(series, t) == series[..i]
  {
    if series == [] {
      i := 0;
    } else if series[0].t <= t {
      i := UpToIsPrefix(series[1..], t);
      i := i + 1;
    } else {
      i := 0;
      NoneUpTo(series, t);
    }
  }

  lemma {:induction false} NoneUpTo(series: seq<Sample>, t: int)
    requires forall i :: 0 <= i < |series| ==> t < series[i].t
    ensures UpTo(series, t) == []
  {
    if series != [] { NoneUpTo(series[1..], t); }
  }

  lemma SortedTail(series: seq<Sample>)
    requires TimeSorted(series) && series != []
    ensures TimeSorted(series[1..]) && forall i :: 0 <= i < |series| ==> series[0].t <= series[i].t
  {
  }

  /** Past t0, everything up to t1 is between the two. */
  lemma {:induction false} UpToIsBetween(series: seq<Sample>, t0: int, t1: int)
    requires forall i :: 0 <= i < |series| ==> t0 < series[i].t
    ensures UpTo(series, t1) == Between(series, t0, t1)
  {
    if series != [] { UpToIsBetween(series[1..], t0, t1); }
  }

  lemma {:induction false} UpToSplits(series: seq<Sample>, t0: int, t1: int)
    requires TimeSorted(series) && t0 <= t1
    ensures UpTo(series, t1) == UpTo(series, t0) + Between(series, t0, t1)
  {
    if series == [] {
    } else if series[0].t <= t0 {
      SortedTail(series);
      UpToSplits(series[1..], t0, t1);
      UpToHead(series, t0, t1);
      var head, rest := [series[0]], series[1..];
      assert head + (UpTo(rest, t0) + Between(rest, t0, t1)) == (head + UpTo(rest, t0)) + Between(rest, t0, t1);
    } else {
      SortedTail(series);
      NoneUpTo(series, t0);
      UpToIsBetween(series, t0, t1);
    }
  }

  lemma UpToHead(series: seq<Sample>, t0: int, t1: int)
    requires series != [] && series[0].t <= t0 <= t1
    ensures UpTo(series, t0) == [series[0]] + UpTo(series[1..], t0)
    ensures UpTo(series, t1) == [series[0]] + UpTo(series[1..], t1)
    ensures Between(series, t0, t1) == Between(series[1..], t0, t1)
  {
  }

  lemma ReadingsHead(x: Sample, s: seq<Sample>)
    ensures Readings([x] + s) == Reading(x) + Readings(s)
  {
    assert ([x] + s)[1..] == s;
  }

  lemma {:induction false} ReadingsAdd(a: seq<Sample>, b: seq<Sample>)
    ensures Readings(a + b) == Readings(a) + Readings(b)
  {
    if a == [] {
      assert a + b == b;
    } else {
      ReadingsAdd(a[1..], b);
      ReadingsHead(a[0], a[1..] + b);
      Associates([a[0]], a[1..], b);
      Associates(Reading(a[0]), Readings(a[1..]), Readings(b));
      assert [a[0]] + a[1..] == a;
    }
  }

  lemma {:induction false} PeakAdds(a: seq<Sample>, b: seq<Sample>)
    ensures PeakRss(a + b) == Greater(PeakRss(a), PeakRss(b))
  {
    if a == [] {
      assert a + b == b;
    } else {
      PeakAdds(a[1..], b);
      assert (a + b)[1..] == a[1..] + b;
    }
  }

  lemma SameRest<T>(a: seq<T>, b: seq<T>, c: seq<T>)
    requires a + b == a + c
    ensures b == c
  {
    assert (a + b)[|a|..] == b && (a + c)[|a|..] == c;
  }

  /** Neighbouring windows' samples join into the wide window's samples. */
  lemma BetweenJoins(series: seq<Sample>, t0: int, t1: int, t2: int)
    requires TimeSorted(series) && t0 < t1 < t2
    ensures Between(series, t0, t2) == Between(series, t0, t1) + Between(series, t1, t2)
  {
    UpToSplits(series, t0, t1);
    UpToSplits(series, t1, t2);
    UpToSplits(series, t0, t2);
    var a, b, c := UpTo(series, t0), Between(series, t0, t1), Between(series, t1, t2);
    Associates(a, b, c);
    SameRest(a, Between(series, t0, t2), b + c);
  }

  lemma LastOfJoined(a: seq<Sample>, b: seq<Sample>)
    requires b != []
    ensures LastOf(a + b) == LastOf(b)
  {
  }

  /** The two windows' points share the boundary sample and join into the wide window's points. */
  lemma PointsJoin(series: seq<Sample>, t0: int, t1: int, t2: int)
    requires TimeSorted(series) && t0 < t1 < t2 && Between(series, t0, t1) != []
    ensures Between(series, t0, t2) == Between(series, t0, t1) + Between(series, t1, t2)
    ensures Points(series, t0, t2) == Points(series, t0, t1) + Between(series, t1, t2)
    ensures var p := Points(series, t0, t1);
            p != [] && Points(series, t1, t2) == [p[|p| - 1]] + Between(series, t1, t2)
  {
    BetweenJoins(series, t0, t1, t2);
    UpToSplits(series, t0, t1);
    var a, b, c := UpTo(series, t0), Between(series, t0, t1), Between(series, t1, t2);
    Associates(LastOf(a), b, c);
    LastOfJoined(a, b);
    LastOfJoined(LastOf(a), b);
  }

  /** The counter's last reading in the first window and its first reading in the second. */
  function LastReading(series: seq<Sample>, t0: int, t1: int): Option<int> {
    var r := Readings(Points(series, t0, t1));
    if r == [] then None else Some(r[|r| - 1])
  }

  function FirstReading(series: seq<Sample>, t0: int, t1: int): Option<int> {
    var r := Readings(Points(series, t0, t1));
    if r == [] then None else Some(r[0])
  }

  ghost predicate Resolved(series: seq<Sample>, t0: int, t1: int) { CostOf(series, Some(t0), Some(t1)).Some? }

  function Span(r: seq<int>): int
    requires r != []
  {
    r[|r| - 1] - r[0]
  }

  lemma CostIs(series: seq<Sample>, t0: int, t1: int)
    requires series != [] && t0 < t1 && Between(series, t0, t1) != [] && |Readings(Points(series, t0, t1))| >= 2
    ensures CostOf(series, Some(t0), Some(t1)) ==
            Some(Cost(Span(Readings(Points(series, t0, t1))), PeakRss(Between(series, t0, t1)),
                      |Between(series, t0, t1)|, t1 - t0))
  {
  }

  lemma SpansAdd(p: seq<int>, x: seq<int>, c: seq<int>)
    requires |p| >= 2 && |x + c| >= 2 && |x| <= 1
    ensures c != [] && (Span(p + c) == Span(p) + Span(x + c) <==> p[|p| - 1] == (x + c)[0])
  {
  }

  /** The readings of two neighbouring windows and of the wide one. */
  lemma ReadingsJoin(series: seq<Sample>, t0: int, t1: int, t2: int) returns (x: seq<int>, c: seq<int>)
    requires TimeSorted(series) && t0 < t1 < t2 && Between(series, t0, t1) != []
    ensures |x| <= 1 && Readings(Points(series, t1, t2)) == x + c
    ensures Readings(Points(series, t0, t2)) == Readings(Points(series, t0, t1)) + c
  {
    PointsJoin(series, t0, t1, t2);
    var p, more := Points(series, t0, t1), Between(series, t1, t2);
    var last := p[|p| - 1];
    ReadingsAdd(p, more);
    ReadingsAdd([last], more);
    ReadingsFew([last]);
    x, c := Readings([last]), Readings(more);
  }

  /** Neighbouring windows that both resolve: the wide window resolves too, peak memory is the
      greater of the two, and CPU adds up exactly when the first window's last reading is the
      second window's first one. */
  lemma CostTelescopesIff(series: seq<Sample>, t0: int, t1: int, t2: int)
    requires TimeSorted(series) && t0 < t1 < t2 && Resolved(series, t0, t1) && Resolved(series, t1, t2)
    ensures Resolved(series, t0, t2)
    ensures var a, b, w := CostOf(series, Some(t0), Some(t1)).value, CostOf(series, Some(t1), Some(t2)).value,
                           CostOf(series, Some(t0), Some(t2)).value;
            && w.peakRss == Greater(a.peakRss, b.peakRss)
            && w.samples == a.samples + b.samples && w.window == a.window + b.window
            && (w.cpu == a.cpu + b.cpu <==> LastReading(series, t0, t1) == FirstReading(series, t1, t2))
  {
    SpansJoin(series, t0, t1, t2);
    PeaksJoin(series, t0, t1, t2);
    CostIs(series, t0, t1);
    CostIs(series, t1, t2);
    CostIs(series, t0, t2);
  }

  lemma SpansJoin(series: seq<Sample>, t0: int, t1: int, t2: int)
    requires TimeSorted(series) && t0 < t1 < t2 && Between(series, t0, t1) != []
    requires |Readings(Points(series, t0, t1))| >= 2 && |Readings(Points(series, t1, t2))| >= 2
    ensures var a, b := Readings(Points(series, t0, t1)), Readings(Points(series, t1, t2));
            var w := Readings(Points(series, t0, t2));
            |w| >= 2 && (Span(w) == Span(a) + Span(b) <==> LastReading(series, t0, t1) == FirstReading(series, t1, t2))
  {
    var x, c := ReadingsJoin(series, t0, t1, t2);
    SpansAdd(Readings(Points(series, t0, t1)), x, c);
  }

  lemma PeaksJoin(series: seq<Sample>, t0: int, t1: int, t2: int)
    requires TimeSorted(series) && t0 < t1 < t2
    ensures var a, b, w := Between(series, t0, t1), Between(series, t1, t2), Between(series, t0, t2);
            PeakRss(w) == Greater(PeakRss(a), PeakRss(b)) && |w| == |a| + |b|
  {
    BetweenJoins(series, t0, t1, t2);
    PeakAdds(Between(series, t0, t1), Between(series, t1, t2));
  }

  lemma LastReadingIs(pts: seq<Sample>, x: Sample)
    requires x.cpu.Some?
    ensures Readings(pts + [x]) != [] && Readings(pts + [x])[|Readings(pts + [x])| - 1] == x.cpu.value
  {
    ReadingsAdd(pts, [x]);
    assert Readings([x][1..]) == [];
  }

  lemma LastOfReadings(p: seq<Sample>)
    requires p != [] && p[|p| - 1].cpu.Some?
    ensures Readings(p) != [] && Readings(p)[|Readings(p)| - 1] == p[|p| - 1].cpu.value
  {
    var x := p[|p| - 1];
    LastReadingIs(p[..|p| - 1], x);
    assert p == p[..|p| - 1] + [x];
  }

  lemma FirstReadingIs(x: Sample, pts: seq<Sample>)
    requires x.cpu.Some?
    ensures Readings([x] + pts) != [] && Readings([x] + pts)[0] == x.cpu.value
  {
    assert ([x] + pts)[1..] == pts;
  }

  lemma LastOfPoints(series: seq<Sample>, t0: int, t1: int)
    requires TimeSorted(series) && t0 < t1 && Between(series, t0, t1) != []
    ensures var p, before := Points(series, t0, t1), UpTo(series, t1);
            p != [] && before != [] && p[|p| - 1] == before[|before| - 1]
  {
    UpToSplits(series, t0, t1);
  }

  /** It does when the boundary sample carries a reading. */
  lemma BoundaryReadingSuffices(series: seq<Sample>, t0: int, t1: int, t2: int)
    requires TimeSorted(series) && t0 < t1 < t2 && Between(series, t0, t1) != []
    requires UpTo(series, t1) != [] && UpTo(series, t1)[|UpTo(series, t1)| - 1].cpu.Some?
    ensures LastReading(series, t0, t1) == FirstReading(series, t1, t2)
  {
    PointsJoin(series, t0, t1, t2);
    LastOfPoints(series, t0, t1);
    var p := Points(series, t0, t1);
    LastOfReadings(p);
    FirstReadingIs(p[|p| - 1], Between(series, t1, t2));
  }

  ghost predicate AllRead(series: seq<Sample>) { forall i :: 0 <= i < |series| ==> series[i].cpu.Some? }

  lemma {:induction false} AllReadCounts(pts: seq<Sample>)
    requires AllRead(pts)
    ensures |Readings(pts)| == |pts| && forall i :: 0 <= i < |pts| ==> Readings(pts)[i] == pts[i].cpu.value
  {
    if pts != [] { AllReadCounts(pts[1..]); }
  }

  /** The points of a window are consecutive samples of a sorted series. */
  lemma PointsAreConsecutive(series: seq<Sample>, t0: int, t1: int) returns (i: nat, j: nat)
    requires TimeSorted(series) && t0 < t1
    ensures i <= j <= |series| && Points(series, t0, t1) == series[i..j]
    ensures UpTo(series, t0) != [] ==> |Points(series, t0, t1)| == 1 + |Between(series, t0, t1)|
  {
    var k := UpToIsPrefix(series, t0);
    j := UpToIsPrefix(series, t1);
    UpToSplits(series, t0, t1);
    i := if k == 0 then 0 else k - 1;
    assert series[..j] == series[..k] + Between(series, t0, t1);
    assert Between(series, t0, t1) == series[..j][k..] == series[k..j];
  }

  lemma WindowResolves(series: seq<Sample>, t0: int, t1: int)
    requires TimeSorted(series) && AllRead(series) && t0 < t1
    requires UpTo(series, t0) != [] && Between(series, t0, t1) != []
    ensures Resolved(series, t0, t1)
  {
    var i, j := PointsAreConsecutive(series, t0, t1);
    AllReadCounts(series[i..j]);
  }

  /** A series whose samples all carry readings, anchored at or before t0 and sampled inside both
      windows: every window resolves and the costs telescope. */
  lemma CostTelescopes(series: seq<Sample>, t0: int, t1: int, t2: int)
    requires TimeSorted(series) && AllRead(series) && t0 < t1 < t2
    requires UpTo(series, t0) != [] && Between(series, t0, t1) != [] && Between(series, t1, t2) != []
    ensures Resolved(series, t0, t1) && Resolved(series, t1, t2) && Resolved(series, t0, t2)
    ensures var a, b, w := CostOf(series, Some(t0), Some(t1)).value, CostOf(series, Some(t1), Some(t2)).value,
                           CostOf(series, Some(t0), Some(t2)).value;
            w.cpu == a.cpu + b.cpu && w.peakRss == Greater(a.peakRss, b.peakRss)
  {
    UpToSplits(series, t0, t1);
    WindowResolves(series, t0, t1);
    WindowResolves(series, t1, t2);
    CostTelescopesIff(series, t0, t1, t2);
    var k := UpToIsPrefix(series, t1);
    BoundaryReadingSuffices(series, t0, t1, t2);
  }

  lemma OneMore(x: Sample, s: seq<Sample>, t0: int, t1: int)
    ensures Between([x] + s, t0, t1) == (if t0 < x.t <= t1 then [x] else []) + Between(s, t0, t1)
    ensures UpTo([x] + s, t0) == (if x.t <= t0 then [x] else []) + UpTo(s, t0)
  {
    assert ([x] + s)[1..] == s;
  }

  lemma {:induction false} NoneBetween(series: seq<Sample>, t0: int, t1: int)
    requires forall i :: 0 <= i < |series| ==> t1 < series[i].t
    ensures Between(series, t0, t1) == []
  {
    if series != [] { NoneBetween(series[1..], t0, t1); }
  }

  /** A sample at the start of a window, two inside it, and later ones. */
  lemma WindowOfTwo(a: Sample, b: Sample, c: Sample, rest: seq<Sample>, t0: int, t1: int)
    requires a.t <= t0 < b.t <= c.t <= t1 && forall i :: 0 <= i < |rest| ==> t1 < rest[i].t
    ensures var s := [a] + ([b] + ([c] + rest)); UpTo(s, t0) == [a] && Between(s, t0, t1) == [b, c]
  {
    NoneUpTo(rest, t0);
    NoneBetween(rest, t0, t1);
    OneMore(c, rest, t0, t1);
    OneMore(b, [c] + rest, t0, t1);
    OneMore(a, [b] + ([c] + rest), t0, t1);
  }

  lemma WindowBehind(a: Sample, b: Sample, c: Sample, rest: seq<Sample>, t0: int, t1: int)
    requires a.t <= t0 && b.t <= t0 && c.t <= t0
    ensures Between([a] + ([b] + ([c] + rest)), t0, t1) == Between(rest, t0, t1)
  {
    OneMore(c, rest, t0, t1);
    OneMore(b, [c] + rest, t0, t1);
    OneMore(a, [b] + ([c] + rest), t0, t1);
  }

  lemma ThreeReadings(x: Sample, y: Sample, z: Sample)
    ensures Readings([x] + [y, z]) == Reading(x) + (Reading(y) + Reading(z))
  {
    assert [y, z] == [y] + ([z] + []);
    ReadingsHead(z, []);
    ReadingsHead(y, [z] + []);
    ReadingsHead(x, [y, z]);
  }

  /** Five samples, the third without a reading. */
  ghost predicate Gap(a: Sample, b: Sample, c: Sample, d: Sample, e: Sample) {
    && a.t < b.t < c.t < d.t < e.t
    && a.cpu.Some? && b.cpu.Some? && c.cpu.None? && d.cpu.Some? && e.cpu.Some?
  }

  lemma BeforeGap(s: seq<Sample>, a: Sample, b: Sample, c: Sample, d: Sample, e: Sample)
    requires Gap(a, b, c, d, e) && s == [a] + ([b] + ([c] + [d, e]))
    ensures UpTo(s, a.t) == [a] && Between(s, a.t, c.t) == [b, c]
    ensures Readings(Points(s, a.t, c.t)) == [a.cpu.value, b.cpu.value]
  {
    WindowOfTwo(a, b, c, [d, e], a.t, c.t);
    ThreeReadings(a, b, c);
  }

  lemma GapIsSorted(s: seq<Sample>, a: Sample, b: Sample, c: Sample, d: Sample, e: Sample)
    requires Gap(a, b, c, d, e) && s == [a] + ([b] + ([c] + [d, e]))
    ensures TimeSorted(s) && s != []
  {
    assert s == [a, b, c, d, e];
  }

  lemma BehindGap(s: seq<Sample>, a: Sample, b: Sample, c: Sample, d: Sample, e: Sample)
    requires Gap(a, b, c, d, e) && s == [a] + ([b] + ([c] + [d, e]))
    ensures Between(s, c.t, e.t) == [d, e]
    ensures Readings(Points(s, c.t, e.t)) == [d.cpu.value, e.cpu.value]
  {
    BeforeGap(s, a, b, c, d, e);
    GapIsSorted(s, a, b, c, d, e);
    WindowBehind(a, b, c, [d, e], c.t, e.t);
    LastTwo(d, e, c.t);
    PointsJoin(s, a.t, c.t, e.t);
    ThreeReadings(c, d, e);
  }

  lemma BesideGap(s: seq<Sample>, a: Sample, b: Sample, c: Sample, d: Sample, e: Sample)
    requires Gap(a, b, c, d, e) && s == [a] + ([b] + ([c] + [d, e]))
    ensures Resolved(s, a.t, c.t) && LastReading(s, a.t, c.t) == b.cpu
    ensures Resolved(s, c.t, e.t) && FirstReading(s, c.t, e.t) == d.cpu
  {
    GapIsSorted(s, a, b, c, d, e);
    BeforeGap(s, a, b, c, d, e);
    BehindGap(s, a, b, c, d, e);
    CostIs(s, a.t, c.t);
    CostIs(s, c.t, e.t);
  }

  /** A boundary sample without a reading loses what the counter gained around it: here d over b. */
  lemma MissingReadingLosesCost(s: seq<Sample>, a: Sample, b: Sample, c: Sample, d: Sample, e: Sample)
    requires Gap(a, b, c, d, e) && s == [a] + ([b] + ([c] + [d, e]))
    ensures TimeSorted(s) && Resolved(s, a.t, c.t) && Resolved(s, c.t, e.t) && Resolved(s, a.t, e.t)
    ensures b.cpu != d.cpu ==>
              CostOf(s, Some(a.t), Some(c.t)).value.cpu + CostOf(s, Some(c.t), Some(e.t)).value.cpu
              != CostOf(s, Some(a.t), Some(e.t)).value.cpu
  {
    GapIsSorted(s, a, b, c, d, e);
    BesideGap(s, a, b, c, d, e);
    CostTelescopesIff(s, a.t, c.t, e.t);
  }

  lemma LastTwo(d: Sample, e: Sample, t: int)
    requires t < d.t < e.t
    ensures Between([d, e], t, e.t) == [d, e]
  {
    assert [d, e] == [d] + ([e] + []);
    OneMore(e, [], t, e.t);
    OneMore(d, [e] + [], t, e.t);
  }

  // ----- a rising counter

  /** Every reading is at least every earlier one. */
  ghost predicate CounterRises(series: seq<Sample>) {
    forall i, j :: 0 <= i < j < |series| && series[i].cpu.Some? && series[j].cpu.Some?
                   ==> series[i].cpu.value <= series[j].cpu.value
  }

  lemma {:induction false} ReadingsComeFrom(pts: seq<Sample>, k: nat) returns (i: nat)
    requires k < |Readings(pts)|
    ensures k <= i < |pts| && pts[i].cpu == Some(Readings(pts)[k])
    ensures |Readings(pts)| - k <= |pts| - i
  {
    if pts[0].cpu.Some? && k == 0 {
      i := 0;
      ReadingsFew(pts);
    } else {
      i := ReadingsComeFrom(pts[1..], if pts[0].cpu.Some? then k - 1 else k);
      i := i + 1;
    }
  }

  lemma {:induction false} ReadingsFew(pts: seq<Sample>)
    ensures |Readings(pts)| <= |pts|
  {
    if pts != [] { ReadingsFew(pts[1..]); }
  }

  lemma {:induction false} FirstToLast(pts: seq<Sample>)
    requires CounterRises(pts) && Readings(pts) != []
    ensures Readings(pts)[0] <= Readings(pts)[|Readings(pts)| - 1]
  {
    if pts[0].cpu.None? {
      FirstToLast(pts[1..]);
    } else if |Readings(pts)| > 1 {
      var r := Readings(pts);
      var i := ReadingsComeFrom(pts[1..], |r| - 2);
      assert pts[i + 1] == pts[1..][i];
    }
  }

  /** On a sorted series of a rising counter no window costs less than nothing. */
  lemma CostIsNotNegative(series: seq<Sample>, t0: int, t1: int)
    requires TimeSorted(series) && CounterRises(series) && t0 < t1 && Resolved(series, t0, t1)
    ensures CostOf(series, Some(t0), Some(t1)).value.cpu >= 0
  {
    var i, j := PointsAreConsecutive(series, t0, t1);
    FirstToLast(series[i..j]);
  }

  // ----- what a window says of the series itself, sorted or not

  ghost predicate Inside(x: Sample, t0: int, t1: int) { t0 < x.t <= t1 }

  ghost predicate InsideAt(series: seq<Sample>, i: int, t0: int, t1: int) {
    0 <= i < |series| && t0 < series[i].t <= t1
  }

  /** The last sample at or before the window's start. */
  ghost predicate AnchorAt(series: seq<Sample>, i: int, t0: int) {
    0 <= i < |series| && series[i].t <= t0 && forall j :: i < j < |series| ==> t0 < series[j].t
  }

  ghost predicate ReadInside(series: seq<Sample>, i: int, t0: int, t1: int) {
    InsideAt(series, i, t0, t1) && series[i].cpu.Some?
  }

  ghost predicate ReadAnchor(series: seq<Sample>, i: int, t0: int) {
    AnchorAt(series, i, t0) && series[i].cpu.Some?
  }

  /** The reading a window starts from: the anchor's if it has one, else the first inside. */
  ghost predicate StartsAt(series: seq<Sample>, i: int, t0: int, t1: int) {
    || ReadAnchor(series, i, t0)
    || (ReadInside(series, i, t0, t1) && (forall j :: !ReadAnchor(series, j, t0)) &&
        forall j :: 0 <= j < i ==> !ReadInside(series, j, t0, t1))
  }

  /** The reading it ends with, the last inside. */
  ghost predicate EndsAt(series: seq<Sample>, i: int, t0: int, t1: int) {
    ReadInside(series, i, t0, t1) && forall j :: i < j < |series| ==> !ReadInside(series, j, t0, t1)
  }

  lemma {:induction false} InsideCount(series: seq<Sample>, t0: int, t1: int)
    ensures |Between(series, t0, t1)| == |Places(series, x => Inside(x, t0, t1))|
  {
    if series != [] {
      InsideCount(series[1..], t0, t1);
      FirstPlace(series, x => Inside(x, t0, t1));
    }
  }

  lemma {:induction false} InsideAre(series: seq<Sample>, t0: int, t1: int, x: Sample)
    ensures x in Between(series, t0, t1) <==> x in series && Inside(x, t0, t1)
  {
    if series != [] {
      InsideAre(series[1..], t0, t1, x);
      assert series == [series[0]] + series[1..];
    }
  }

  /** The peak of some samples is the greatest resident memory among them. */
  ghost predicate IsPeak(peak: Option<int>, pts: seq<Sample>) {
    match peak
    case None => forall x :: x in pts ==> x.rss.None?
    case Some(v) => (exists x :: x in pts && x.rss == Some(v)) &&
                    forall x :: x in pts && x.rss.Some? ==> x.rss.value <= v
  }

  lemma {:induction false} PeakIs(pts: seq<Sample>)
    ensures IsPeak(PeakRss(pts), pts)
  {
    if pts != [] {
      PeakIs(pts[1..]);
      assert pts == [pts[0]] + pts[1..];
      assert pts[0] in pts;
    }
  }

  /** The first and the last reading inside a window, and whether they are two. */
  lemma {:induction false} InsideReadings(series: seq<Sample>, t0: int, t1: int) returns (f: int, l: int)
    requires Readings(Between(series, t0, t1)) != []
    ensures var r := Readings(Between(series, t0, t1));
            && ReadInside(series, f, t0, t1) && (forall j :: 0 <= j < f ==> !ReadInside(series, j, t0, t1))
            && EndsAt(series, l, t0, t1) && series[f].cpu.value == r[0] && series[l].cpu.value == r[|r| - 1]
            && (|r| >= 2 <==> f != l)
  {
    var rest := series[1..];
    HeadReading(series, t0, t1);
    if Readings(Between(rest, t0, t1)) == [] {
      NoneRead(rest, t0, t1);
      f, l := 0, 0;
      OnlyHead(series, t0, t1);
    } else {
      f, l := InsideReadings(rest, t0, t1);
      Shifted(series, f, l, t0, t1);
      f, l := if ReadInside(series, 0, t0, t1) then 0 else f + 1, l + 1;
    }
  }

  lemma HeadReading(series: seq<Sample>, t0: int, t1: int)
    requires series != []
    ensures Readings(Between(series, t0, t1)) ==
            (if ReadInside(series, 0, t0, t1) then [series[0].cpu.value] else []) +
            Readings(Between(series[1..], t0, t1))
  {
    if t0 < series[0].t <= t1 {
      ReadingsHead(series[0], Between(series[1..], t0, t1));
    } else {
      assert Between(series, t0, t1) == Between(series[1..], t0, t1);
    }
  }

  lemma {:induction false} NoneRead(series: seq<Sample>, t0: int, t1: int)
    ensures Readings(Between(series, t0, t1)) == [] <==> forall j :: !ReadInside(series, j, t0, t1)
  {
    if series != [] {
      HeadReading(series, t0, t1);
      NoneRead(series[1..], t0, t1);
      assert forall j :: 0 < j < |series| ==>
                           (ReadInside(series, j, t0, t1) <==> ReadInside(series[1..], j - 1, t0, t1));
      assert forall j :: ReadInside(series[1..], j, t0, t1) ==> ReadInside(series, j + 1, t0, t1);
    }
  }

  lemma OnlyHead(series: seq<Sample>, t0: int, t1: int)
    requires series != [] && ReadInside(series, 0, t0, t1)
    requires forall j :: !ReadInside(series[1..], j, t0, t1)
    ensures EndsAt(series, 0, t0, t1)
  {
    forall j | 0 < j < |series| ensures !ReadInside(series, j, t0, t1) {
      assert !ReadInside(series[1..], j - 1, t0, t1);
    }
  }

  lemma Shifted(series: seq<Sample>, f: int, l: int, t0: int, t1: int)
    requires series != [] && ReadInside(series[1..], f, t0, t1) && EndsAt(series[1..], l, t0, t1)
    requires forall j :: 0 <= j < f ==> !ReadInside(series[1..], j, t0, t1)
    ensures ReadInside(series, f + 1, t0, t1) && EndsAt(series, l + 1, t0, t1)
    ensures forall j :: 0 < j < f + 1 ==> !ReadInside(series, j, t0, t1)
  {
    forall j | l + 1 < j < |series| ensures !ReadInside(series, j, t0, t1) {
      assert !ReadInside(series[1..], j - 1, t0, t1);
    }
    forall j | 0 < j < f + 1 ensures !ReadInside(series, j, t0, t1) {
      assert !ReadInside(series[1..], j - 1, t0, t1);
    }
  }

  lemma {:induction false} AnchorIs(series: seq<Sample>, t0: int) returns (a: int)
    requires UpTo(series, t0) != []
    ensures AnchorAt(series, a, t0) && LastOf(UpTo(series, t0)) == [series[a]]
  {
    if UpTo(series[1..], t0) == [] {
      NoneBefore(series[1..], t0);
      a := 0;
      assert forall j :: 0 < j < |series| ==> series[j] == series[1..][j - 1];
    } else {
      a := AnchorIs(series[1..], t0);
      a := a + 1;
      assert forall j :: 0 < j < |series| ==> series[j] == series[1..][j - 1];
    }
  }

  lemma {:induction false} NoneBefore(series: seq<Sample>, t0: int)
    ensures UpTo(series, t0) == [] <==> forall j :: 0 <= j < |series| ==> t0 < series[j].t
  {
    if series != [] { NoneBefore(series[1..], t0); }
  }

  /** The points' readings are the anchor's, if it has one, and those inside. */
  lemma PointReadings(series: seq<Sample>, t0: int, t1: int) returns (x: seq<int>, a: int)
    ensures Readings(Points(series, t0, t1)) == x + Readings(Between(series, t0, t1)) && |x| <= 1
    ensures if x == [] then forall j :: !ReadAnchor(series, j, t0)
            else ReadAnchor(series, a, t0) && x == [series[a].cpu.value]
  {
    var first := LastOf(UpTo(series, t0));
    ReadingsAdd(first, Between(series, t0, t1));
    ReadingsFew(first);
    x, a := Readings(first), 0;
    NoneBefore(series, t0);
    if UpTo(series, t0) != [] {
      a := AnchorIs(series, t0);
      OneReading(series[a]);
    }
  }

  lemma OneReading(x: Sample)
    ensures Readings([x]) == Reading(x)
  {
    ReadingsHead(x, []);
    assert [x] + [] == [x];
  }

  /** Where a window's cost is read off, for every order of the samples. */
  lemma StartAndEnd(series: seq<Sample>, t0: int, t1: int) returns (i: int, j: int)
    ensures var r := Readings(Points(series, t0, t1));
            if |r| >= 2 && Between(series, t0, t1) != []
            then StartsAt(series, i, t0, t1) && EndsAt(series, j, t0, t1) && i != j &&
                 r[|r| - 1] - r[0] == series[j].cpu.value - series[i].cpu.value
            else forall k, l :: StartsAt(series, k, t0, t1) && EndsAt(series, l, t0, t1) ==> k == l
  {
    var x, a := PointReadings(series, t0, t1);
    NoneRead(series, t0, t1);
    i, j := a, 0;
    if Readings(Between(series, t0, t1)) != [] {
      var f, l := InsideReadings(series, t0, t1);
      j := l;
      if x == [] { i := f; }
    }
  }

  lemma OneEnd(series: seq<Sample>, i: int, j: int, t0: int, t1: int)
    ensures StartsAt(series, i, t0, t1) && StartsAt(series, j, t0, t1) ==> i == j
    ensures EndsAt(series, i, t0, t1) && EndsAt(series, j, t0, t1) ==> i == j
  {
  }

  /** A window resolves iff it starts and ends at two different readings, and costs their difference. */
  lemma CostMeans(series: seq<Sample>, t0: int, t1: int)
    ensures CostOf(series, Some(t0), Some(t1)).Some? <==>
            t0 < t1 && exists i, j :: StartsAt(series, i, t0, t1) && EndsAt(series, j, t0, t1) && i != j
    ensures var c := CostOf(series, Some(t0), Some(t1));
            forall i, j :: c.Some? && StartsAt(series, i, t0, t1) && EndsAt(series, j, t0, t1)
                           ==> c.value.cpu == series[j].cpu.value - series[i].cpu.value
    ensures var c := CostOf(series, Some(t0), Some(t1));
            c.Some? ==> && c.value.window == t1 - t0
                        && c.value.samples == |set i | 0 <= i < |series| && t0 < series[i].t <= t1|
    ensures forall u :: CostOf(series, None, u).None? && CostOf(series, u, None).None?
  {
    var i, j := StartAndEnd(series, t0, t1);
    forall k, l ensures StartsAt(series, i, t0, t1) && StartsAt(series, k, t0, t1) ==> i == k
                ensures EndsAt(series, j, t0, t1) && EndsAt(series, l, t0, t1) ==> j == l {
      OneEnd(series, i, k, t0, t1);
      OneEnd(series, j, l, t0, t1);
    }
    InsideCount(series, t0, t1);
    var inside := set i | 0 <= i < |series| && t0 < series[i].t <= t1;
    assert inside == Places(series, x => Inside(x, t0, t1));
  }

  /** The peak of a resolved window is the greatest resident memory of the samples inside it, and there is
      none iff none of them has any. */
  lemma PeakMeans(series: seq<Sample>, t0: int, t1: int)
    requires Resolved(series, t0, t1)
    ensures var peak := CostOf(series, Some(t0), Some(t1)).value.peakRss;
            && (peak.None? <==> forall x :: x in series && t0 < x.t <= t1 ==> x.rss.None?)
            && (peak.Some? ==> exists x :: x in series && t0 < x.t <= t1 && x.rss == peak)
            && forall x :: x in series && t0 < x.t <= t1 && x.rss.Some? ==> peak.Some? && x.rss.value <= peak.value
  {
    PeakIs(Between(series, t0, t1));
    forall x ensures x in Between(series, t0, t1) <==> x in series && Inside(x, t0, t1) {
      InsideAre(series, t0, t1, x);
    }
  }
}
