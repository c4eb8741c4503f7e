/** What every run of ticks leaves in a role's aggregate, told from the samples themselves. */
module CollectorRecord {
  import opened Collector
  import opened MapSum

  datatype Gauge = Rss | Vms | Uss | Pss | Threads | Fds

  /** What a sample says of a gauge, nothing counting as 0. */
  ghost function Field(s: Snap, g: Gauge): nat {
    match g
    case Rss => s.rss
    case Vms => s.vms
    case Uss => if s.uss.Some? then s.uss.value else 0
    case Pss => if s.pss.Some? then s.pss.value else 0
    case Threads => s.threads
    case Fds => s.fds
  }

  ghost function Part(x: Gauges, g: Gauge): nat {
    match g
    case Rss => x.rss
    case Vms => x.vms
    case Uss => x.uss
    case Pss => x.pss
    case Threads => x.threads
    case Fds => x.fds
  }

  /** The pids alive in the last tick: found in it or alive before it, and sampled. */
  ghost function LiveAt(ticks: seq<Tick>): set<int> {
    if ticks == [] then {} else
      var e := ticks[|ticks| - 1];
      set p | p in e.sampled && (p in LiveAt(ticks[..|ticks| - 1]) || p in e.found)
  }

  /** A gauge summed over the samples of the last tick. */
  ghost function TickSum(ticks: seq<Tick>, g: Gauge): nat
    requires ticks != []
  {
    var e := ticks[|ticks| - 1];
    Sum(map p | p in LiveAt(ticks) && p in e.sampled :: Field(e.sampled[p].snap, g))
  }

  ghost predicate Distinct(s: seq<int>) { forall i, j :: 0 <= i < j < |s| ==> s[i] != s[j] }

  lemma {:induction false} JoinedAre(tracked: seq<int>, found: seq<int>)
    requires Distinct(tracked)
    ensures Distinct(Joined(tracked, found))
    ensures forall p :: p in Joined(tracked, found) <==> p in tracked || p in found
  {
    if found != [] {
      JoinedAre(tracked, found[..|found| - 1]);
      assert found == found[..|found| - 1] + [found[|found| - 1]];
    }
  }

  lemma {:induction false} AliveAre(pids: seq<int>, sampled: map<int, Snap>)
    requires Distinct(pids)
    ensures Distinct(Alive(pids, sampled))
    ensures forall p :: p in Alive(pids, sampled) <==> p in pids && p in sampled
  {
    if pids != [] {
      AliveAre(pids[..|pids| - 1], sampled);
      assert pids == pids[..|pids| - 1] + [pids[|pids| - 1]];
    }
  }

  lemma {:induction false} TrackedAre(ticks: seq<Tick>)
    ensures Distinct(Run(ticks).tracked) && forall p :: p in Run(ticks).tracked <==> p in LiveAt(ticks)
  {
    if ticks != [] {
      var before, e := ticks[..|ticks| - 1], ticks[|ticks| - 1];
      TrackedAre(before);
      JoinedAre(Run(before).tracked, e.found);
      AliveAre(Joined(Run(before).tracked, e.found), Snaps(e.sampled));
      NextIsTicked(Run(before), e);
    }
  }

  ghost function Shares(pids: seq<int>, sampled: map<int, Snap>, g: Gauge): map<int, nat> {
    map p | p in pids && p in sampled :: Field(sampled[p], g)
  }

  lemma PlusPart(x: Gauges, s: Snap, g: Gauge)
    ensures Part(x.Plus(s.Shown()), g) == Part(x, g) + Field(s, g)
  {
  }

  lemma SharesGrow(before: seq<int>, p: int, sampled: map<int, Snap>, g: Gauge)
    requires p !in before
    ensures Sum(Shares(before + [p], sampled, g)) ==
            Sum(Shares(before, sampled, g)) + if p in sampled then Field(sampled[p], g) else 0
  {
    var m, n := Shares(before, sampled, g), Shares(before + [p], sampled, g);
    if p in sampled {
      SameMap(n, m[p := Field(sampled[p], g)]);
      SumUpdates(m, p, Field(sampled[p], g));
    } else {
      SameMap(n, m);
    }
  }

  lemma {:induction false} SumOfIs(pids: seq<int>, sampled: map<int, Snap>, g: Gauge)
    requires Distinct(pids)
    ensures Part(SumOf(pids, sampled), g) == Sum(Shares(pids, sampled, g))
  {
    if pids == [] {
      assert Shares(pids, sampled, g) == map[];
    } else {
      var before, p := pids[..|pids| - 1], pids[|pids| - 1];
      SumOfIs(before, sampled, g);
      assert pids == before + [p];
      SharesGrow(before, p, sampled, g);
      if p in sampled { PlusPart(SumOf(before, sampled), sampled[p], g); }
    }
  }

  /** The sums and the number of processes a tick is closed with. */
  ghost function Closing(ticks: seq<Tick>): (Gauges, nat)
    requires ticks != []
  {
    var pids, e := Joined(Run(ticks[..|ticks| - 1]).tracked, ticks[|ticks| - 1].found), ticks[|ticks| - 1];
    (SumOf(pids, Snaps(e.sampled)), |Alive(pids, Snaps(e.sampled))|)
  }

  lemma {:induction false} DistinctCount(s: seq<int>, all: set<int>)
    requires Distinct(s) && forall p :: p in s <==> p in all
    ensures |s| == |all|
  {
    if s == [] {
      assert forall p :: p in all ==> p in s;
      assert all == {};
    } else {
      var p := s[|s| - 1];
      assert s == s[..|s| - 1] + [p];
      DistinctCount(s[..|s| - 1], all - {p});
    }
  }

  lemma ClosingIs(ticks: seq<Tick>, g: Gauge)
    requires ticks != []
    ensures Part(Closing(ticks).0, g) == TickSum(ticks, g) && Closing(ticks).1 == |LiveAt(ticks)|
  {
    var before, e := ticks[..|ticks| - 1], ticks[|ticks| - 1];
    var pids, snaps := Joined(Run(before).tracked, e.found), Snaps(e.sampled);
    TrackedAre(before);
    JoinedAre(Run(before).tracked, e.found);
    AliveAre(pids, snaps);
    assert forall p :: p in pids && p in snaps <==> p in LiveAt(ticks);
    DistinctCount(Alive(pids, snaps), LiveAt(ticks));
    SumOfIs(pids, snaps, g);
    SharesAre(pids, ticks, g);
  }

  lemma SharesAre(pids: seq<int>, ticks: seq<Tick>, g: Gauge)
    requires ticks != []
    requires forall p :: p in pids && p in ticks[|ticks| - 1].sampled <==> p in LiveAt(ticks)
    ensures Sum(Shares(pids, Snaps(ticks[|ticks| - 1].sampled), g)) == TickSum(ticks, g)
  {
    var e := ticks[|ticks| - 1];
    var a := Shares(pids, Snaps(e.sampled), g);
    var b := map p | p in LiveAt(ticks) && p in e.sampled :: Field(e.sampled[p].snap, g);
    forall p | p in a ensures p in b && b[p] == a[p] {
      assert p in LiveAt(ticks) && Snaps(e.sampled)[p] == e.sampled[p].snap;
    }
    forall p | p in b ensures p in a {
      assert p in LiveAt(ticks);
    }
    SameMap(a, b);
  }

  lemma {:induction false} ObservingKeeps(a: Agg, pids: seq<int>, sampled: map<int, Snap>)
    ensures var b := ObserveAll(a, pids, sampled);
            && b.samples == a.samples && b.peaks == a.peaks && b.peakProcs == a.peakProcs
            && b.rssSeries == a.rssSeries && b.oomEvents == a.oomEvents
            && (forall p :: p in b.seen <==> p in a.seen || (p in pids && p in sampled))
            && (forall p :: p in b.live <==> p in a.live || (p in pids && p in sampled))
            && forall p :: p in b.live ==> b.live[p] == if p in pids && p in sampled then sampled[p] else a.live[p]
  {
    if pids != [] {
      ObservingKeeps(a, pids[..|pids| - 1], sampled);
      assert pids == pids[..|pids| - 1] + [pids[|pids| - 1]];
    }
  }

  lemma {:induction false} RetiringKeeps(a: Agg, dead: seq<int>)
    ensures var b := RetireAll(a, dead);
            && b.samples == a.samples && b.peaks == a.peaks && b.peakProcs == a.peakProcs && b.seen == a.seen
            && b.rssSeries == a.rssSeries && b.oomEvents == a.oomEvents
            && (forall p :: p in b.live <==> p in a.live && p !in dead)
            && forall p :: p in b.live ==> b.live[p] == a.live[p]
  {
    if dead != [] {
      RetiringKeeps(a, dead[..|dead| - 1]);
      assert dead == dead[..|dead| - 1] + [dead[|dead| - 1]];
    }
  }

  /** What one tick adds to the record of the former ones. */
  lemma OneTick(ticks: seq<Tick>)
    requires ticks != []
    ensures var a, b, c := Run(ticks[..|ticks| - 1]).agg, Run(ticks).agg, Closing(ticks);
            var e := ticks[|ticks| - 1];
            && b.samples == a.samples + 1 && b.peaks == a.peaks.Peak(c.0) && b.peakProcs == Max(a.peakProcs, c.1)
            && b.rssSeries == a.rssSeries + [(e.t, c.0.rss)]
            && b.oomEvents == a.oomEvents + if e.ceiling > 0 && c.0.rss > e.ceiling then [(e.t, c.0.rss)] else []
  {
    var w, e := Run(ticks[..|ticks| - 1]), ticks[|ticks| - 1];
    var pids := Joined(w.tracked, e.found);
    NextIsTicked(w, e);
    ObservingKeeps(w.agg, pids, Snaps(e.sampled));
    RetiringKeeps(ObserveAll(w.agg, pids, Snaps(e.sampled)), Dead(pids, Snaps(e.sampled)));
  }

  /** A number that no tick's value exceeds and some tick's value is, or 0. */
  ghost predicate IsPeak(peak: nat, ticks: seq<Tick>, g: Gauge) {
    && (forall k :: 0 < k <= |ticks| ==> TickSum(ticks[..k], g) <= peak)
    && (peak == 0 || exists k :: 0 < k <= |ticks| && TickSum(ticks[..k], g) == peak)
  }

  lemma PeakGrows(peak: nat, ticks: seq<Tick>, g: Gauge)
    requires ticks != [] && IsPeak(peak, ticks[..|ticks| - 1], g)
    ensures IsPeak(if peak >= TickSum(ticks, g) then peak else TickSum(ticks, g), ticks, g)
  {
    var before := ticks[..|ticks| - 1];
    Fronts(ticks);
    if TickSum(ticks, g) >= peak {
      assert TickSum(ticks[..|ticks|], g) == TickSum(ticks, g);
    } else if peak != 0 {
      var k :| 0 < k <= |before| && TickSum(before[..k], g) == peak;
      assert TickSum(ticks[..k], g) == peak;
    }
  }

  lemma PeakPart(a: Gauges, b: Gauges, g: Gauge)
    ensures Part(a.Peak(b), g) == if Part(a, g) >= Part(b, g) then Part(a, g) else Part(b, g)
  {
  }

  /** Each peak of a role is the greatest sum of its gauge over a tick's samples, and 0 if no tick had any. */
  lemma {:induction false} PeaksMean(ticks: seq<Tick>, g: Gauge)
    ensures IsPeak(Part(Run(ticks).agg.peaks, g), ticks, g)
  {
    if ticks != [] {
      var before := ticks[..|ticks| - 1];
      PeaksMean(before, g);
      OneTick(ticks);
      ClosingIs(ticks, g);
      PeakPart(Run(before).agg.peaks, Closing(ticks).0, g);
      PeakGrows(Part(Run(before).agg.peaks, g), ticks, g);
    }
  }

  lemma Fronts<T>(s: seq<T>)
    requires s != []
    ensures s[..|s|] == s && forall k :: 0 <= k < |s| ==> s[..|s| - 1][..k] == s[..k]
  {
  }

  ghost predicate IsProcessPeak(peak: nat, ticks: seq<Tick>) {
    && (forall k :: 0 <= k <= |ticks| ==> |LiveAt(ticks[..k])| <= peak)
    && exists k :: 0 <= k <= |ticks| && |LiveAt(ticks[..k])| == peak
  }

  lemma ProcessPeakGrows(peak: nat, ticks: seq<Tick>)
    requires ticks != [] && IsProcessPeak(peak, ticks[..|ticks| - 1])
    ensures IsProcessPeak(if peak >= |LiveAt(ticks)| then peak else |LiveAt(ticks)|, ticks)
  {
    var before := ticks[..|ticks| - 1];
    Fronts(ticks);
    var k :| 0 <= k <= |before| && |LiveAt(before[..k])| == peak;
    assert |LiveAt(ticks[..k])| == peak && |LiveAt(ticks[..|ticks|])| == |LiveAt(ticks)|;
  }

  /** The process peak is the greatest number of processes alive in a tick. */
  lemma {:induction false} ProcessPeakMeans(ticks: seq<Tick>)
    ensures IsProcessPeak(Run(ticks).agg.peakProcs, ticks)
  {
    if ticks == [] {
      assert |LiveAt(ticks[..0])| == 0;
    } else {
      ProcessPeakMeans(ticks[..|ticks| - 1]);
      OneTick(ticks);
      ClosingIs(ticks, Rss);
      ProcessPeakGrows(Run(ticks[..|ticks| - 1]).agg.peakProcs, ticks);
    }
  }

  lemma {:induction false} DeadAre(pids: seq<int>, sampled: map<int, Snap>)
    ensures forall p :: p in Dead(pids, sampled) <==> p in pids && p !in sampled
  {
    if pids != [] {
      DeadAre(pids[..|pids| - 1], sampled);
      assert pids == pids[..|pids| - 1] + [pids[|pids| - 1]];
    }
  }

  /** What a tick does to the entries, where none is of a pid it does not look at. */
  lemma TickLives(a: Agg, t: int, pids: seq<int>, snaps: map<int, Snap>, ceiling: nat)
    requires forall p :: p in a.live ==> p in pids
    ensures var b := Ticked(a, t, pids, snaps, ceiling);
            && (forall p :: p in b.live <==> p in pids && p in snaps)
            && (forall p :: p in b.live ==> b.live[p] == snaps[p])
            && forall p :: p in b.seen <==> p in a.seen || (p in pids && p in snaps)
  {
    ObservingKeeps(a, pids, snaps);
    RetiringKeeps(ObserveAll(a, pids, snaps), Dead(pids, snaps));
    DeadAre(pids, snaps);
  }

  /** The pids a tick looks at and samples are those alive in it. */
  lemma LookedAt(ticks: seq<Tick>) returns (pids: seq<int>)
    requires ticks != []
    ensures pids == Joined(Run(ticks[..|ticks| - 1]).tracked, ticks[|ticks| - 1].found)
    ensures forall p :: p in LiveAt(ticks[..|ticks| - 1]) ==> p in pids
    ensures forall p :: p in pids && p in ticks[|ticks| - 1].sampled <==> p in LiveAt(ticks)
  {
    var before, e := ticks[..|ticks| - 1], ticks[|ticks| - 1];
    pids := Joined(Run(before).tracked, e.found);
    TrackedAre(before);
    JoinedAre(Run(before).tracked, e.found);
  }

  ghost predicate LiveIs(a: Agg, ticks: seq<Tick>) {
    && (forall p :: p in a.live <==> p in LiveAt(ticks))
    && forall p :: p in a.live ==> ticks != [] && p in ticks[|ticks| - 1].sampled
                                   && a.live[p] == ticks[|ticks| - 1].sampled[p].snap
  }

  lemma OneTickLives(ticks: seq<Tick>)
    requires ticks != [] && LiveIs(Run(ticks[..|ticks| - 1]).agg, ticks[..|ticks| - 1])
    ensures LiveIs(Run(ticks).agg, ticks)
    ensures forall p :: p in Run(ticks).agg.seen <==> p in Run(ticks[..|ticks| - 1]).agg.seen || p in LiveAt(ticks)
  {
    var w, e := Run(ticks[..|ticks| - 1]), ticks[|ticks| - 1];
    var pids := LookedAt(ticks);
    NextIsTicked(w, e);
    TickLives(w.agg, e.t, pids, Snaps(e.sampled), e.ceiling);
  }

  /** The live entries are the last tick's samples of the pids alive in it. */
  lemma {:induction false} LiveMeans(ticks: seq<Tick>)
    ensures LiveIs(Run(ticks).agg, ticks)
  {
    if ticks != [] {
      LiveMeans(ticks[..|ticks| - 1]);
      OneTickLives(ticks);
    }
  }

  /** The pids seen are those alive in some tick. */
  lemma {:induction false} SeenMeans(ticks: seq<Tick>, p: int)
    ensures p in Run(ticks).agg.seen <==> exists k :: 0 <= k <= |ticks| && p in LiveAt(ticks[..k])
  {
    if ticks != [] {
      var before := ticks[..|ticks| - 1];
      SeenMeans(before, p);
      LiveMeans(before);
      OneTickLives(ticks);
      Fronts(ticks);
      if p in LiveAt(ticks) {
        assert p in LiveAt(ticks[..|ticks|]);
      } else if p in Run(before).agg.seen {
        var k :| 0 <= k <= |before| && p in LiveAt(before[..k]);
        assert p in LiveAt(ticks[..k]);
      }
    }
  }

  /** The instant of the last tick and its RSS sum. */
  ghost function Entry(ticks: seq<Tick>): (int, nat)
    requires ticks != []
  {
    (ticks[|ticks| - 1].t, TickSum(ticks, Rss))
  }

  lemma OneTickEntry(ticks: seq<Tick>)
    requires ticks != []
    ensures var a, b := Run(ticks[..|ticks| - 1]).agg, Run(ticks).agg;
            && b.samples == a.samples + 1 && b.rssSeries == a.rssSeries + [Entry(ticks)]
            && b.oomEvents == a.oomEvents + if Breaks(ticks) then [Entry(ticks)] else []
  {
    OneTick(ticks);
    ClosingIs(ticks, Rss);
  }

  /** Every tick is a sample with an entry in the RSS series. */
  lemma {:induction false} SeriesMeans(ticks: seq<Tick>)
    ensures Run(ticks).agg.samples == |Run(ticks).agg.rssSeries| == |ticks|
    ensures forall k :: 0 < k <= |ticks| ==> Run(ticks).agg.rssSeries[k - 1] == Entry(ticks[..k])
  {
    if ticks != [] {
      var before := ticks[..|ticks| - 1];
      SeriesMeans(before);
      OneTickEntry(ticks);
      Fronts(ticks);
      forall k | 0 < k <= |ticks| ensures Run(ticks).agg.rssSeries[k - 1] == Entry(ticks[..k]) {
        if k < |ticks| { assert before[..k] == ticks[..k]; }
      }
    }
  }

  /** The last tick had a ceiling and was above it. */
  ghost predicate Breaks(ticks: seq<Tick>) { ticks != [] && 0 < ticks[|ticks| - 1].ceiling < TickSum(ticks, Rss) }

  /** The events are the entries of the ticks that broke a ceiling, in their order. */
  ghost predicate EventsAt(ticks: seq<Tick>, at: seq<int>, events: seq<(int, nat)>) {
    && |at| == |events| && (forall i, j :: 0 <= i < j < |at| ==> at[i] < at[j])
    && (forall i :: 0 <= i < |at| ==> 0 < at[i] <= |ticks| && events[i] == Entry(ticks[..at[i]]))
    && forall k :: 0 < k <= |ticks| ==> (Breaks(ticks[..k]) <==> k in at)
  }

  lemma EventsGrow(ticks: seq<Tick>, at: seq<int>, events: seq<(int, nat)>) returns (all: seq<int>)
    requires ticks != [] && EventsAt(ticks[..|ticks| - 1], at, events)
    ensures EventsAt(ticks, all, events + if Breaks(ticks) then [Entry(ticks)] else [])
  {
    var before := ticks[..|ticks| - 1];
    Fronts(ticks);
    all := at + if Breaks(ticks) then [|ticks|] else [];
    assert |ticks| !in at;
    forall i | 0 <= i < |at| ensures before[..at[i]] == ticks[..at[i]] {}
    forall k | 0 < k <= |before| ensures before[..k] == ticks[..k] {}
  }

  lemma {:induction false} EventsMean(ticks: seq<Tick>) returns (at: seq<int>)
    ensures EventsAt(ticks, at, Run(ticks).agg.oomEvents)
  {
    if ticks == [] {
      at := [];
    } else {
      at := EventsMean(ticks[..|ticks| - 1]);
      OneTickEntry(ticks);
      at := EventsGrow(ticks, at, Run(ticks[..|ticks| - 1]).agg.oomEvents);
    }
  }
}
