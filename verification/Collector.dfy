/** `RoleAggregate` and the per-role part of `TreeCollector._sample_tick`: CPU across process deaths. */
module Collector {
  import opened MapSum
  import opened Wrappers
  import CostWindow

  // ----- one role's aggregate

  /** The counters of a process that only ever grow. */
  datatype Counters = Counters(user: nat, sys: nat, vol: nat, invol: nat) {
    function Plus(o: Counters): Counters {
      Counters(user + o.user, sys + o.sys, vol + o.vol, invol + o.invol)
    }

    /** The figures the aggregate reports totals of. */
    function Of(f: Figure): nat {
      match f
      case User => user
      case System => sys
      case Cpu => user + sys
      case Voluntary => vol
      case Involuntary => invol
    }
  }

  datatype Figure = User | System | Cpu | Voluntary | Involuntary

  const NOTHING := Counters(0, 0, 0, 0)

  /** What is summed over the role's processes on each tick, and the peaks of those sums. */
  datatype Gauges = Gauges(rss: nat, vms: nat, uss: nat, pss: nat, threads: nat, fds: nat) {
    function Plus(o: Gauges): Gauges {
      Gauges(rss + o.rss, vms + o.vms, uss + o.uss, pss + o.pss, threads + o.threads, fds + o.fds)
    }

    function Peak(o: Gauges): Gauges {
      Gauges(Max(rss, o.rss), Max(vms, o.vms), Max(uss, o.uss), Max(pss, o.pss), Max(threads, o.threads),
             Max(fds, o.fds))
    }
  }

  const IDLE := Gauges(0, 0, 0, 0, 0, 0)

  /** One sample of a process; USS and PSS are read on some ticks only. */
  datatype Snap = Snap(rss: nat, vms: nat, uss: Option<nat>, pss: Option<nat>, threads: nat, fds: nat,
                       used: Counters)
  {
    function Shown(): Gauges { Gauges(rss, vms, uss.GetOr(0), pss.GetOr(0), threads, fds) }
  }

  /** The fields of `RoleAggregate`. */
  datatype Agg = Agg(live: map<int, Snap>, retired: Counters, seen: set<int>, samples: nat, peaks: Gauges,
                     peakProcs: nat, rssSeries: seq<(int, nat)>, oomEvents: seq<(int, nat)>) {
    /** `total_cpu_seconds` and `total_ctx_switches`. */
    ghost function Total(f: Figure): nat { Sum(Figures(live, f)) + retired.Of(f) }

    function Observe(pid: int, s: Snap): Agg { this.(live := live[pid := s], seen := seen + {pid}) }

    function Retire(pid: int): Agg {
      if pid in live then this.(live := live - {pid}, retired := retired.Plus(live[pid].used)) else this
    }

    /** The end of a tick; a ceiling of 0 is none. */
    function Close(t: int, sum: Gauges, procs: nat, ceiling: nat): Agg {
      this.(samples := samples + 1, peaks := peaks.Peak(sum), peakProcs := Max(peakProcs, procs),
            rssSeries := rssSeries + [(t, sum.rss)],
            oomEvents := oomEvents + if ceiling > 0 && sum.rss > ceiling then [(t, sum.rss)] else [])
    }
  }

  const FRESH := Agg(map[], NOTHING, {}, 0, IDLE, 0, [], [])

  function Max(a: nat, b: nat): nat { if a >= b then a else b }

  ghost function Figures(live: map<int, Snap>, f: Figure): map<int, nat> {
    map p | p in live :: live[p].used.Of(f)
  }

  /** The tracked pids whose sample succeeded, in order, and the others. */
  function Alive(pids: seq<int>, sampled: map<int, Snap>): seq<int> {
    if pids == [] then [] else
      var p := pids[|pids| - 1];
      Alive(pids[..|pids| - 1], sampled) + if p in sampled then [p] else []
  }

  function Dead(pids: seq<int>, sampled: map<int, Snap>): seq<int> {
    if pids == [] then [] else
      var p := pids[|pids| - 1];
      Dead(pids[..|pids| - 1], sampled) + if p in sampled then [] else [p]
  }

  function SumOf(pids: seq<int>, sampled: map<int, Snap>): Gauges {
    if pids == [] then IDLE else
      var p := pids[|pids| - 1];
      var sum := SumOf(pids[..|pids| - 1], sampled);
      if p in sampled then sum.Plus(sampled[p].Shown()) else sum
  }

  function ObserveAll(a: Agg, pids: seq<int>, sampled: map<int, Snap>): Agg {
    if pids == [] then a else
      var p := pids[|pids| - 1];
      var b := ObserveAll(a, pids[..|pids| - 1], sampled);
      if p in sampled then b.Observe(p, sampled[p]) else b
  }

  function RetireAll(a: Agg, dead: seq<int>): Agg {
    if dead == [] then a else RetireAll(a, dead[..|dead| - 1]).Retire(dead[|dead| - 1])
  }

  /** A whole tick: first every sample, then every burial, then the peaks. */
  function Ticked(a: Agg, t: int, pids: seq<int>, sampled: map<int, Snap>, ceiling: nat): Agg {
    RetireAll(ObserveAll(a, pids, sampled), Dead(pids, sampled))
      .Close(t, SumOf(pids, sampled), |Alive(pids, sampled)|, ceiling)
  }

  /** One more tracked pid. */
  lemma OneMorePid(a: Agg, pids: seq<int>, i: nat, sampled: map<int, Snap>)
    requires i < |pids|
    ensures var p, before, upTo := pids[i], pids[..i], pids[..i + 1];
            && ObserveAll(a, upTo, sampled) ==
                 (if p in sampled then ObserveAll(a, before, sampled).Observe(p, sampled[p])
                  else ObserveAll(a, before, sampled))
            && SumOf(upTo, sampled) ==
                 (if p in sampled then SumOf(before, sampled).Plus(sampled[p].Shown()) else SumOf(before, sampled))
            && Alive(upTo, sampled) == Alive(before, sampled) + (if p in sampled then [p] else [])
            && Dead(upTo, sampled) == Dead(before, sampled) + (if p in sampled then [] else [p])
  {
    assert pids[..i + 1][..i] == pids[..i];
  }

  class RoleAggregate {
    var live: map<int, Snap>
    var retired: Counters
    var pidsSeen: set<int>
    var samples: nat
    var peaks: Gauges
    var peakProcs: nat
    var rssSeries: seq<(int, nat)>
    var oomEvents: seq<(int, nat)>

    function Value(): Agg
      reads this
    {
      Agg(live, retired, pidsSeen, samples, peaks, peakProcs, rssSeries, oomEvents)
    }

    constructor ()
      ensures Value() == FRESH
    {
      live, retired, pidsSeen, samples := map[], NOTHING, {}, 0;
      peaks, peakProcs, rssSeries, oomEvents := IDLE, 0, [], [];
    }

    /** The first loop: sample every tracked pid. */
    method ObserveTracked(tracked: seq<int>, sampled: map<int, Snap>)
      returns (sum: Gauges, kept: seq<int>, dead: seq<int>)
      modifies `live, `pidsSeen
      ensures Value() == ObserveAll(old(Value()), tracked, sampled)
      ensures sum == SumOf(tracked, sampled) && kept == Alive(tracked, sampled) && dead == Dead(tracked, sampled)
    {
      sum, kept, dead := IDLE, [], [];
      for i := 0 to |tracked|
        invariant Value() == ObserveAll(old(Value()), tracked[..i], sampled)
        invariant sum == SumOf(tracked[..i], sampled)
        invariant dead == Dead(tracked[..i], sampled) && kept == Alive(tracked[..i], sampled)
      {
        OneMorePid(old(Value()), tracked, i, sampled);
        var pid := tracked[i];
        if pid !in sampled {
          dead := dead + [pid];
          continue;
        }
        kept := kept + [pid];
        pidsSeen := pidsSeen + {pid};
        live := live[pid := sampled[pid]];
        sum := sum.Plus(sampled[pid].Shown());
      }
      assert tracked[..|tracked|] == tracked;
    }

    /** The second loop: retire the counters of the dead. */
    method RetireDead(dead: seq<int>)
      modifies `live, `retired
      ensures Value() == RetireAll(old(Value()), dead)
    {
      for j := 0 to |dead|
        invariant Value() == RetireAll(old(Value()), dead[..j])
      {
        assert dead[..j + 1][..j] == dead[..j];
        if dead[j] in live {
          retired := retired.Plus(live[dead[j]].used);
          live := live - {dead[j]};
        }
      }
      assert dead[..|dead|] == dead;
    }

    /** One tick of the role; a tracked pid without an entry in `sampled` is one whose sample failed. */
    method SampleTick(t: int, tracked: seq<int>, sampled: map<int, Snap>, ceiling: nat) returns (kept: seq<int>)
      modifies this
      ensures Value() == Ticked(old(Value()), t, tracked, sampled, ceiling)
      ensures kept == Alive(tracked, sampled)
    {
      var sum, dead;
      sum, kept, dead := ObserveTracked(tracked, sampled);
      RetireDead(dead);
      samples := samples + 1;
      peaks := peaks.Peak(sum);
      peakProcs := Max(peakProcs, |kept|);
      rssSeries := rssSeries + [(t, sum.rss)];
      if ceiling > 0 && sum.rss > ceiling { oomEvents := oomEvents + [(t, sum.rss)]; }
    }
  }

  // ----- runs of ticks

  /** A process: its pid and when it was born.  Pids are reused, pairs are not. */
  datatype Proc = Proc(pid: int, born: int)

  datatype Obs = Obs(born: int, snap: Snap)

  /** One tick: what discovery added, what each successful sample saw, and the memory ceiling. */
  datatype Tick = Tick(t: int, found: seq<int>, sampled: map<int, Obs>, ceiling: nat)

  /** The role together with what an observer of the processes knows: the last counters seen of every
      process ever sampled, which process each live entry came from, the counters overwritten when a
      pid turned out to be another process (`gone`), and the counters of processes that came back
      after a failed sample had retired them (`back`). */
  datatype World = World(tracked: seq<int>, agg: Agg, births: map<int, int>, ledger: map<Proc, Counters>,
                         gone: Counters, back: Counters) {
    predicate Same(pid: int, born: int) { pid in births && births[pid] == born }

    function See(pid: int, o: Obs): World {
      World(tracked, agg.Observe(pid, o.snap), births[pid := o.born], ledger[Proc(pid, o.born) := o.snap.used],
            if pid in agg.live && !Same(pid, o.born) then gone.Plus(agg.live[pid].used) else gone,
            if !Same(pid, o.born) && Proc(pid, o.born) in ledger then back.Plus(ledger[Proc(pid, o.born)])
            else back)
    }

    function Lose(pid: int): World { this.(agg := agg.Retire(pid), births := births - {pid}) }
  }

  const START := World([], FRESH, map[], map[], NOTHING, NOTHING)

  function Snaps(sampled: map<int, Obs>): map<int, Snap> { map p | p in sampled :: sampled[p].snap }

  /** What discovery leaves tracked. */
  function Joined(tracked: seq<int>, found: seq<int>): seq<int> {
    if found == [] then tracked else
      var before := Joined(tracked, found[..|found| - 1]);
      var p := found[|found| - 1];
      if p in before then before else before + [p]
  }

  function SeeAll(w: World, pids: seq<int>, sampled: map<int, Obs>): World {
    if pids == [] then w else
      var p := pids[|pids| - 1];
      var v := SeeAll(w, pids[..|pids| - 1], sampled);
      if p in sampled then v.See(p, sampled[p]) else v
  }

  function LoseAll(w: World, dead: seq<int>): World {
    if dead == [] then w else LoseAll(w, dead[..|dead| - 1]).Lose(dead[|dead| - 1])
  }

  function Next(w: World, e: Tick): World {
    var pids, snaps := Joined(w.tracked, e.found), Snaps(e.sampled);
    var v := LoseAll(SeeAll(w, pids, e.sampled), Dead(pids, snaps));
    v.(tracked := Alive(pids, snaps),
       agg := v.agg.Close(e.t, SumOf(pids, snaps), |Alive(pids, snaps)|, e.ceiling))
  }

  /** Every sequence of ticks is a run. */
  function Run(ticks: seq<Tick>): World {
    if ticks == [] then START else Next(Run(ticks[..|ticks| - 1]), ticks[|ticks| - 1])
  }

  /** The aggregate of a run is what `SampleTick` makes of it, tick by tick. */
  lemma NextIsTicked(w: World, e: Tick)
    ensures Next(w, e).agg == Ticked(w.agg, e.t, Joined(w.tracked, e.found), Snaps(e.sampled), e.ceiling)
    ensures Next(w, e).tracked == Alive(Joined(w.tracked, e.found), Snaps(e.sampled))
  {
    var pids := Joined(w.tracked, e.found);
    SeeAllObserves(w, pids, e.sampled);
    LoseAllRetires(SeeAll(w, pids, e.sampled), Dead(pids, Snaps(e.sampled)));
  }

  lemma {:induction false} SeeAllObserves(w: World, pids: seq<int>, sampled: map<int, Obs>)
    ensures SeeAll(w, pids, sampled).agg == ObserveAll(w.agg, pids, Snaps(sampled))
  {
    if pids != [] { SeeAllObserves(w, pids[..|pids| - 1], sampled); }
  }

  lemma {:induction false} LoseAllRetires(w: World, dead: seq<int>)
    ensures LoseAll(w, dead).agg == RetireAll(w.agg, dead)
  {
    if dead != [] { LoseAllRetires(w, dead[..|dead| - 1]); }
  }

  // ----- conservation

  /** The sum over every process ever sampled of its last observed counter. */
  ghost function Ledger(w: World, f: Figure): nat { Sum(Entries(w.ledger, f)) }

  ghost function Entries(ledger: map<Proc, Counters>, f: Figure): map<Proc, nat> {
    map p | p in ledger :: ledger[p].Of(f)
  }

  /** Every live entry is the last that was seen of its process. */
  ghost predicate Linked(w: World) {
    && w.births.Keys == w.agg.live.Keys
    && forall pid :: pid in w.agg.live ==>
         Proc(pid, w.births[pid]) in w.ledger && w.ledger[Proc(pid, w.births[pid])] == w.agg.live[pid].used
  }

  ghost predicate Balanced(w: World, f: Figure) {
    w.agg.Total(f) + w.gone.Of(f) == Ledger(w, f) + w.back.Of(f)
  }

  lemma SeeKeepsLinked(w: World, pid: int, o: Obs)
    requires Linked(w)
    ensures Linked(w.See(pid, o))
  {
  }

  lemma LoseKeepsLinked(w: World, pid: int)
    requires Linked(w)
    ensures Linked(w.Lose(pid))
  {
  }

  lemma ObserveAdds(a: Agg, pid: int, s: Snap, f: Figure)
    ensures a.Observe(pid, s).Total(f) ==
            a.Total(f) + s.used.Of(f) - if pid in a.live then a.live[pid].used.Of(f) else 0
  {
    SumUpdates(Figures(a.live, f), pid, s.used.Of(f));
    assert Figures(a.live[pid := s], f) == Figures(a.live, f)[pid := s.used.Of(f)];
  }

  lemma RetireKeepsTotal(a: Agg, pid: int, f: Figure)
    ensures a.Retire(pid).Total(f) == a.Total(f)
  {
    SumDrops(Figures(a.live, f), pid);
    assert Figures(a.live - {pid}, f) == Figures(a.live, f) - {pid};
  }

  lemma LedgerAdds(w: World, pid: int, o: Obs, f: Figure)
    ensures var p := Proc(pid, o.born);
            Ledger(w.See(pid, o), f) ==
            Ledger(w, f) + o.snap.used.Of(f) - if p in w.ledger then w.ledger[p].Of(f) else 0
  {
    var p := Proc(pid, o.born);
    SumUpdates(Entries(w.ledger, f), p, o.snap.used.Of(f));
    assert Entries(w.ledger[p := o.snap.used], f) == Entries(w.ledger, f)[p := o.snap.used.Of(f)];
  }

  lemma SeeKeepsBalanced(w: World, pid: int, o: Obs, f: Figure)
    requires Linked(w) && Balanced(w, f)
    ensures Balanced(w.See(pid, o), f)
  {
    ObserveAdds(w.agg, pid, o.snap, f);
    LedgerAdds(w, pid, o, f);
  }

  lemma LoseKeepsBalanced(w: World, pid: int, f: Figure)
    requires Balanced(w, f)
    ensures Balanced(w.Lose(pid), f)
  {
    RetireKeepsTotal(w.agg, pid, f);
  }

  lemma {:induction false} SeeAllKeeps(w: World, pids: seq<int>, sampled: map<int, Obs>, f: Figure)
    requires Linked(w) && Balanced(w, f)
    ensures Linked(SeeAll(w, pids, sampled)) && Balanced(SeeAll(w, pids, sampled), f)
  {
    if pids != [] {
      var p := pids[|pids| - 1];
      SeeAllKeeps(w, pids[..|pids| - 1], sampled, f);
      var v := SeeAll(w, pids[..|pids| - 1], sampled);
      if p in sampled {
        SeeKeepsLinked(v, p, sampled[p]);
        SeeKeepsBalanced(v, p, sampled[p], f);
      }
    }
  }

  lemma {:induction false} LoseAllKeeps(w: World, dead: seq<int>, f: Figure)
    requires Linked(w) && Balanced(w, f)
    ensures Linked(LoseAll(w, dead)) && Balanced(LoseAll(w, dead), f)
  {
    if dead != [] {
      LoseAllKeeps(w, dead[..|dead| - 1], f);
      var v := LoseAll(w, dead[..|dead| - 1]);
      LoseKeepsLinked(v, dead[|dead| - 1]);
      LoseKeepsBalanced(v, dead[|dead| - 1], f);
    }
  }

  lemma NextKeeps(w: World, e: Tick, f: Figure)
    requires Linked(w) && Balanced(w, f)
    ensures Linked(Next(w, e)) && Balanced(Next(w, e), f)
  {
    var pids := Joined(w.tracked, e.found);
    SeeAllKeeps(w, pids, e.sampled, f);
    LoseAllKeeps(SeeAll(w, pids, e.sampled), Dead(pids, Snaps(e.sampled)), f);
  }

  lemma NothingSums(live: map<int, Snap>, ledger: map<Proc, Counters>, f: Figure)
    requires live == map[] && ledger == map[]
    ensures Sum(Figures(live, f)) == 0 && Sum(Entries(ledger, f)) == 0 && NOTHING.Of(f) == 0
  {
    assert Figures(live, f) == map[] && Entries(ledger, f) == map[];
  }

  lemma NothingBalances(f: Figure)
    ensures Balanced(START, f) && Linked(START)
  {
    NothingSums(START.agg.live, START.ledger, f);
  }

  /** Over every run of ticks, whatever is born, dies, fails to be sampled or takes over a pid: the
      reported total and the counters lost to pid reuse are together the last counters of every
      process ever sampled and the counters counted twice. */
  lemma {:induction false} RunBalances(ticks: seq<Tick>, f: Figure)
    ensures Linked(Run(ticks)) && Balanced(Run(ticks), f)
  {
    if ticks == [] {
      NothingBalances(f);
    } else {
      RunBalances(ticks[..|ticks| - 1], f);
      NextKeeps(Run(ticks[..|ticks| - 1]), ticks[|ticks| - 1], f);
    }
  }

  lemma {:induction false} SumsAdd<K>(a: map<K, nat>, b: map<K, nat>, c: map<K, nat>)
    requires a.Keys == b.Keys == c.Keys && forall k :: k in c ==> c[k] == a[k] + b[k]
    ensures Sum(c) == Sum(a) + Sum(b)
    decreases |c|
  {
    if c != map[] {
      var k :| k in c;
      SumTakes(a, k);
      SumTakes(b, k);
      SumTakes(c, k);
      SumsAdd(a - {k}, b - {k}, c - {k});
    }
  }

  /** The CPU total is the user total and the system total. */
  lemma CpuIsUserAndSystem(a: Agg)
    ensures a.Total(Cpu) == a.Total(User) + a.Total(System)
  {
    var u, v, c := Figures(a.live, User), Figures(a.live, System), Figures(a.live, Cpu);
    assert u.Keys == a.live.Keys && v.Keys == a.live.Keys && c.Keys == a.live.Keys;
    forall k | k in c ensures c[k] == u[k] + v[k] {
      assert c[k] == a.live[k].used.Of(Cpu);
    }
    SumsAdd(u, v, c);
  }

  // ----- when nothing is lost and nothing comes back

  /** A sampled pid with a live entry is still the same process. */
  ghost predicate NoReuse(w: World, e: Tick) {
    forall pid :: pid in e.sampled && pid in w.agg.live ==> w.Same(pid, e.sampled[pid].born)
  }

  /** A sampled pid without a live entry is a process never sampled before: a failed sample, which
      is what removes the entry, means the process exited. */
  ghost predicate NoReturn(w: World, e: Tick) {
    forall pid :: pid in e.sampled && pid !in w.agg.live ==> Proc(pid, e.sampled[pid].born) !in w.ledger
  }

  ghost predicate Clean(ticks: seq<Tick>) {
    ticks != [] ==>
      var before := ticks[..|ticks| - 1];
      Clean(before) && NoReuse(Run(before), ticks[|ticks| - 1]) && NoReturn(Run(before), ticks[|ticks| - 1])
  }

  ghost predicate Exact(w: World) { w.gone == NOTHING && w.back == NOTHING }

  /** Entries already refreshed in this tick come from this tick. */
  ghost predicate Refreshing(w: World, v: World, sampled: map<int, Obs>) {
    && w.births.Keys == w.agg.live.Keys && v.births.Keys == v.agg.live.Keys
    && (forall pid :: pid in w.agg.live ==> pid in v.agg.live)
    && (forall pid :: pid in v.agg.live ==>
          || (pid in sampled && v.births[pid] == sampled[pid].born)
          || (pid in w.agg.live && v.births[pid] == w.births[pid]))
    && (forall p :: p in v.ledger ==>
          p in w.ledger || (p.pid in v.agg.live && p.pid in sampled && p.born == sampled[p.pid].born))
  }

  lemma {:induction false} SeeAllIsExact(w: World, e: Tick, pids: seq<int>)
    requires Linked(w) && NoReuse(w, e) && NoReturn(w, e) && Exact(w)
    ensures Refreshing(w, SeeAll(w, pids, e.sampled), e.sampled) && Exact(SeeAll(w, pids, e.sampled))
  {
    if pids != [] {
      SeeAllIsExact(w, e, pids[..|pids| - 1]);
    }
  }

  lemma {:induction false} LoseAllIsExact(w: World, dead: seq<int>)
    ensures LoseAll(w, dead).gone == w.gone && LoseAll(w, dead).back == w.back
  {
    if dead != [] { LoseAllIsExact(w, dead[..|dead| - 1]); }
  }

  lemma {:induction false} CleanRunsAreExact(ticks: seq<Tick>)
    requires Clean(ticks)
    ensures Exact(Run(ticks))
  {
    if ticks != [] {
      var before, e := ticks[..|ticks| - 1], ticks[|ticks| - 1];
      CleanRunsAreExact(before);
      RunBalances(before, Cpu);
      var pids := Joined(Run(before).tracked, e.found);
      SeeAllIsExact(Run(before), e, pids);
      LoseAllIsExact(SeeAll(Run(before), pids, e.sampled), Dead(pids, Snaps(e.sampled)));
    }
  }

  /** The reported total is the sum of last observed counters exactly when as much was counted twice
      as was lost. */
  lemma ConservedIff(ticks: seq<Tick>, f: Figure)
    ensures var w := Run(ticks);
            w.agg.Total(f) == Ledger(w, f) <==> w.gone.Of(f) == w.back.Of(f)
  {
    RunBalances(ticks, f);
    BalanceDecides(Run(ticks), f);
  }

  lemma BalanceDecides(w: World, f: Figure)
    requires Balanced(w, f)
    ensures w.agg.Total(f) == Ledger(w, f) <==> w.gone.Of(f) == w.back.Of(f)
  {
  }

  /** So it is in every run where a failed sample means an exit and no pid is reused unobserved. */
  lemma CpuIsConserved(ticks: seq<Tick>, f: Figure)
    requires Clean(ticks)
    ensures Run(ticks).agg.Total(f) == Ledger(Run(ticks), f)
  {
    CleanRunsAreExact(ticks);
    ConservedIff(ticks, f);
  }

  // ----- the two failures apart

  /** No sampled pid was taken over from a process that had used anything. */
  ghost predicate TakesNothing(w: World, pids: seq<int>, sampled: map<int, Obs>, f: Figure) {
    forall pid :: pid in pids && pid in sampled && pid in w.agg.live && !w.Same(pid, sampled[pid].born) ==>
      w.agg.live[pid].used.Of(f) == 0
  }

  /** No sampled process came back that had used anything before its entry was given up. */
  ghost predicate BringsNothing(w: World, pids: seq<int>, sampled: map<int, Obs>, f: Figure) {
    forall pid :: pid in pids && pid in sampled && !w.Same(pid, sampled[pid].born)
                  && Proc(pid, sampled[pid].born) in w.ledger ==>
      w.ledger[Proc(pid, sampled[pid].born)].Of(f) == 0
  }

  /** What sampling other pids leaves of one. */
  ghost predicate Untouched(w: World, v: World, pid: int) {
    && (pid in v.agg.live <==> pid in w.agg.live) && (pid in w.agg.live ==> v.agg.live[pid] == w.agg.live[pid])
    && (forall born :: v.Same(pid, born) <==> w.Same(pid, born))
    && (forall born :: Proc(pid, born) in v.ledger <==> Proc(pid, born) in w.ledger)
    && (forall born :: Proc(pid, born) in w.ledger ==> v.ledger[Proc(pid, born)] == w.ledger[Proc(pid, born)])
  }

  lemma {:induction false} OthersUntouched(w: World, pids: seq<int>, sampled: map<int, Obs>, pid: int)
    requires pid !in pids
    ensures Untouched(w, SeeAll(w, pids, sampled), pid)
  {
    if pids != [] { OthersUntouched(w, pids[..|pids| - 1], sampled, pid); }
  }

  lemma {:induction false} SeenIsSame(w: World, pids: seq<int>, sampled: map<int, Obs>, pid: int)
    requires pid in pids && pid in sampled
    ensures SeeAll(w, pids, sampled).Same(pid, sampled[pid].born)
  {
    if pid != pids[|pids| - 1] { SeenIsSame(w, pids[..|pids| - 1], sampled, pid); }
  }

  lemma SeeAdds(v: World, pid: int, o: Obs, f: Figure)
    ensures v.See(pid, o).gone.Of(f) == v.gone.Of(f)
              + if pid in v.agg.live && !v.Same(pid, o.born) then v.agg.live[pid].used.Of(f) else 0
    ensures v.See(pid, o).back.Of(f) == v.back.Of(f)
              + if !v.Same(pid, o.born) && Proc(pid, o.born) in v.ledger then v.ledger[Proc(pid, o.born)].Of(f) else 0
  {
  }

  lemma WithLast(w: World, pids: seq<int>, sampled: map<int, Obs>, f: Figure)
    requires pids != []
    ensures var before, p := pids[..|pids| - 1], pids[|pids| - 1];
            && (TakesNothing(w, pids, sampled, f) <==>
                  TakesNothing(w, before, sampled, f) && TakesNothing(w, [p], sampled, f))
            && (BringsNothing(w, pids, sampled, f) <==>
                  BringsNothing(w, before, sampled, f) && BringsNothing(w, [p], sampled, f))
  {
    assert pids == pids[..|pids| - 1] + [pids[|pids| - 1]];
  }

  /** Sampling never takes back what was lost or counted twice, and adds to neither exactly if nothing
      was taken over, or nothing came back, that had used anything. */
  lemma {:induction false} SeeAllAdds(w: World, pids: seq<int>, sampled: map<int, Obs>, f: Figure)
    ensures var v := SeeAll(w, pids, sampled);
            && v.gone.Of(f) >= w.gone.Of(f) && (v.gone.Of(f) == w.gone.Of(f) <==> TakesNothing(w, pids, sampled, f))
            && v.back.Of(f) >= w.back.Of(f) && (v.back.Of(f) == w.back.Of(f) <==> BringsNothing(w, pids, sampled, f))
  {
    if pids != [] {
      var before, p := pids[..|pids| - 1], pids[|pids| - 1];
      SeeAllAdds(w, before, sampled, f);
      WithLast(w, pids, sampled, f);
      if p in sampled {
        var v := SeeAll(w, before, sampled);
        SeeAdds(v, p, sampled[p], f);
        if p in before {
          SeenIsSame(w, before, sampled, p);
          OnceIsEnough(w, before, p, sampled, f);
        } else {
          OthersUntouched(w, before, sampled, p);
          assert v.Same(p, sampled[p].born) <==> w.Same(p, sampled[p].born);
        }
      }
    }
  }

  lemma OnceIsEnough(w: World, pids: seq<int>, p: int, sampled: map<int, Obs>, f: Figure)
    requires p in pids
    ensures TakesNothing(w, pids, sampled, f) ==> TakesNothing(w, [p], sampled, f)
    ensures BringsNothing(w, pids, sampled, f) ==> BringsNothing(w, [p], sampled, f)
  {
  }

  lemma NextAdds(w: World, e: Tick, f: Figure)
    ensures var v, pids := Next(w, e), Joined(w.tracked, e.found);
            && v.gone.Of(f) >= w.gone.Of(f) && (v.gone.Of(f) == w.gone.Of(f) <==> TakesNothing(w, pids, e.sampled, f))
            && v.back.Of(f) >= w.back.Of(f) && (v.back.Of(f) == w.back.Of(f) <==> BringsNothing(w, pids, e.sampled, f))
  {
    var pids := Joined(w.tracked, e.found);
    SeeAllAdds(w, pids, e.sampled, f);
    LoseAllIsExact(SeeAll(w, pids, e.sampled), Dead(pids, Snaps(e.sampled)));
  }

  /** In no tick did a pid pass from a process that had used anything to another one unobserved. */
  ghost predicate NeverTakenOver(ticks: seq<Tick>, f: Figure) {
    ticks != [] ==>
      var before, e := ticks[..|ticks| - 1], ticks[|ticks| - 1];
      NeverTakenOver(before, f) && TakesNothing(Run(before), Joined(Run(before).tracked, e.found), e.sampled, f)
  }

  /** In no tick did a process that had used anything come back after it had been given up. */
  ghost predicate NeverComesBack(ticks: seq<Tick>, f: Figure) {
    ticks != [] ==>
      var before, e := ticks[..|ticks| - 1], ticks[|ticks| - 1];
      NeverComesBack(before, f) && BringsNothing(Run(before), Joined(Run(before).tracked, e.found), e.sampled, f)
  }

  lemma {:induction false} LossesAre(ticks: seq<Tick>, f: Figure)
    ensures Run(ticks).gone.Of(f) == 0 <==> NeverTakenOver(ticks, f)
    ensures Run(ticks).back.Of(f) == 0 <==> NeverComesBack(ticks, f)
  {
    if ticks != [] {
      LossesAre(ticks[..|ticks| - 1], f);
      NextAdds(Run(ticks[..|ticks| - 1]), ticks[|ticks| - 1], f);
    }
  }

  /** Where no pid is taken over from a process that had used anything, the reported total is the sum of
      last observed counters exactly when no process that had used anything comes back after a failed
      sample; and where none comes back, exactly when none is taken over from. */
  lemma ConservedApartIff(ticks: seq<Tick>, f: Figure)
    ensures NeverTakenOver(ticks, f) ==>
              (Run(ticks).agg.Total(f) == Ledger(Run(ticks), f) <==> NeverComesBack(ticks, f))
    ensures NeverComesBack(ticks, f) ==>
              (Run(ticks).agg.Total(f) == Ledger(Run(ticks), f) <==> NeverTakenOver(ticks, f))
  {
    ConservedIff(ticks, f);
    LossesAre(ticks, f);
  }

  function Shot(cpu: nat): Snap { Snap(1, 1, None, None, 1, 1, Counters(cpu, 0, 0, 0)) }

  /** The process of pid 7, sampled. */
  function OneSample(t: int, born: int, cpu: nat): Tick {
    Tick(t, [7], map[7 := Obs(born, Shot(cpu))], 0)
  }

  lemma JustOne(w: World, p: int, sampled: map<int, Obs>)
    ensures SeeAll(w, [p], sampled) == if p in sampled then w.See(p, sampled[p]) else w
    ensures Alive([p], Snaps(sampled)) == if p in sampled then [p] else []
    ensures Dead([p], Snaps(sampled)) == if p in sampled then [] else [p]
    ensures LoseAll(w, [p]) == w.Lose(p) && LoseAll(w, []) == w
  {
    JustSeen(w, p, sampled);
    JustLost(w, p);
    JustTold(p, Snaps(sampled));
  }

  lemma JustSeen(w: World, p: int, sampled: map<int, Obs>)
    ensures SeeAll(w, [p], sampled) == if p in sampled then w.See(p, sampled[p]) else w
  {
    assert [p][..0] == [] && SeeAll(w, [], sampled) == w;
  }

  lemma JustLost(w: World, p: int)
    ensures LoseAll(w, [p]) == w.Lose(p) && LoseAll(w, []) == w
  {
    assert [p][..0] == [];
  }

  lemma JustTold(p: int, sampled: map<int, Snap>)
    ensures Alive([p], sampled) == if p in sampled then [p] else []
    ensures Dead([p], sampled) == if p in sampled then [] else [p]
  {
    assert [p][..0] == [];
    assert Alive([], sampled) == [] && Dead([], sampled) == [];
  }

  lemma JoinsSeven(tracked: seq<int>)
    requires tracked == [] || tracked == [7]
    ensures Joined(tracked, [7]) == [7]
  {
    assert [7][..0] == [];
  }

  /** From w to v, pid 7 was sampled. */
  ghost predicate Saw(w: World, v: World, born: int, cpu: nat) {
    var o := Obs(born, Shot(cpu));
    var u := w.See(7, o);
    && v.tracked == [7] && v.ledger == u.ledger && v.gone == u.gone && v.back == u.back
    && v.births == u.births && v.agg.live == u.agg.live && v.agg.retired == u.agg.retired
  }

  ghost predicate Missed(w: World, v: World) {
    && v.tracked == [] && v.ledger == w.ledger && v.gone == w.gone && v.back == w.back
    && v.births == w.births - {7} && v.agg.live == w.agg.live - {7}
  }

  lemma SeesSeven(w: World, t: int, born: int, cpu: nat)
    requires w.tracked == [] || w.tracked == [7]
    ensures Saw(w, Next(w, OneSample(t, born, cpu)), born, cpu)
  {
    var e := OneSample(t, born, cpu);
    JoinsSeven(w.tracked);
    JustOne(w, 7, e.sampled);
    JustOne(w.See(7, e.sampled[7]), 7, e.sampled);
  }

  lemma MissesSeven(w: World, t: int)
    requires w.tracked == [7]
    ensures Missed(w, Next(w, Tick(t, [], map[], 0)))
  {
    JustOne(w, 7, map[]);
  }

  /** A world that tracks pid 7 alone, alive with this process's counter. */
  ghost predicate Tracking(w: World, born: int, cpu: nat) {
    && Linked(w) && Balanced(w, Cpu) && w.tracked == [7]
    && w.Same(7, born) && 7 in w.agg.live && w.agg.live[7].used.Of(Cpu) == cpu
  }

  /** Such a world is reachable: one sampled tick gets there. */
  lemma OneSampleTracks(t: int, born: int, cpu: nat)
    ensures Tracking(Next(START, OneSample(t, born, cpu)), born, cpu)
    ensures Run([OneSample(t, born, cpu)]) == Next(START, OneSample(t, born, cpu))
  {
    var e := OneSample(t, born, cpu);
    RunBalances([], Cpu);
    NextKeeps(START, e, Cpu);
    SeesSeven(START, t, born, cpu);
    assert [e][..0] == [];
  }

  /** How far the reported total is above the sum of last observed counters. */
  ghost function Excess(w: World): int { w.agg.Total(Cpu) - Ledger(w, Cpu) }

  lemma ExcessIs(w: World)
    requires Balanced(w, Cpu)
    ensures Excess(w) == w.back.Of(Cpu) - w.gone.Of(Cpu)
  {
  }

  /** One sample that fails although the process lives on makes its CPU count twice. */
  lemma FailedSampleCountsTwice(w: World, miss: Tick, u: World, again: Tick, v: World, born: int, cpu: nat, now: nat)
    requires Tracking(w, born, cpu) && u == Next(w, miss) && v == Next(u, again)
    requires miss == Tick(miss.t, [], map[], 0) && again == OneSample(again.t, born, now)
    ensures Excess(v) == Excess(w) + cpu
  {
    MissedOnce(w, miss, u, born, cpu);
    SeenAgain(u, again, v, born, now);
    ReturnAddsExcess(w, u, v, born, cpu, now);
  }

  lemma SeenAgain(u: World, again: Tick, v: World, born: int, now: nat)
    requires u.tracked == [] && Linked(u) && Balanced(u, Cpu)
    requires v == Next(u, again) && again == OneSample(again.t, born, now)
    ensures Saw(u, v, born, now) && Balanced(v, Cpu)
  {
    SeesSeven(u, again.t, born, now);
    NextKeeps(u, again, Cpu);
  }

  lemma ReturnAddsExcess(w: World, u: World, v: World, born: int, cpu: nat, now: nat)
    requires Balanced(w, Cpu) && Balanced(v, Cpu) && u.back == w.back && u.gone == w.gone
    requires Saw(u, v, born, now) && !u.Same(7, born) && 7 !in u.agg.live
    requires Proc(7, born) in u.ledger && u.ledger[Proc(7, born)].Of(Cpu) == cpu
    ensures Excess(v) == Excess(w) + cpu
  {
    CameBack(u, v, born, cpu, now);
    ExcessIs(w);
    ExcessIs(v);
  }

  lemma MissedOnce(w: World, miss: Tick, u: World, born: int, cpu: nat)
    requires Tracking(w, born, cpu) && u == Next(w, miss) && miss == Tick(miss.t, [], map[], 0)
    ensures Linked(u) && Balanced(u, Cpu) && u.tracked == [] && u.back == w.back && u.gone == w.gone
    ensures !u.Same(7, born) && 7 !in u.agg.live
    ensures Proc(7, born) in u.ledger && u.ledger[Proc(7, born)].Of(Cpu) == cpu
  {
    MissesSeven(w, miss.t);
    NextKeeps(w, miss, Cpu);
  }

  lemma CameBack(u: World, v: World, born: int, cpu: nat, now: nat)
    requires Saw(u, v, born, now) && !u.Same(7, born) && 7 !in u.agg.live
    requires Proc(7, born) in u.ledger && u.ledger[Proc(7, born)].Of(Cpu) == cpu
    ensures v.back.Of(Cpu) == u.back.Of(Cpu) + cpu && v.gone == u.gone
  {
  }

  /** A pid taken over between two samples loses the CPU of the process that had it, and the reported
      total falls if the new process has used less. */
  lemma ReuseLosesCpu(w: World, born: int, cpu: nat, t: int, other: int, now: nat)
    requires Tracking(w, born, cpu) && other != born && Proc(7, other) !in w.ledger
    ensures var v := Next(w, OneSample(t, other, now));
            Excess(v) == Excess(w) - cpu && v.agg.Total(Cpu) == w.agg.Total(Cpu) - cpu + now
  {
    var e := OneSample(t, other, now);
    SeesSeven(w, t, other, now);
    NextKeeps(w, e, Cpu);
    TakenOver(w, Next(w, e), born, cpu, other, now);
    ExcessIs(w);
    ExcessIs(Next(w, e));
  }

  lemma TakenOver(w: World, v: World, born: int, cpu: nat, other: int, now: nat)
    requires Tracking(w, born, cpu) && other != born && Proc(7, other) !in w.ledger && Saw(w, v, other, now)
    ensures v.gone.Of(Cpu) == w.gone.Of(Cpu) + cpu && v.back == w.back && Ledger(v, Cpu) == Ledger(w, Cpu) + now
  {
    LedgerAdds(w, 7, Obs(other, Shot(now)), Cpu);
  }

  // ----- the reported total never decreases

  /** A process sampled before shows at least the counter it showed then. */
  ghost predicate CountersRise(w: World, e: Tick, f: Figure) {
    forall pid :: pid in e.sampled && Proc(pid, e.sampled[pid].born) in w.ledger ==>
      w.ledger[Proc(pid, e.sampled[pid].born)].Of(f) <= e.sampled[pid].snap.used.Of(f)
  }

  ghost predicate NotAbove(live: map<int, Snap>, sampled: map<int, Obs>, f: Figure) {
    forall pid :: pid in live && pid in sampled ==> live[pid].used.Of(f) <= sampled[pid].snap.used.Of(f)
  }

  lemma {:induction false} SeeAllRaises(w: World, pids: seq<int>, sampled: map<int, Obs>, f: Figure)
    requires NotAbove(w.agg.live, sampled, f)
    ensures NotAbove(SeeAll(w, pids, sampled).agg.live, sampled, f)
    ensures SeeAll(w, pids, sampled).agg.Total(f) >= w.agg.Total(f)
  {
    if pids != [] {
      var p := pids[|pids| - 1];
      SeeAllRaises(w, pids[..|pids| - 1], sampled, f);
      if p in sampled {
        ObserveAdds(SeeAll(w, pids[..|pids| - 1], sampled).agg, p, sampled[p].snap, f);
      }
    }
  }

  lemma {:induction false} LoseAllKeepsTotal(w: World, dead: seq<int>, f: Figure)
    ensures LoseAll(w, dead).agg.Total(f) == w.agg.Total(f)
  {
    if dead != [] {
      LoseAllKeepsTotal(w, dead[..|dead| - 1], f);
      RetireKeepsTotal(LoseAll(w, dead[..|dead| - 1]).agg, dead[|dead| - 1], f);
    }
  }

  lemma TotalRises(w: World, e: Tick, f: Figure)
    requires Linked(w) && NoReuse(w, e) && CountersRise(w, e, f)
    ensures Next(w, e).agg.Total(f) >= w.agg.Total(f)
  {
    var pids := Joined(w.tracked, e.found);
    forall pid | pid in w.agg.live && pid in e.sampled
      ensures w.agg.live[pid].used.Of(f) <= e.sampled[pid].snap.used.Of(f)
    {
      assert w.ledger[Proc(pid, w.births[pid])] == w.agg.live[pid].used;
    }
    SeeAllRaises(w, pids, e.sampled, f);
    LoseAllKeepsTotal(SeeAll(w, pids, e.sampled), Dead(pids, Snaps(e.sampled)), f);
  }

  /** Ticks in clock order, no pid reused unobserved, CPU counters that only rise. */
  ghost predicate Orderly(ticks: seq<Tick>) {
    ticks != [] ==>
      var before, e := ticks[..|ticks| - 1], ticks[|ticks| - 1];
      && Orderly(before) && NoReuse(Run(before), e) && CountersRise(Run(before), e, Cpu)
      && (before != [] ==> before[|before| - 1].t <= e.t)
  }

  ghost function TotalAt(ticks: seq<Tick>): nat { Run(ticks).agg.Total(Cpu) }

  function RssAt(ticks: seq<Tick>): nat
    requires ticks != []
  {
    var e := ticks[|ticks| - 1];
    SumOf(Joined(Run(ticks[..|ticks| - 1]).tracked, e.found), Snaps(e.sampled)).rss
  }

  /** The role's rows of the tick stream, as `series_from_role_ticks` reads them. */
  ghost function Series(ticks: seq<Tick>, anchor: int): seq<CostWindow.Sample> {
    if ticks == [] then [] else
      Series(ticks[..|ticks| - 1], anchor) + [RowOf(anchor + ticks[|ticks| - 1].t, TotalAt(ticks), RssAt(ticks))]
  }

  ghost function RowOf(t: int, cpu: nat, rss: nat): CostWindow.Sample { CostWindow.Sample(t, Some(cpu), Some(rss)) }

  lemma OrderlyStep(ticks: seq<Tick>)
    requires Orderly(ticks) && ticks != []
    ensures var before, e := ticks[..|ticks| - 1], ticks[|ticks| - 1];
            Orderly(before) && TotalAt(before) <= TotalAt(ticks)
            && (before != [] ==> before[|before| - 1].t <= e.t)
  {
    RunBalances(ticks[..|ticks| - 1], Cpu);
    TotalRises(Run(ticks[..|ticks| - 1]), ticks[|ticks| - 1], Cpu);
  }

  ghost predicate Under(s: seq<CostWindow.Sample>, t: int, cpu: nat) {
    forall i :: 0 <= i < |s| ==> s[i].t <= t && s[i].cpu.Some? && s[i].cpu.value <= cpu
  }

  ghost predicate Rising(s: seq<CostWindow.Sample>, t: int, cpu: nat) {
    CostWindow.TimeSorted(s) && CostWindow.CounterRises(s) && Under(s, t, cpu)
  }

  lemma RisingGrows(s: seq<CostWindow.Sample>, t0: int, cpu0: nat, t: int, cpu: nat, rss: nat)
    requires (s != [] ==> t0 <= t) && cpu0 <= cpu && Rising(s, t0, cpu0)
    ensures Rising(s + [RowOf(t, cpu, rss)], t, cpu)
  {
  }

  lemma {:induction false} SeriesRises(ticks: seq<Tick>, anchor: int)
    requires Orderly(ticks)
    ensures Rising(Series(ticks, anchor), if ticks == [] then 0 else anchor + ticks[|ticks| - 1].t, TotalAt(ticks))
  {
    if ticks != [] {
      var before := ticks[..|ticks| - 1];
      OrderlyStep(ticks);
      SeriesRises(before, anchor);
      RisingGrows(Series(before, anchor), if before == [] then 0 else anchor + before[|before| - 1].t, TotalAt(before),
                  anchor + ticks[|ticks| - 1].t, TotalAt(ticks), RssAt(ticks));
    }
  }

  /** Fed by the collector, no window costs less than nothing. */
  lemma CollectedCostIsNotNegative(ticks: seq<Tick>, anchor: int, t0: int, t1: int)
    requires Orderly(ticks) && t0 < t1 && CostWindow.Resolved(Series(ticks, anchor), t0, t1)
    ensures CostWindow.CostOf(Series(ticks, anchor), Some(t0), Some(t1)).value.cpu >= 0
  {
    SeriesRises(ticks, anchor);
    CostWindow.CostIsNotNegative(Series(ticks, anchor), t0, t1);
  }
}
