/** `TreeCollector._discover`: which processes belong to a role's tree. */
module Discovery {
  import opened Wrappers

  /** One entry of the process table. */
  datatype Proc = Proc(pid: int, ppid: int)

  /** The children of a pid, in scan order. */
  function ChildrenOf(scan: seq<Proc>, ppid: int): seq<int> {
    if scan == [] then [] else
      var p := scan[|scan| - 1];
      ChildrenOf(scan[..|scan| - 1], ppid) + if p.ppid == ppid then [p.pid] else []
  }

  function Listed(scan: seq<Proc>): set<int> { set p | p in scan :: p.pid }

  /** A role's walk: the table, the role's roots, and the pids that are tracked already or that
      `psutil.Process` can open although the scan missed them. */
  datatype Walk = Walk(scan: seq<Proc>, roots: seq<int>, tracked: set<int>, resolvable: set<int>) {
    /** A pid the walk can hold on to. */
    predicate Known(pid: int) { pid in tracked || pid in Listed(scan) || pid in resolvable }

    predicate Link(p: int, c: int) { Known(p) && c in ChildrenOf(scan, p) }

    /** A chain of parents and children from a root, each link but the last one known. */
    ghost predicate Chain(path: seq<int>) {
      if |path| <= 1 then path != [] && path[0] in roots
      else Chain(path[..|path| - 1]) && Link(path[|path| - 2], path[|path| - 1])
    }

    ghost predicate Visited(pid: int) { exists path :: Chain(path) && path[|path| - 1] == pid }

    /** Reachable from a root through known pids, and known itself. */
    ghost predicate Reachable(pid: int) { Visited(pid) && Known(pid) }

    ghost function Universe(): set<int> { (set r | r in roots) + Listed(scan) }
  }

  lemma {:induction false} ChildrenAreListed(scan: seq<Proc>, ppid: int)
    ensures forall c :: c in ChildrenOf(scan, ppid) ==> c in Listed(scan)
  {
    if scan != [] {
      var n := |scan| - 1;
      ChildrenAreListed(scan[..n], ppid);
      assert scan == scan[..n] + [scan[n]];
    }
  }

  lemma ScanGrows(scan: seq<Proc>, i: nat, ppid: int)
    requires i < |scan|
    ensures ChildrenOf(scan[..i + 1], ppid) ==
            ChildrenOf(scan[..i], ppid) + if scan[i].ppid == ppid then [scan[i].pid] else []
    ensures Listed(scan[..i + 1]) == Listed(scan[..i]) + {scan[i].pid}
  {
    assert scan[..i + 1] == scan[..i] + [scan[i]] && scan[..i + 1][..i] == scan[..i];
  }

  /** The index maps every ppid to its children. */
  ghost predicate Indexes(children: map<int, seq<int>>, scan: seq<Proc>) {
    forall p :: ChildrenOf(scan, p) == if p in children then children[p] else []
  }

  /** The ppid -> children index and the process objects of one scan. */
  method Index(scan: seq<Proc>) returns (children: map<int, seq<int>>, procs: set<int>)
    ensures procs == Listed(scan)
    ensures Indexes(children, scan)
  {
    children, procs := map[], {};
    for i := 0 to |scan|
      invariant procs == Listed(scan[..i])
      invariant Indexes(children, scan[..i])
    {
      ScanGrows(scan, i, scan[i].ppid);
      forall p { ScanGrows(scan, i, p); }
      var p := scan[i];
      children := children[p.ppid := (if p.ppid in children then children[p.ppid] else []) + [p.pid]];
      procs := procs + {p.pid};
    }
    assert scan[..|scan|] == scan;
  }

  lemma RootIsVisited(w: Walk, r: int)
    requires r in w.roots
    ensures w.Visited(r)
  {
    assert w.Chain([r]);
  }

  lemma ChildIsVisited(w: Walk, p: int, c: int)
    requires w.Visited(p) && w.Link(p, c)
    ensures w.Visited(c)
  {
    var path :| w.Chain(path) && path[|path| - 1] == p;
    assert (path + [c])[..|path|] == path;
    assert w.Chain(path + [c]);
  }

  /** Seen or still to be seen: the roots, and the children of known pids already seen. */
  ghost predicate Covered(w: Walk, seen: set<int>, stack: seq<int>) {
    && (forall r :: r in w.roots ==> r in seen || r in stack)
    && (forall p, c :: p in seen && w.Link(p, c) ==> c in seen || c in stack)
  }

  ghost predicate AllVisited(w: Walk, seen: set<int>, stack: seq<int>) {
    && (forall p :: p in seen ==> w.Visited(p))
    && (forall p :: p in stack ==> w.Visited(p) && p in w.Universe())
  }

  /** A covered set with nothing left to see holds every visited pid. */
  lemma {:induction false} CoveredHoldsChain(w: Walk, seen: set<int>, path: seq<int>)
    requires w.Chain(path) && Covered(w, seen, [])
    ensures path[|path| - 1] in seen
  {
    var n := |path| - 1;
    if n > 0 {
      CoveredHoldsChain(w, seen, path[..n]);
      var p, c := path[n - 1], path[n];
      assert p in seen;
      assert w.Link(p, c);
      assert Covered(w, seen, []);
      assert c in seen;
    }
  }

  lemma VisitKeepsCovered(w: Walk, seen: set<int>, rest: seq<int>, pid: int, pushed: seq<int>)
    requires Covered(w, seen, rest + [pid])
    requires forall c :: w.Link(pid, c) ==> c in pushed
    ensures Covered(w, seen + {pid}, rest + pushed)
  {
  }

  lemma VisitKeepsVisited(w: Walk, seen: set<int>, rest: seq<int>, pid: int)
    requires AllVisited(w, seen, rest + [pid])
    ensures AllVisited(w, seen + {pid}, rest)
    ensures w.Known(pid) ==> AllVisited(w, seen + {pid}, rest + ChildrenOf(w.scan, pid))
  {
    assert pid in rest + [pid];
    if w.Known(pid) {
      ChildrenAreListed(w.scan, pid);
      forall c | c in ChildrenOf(w.scan, pid) ensures w.Visited(c) && c in w.Universe() {
        ChildIsVisited(w, pid, c);
      }
    }
  }

  /** The old pids, and those seen that are known. */
  ghost predicate Holds(w: Walk, tracked: set<int>, seen: set<int>) {
    forall p :: p in tracked <==> p in w.tracked || (p in seen && w.Known(p))
  }

  /** The loop's state between two rounds. */
  ghost predicate Walking(w: Walk, tracked: set<int>, seen: set<int>, stack: seq<int>) {
    Holds(w, tracked, seen) && AllVisited(w, seen, stack) && Covered(w, seen, stack)
  }

  lemma SkipsSeen(w: Walk, tracked: set<int>, seen: set<int>, rest: seq<int>, pid: int)
    requires Walking(w, tracked, seen, rest + [pid]) && pid in seen
    ensures Walking(w, tracked, seen, rest)
  {
    PopKeepsCovered(w, seen, rest, pid);
  }

  lemma SkipsUnknown(w: Walk, tracked: set<int>, seen: set<int>, rest: seq<int>, pid: int)
    requires Walking(w, tracked, seen, rest + [pid]) && pid !in seen && !w.Known(pid)
    ensures Walking(w, tracked, seen + {pid}, rest)
  {
    VisitKeepsVisited(w, seen, rest, pid);
    VisitKeepsCovered(w, seen, rest, pid, []);
    assert rest + [] == rest;
  }

  lemma Visits(w: Walk, tracked: set<int>, seen: set<int>, rest: seq<int>, pid: int)
    requires Walking(w, tracked, seen, rest + [pid]) && pid !in seen && w.Known(pid)
    ensures Walking(w, tracked + {pid}, seen + {pid}, rest + ChildrenOf(w.scan, pid))
  {
    VisitKeepsVisited(w, seen, rest, pid);
    VisitKeepsCovered(w, seen, rest, pid, ChildrenOf(w.scan, pid));
  }

  lemma TopIsInUniverse(w: Walk, seen: set<int>, rest: seq<int>, pid: int)
    requires AllVisited(w, seen, rest + [pid])
    ensures pid in w.Universe()
  {
    assert pid in rest + [pid];
  }

  lemma KnownIs(w: Walk, tracked: set<int>, seen: set<int>, pid: int)
    requires Holds(w, tracked, seen) && pid !in seen
    ensures w.Known(pid) <==> pid in tracked || pid in Listed(w.scan) || pid in w.resolvable
  {
  }

  /** With nothing left on the stack, the seen pids are the visited ones. */
  lemma SeenIsVisited(w: Walk, seen: set<int>)
    requires AllVisited(w, seen, []) && Covered(w, seen, [])
    ensures forall p :: p in seen <==> w.Visited(p)
  {
    forall p ensures p in seen <==> w.Visited(p) {
      if w.Visited(p) {
        var path :| w.Chain(path) && path[|path| - 1] == p;
        CoveredHoldsChain(w, seen, path);
      }
    }
  }

  /** The explicit-stack walk of one role's tree.  It ends on every table, cycles included. */
  method WalkRole(w: Walk, children: map<int, seq<int>>) returns (tracked: set<int>)
    requires Indexes(children, w.scan)
    ensures forall p :: p in tracked <==> p in w.tracked || w.Reachable(p)
  {
    tracked := w.tracked;
    var seen: set<int>, stack := {}, w.roots;
    StartIsVisited(w);
    while stack != []
      invariant Walking(w, tracked, seen, stack)
      decreases w.Universe() - seen, |stack|
    {
      var pid := stack[|stack| - 1];
      var rest := stack[..|stack| - 1];
      assert stack == rest + [pid];
      if pid in seen {
        SkipsSeen(w, tracked, seen, rest, pid);
        stack := rest;
        continue;
      }
      TopIsInUniverse(w, seen, rest, pid);
      KnownIs(w, tracked, seen, pid);
      if pid !in tracked && pid !in Listed(w.scan) && pid !in w.resolvable {
        SkipsUnknown(w, tracked, seen, rest, pid);
        seen, stack := seen + {pid}, rest;
        continue;
      }
      Visits(w, tracked, seen, rest, pid);
      seen := seen + {pid};
      tracked := tracked + {pid};
      stack := rest + if pid in children then children[pid] else [];
    }
    SeenIsVisited(w, seen);
  }

  lemma StartIsVisited(w: Walk)
    ensures AllVisited(w, {}, w.roots) && Covered(w, {}, w.roots)
  {
    forall r | r in w.roots ensures w.Visited(r) && r in w.Universe() { RootIsVisited(w, r); }
  }

  lemma PopKeepsCovered(w: Walk, seen: set<int>, rest: seq<int>, pid: int)
    requires Covered(w, seen, rest + [pid]) && AllVisited(w, seen, rest + [pid]) && pid in seen
    ensures Covered(w, seen, rest) && AllVisited(w, seen, rest)
  {
  }

  /** A role's pids after a cycle: the old ones and exactly the reachable ones; the old ones alone if
      its pid source raised. */
  ghost predicate Refreshed(now: set<int>, before: set<int>, scan: seq<Proc>, roots: Option<seq<int>>,
                            resolvable: set<int>)
  {
    match roots
    case None => now == before
    case Some(rs) => forall p :: p in now <==> p in before || Walk(scan, rs, before, resolvable).Reachable(p)
  }

  /** The collector's view of its roles. */
  class TreeCollector {
    var tracked: map<string, set<int>>
    var lastDiscovery: int
    const interval: int

    constructor (roles: set<string>, interval: int)
      ensures tracked == map r | r in roles :: {}
      ensures lastDiscovery == 0 && this.interval == interval
    {
      tracked, lastDiscovery, this.interval := map r | r in roles :: {}, 0, interval;
    }

    /** The last discovery is recent enough to keep. */
    predicate Recent(now: int)
      reads this
    {
      now - lastDiscovery < interval && lastDiscovery > 0
    }

    /** One discovery cycle.  `roots` holds what each role's pid source returned, `None` where it
        raised; such a role, and every role in a cycle that is too recent, keeps what it tracked. */
    method Discover(now: int, scan: seq<Proc>, roots: map<string, Option<seq<int>>>, resolvable: set<int>)
      modifies this
      ensures old(0 < lastDiscovery && now < lastDiscovery + interval) ==>
                tracked == old(tracked) && lastDiscovery == old(lastDiscovery)
      ensures old(lastDiscovery <= 0 || now >= lastDiscovery + interval) ==>
                && lastDiscovery == now && tracked.Keys == old(tracked).Keys
                && forall r :: r in old(tracked) ==>
                     Refreshed(tracked[r], old(tracked)[r], scan, if r in roots then roots[r] else None, resolvable)
    {
      if Recent(now) { return; }
      lastDiscovery := now;
      var children, procs := Index(scan);
      var before := tracked;
      var rest := before.Keys;
      while rest != {}
        invariant lastDiscovery == now && rest <= before.Keys == tracked.Keys
        invariant forall r :: r in rest ==> tracked[r] == before[r]
        invariant forall r :: r in before && r !in rest ==>
                    Refreshed(tracked[r], before[r], scan, if r in roots then roots[r] else None, resolvable)
      {
        var role :| role in rest;
        rest := rest - {role};
        if role in roots && roots[role].Some? {
          var found := WalkRole(Walk(scan, roots[role].value, before[role], resolvable), children);
          tracked := tracked[role := found];
        }
      }
    }
  }
}
