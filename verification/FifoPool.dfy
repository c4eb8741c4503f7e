/** The bounded FIFO pool behind `reconstruct`, as a step machine, and the proof that its admission
    instants can be read off its completion times. */
module FifoPool {
  import opened PerfRecords
  import opened Salvage
  import opened Sorting
  import opened Wrappers

  // ----- the machine

  /** Jobs are numbered in enqueue order.  Waiters are granted in that order, so the jobs admitted
      so far are exactly the first `|admitted|`. */
  datatype Pool = Pool(now: int,
                       submitted: seq<int>,           // enqueue instant of each job
                       admitted: seq<int>,            // admission instant of each admitted job
                       finished: seq<Option<int>>,    // completion instant of each job
                       times: seq<int>)               // completion instants in the order they happened

  datatype Event = Enqueue(at: int) | Grant | Finish(job: nat, at: int)

  /** A waiter and a free permit: the grant happens before time moves on. */
  predicate GrantPending(s: Pool, c: nat) {
    |s.admitted| < |s.submitted| && |s.admitted| - |s.times| < c
  }

  predicate MayPass(s: Pool, c: nat, at: int) {
    at == s.now || (at > s.now && !GrantPending(s, c))
  }

  predicate Enabled(s: Pool, c: nat, e: Event) {
    match e
    case Enqueue(at) =>
      // Every job is enqueued before the first completion, at strictly increasing instants.
      s.times == [] && MayPass(s, c, at) && (s.submitted == [] || s.submitted[|s.submitted| - 1] < at)
    case Grant => GrantPending(s, c)
    case Finish(job, at) =>
      job < |s.admitted| && job < |s.finished| && s.finished[job].None? && MayPass(s, c, at)
  }

  function Next(s: Pool, c: nat, e: Event): Pool
    requires Enabled(s, c, e)
  {
    match e
    case Enqueue(at) => s.(now := at, submitted := s.submitted + [at], finished := s.finished + [None])
    case Grant => s.(admitted := s.admitted + [s.now])
    case Finish(job, at) => s.(now := at, finished := s.finished[job := Some(at)], times := s.times + [at])
  }

  /** The state a run reaches, if every event of it was possible. */
  function Run(open: int, c: nat, events: seq<Event>): Option<Pool> {
    if events == [] then Some(Pool(open, [], [], [], [])) else
      var s := Run(open, c, events[..|events| - 1]);
      var e := events[|events| - 1];
      if s.Some? && Enabled(s.value, c, e) then Some(Next(s.value, c, e)) else None
  }

  // ----- what every run keeps

  function Values(xs: seq<Option<int>>): seq<int> {
    if xs == [] then [] else (if xs[0].Some? then [xs[0].value] else []) + Values(xs[1..])
  }

  ghost predicate Rising(xs: seq<int>) { forall i, j :: 0 <= i < j < |xs| ==> xs[i] < xs[j] }

  ghost predicate Ordered(xs: seq<int>) { forall i, j :: 0 <= i < j < |xs| ==> xs[i] <= xs[j] }

  ghost predicate Within(xs: seq<int>, lo: int, hi: int) { forall i :: 0 <= i < |xs| ==> lo <= xs[i] <= hi }

  ghost predicate Clocked(s: Pool, open: int) {
    && open <= s.now && Rising(s.submitted) && Ordered(s.times)
    && Within(s.submitted, open, s.now)
    && (s.submitted == [] ==> s.times == [] && s.admitted == [])
    && (s.submitted != [] ==> Within(s.times, s.submitted[0], s.now) && Within(s.admitted, s.submitted[0], s.now))
  }

  /** Finished jobs were admitted, and no later than they finished. */
  ghost predicate AdmittedFirst(s: Pool) {
    forall k :: 0 <= k < |s.finished| && s.finished[k].Some? ==>
      k < |s.admitted| && s.admitted[k] <= s.finished[k].value
  }

  ghost predicate Booked(s: Pool, c: nat) {
    && |s.times| <= |s.admitted| <= |s.submitted| == |s.finished|
    && |s.admitted| - |s.times| <= c
    && multiset(Values(s.finished)) == multiset(s.times)
    && AdmittedFirst(s)
  }

  /** The first C jobs are admitted as they are enqueued, every later one at the completion that
      freed its permit. */
  ghost predicate AdmittedByCompletions(s: Pool, c: nat) {
    && (forall k :: 0 <= k < |s.admitted| && k < c && k < |s.submitted| ==> s.admitted[k] == s.submitted[k])
    && (forall k :: c <= k < |s.admitted| ==> k - c < |s.times| && s.admitted[k] == s.times[k - c])
  }

  /** A permit still to be granted was freed at this very instant. */
  ghost predicate PendingIsNow(s: Pool, c: nat) {
    && (|s.admitted| < |s.submitted| && |s.admitted| < c ==>
          |s.submitted| == |s.admitted| + 1 && s.submitted[|s.admitted|] == s.now)
    && (|s.admitted| < |s.submitted| ==>
          forall i :: 0 <= i < |s.times| && |s.admitted| - c <= i ==> s.times[i] == s.now)
  }

  ghost predicate Inv(s: Pool, open: int, c: nat) {
    Booked(s, c) && Clocked(s, open) && AdmittedByCompletions(s, c) && PendingIsNow(s, c)
  }

  lemma {:induction false} ValuesAppend(xs: seq<Option<int>>, x: Option<int>)
    ensures Values(xs + [x]) == Values(xs) + (if x.Some? then [x.value] else [])
  {
    if xs != [] {
      ValuesAppend(xs[1..], x);
      assert (xs + [x])[1..] == xs[1..] + [x];
    }
  }

  lemma {:induction false} ValuesUpdate(xs: seq<Option<int>>, j: nat, t: int)
    requires j < |xs| && xs[j].None?
    ensures multiset(Values(xs[j := Some(t)])) == multiset(Values(xs)) + multiset{t}
  {
    if j == 0 {
      assert xs[0 := Some(t)][1..] == xs[1..];
    } else {
      ValuesUpdate(xs[1..], j - 1, t);
      assert xs[j := Some(t)][1..] == xs[1..][j - 1 := Some(t)];
    }
  }

  lemma WithinGrows(xs: seq<int>, lo: int, hi: int, x: int)
    requires Within(xs, lo, hi) && hi <= x && lo <= x
    ensures Within(xs, lo, x) && Within(xs + [x], lo, x)
  {
  }

  lemma OrderGrows(xs: seq<int>, lo: int, hi: int, x: int)
    requires Within(xs, lo, hi) && hi <= x && Ordered(xs)
    ensures Ordered(xs + [x])
  {
  }

  lemma EnqueueKeepsClock(s: Pool, open: int, c: nat, at: int)
    requires Clocked(s, open) && Enabled(s, c, Enqueue(at))
    ensures Clocked(Next(s, c, Enqueue(at)), open)
  {
    WithinGrows(s.submitted, open, s.now, at);
    assert Rising(s.submitted + [at]);
    if s.submitted != [] {
      assert open <= s.submitted[0] <= s.now;
      WithinGrows(s.admitted, s.submitted[0], s.now, at);
    }
  }

  lemma FinishKeepsClock(s: Pool, open: int, c: nat, job: nat, at: int)
    requires Clocked(s, open) && Enabled(s, c, Finish(job, at))
    ensures Clocked(Next(s, c, Finish(job, at)), open)
  {
    assert open <= s.submitted[0] <= s.now;
    WithinGrows(s.submitted, open, s.now, at);
    WithinGrows(s.admitted, s.submitted[0], s.now, at);
    WithinGrows(s.times, s.submitted[0], s.now, at);
    OrderGrows(s.times, s.submitted[0], s.now, at);
  }

  lemma ClockKept(s: Pool, open: int, c: nat, e: Event)
    requires Booked(s, c) && Clocked(s, open) && Enabled(s, c, e)
    ensures Clocked(Next(s, c, e), open)
  {
    match e
    case Enqueue(at) => EnqueueKeepsClock(s, open, c, at);
    case Grant => assert s.submitted[0] <= s.now; WithinGrows(s.admitted, s.submitted[0], s.now, s.now);
    case Finish(job, at) => FinishKeepsClock(s, open, c, job, at);
  }

  lemma BooksKept(s: Pool, open: int, c: nat, e: Event)
    requires Booked(s, c) && Clocked(s, open) && Enabled(s, c, e)
    ensures Booked(Next(s, c, e), c)
  {
    AdmittedFirstKept(s, open, c, e);
    match e
    case Enqueue(at) => ValuesAppend(s.finished, None);
    case Grant =>
    case Finish(job, at) =>
      ValuesUpdate(s.finished, job, at);
      RoomForOneMore(s, c, job);
  }

  lemma AdmittedFirstKept(s: Pool, open: int, c: nat, e: Event)
    requires AdmittedFirst(s) && Clocked(s, open) && Enabled(s, c, e)
    ensures AdmittedFirst(Next(s, c, e))
  {
  }

  lemma AdmissionsKept(s: Pool, open: int, c: nat, e: Event)
    requires Inv(s, open, c) && Enabled(s, c, e)
    ensures AdmittedByCompletions(Next(s, c, e), c)
  {
  }

  lemma EnqueueKeepsPending(s: Pool, c: nat, at: int)
    requires Booked(s, c) && PendingIsNow(s, c) && Enabled(s, c, Enqueue(at))
    requires s.submitted != [] ==> s.submitted[|s.submitted| - 1] <= s.now
    ensures PendingIsNow(Next(s, c, Enqueue(at)), c)
  {
  }

  lemma GrantKeepsPending(s: Pool, c: nat)
    requires Booked(s, c) && PendingIsNow(s, c) && Enabled(s, c, Grant)
    ensures PendingIsNow(Next(s, c, Grant), c)
  {
  }

  lemma FinishKeepsPending(s: Pool, c: nat, job: nat, at: int)
    requires Booked(s, c) && PendingIsNow(s, c) && Enabled(s, c, Finish(job, at))
    ensures PendingIsNow(Next(s, c, Finish(job, at)), c)
  {
  }

  lemma PendingKept(s: Pool, open: int, c: nat, e: Event)
    requires Inv(s, open, c) && Enabled(s, c, e)
    ensures PendingIsNow(Next(s, c, e), c)
  {
    match e
    case Enqueue(at) => EnqueueKeepsPending(s, c, at);
    case Grant => GrantKeepsPending(s, c);
    case Finish(job, at) => FinishKeepsPending(s, c, job, at);
  }

  /** An unfinished admitted job leaves fewer completions than admissions. */
  lemma RoomForOneMore(s: Pool, c: nat, job: nat)
    requires Booked(s, c) && job < |s.admitted| && s.finished[job].None?
    ensures |s.times| < |s.admitted|
  {
    var n := |s.admitted|;
    FewerValues(s.finished, n, job);
    assert |s.times| == |multiset(s.times)| == |Values(s.finished)|;
  }

  lemma {:induction false} FewerValues(xs: seq<Option<int>>, n: nat, job: nat)
    requires job < n <= |xs| && xs[job].None?
    requires forall k :: n <= k < |xs| ==> xs[k].None?
    ensures |Values(xs)| < n
  {
    if job == 0 {
      ValuesWithin(xs[1..], n - 1);
    } else {
      FewerValues(xs[1..], n - 1, job - 1);
    }
  }

  lemma {:induction false} ValuesWithin(xs: seq<Option<int>>, n: nat)
    requires n <= |xs| && forall k :: n <= k < |xs| ==> xs[k].None?
    ensures |Values(xs)| <= n
  {
    if xs != [] {
      if n == 0 { ValuesWithin(xs[1..], 0); } else { ValuesWithin(xs[1..], n - 1); }
    }
  }

  lemma {:induction false} RunKeeps(open: int, c: nat, events: seq<Event>)
    requires c >= 1 && Run(open, c, events).Some?
    ensures Inv(Run(open, c, events).value, open, c)
  {
    if events != [] {
      var before := events[..|events| - 1];
      RunKeeps(open, c, before);
      var s := Run(open, c, before).value;
      var e := events[|events| - 1];
      ClockKept(s, open, c, e);
      BooksKept(s, open, c, e);
      AdmissionsKept(s, open, c, e);
      PendingKept(s, open, c, e);
    }
  }

  // ----- the records a run leaves, and the reconstruction from them

  /** The record of one job; the fields the pool does not decide come from `names`. */
  function JobRow(s: Pool, names: seq<Row>, k: nat): Row
    requires k < |s.submitted| && k < |s.finished| && k < |names|
  {
    names[k].(submit := Some(s.submitted[k]), completion := s.finished[k])
  }

  /** The records in enqueue order. */
  function JobRows(s: Pool, names: seq<Row>): seq<Row>
    requires |names| == |s.submitted| == |s.finished|
  {
    seq(|names|, k requires 0 <= k < |names| => JobRow(s, names, k))
  }

  ghost predicate Complete(s: Pool) {
    s.submitted != [] && |s.times| == |s.submitted| && forall k :: 0 <= k < |s.finished| ==> s.finished[k].Some?
  }

  // ----- what can happen next

  lemma Extend(open: int, c: nat, events: seq<Event>, s: Pool, e: Event) returns (later: seq<Event>, s': Pool)
    requires Run(open, c, events) == Some(s) && Enabled(s, c, e)
    ensures later == events + [e] && s' == Next(s, c, e) && Run(open, c, later) == Some(s')
  {
    later, s' := events + [e], Next(s, c, e);
    assert later[..|events|] == events;
  }

  lemma {:induction false} GrantsAll(open: int, c: nat, events: seq<Event>, s: Pool)
    returns (later: seq<Event>, s': Pool)
    requires Run(open, c, events) == Some(s)
    ensures events <= later && Run(open, c, later) == Some(s') && !GrantPending(s', c)
    ensures s' == s.(admitted := s'.admitted) && s.admitted <= s'.admitted
    decreases |s.submitted| - |s.admitted|
  {
    later, s' := events, s;
    if GrantPending(s, c) {
      later, s' := Extend(open, c, events, s, Grant);
      later, s' := GrantsAll(open, c, later, s');
    }
  }

  /** At any moment an admitted job may finish, at that instant or any later one. */
  lemma AnyJobMayFinish(open: int, c: nat, events: seq<Event>, job: nat, at: int) returns (later: seq<Event>)
    requires c >= 1 && Run(open, c, events).Some?
    requires var s := Run(open, c, events).value;
             job < |s.admitted| && job < |s.finished| && s.finished[job].None? && at >= s.now
    ensures events <= later && Run(open, c, later).Some?
    ensures var s, s' := Run(open, c, events).value, Run(open, c, later).value;
            s'.finished == s.finished[job := Some(at)] && s'.times == s.times + [at] && s'.submitted == s.submitted
  {
    var s;
    later, s := GrantsAll(open, c, events, Run(open, c, events).value);
    later, s := Extend(open, c, later, s, Finish(job, at));
  }

  /** Before the first completion one more job may be enqueued, at any later instant. */
  lemma AnyInstantMayEnqueue(open: int, c: nat, events: seq<Event>, at: int) returns (later: seq<Event>)
    requires c >= 1 && Run(open, c, events).Some?
    requires var s := Run(open, c, events).value; s.times == [] && at > s.now
    ensures events <= later && Run(open, c, later).Some?
    ensures Run(open, c, later).value.submitted == Run(open, c, events).value.submitted + [at]
  {
    var s;
    RunKeeps(open, c, events);
    later, s := GrantsAll(open, c, events, Run(open, c, events).value);
    later, s := Extend(open, c, later, s, Enqueue(at));
  }

  lemma {:induction false} AllHaveValues(xs: seq<Option<int>>, n: nat)
    requires n <= |xs| && forall k :: 0 <= k < n ==> xs[k].Some?
    ensures |Values(xs)| >= n
  {
    if n > 0 { AllHaveValues(xs[1..], n - 1); }
  }

  lemma SomeUnfinished(s: Pool, c: nat) returns (job: nat)
    requires Booked(s, c) && |s.times| < |s.admitted|
    ensures job < |s.admitted| && job < |s.finished| && s.finished[job].None?
  {
    assert |s.times| == |multiset(s.times)| == |Values(s.finished)|;
    if k :| 0 <= k < |s.admitted| && s.finished[k].None? {
      job := k;
    } else {
      AllHaveValues(s.finished, |s.admitted|);
      assert false;
    }
  }

  /** Every run can go on until every job is served. */
  lemma {:induction false} EveryJobCanBeServed(open: int, c: nat, events: seq<Event>) returns (later: seq<Event>)
    requires c >= 1 && Run(open, c, events).Some? && Run(open, c, events).value.submitted != []
    ensures events <= later && Run(open, c, later).Some? && Complete(Run(open, c, later).value)
    ensures Run(open, c, later).value.submitted == Run(open, c, events).value.submitted
    decreases |Run(open, c, events).value.submitted| - |Run(open, c, events).value.times|
  {
    var s := Run(open, c, events).value;
    RunKeeps(open, c, events);
    if |s.times| == |s.submitted| {
      later := events;
      forall k | 0 <= k < |s.finished| ensures s.finished[k].Some? {
        if s.finished[k].None? { RoomForOneMore(s, c, k); }
      }
    } else {
      later, s := GrantsAll(open, c, events, s);
      RunKeeps(open, c, later);
      var job := SomeUnfinished(s, c);
      later, s := Extend(open, c, later, s, Finish(job, s.now));
      later := EveryJobCanBeServed(open, c, later);
    }
  }

  /** A run that starts at a positive clock, serves every job, and names the documents apart. */
  ghost predicate Served(open: int, c: nat, events: seq<Event>, names: seq<Row>) {
    && open >= 1 && c >= 1
    && Run(open, c, events).Some? && Complete(Run(open, c, events).value)
    && |names| == |Run(open, c, events).value.submitted| == |Run(open, c, events).value.finished|
    && DistinctDocs(names)
  }

  lemma {:induction false} InsertCompletions(r: Row, rows: seq<Row>, key: Row -> int)
    ensures multiset(Completions(Insert(r, rows, key))) == multiset(Completions([r] + rows))
  {
    assert ([r] + rows)[1..] == rows;
    if rows == [] || key(r) <= key(rows[0]) {
    } else {
      InsertCompletions(r, rows[1..], key);
      assert ([r] + rows[1..])[1..] == rows[1..];
      var rest := Insert(r, rows[1..], key);
      assert ([rows[0]] + rest)[1..] == rest;
    }
  }

  /** The order of the records does not decide which completions there are. */
  lemma {:induction false} SortCompletions(rows: seq<Row>, key: Row -> int)
    ensures multiset(Completions(Sort(rows, key))) == multiset(Completions(rows))
  {
    if rows != [] {
      var rest := Sort(rows[1..], key);
      SortCompletions(rows[1..], key);
      InsertCompletions(rows[0], rest, key);
      assert ([rows[0]] + rest)[1..] == rest;
    }
  }

  lemma {:induction false} CompletionsAreValues(rows: seq<Row>, xs: seq<Option<int>>)
    requires |rows| == |xs| && forall k :: 0 <= k < |xs| ==> rows[k].completion == xs[k]
    requires forall k :: 0 <= k < |xs| && xs[k].Some? ==> xs[k].value != 0
    ensures Completions(rows) == Values(xs)
  {
    if rows != [] {
      CompletionsAreValues(rows[1..], xs[1..]);
    }
  }

  /** Whatever order the records were written in, the model built from them holds the run's jobs in
      enqueue order, its completion instants in the order they happened, and its first enqueue. */
  lemma ModelRecoversRun(open: int, c: nat, events: seq<Event>, names: seq<Row>, rows: seq<Row>)
    requires Served(open, c, events, names)
    requires multiset(rows) == multiset(JobRows(Run(open, c, events).value, names))
    ensures var s := Run(open, c, events).value;
            Submits(rows) != [] && AllSubmitted(rows) && rows != []
            && ModelOf(rows, c) == Model(JobRows(s, names), s.times, s.submitted[0], c)
  {
    var s := Run(open, c, events).value;
    RunKeeps(open, c, events);
    var jobs := JobRows(s, names);
    assert |rows| == |multiset(rows)| == |jobs|;
    OrderRecovered(s, names, rows);
    CompletionsRecovered(s, open, c, names, rows);
    OpenRecovered(s, names, rows);
  }

  lemma JobRowsInOrder(s: Pool, names: seq<Row>)
    requires |names| == |s.submitted| == |s.finished| && Rising(s.submitted)
    ensures SortedBy(JobRows(s, names), SubmitKey) && TellsApart(SubmitKey, JobRows(s, names))
  {
    var jobs := JobRows(s, names);
    forall x, y | x in jobs && y in jobs && SubmitKey(x) == SubmitKey(y) ensures x == y {
      var i :| 0 <= i < |jobs| && jobs[i] == x;
      var j :| 0 <= j < |jobs| && jobs[j] == y;
      assert s.submitted[i] == s.submitted[j];
    }
  }

  lemma OrderRecovered(s: Pool, names: seq<Row>, rows: seq<Row>)
    requires |names| == |s.submitted| == |s.finished| && Rising(s.submitted)
    requires multiset(rows) == multiset(JobRows(s, names))
    ensures Sort(rows, SubmitKey) == JobRows(s, names) && AllSubmitted(rows)
  {
    var jobs := JobRows(s, names);
    JobRowsInOrder(s, names);
    SortRecovers(rows, jobs, SubmitKey);
    forall r | r in rows ensures r.submit.Some? {
      assert r in multiset(jobs);
    }
  }

  lemma CompletionsRecovered(s: Pool, open: int, c: nat, names: seq<Row>, rows: seq<Row>)
    requires open >= 1 && Inv(s, open, c) && |names| == |s.submitted|
    requires Sort(rows, SubmitKey) == JobRows(s, names)
    ensures multiset(Completions(rows)) == multiset(s.times)
    ensures Sort(Completions(rows), Itself) == s.times
  {
    SortCompletions(rows, SubmitKey);
    forall k | 0 <= k < |s.finished| && s.finished[k].Some? ensures s.finished[k].value != 0 {
      assert open <= s.submitted[0] <= s.admitted[k];
    }
    CompletionsAreValues(JobRows(s, names), s.finished);
    SortRecovers(Completions(rows), s.times, Itself);
  }

  lemma OpenRecovered(s: Pool, names: seq<Row>, rows: seq<Row>)
    requires |names| == |s.submitted| == |s.finished| && s.submitted != []
    requires Rising(s.submitted)
    requires multiset(rows) == multiset(JobRows(s, names))
    ensures Submits(rows) != [] && Min(Submits(rows)) == s.submitted[0]
  {
    var jobs := JobRows(s, names);
    assert jobs[0] in multiset(rows);
    SubmitsMembers(rows, s.submitted[0]);
    forall x | x in Submits(rows) ensures s.submitted[0] <= x {
      SubmitsMembers(rows, x);
      var r :| r in rows && r.submit == Some(x);
      assert r in multiset(jobs);
      var k :| 0 <= k < |jobs| && jobs[k] == r;
      if k > 0 { assert s.submitted[0] < s.submitted[k]; }
    }
    MinIs(Submits(rows), s.submitted[0]);
  }

  // ----- the claims

  /** The instant at which the pool's job counts as admitted: the batch open for the first C. */
  function Start(s: Pool, c: nat, k: nat): int
    requires k < |s.admitted| && s.submitted != []
  {
    if k < c then s.submitted[0] else s.admitted[k]
  }

  lemma JobRanks(s: Pool, names: seq<Row>, k: nat)
    requires |names| == |s.submitted| == |s.finished| && k < |names| && DistinctDocs(names)
    ensures Rank(JobRows(s, names), names[k].doc) == k
  {
    var jobs := JobRows(s, names);
    assert DistinctDocs(jobs);
    DistinctCount(jobs, jobs[k].doc);
    RankOfOnly(jobs, k);
  }

  lemma AllAdmitted(s: Pool, open: int, c: nat)
    requires Inv(s, open, c) && Complete(s)
    ensures |s.admitted| == |s.submitted| == |s.times|
    ensures forall k :: 0 <= k < |s.admitted| ==> Start(s, c, k) <= s.finished[k].value
    ensures forall k :: c <= k < |s.admitted| ==> s.admitted[k] == s.times[k - c]
  {
    forall k | 0 <= k < |s.admitted| ensures Start(s, c, k) <= s.finished[k].value {
      assert s.submitted[0] <= s.admitted[k] <= s.finished[k].value;
    }
  }

  /** In every served run, from the records in any order, each document's modelled admission is the
      pool's admission instant (the batch open for the first C), it never post-dates the document's
      own completion, so the clamp never fires, and nothing else of the record changes. */
  lemma AdmissionsRecovered(open: int, c: nat, events: seq<Event>, names: seq<Row>, rows: seq<Row>, k: nat)
    requires Served(open, c, events, names) && k < |names|
    requires multiset(rows) == multiset(JobRows(Run(open, c, events).value, names))
    ensures Submits(rows) != [] && k < |Run(open, c, events).value.admitted|
    ensures var s := Run(open, c, events).value;
            var m, r := ModelOf(rows, c), JobRow(s, names, k);
            m.Covers(r) && m.Admission(r) == Start(s, c, k) <= r.completion.value
            && m.Apply(r) == r.(submit := Some(Start(s, c, k)))
  {
    var s := Run(open, c, events).value;
    RunKeeps(open, c, events);
    ModelRecoversRun(open, c, events, names, rows);
    AllAdmitted(s, open, c);
    ModelAdmits(s, c, names, k);
  }

  /** The model of a pool's jobs gives each its admission instant. */
  lemma ModelAdmits(s: Pool, c: nat, names: seq<Row>, k: nat)
    requires |names| == |s.submitted| == |s.finished| == |s.admitted| == |s.times| && k < |names|
    requires DistinctDocs(names) && s.finished[k].Some? && Start(s, c, k) <= s.finished[k].value
    requires forall i :: c <= i < |s.admitted| ==> s.admitted[i] == s.times[i - c]
    ensures var m, r := Model(JobRows(s, names), s.times, s.submitted[0], c), JobRow(s, names, k);
            m.Covers(r) && m.Admission(r) == Start(s, c, k)
            && m.Apply(r) == r.(submit := Some(Start(s, c, k)))
  {
    JobRanks(s, names, k);
  }

  /** So `reconstruct` raises nothing on those records. */
  lemma ServedIsReconstructible(open: int, c: nat, events: seq<Event>, names: seq<Row>, rows: seq<Row>)
    requires Served(open, c, events, names)
    requires multiset(rows) == multiset(JobRows(Run(open, c, events).value, names))
    ensures Reconstructible(rows, c)
  {
    ModelRecoversRun(open, c, events, names, rows);
    var s := Run(open, c, events).value;
    assert ModelOf(rows, c).comps == s.times != [];
  }

  /** The record is in flight at an instant: submitted, not yet completed. */
  predicate InFlight(r: Row, at: int) {
    r.submit.Some? && r.completion.Some? && r.submit.value <= at < r.completion.value
  }

  function InFlightAt(at: int): Row -> bool { (r: Row) => InFlight(r, at) }

  function ModelledInFlight(m: Model, at: int): Row -> bool { (r: Row) => InFlight(m.Apply(r), at) }

  lemma {:induction false} CountModelled(m: Model, rows: seq<Row>, at: int)
    ensures CountWhere(m.ApplyAll(rows), InFlightAt(at)) == CountWhere(rows, ModelledInFlight(m, at))
  {
    if rows != [] {
      var n := |rows| - 1;
      CountModelled(m, rows[..n], at);
      assert m.ApplyAll(rows)[..n] == m.ApplyAll(rows[..n]);
    }
  }

  /** Open intervals counted by their ends: begun by `at` less ended by `at`. */
  lemma {:induction false} CountByEnds(jobs: seq<Row>, starts: seq<int>, ends: seq<int>, q: Row -> bool, at: int)
    requires |jobs| == |starts| == |ends|
    requires forall k :: 0 <= k < |jobs| ==> starts[k] <= ends[k] && (q(jobs[k]) <==> starts[k] <= at < ends[k])
    ensures CountWhere(jobs, q) == CountWhere(starts, AtMost(at)) - CountWhere(ends, AtMost(at))
  {
    if jobs != [] {
      var n := |jobs| - 1;
      CountByEnds(jobs[..n], starts[..n], ends[..n], q, at);
    }
  }

  lemma {:induction false} ValuesOfAll(xs: seq<Option<int>>)
    requires forall k :: 0 <= k < |xs| ==> xs[k].Some?
    ensures |Values(xs)| == |xs| && forall k :: 0 <= k < |xs| ==> Values(xs)[k] == xs[k].value
  {
    if xs != [] { ValuesOfAll(xs[1..]); }
  }

  lemma CountOfPrefix(xs: seq<int>, n: nat, p: int -> bool)
    requires n <= |xs|
    ensures CountWhere(xs[..n], p) <= CountWhere(xs, p)
  {
    assert xs == xs[..n] + xs[n..];
    CountAdds(xs[..n], xs[n..], p);
  }

  lemma ShiftedTail(starts: seq<int>, times: seq<int>, c: nat)
    requires |starts| == |times| && c <= |starts|
    requires forall k :: c <= k < |starts| ==> starts[k] == times[k - c]
    ensures starts == starts[..c] + times[..|starts| - c]
  {
  }

  lemma CountBehind(a: seq<int>, b: seq<int>, p: int -> bool)
    ensures CountWhere(a + b, p) <= |a| + CountWhere(b, p)
  {
    CountAdds(a, b, p);
    CountBounds(a, p);
  }

  /** At most C starts more than completions, whatever the instant. */
  lemma StartsAgainstTimes(times: seq<int>, c: nat, starts: seq<int>, at: int)
    requires |starts| == |times|
    requires forall k :: c <= k < |starts| ==> starts[k] == times[k - c]
    ensures CountWhere(starts, AtMost(at)) <= c + CountWhere(times, AtMost(at))
  {
    if |starts| <= c {
      CountBounds(starts, AtMost(at));
    } else {
      LateStarts(times, c, starts, AtMost(at));
    }
  }

  lemma LateStarts(times: seq<int>, c: nat, starts: seq<int>, p: int -> bool)
    requires |starts| == |times| > c
    requires forall k :: c <= k < |starts| ==> starts[k] == times[k - c]
    ensures CountWhere(starts, p) <= c + CountWhere(times, p)
  {
    var n := |starts| - c;
    ShiftedTail(starts, times, c);
    CountOfPrefix(times, n, p);
    CountBehind(starts[..c], times[..n], p);
  }

  lemma TimesAgainstEnds(s: Pool, at: int)
    requires Ordered(s.times) && multiset(Values(s.finished)) == multiset(s.times)
    ensures CountWhere(s.times, AtMost(at)) == CountWhere(Values(s.finished), AtMost(at))
  {
    SortRecovers(Values(s.finished), s.times, Itself);
    SortCount(Values(s.finished), Itself, AtMost(at));
  }

  function Starts(s: Pool, c: nat): (xs: seq<int>)
    requires s.submitted != []
    ensures |xs| == |s.admitted| && forall k :: 0 <= k < |xs| ==> xs[k] == Start(s, c, k)
  {
    seq(|s.admitted|, k requires 0 <= k < |s.admitted| => Start(s, c, k))
  }

  lemma JobInFlight(open: int, c: nat, events: seq<Event>, names: seq<Row>, rows: seq<Row>, k: nat, at: int)
    requires Served(open, c, events, names) && k < |names|
    requires multiset(rows) == multiset(JobRows(Run(open, c, events).value, names))
    ensures Submits(rows) != [] && k < |Run(open, c, events).value.admitted|
    ensures var s := Run(open, c, events).value;
            Start(s, c, k) <= s.finished[k].value
            && (ModelledInFlight(ModelOf(rows, c), at)(JobRows(s, names)[k]) <==>
                Start(s, c, k) <= at < s.finished[k].value)
  {
    AdmissionsRecovered(open, c, events, names, rows, k);
  }

  /** At no instant are more than C reconstructed rows in flight. */
  lemma ReconstructionFitsThePool(open: int, c: nat, events: seq<Event>, names: seq<Row>, rows: seq<Row>, at: int)
    requires Served(open, c, events, names)
    requires multiset(rows) == multiset(JobRows(Run(open, c, events).value, names))
    ensures Submits(rows) != [] && CountWhere(ModelOf(rows, c).ApplyAll(rows), InFlightAt(at)) <= c
  {
    var s := Run(open, c, events).value;
    RunKeeps(open, c, events);
    AllAdmitted(s, open, c);
    ModelRecoversRun(open, c, events, names, rows);
    CountModelled(ModelOf(rows, c), rows, at);
    SortCount(rows, SubmitKey, ModelledInFlight(ModelOf(rows, c), at));
    JobsInFlight(open, c, events, names, rows, at);
    StartsAgainstTimes(s.times, c, Starts(s, c), at);
    TimesAgainstEnds(s, at);
  }

  lemma JobsInFlight(open: int, c: nat, events: seq<Event>, names: seq<Row>, rows: seq<Row>, at: int)
    requires Served(open, c, events, names)
    requires multiset(rows) == multiset(JobRows(Run(open, c, events).value, names))
    ensures Submits(rows) != []
    ensures var s := Run(open, c, events).value;
            CountWhere(JobRows(s, names), ModelledInFlight(ModelOf(rows, c), at))
            == CountWhere(Starts(s, c), AtMost(at)) - CountWhere(Values(s.finished), AtMost(at))
  {
    var s := Run(open, c, events).value;
    RunKeeps(open, c, events);
    AllAdmitted(s, open, c);
    JobInFlight(open, c, events, names, rows, 0, at);
    ValuesOfAll(s.finished);
    var jobs, starts, ends := JobRows(s, names), Starts(s, c), Values(s.finished);
    var q := ModelledInFlight(ModelOf(rows, c), at);
    forall k | 0 <= k < |jobs|
      ensures starts[k] <= ends[k] && (q(jobs[k]) <==> starts[k] <= at < ends[k])
    {
      JobInFlight(open, c, events, names, rows, k, at);
    }
    CountByEnds(jobs, starts, ends, q, at);
  }
}
