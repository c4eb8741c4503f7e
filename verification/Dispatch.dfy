/** One cell of the concurrency sweep: C workers claim indices under a lock, send, and count; a
    sampler thread reads the in-flight counter whenever it likes. */
module Dispatch {
  import opened Seqs
  import opened Sorting
  import opened Wrappers

  /** Documents measured and discarded before any statistic. */
  const WARMUP := 50

  // ----- the machine

  /** Where a worker stands: at the top of its loop, holding a claimed index, inside the `with`
      block, past it but not yet counted, or returned. */
  datatype Pc = Top | Claimed(i: nat) | Sending(i: nat) | Sent(i: nat) | Stopped

  datatype Cell = Cell(next: nat, done: nat, ok: nat, inflight: int, pcs: seq<Pc>,
                       sent: seq<nat>,         // the indices sent, in order
                       rows: seq<int>,         // the sampler's in-flight readings
                       clears: nat,            // how often the rows were cleared
                       pending: Option<int>,   // a reading taken and not appended yet
                       outdated: bool,         // the rows were cleared since it was taken
                       stale: bool)            // such a reading was appended

  datatype Event = Claim(w: nat) | Enter(w: nat) | Exit(w: nat, success: bool) | Count(w: nat) | Read | Append {
    /** A step of the sampler, which reads the counter in one statement and appends the row in the next. */
    predicate OfSampler() { Read? || Append? }
  }

  predicate Enabled(s: Cell, e: Event) {
    match e
    case Claim(w) => w < |s.pcs| && s.pcs[w].Top?
    case Enter(w) => w < |s.pcs| && s.pcs[w].Claimed?
    case Exit(w, _) => w < |s.pcs| && s.pcs[w].Sending?
    case Count(w) => w < |s.pcs| && s.pcs[w].Sent?
    case Read => s.pending.None?
    case Append => s.pending.Some?
  }

  function Next(s: Cell, docs: nat, e: Event): Cell
    requires Enabled(s, e)
  {
    match e
    case Claim(w) =>
      s.(next := s.next + 1, pcs := s.pcs[w := if s.next >= docs then Stopped else Claimed(s.next)])
    case Enter(w) =>
      s.(inflight := s.inflight + 1, pcs := s.pcs[w := Sending(s.pcs[w].i)], sent := s.sent + [s.pcs[w].i])
    case Exit(w, success) =>
      s.(inflight := s.inflight - 1, pcs := s.pcs[w := Sent(s.pcs[w].i)], ok := s.ok + if success then 1 else 0)
    case Count(w) =>
      if s.done + 1 == WARMUP then
        s.(done := s.done + 1, pcs := s.pcs[w := Top], rows := [], clears := s.clears + 1, outdated := s.pending.Some?)
      else s.(done := s.done + 1, pcs := s.pcs[w := Top])
    case Read => s.(pending := Some(s.inflight), outdated := false)
    case Append =>
      s.(rows := s.rows + [s.pending.value], pending := None, stale := s.stale || s.outdated, outdated := false)
  }

  function Init(c: nat): Cell { Cell(0, 0, 0, 0, seq(c, _ => Top), [], [], 0, None, false, false) }

  function Run(docs: nat, c: nat, events: seq<Event>): Option<Cell> {
    if events == [] then Some(Init(c)) else
      var s := Run(docs, c, events[..|events| - 1]);
      var e := events[|events| - 1];
      if s.Some? && Enabled(s.value, e) then Some(Next(s.value, docs, e)) else None
  }

  // ----- counting workers

  function IsStopped(p: Pc): bool { p.Stopped? }

  function IsSending(p: Pc): bool { p.Sending? }

  function Holds(p: Pc): bool { p.Claimed? || p.Sending? || p.Sent? }

  lemma {:induction false} CountUpdate(s: seq<Pc>, w: nat, x: Pc, p: Pc -> bool)
    requires w < |s|
    ensures CountWhere(s[w := x], p)
            == CountWhere(s, p) - (if p(s[w]) then 1 else 0) + (if p(x) then 1 else 0)
  {
    var n := |s| - 1;
    if w == n {
      assert s[w := x][..n] == s[..n];
    } else {
      CountUpdate(s[..n], w, x, p);
      assert s[w := x][..n] == s[..n][w := x];
    }
  }

  lemma {:induction false} CountDisjoint(s: seq<Pc>)
    ensures CountWhere(s, IsSending) <= CountWhere(s, Holds)
    ensures CountWhere(s, IsStopped) + CountWhere(s, Holds) <= |s|
  {
    if s != [] { CountDisjoint(s[..|s| - 1]); }
  }

  // ----- what every interleaving keeps

  function Smaller(a: int, b: int): int { if a <= b then a else b }

  /** The indices handed out so far that name documents. */
  function Issued(s: Cell, docs: nat): nat { Smaller(s.next, docs) }

  /** Every issued index is counted as done or held by a worker; every claim past the end stopped one. */
  ghost predicate Accounted(s: Cell, docs: nat, c: nat) {
    && |s.pcs| == c
    && s.inflight == CountWhere(s.pcs, IsSending)
    && s.done + CountWhere(s.pcs, Holds) == Issued(s, docs)
    && s.next == Issued(s, docs) + CountWhere(s.pcs, IsStopped)
  }

  /** No two workers hold one index. */
  ghost predicate Exclusive(s: Cell, docs: nat) {
    && (forall w :: 0 <= w < |s.pcs| && Holds(s.pcs[w]) ==> s.pcs[w].i < Issued(s, docs))
    && (forall v, w :: 0 <= v < w < |s.pcs| && Holds(s.pcs[v]) && Holds(s.pcs[w]) ==> s.pcs[v].i != s.pcs[w].i)
  }

  /** An issued index was sent once, unless a worker has claimed it and not sent it yet. */
  ghost predicate SentOnce(s: Cell, docs: nat) {
    && (forall i :: i in s.sent ==> i < Issued(s, docs))
    && (forall i :: 0 <= i < Issued(s, docs) ==> multiset(s.sent)[i] == if Claimed(i) in s.pcs then 0 else 1)
  }

  /** A reading of this cell, taken after the warm-up if that is over, unless it is an outdated one. */
  ghost predicate Plausible(v: int, s: Cell, docs: nat, c: nat, outdated: bool) {
    0 <= v <= Smaller(c, docs) && (s.done >= WARMUP && !outdated ==> v <= docs - WARMUP)
  }

  ghost predicate Sampled(s: Cell, docs: nat, c: nat) {
    && s.clears == (if s.done >= WARMUP then 1 else 0)
    && (s.pending.Some? ==> Plausible(s.pending.value, s, docs, c, s.outdated))
    && (s.outdated || s.stale ==> s.done >= WARMUP)
    && forall j :: 0 <= j < |s.rows| ==> Plausible(s.rows[j], s, docs, c, s.stale)
  }

  ghost predicate Inv(s: Cell, docs: nat, c: nat) {
    Accounted(s, docs, c) && Exclusive(s, docs) && SentOnce(s, docs) && Sampled(s, docs, c)
  }

  /** In flight at any moment: no more than the workers, and no more than the documents left. */
  lemma InflightBounds(s: Cell, docs: nat, c: nat)
    requires Accounted(s, docs, c)
    ensures 0 <= s.inflight <= c && s.inflight <= docs - s.done && s.done <= docs
  {
    CountDisjoint(s.pcs);
  }

  /** Changing one worker changes the three counts by that worker alone. */
  lemma CountsMove(pcs: seq<Pc>, w: nat, x: Pc)
    requires w < |pcs|
    ensures CountWhere(pcs[w := x], IsSending)
            == CountWhere(pcs, IsSending) - (if pcs[w].Sending? then 1 else 0) + (if x.Sending? then 1 else 0)
    ensures CountWhere(pcs[w := x], Holds)
            == CountWhere(pcs, Holds) - (if Holds(pcs[w]) then 1 else 0) + (if Holds(x) then 1 else 0)
    ensures CountWhere(pcs[w := x], IsStopped)
            == CountWhere(pcs, IsStopped) - (if pcs[w].Stopped? then 1 else 0) + (if x.Stopped? then 1 else 0)
  {
    CountUpdate(pcs, w, x, IsSending);
    CountUpdate(pcs, w, x, Holds);
    CountUpdate(pcs, w, x, IsStopped);
  }

  lemma ClaimAccounts(s: Cell, docs: nat, c: nat, w: nat)
    requires Accounted(s, docs, c) && Enabled(s, Claim(w))
    ensures Accounted(Next(s, docs, Claim(w)), docs, c)
  {
    CountsMove(s.pcs, w, if s.next >= docs then Stopped else Claimed(s.next));
    StoppedOnlyPastEnd(s, docs, c);
  }

  lemma AccountedKept(s: Cell, docs: nat, c: nat, e: Event)
    requires Accounted(s, docs, c) && Enabled(s, e)
    ensures Accounted(Next(s, docs, e), docs, c)
  {
    match e
    case Claim(w) => ClaimAccounts(s, docs, c, w);
    case Enter(w) => CountsMove(s.pcs, w, Sending(s.pcs[w].i));
    case Exit(w, _) => CountsMove(s.pcs, w, Sent(s.pcs[w].i));
    case Count(w) => CountsMove(s.pcs, w, Top);
    case Read | Append =>
  }

  lemma StoppedOnlyPastEnd(s: Cell, docs: nat, c: nat)
    requires Accounted(s, docs, c)
    ensures s.next < docs ==> CountWhere(s.pcs, IsStopped) == 0
  {
  }

  lemma ExclusiveKept(s: Cell, docs: nat, e: Event)
    requires Exclusive(s, docs) && Enabled(s, e)
    ensures Exclusive(Next(s, docs, e), docs)
  {
  }

  lemma ClaimKeepsSent(s: Cell, docs: nat, w: nat)
    requires SentOnce(s, docs) && Exclusive(s, docs) && Enabled(s, Claim(w))
    ensures SentOnce(Next(s, docs, Claim(w)), docs)
  {
    var s' := Next(s, docs, Claim(w));
    forall i | 0 <= i < Issued(s', docs)
      ensures multiset(s'.sent)[i] == if Claimed(i) in s'.pcs then 0 else 1
    {
      if i == s.next {
        assert s'.pcs[w] == Claimed(i);
        assert i !in s.sent;
      } else {
        ClaimedElsewhere(s.pcs, w, s'.pcs[w], i);
      }
    }
  }

  /** Changing a worker that does not hold a claim on i, to a state that does not either. */
  lemma ClaimedElsewhere(pcs: seq<Pc>, w: nat, x: Pc, i: nat)
    requires w < |pcs| && pcs[w] != Claimed(i) && x != Claimed(i)
    ensures Claimed(i) in pcs[w := x] <==> Claimed(i) in pcs
  {
    if Claimed(i) in pcs {
      var v :| 0 <= v < |pcs| && pcs[v] == Claimed(i);
      assert pcs[w := x][v] == Claimed(i);
    }
  }

  lemma EnterKeepsSent(s: Cell, docs: nat, w: nat)
    requires SentOnce(s, docs) && Exclusive(s, docs) && Enabled(s, Enter(w))
    ensures SentOnce(Next(s, docs, Enter(w)), docs)
  {
    var s' := Next(s, docs, Enter(w));
    var k := s.pcs[w].i;
    assert Holds(s.pcs[w]) && s.pcs[w] in s.pcs;
    assert multiset(s'.sent) == multiset(s.sent) + multiset{k};
    assert Claimed(k) !in s'.pcs by {
      if v :| 0 <= v < |s'.pcs| && s'.pcs[v] == Claimed(k) {
        assert v != w && Holds(s.pcs[v]);
      }
    }
    forall i | 0 <= i < Issued(s', docs)
      ensures multiset(s'.sent)[i] == if Claimed(i) in s'.pcs then 0 else 1
    {
      if i != k { ClaimedElsewhere(s.pcs, w, s'.pcs[w], i); }
    }
  }

  lemma OthersKeepSent(s: Cell, docs: nat, e: Event)
    requires SentOnce(s, docs) && Enabled(s, e) && (e.Exit? || e.Count? || e.OfSampler())
    ensures SentOnce(Next(s, docs, e), docs)
  {
    var s' := Next(s, docs, e);
    if !e.OfSampler() {
      forall i | 0 <= i < Issued(s', docs)
        ensures multiset(s'.sent)[i] == if Claimed(i) in s'.pcs then 0 else 1
      {
        ClaimedElsewhere(s.pcs, e.w, s'.pcs[e.w], i);
      }
    }
  }

  lemma SampledKept(s: Cell, docs: nat, c: nat, e: Event)
    requires Accounted(s, docs, c) && Sampled(s, docs, c) && Enabled(s, e)
    ensures Sampled(Next(s, docs, e), docs, c)
  {
    InflightBounds(s, docs, c);
  }

  lemma StepKeeps(s: Cell, docs: nat, c: nat, e: Event)
    requires Inv(s, docs, c) && Enabled(s, e)
    ensures Inv(Next(s, docs, e), docs, c)
  {
    AccountedKept(s, docs, c, e);
    ExclusiveKept(s, docs, e);
    SampledKept(s, docs, c, e);
    match e
    case Claim(w) => ClaimKeepsSent(s, docs, w);
    case Enter(w) => EnterKeepsSent(s, docs, w);
    case _ => OthersKeepSent(s, docs, e);
  }

  lemma InitHolds(docs: nat, c: nat)
    ensures Inv(Init(c), docs, c)
  {
    var pcs := Init(c).pcs;
    CountBounds(pcs, IsSending);
    CountBounds(pcs, Holds);
    CountBounds(pcs, IsStopped);
  }

  lemma {:induction false} RunKeeps(docs: nat, c: nat, events: seq<Event>)
    requires Run(docs, c, events).Some?
    ensures Inv(Run(docs, c, events).value, docs, c)
  {
    if events == [] {
      InitHolds(docs, c);
    } else {
      var before := events[..|events| - 1];
      RunKeeps(docs, c, before);
      StepKeeps(Run(docs, c, before).value, docs, c, events[|events| - 1]);
    }
  }

  // ----- the claims

  /** At every moment of every interleaving: in flight is at most the workers and at most the
      documents not yet done, nothing is sent twice or out of range, and the rows are cleared at
      most once, when the warm-up ends. */
  lemma EveryMoment(docs: nat, c: nat, events: seq<Event>, i: nat)
    requires Run(docs, c, events).Some?
    ensures var s := Run(docs, c, events).value;
            0 <= s.inflight <= Smaller(c, docs - s.done)
            && multiset(s.sent)[i] <= 1 && (i in s.sent ==> i < docs)
            && s.clears == if s.done >= WARMUP then 1 else 0
  {
    RunKeeps(docs, c, events);
    var s := Run(docs, c, events).value;
    InflightBounds(s, docs, c);
    if i !in s.sent { assert multiset(s.sent)[i] == 0; }
  }

  ghost predicate Finished(s: Cell) { forall w :: 0 <= w < |s.pcs| ==> s.pcs[w].Stopped? }

  /** When every worker has returned, every document was sent exactly once and counted, each worker
      made one claim too many, nothing is in flight, and the rows were cleared exactly once if the
      cell was long enough. */
  lemma AtTheEnd(docs: nat, c: nat, events: seq<Event>)
    requires c >= 1 && Run(docs, c, events).Some? && Finished(Run(docs, c, events).value)
    ensures var s := Run(docs, c, events).value;
            && s.done == docs && s.next == docs + c && s.inflight == 0
            && s.clears == (if docs >= 50 then 1 else 0)
            && (forall i: nat :: multiset(s.sent)[i] == if i < docs then 1 else 0)
  {
    RunKeeps(docs, c, events);
    var s := Run(docs, c, events).value;
    CountBounds(s.pcs, IsStopped);
    CountBounds(s.pcs, Holds);
    CountBounds(s.pcs, IsSending);
    forall i: nat ensures multiset(s.sent)[i] == if i < docs then 1 else 0 {
      if i < docs {
        assert Claimed(i) !in s.pcs;
      } else {
        assert i !in s.sent;
      }
    }
  }

  /** A send that succeeded. */
  predicate Succeeds(e: Event) { e.Exit? && e.success }

  /** At every moment the success counter is the number of successful sends. */
  lemma {:induction false} SuccessesCounted(docs: nat, c: nat, events: seq<Event>)
    requires Run(docs, c, events).Some?
    ensures Run(docs, c, events).value.ok == |set k | 0 <= k < |events| && events[k].Exit? && events[k].success|
  {
    if events != [] {
      var before, e := events[..|events| - 1], events[|events| - 1];
      SuccessesCounted(docs, c, before);
      AddPlace(before, e, Succeeds);
      assert events == before + [e];
      SuccessPlaces(before);
    }
    SuccessPlaces(events);
  }

  lemma SuccessPlaces(events: seq<Event>)
    ensures Places(events, Succeeds) == set k | 0 <= k < |events| && events[k].Exit? && events[k].success
  {
  }

  // ----- it does end

  /** Steps a worker still has to take before it asks for its next index. */
  function Rank(p: Pc): nat {
    match p
    case Top => 1 case Claimed(_) => 4 case Sending(_) => 3 case Sent(_) => 2 case Stopped => 0
  }

  function Ranks(pcs: seq<Pc>): nat {
    if pcs == [] then 0 else Ranks(pcs[..|pcs| - 1]) + Rank(pcs[|pcs| - 1])
  }

  /** Worker steps left in the cell. */
  function StepsLeft(s: Cell, docs: nat): nat { 4 * (docs - Issued(s, docs)) + Ranks(s.pcs) }

  lemma {:induction false} RanksUpdate(pcs: seq<Pc>, w: nat, x: Pc)
    requires w < |pcs|
    ensures Ranks(pcs[w := x]) == Ranks(pcs) - Rank(pcs[w]) + Rank(x)
  {
    var n := |pcs| - 1;
    if w == n {
      assert pcs[w := x][..n] == pcs[..n];
    } else {
      RanksUpdate(pcs[..n], w, x);
      assert pcs[w := x][..n] == pcs[..n][w := x];
    }
  }

  lemma {:induction false} RanksOf(pcs: seq<Pc>)
    ensures Ranks(pcs) == 0 <==> forall w :: 0 <= w < |pcs| ==> pcs[w].Stopped?
    ensures (forall w :: 0 <= w < |pcs| ==> pcs[w].Top?) ==> Ranks(pcs) == |pcs|
  {
    if pcs != [] { RanksOf(pcs[..|pcs| - 1]); }
  }

  function WorkerSteps(events: seq<Event>): nat {
    if events == [] then 0 else
      WorkerSteps(events[..|events| - 1]) + if events[|events| - 1].OfSampler() then 0 else 1
  }

  /** Every worker step takes exactly one off; the sampler takes none. */
  lemma StepCosts(s: Cell, docs: nat, e: Event)
    requires Enabled(s, e)
    ensures StepsLeft(s, docs) == StepsLeft(Next(s, docs, e), docs) + if e.OfSampler() then 0 else 1
  {
    if !e.OfSampler() { RanksUpdate(s.pcs, e.w, Next(s, docs, e).pcs[e.w]); }
  }

  /** Whatever the interleaving, the steps taken and the steps left are 4 * docs + C; a finished cell has
      none left and is exactly that long. */
  lemma {:induction false} CellLength(docs: nat, c: nat, events: seq<Event>)
    requires Run(docs, c, events).Some?
    ensures WorkerSteps(events) + StepsLeft(Run(docs, c, events).value, docs) == 4 * docs + c
    ensures StepsLeft(Run(docs, c, events).value, docs) == 0 ==> Finished(Run(docs, c, events).value)
    ensures c >= 1 && Finished(Run(docs, c, events).value) ==> WorkerSteps(events) == 4 * docs + c
  {
    RanksOf(Run(docs, c, events).value.pcs);
    if c >= 1 && Finished(Run(docs, c, events).value) { AtTheEnd(docs, c, events); }
    if events != [] {
      var before := events[..|events| - 1];
      CellLength(docs, c, before);
      StepCosts(Run(docs, c, before).value, docs, events[|events| - 1]);
    }
  }

  /** No deadlock: until every worker has returned, some worker can step. */
  lemma SomeoneCanStep(s: Cell)
    requires !Finished(s)
    ensures exists e: Event :: !e.OfSampler() && Enabled(s, e)
  {
    var w :| 0 <= w < |s.pcs| && !s.pcs[w].Stopped?;
    var e := match s.pcs[w]
      case Top => Claim(w) case Claimed(_) => Enter(w) case Sending(_) => Exit(w, true)
      case Sent(_) => Count(w) case Stopped => Append;
    assert !e.OfSampler() && Enabled(s, e);
  }

  // ----- the achieved_ok rule

  function InflightMax(rows: seq<int>): int {
    if rows == [] then 0 else
      var m := InflightMax(rows[..|rows| - 1]);
      if |rows| > 1 && m >= rows[|rows| - 1] then m else rows[|rows| - 1]
  }

  predicate AchievedOk(llama: seq<int>, rocket: seq<int>, c: int) {
    InflightMax(llama) >= c && InflightMax(rocket) >= c
  }

  /** The maximum is the greatest reading, and 0 if there is none. */
  lemma {:induction false} MaxIsReading(rows: seq<int>)
    ensures if rows == [] then InflightMax(rows) == 0 else InflightMax(rows) in rows
    ensures forall x :: x in rows ==> x <= InflightMax(rows)
  {
    if |rows| > 1 {
      MaxIsReading(rows[..|rows| - 1]);
      assert rows == rows[..|rows| - 1] + [rows[|rows| - 1]];
    }
  }

  lemma ReadingsBound(docs: nat, c: nat, events: seq<Event>)
    requires c >= 1 && Run(docs, c, events).Some? && Finished(Run(docs, c, events).value)
    ensures var s := Run(docs, c, events).value;
            && InflightMax(s.rows) <= Smaller(c, docs)
            && (docs >= WARMUP && !s.stale ==> InflightMax(s.rows) <= docs - WARMUP)
  {
    RunKeeps(docs, c, events);
    AtTheEnd(docs, c, events);
    var s := Run(docs, c, events).value;
    MaxIsReading(s.rows);
    if s.rows != [] {
      var j :| 0 <= j < |s.rows| && s.rows[j] == InflightMax(s.rows);
      assert Plausible(s.rows[j], s, docs, c, s.stale);
    }
  }

  /** An arm's maximum is at least C exactly when the sampler read C in flight: it never reads more. */
  lemma ReachedIff(docs: nat, c: nat, events: seq<Event>)
    requires c >= 1 && Run(docs, c, events).Some? && Finished(Run(docs, c, events).value)
    ensures var rows := Run(docs, c, events).value.rows; InflightMax(rows) >= c <==> c in rows
  {
    ReadingsBound(docs, c, events);
    MaxReaches(Run(docs, c, events).value.rows, c);
  }

  lemma MaxReaches(rows: seq<int>, c: nat)
    requires c >= 1 && InflightMax(rows) <= c
    ensures InflightMax(rows) >= c <==> c in rows
  {
    MaxIsReading(rows);
  }

  /** A cell is reported as achieved exactly when on both arms the sampler read all C in flight.  It then
      had at least C documents, and if it had a warm-up to leave, C documents behind it, unless on both
      arms the clear fell between the sampler's two statements. */
  lemma AchievedMeansExactly(docs: nat, c: nat, llama: seq<Event>, rocket: seq<Event>)
    requires c >= 1 && Run(docs, c, llama).Some? && Run(docs, c, rocket).Some?
    requires Finished(Run(docs, c, llama).value) && Finished(Run(docs, c, rocket).value)
    ensures var l, r := Run(docs, c, llama).value, Run(docs, c, rocket).value;
            && (AchievedOk(l.rows, r.rows, c) <==> c in l.rows && c in r.rows)
            && (c in l.rows || c in r.rows ==> docs >= c)
            && (c in l.rows && c in r.rows && docs >= WARMUP && !(l.stale && r.stale) ==> docs >= WARMUP + c)
  {
    ReachedIff(docs, c, llama);
    ReachedIff(docs, c, rocket);
    ReadingsBound(docs, c, llama);
    ReadingsBound(docs, c, rocket);
  }

  lemma Extend(docs: nat, c: nat, events: seq<Event>, s: Cell, e: Event) returns (later: seq<Event>, s': Cell)
    requires Run(docs, c, events) == Some(s) && Enabled(s, e)
    ensures later == events + [e] && s' == Next(s, docs, e) && Run(docs, c, later) == Some(s')
  {
    later, s' := events + [e], Next(s, docs, e);
    assert later[..|events|] == events;
  }

  // ----- documents behind the warm-up

  /** The first k workers are sending, the others have not begun. */
  ghost predicate Sends(s: Cell, c: nat, k: nat) {
    && k <= c && s.next == k && s.inflight == k && s.pending.None? && |s.pcs| == c
    && forall w :: 0 <= w < c ==> if w < k then s.pcs[w].Sending? else s.pcs[w].Top?
  }

  lemma {:induction false} AllSend(docs: nat, c: nat, k: nat) returns (events: seq<Event>, s: Cell)
    requires k <= c <= docs
    ensures Run(docs, c, events) == Some(s) && Sends(s, c, k)
  {
    if k == 0 {
      events, s := [], Init(c);
    } else {
      events, s := AllSend(docs, c, k - 1);
      events, s := Extend(docs, c, events, s, Claim(k - 1));
      events, s := Extend(docs, c, events, s, Enter(k - 1));
    }
  }

  /** From any moment the workers can finish while the sampler holds on to its reading. */
  lemma {:induction false} WorkersFinish(docs: nat, c: nat, events: seq<Event>, s: Cell)
    returns (later: seq<Event>, s': Cell)
    requires Run(docs, c, events) == Some(s)
    ensures Run(docs, c, later) == Some(s') && Finished(s') && s'.pending == s.pending
    decreases StepsLeft(s, docs)
  {
    if Finished(s) {
      later, s' := events, s;
    } else {
      SomeoneCanStep(s);
      var e: Event :| !e.OfSampler() && Enabled(s, e);
      StepCosts(s, docs, e);
      later, s' := Extend(docs, c, events, s, e);
      later, s' := WorkersFinish(docs, c, later, s');
    }
  }

  /** A finished arm on which the sampler saw C in flight. */
  ghost predicate Achieves(docs: nat, c: nat, events: seq<Event>) {
    && Run(docs, c, events).Some? && Finished(Run(docs, c, events).value)
    && c in Run(docs, c, events).value.rows
  }

  /** Whenever there are C documents for it, C can be achieved: all workers in flight at one reading,
      which the sampler appends when they are done. */
  lemma AchievedWhateverBehind(docs: nat, c: nat) returns (events: seq<Event>)
    requires c <= docs
    ensures Achieves(docs, c, events)
  {
    var s;
    events, s := AllSend(docs, c, c);
    events, s := Extend(docs, c, events, s, Read);
    events, s := WorkersFinish(docs, c, events, s);
    events, s := Extend(docs, c, events, s, Append);
  }

  /** Every cell of this size that is reported as achieved had C documents behind the warm-up. */
  ghost predicate AchievedMeansBehind(docs: nat, c: nat) {
    forall llama, rocket :: Achieves(docs, c, llama) && Achieves(docs, c, rocket) ==> docs >= WARMUP + c
  }

  /** That is so exactly when the cell has them, or has too few documents ever to be achieved: the
      report itself guarantees nothing about the warm-up. */
  lemma AchievedMeansBehindIff(docs: nat, c: nat)
    requires c >= 1
    ensures AchievedMeansBehind(docs, c) <==> docs < c || docs >= WARMUP + c
  {
    if docs < c {
      forall events | Achieves(docs, c, events) ensures false {
        ReadingsBound(docs, c, events);
        MaxIsReading(Run(docs, c, events).value.rows);
      }
    } else {
      var events := AchievedWhateverBehind(docs, c);
      assert AchievedMeansBehind(docs, c) ==> Achieves(docs, c, events) && docs >= WARMUP + c;
    }
  }

  /** A lone worker between two documents, before the end of the warm-up. */
  ghost predicate Between(s: Cell, k: nat) {
    s.next == s.done == k && s.inflight == 0 && s.pcs == [Top] && s.rows == [] && s.pending.None?
  }

  lemma {:induction false} OneWorkerServes(docs: nat, k: nat) returns (events: seq<Event>, s: Cell)
    requires k <= docs && k < WARMUP
    ensures Run(docs, 1, events) == Some(s) && Between(s, k)
  {
    if k == 0 {
      events, s := [], Init(1);
    } else {
      events, s := OneWorkerServes(docs, k - 1);
      events, s := Extend(docs, 1, events, s, Claim(0));
      events, s := Extend(docs, 1, events, s, Enter(0));
      events, s := Extend(docs, 1, events, s, Exit(0, true));
      events, s := Extend(docs, 1, events, s, Count(0));
    }
  }

  /** The clear between the two statements does leave a reading of the warm-up behind: a cell of WARMUP
      documents, none of them behind the warm-up, reports one in flight. */
  lemma ClearBetweenLeavesReading() returns (events: seq<Event>)
    ensures Run(WARMUP, 1, events).Some? && Finished(Run(WARMUP, 1, events).value)
    ensures Run(WARMUP, 1, events).value.stale && Run(WARMUP, 1, events).value.rows == [1]
  {
    var s;
    events, s := OneWorkerServes(WARMUP, WARMUP - 1);
    events, s := Extend(WARMUP, 1, events, s, Claim(0));
    events, s := Extend(WARMUP, 1, events, s, Enter(0));
    events, s := Extend(WARMUP, 1, events, s, Read);
    events, s := Extend(WARMUP, 1, events, s, Exit(0, true));
    events, s := Extend(WARMUP, 1, events, s, Count(0));
    events, s := Extend(WARMUP, 1, events, s, Append);
    events, s := Extend(WARMUP, 1, events, s, Claim(0));
  }
}
