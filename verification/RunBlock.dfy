/** `run_block`: one block of documents with a checkpoint file, killed and resumed. */
module RunBlock {
  import opened MapSum
  import opened Seqs
  import opened Wrappers

  const CKPT_EVERY := 100

  // ----- outcomes and accounting

  datatype Attempt = Good(chunks: nat) | Faulty(kind: string)

  /** What one document does, every time it is run. */
  datatype Outcome = ParseFault(kind: string) | EmptyExtraction | Processed(suspect: bool, attempt: Attempt)

  /** The counters of `st` that documents change. */
  datatype Tally = Tally(goodput: nat, faults: map<string, nat>, chunks: nat, suspect: nat)

  const ZERO := Tally(0, map[], 0, 0)

  function Bump(faults: map<string, nat>, kind: string): map<string, nat> {
    faults[kind := (if kind in faults then faults[kind] else 0) + 1]
  }

  function Absorb(t: Tally, o: Outcome): Tally {
    match o
    case ParseFault(kind) => t.(faults := Bump(t.faults, "parse:" + kind))
    case EmptyExtraction => t.(faults := Bump(t.faults, "empty_extraction"))
    case Processed(suspect, attempt) =>
      var t1 := if suspect then t.(suspect := t.suspect + 1) else t;
      match attempt
      case Good(chunks) => t1.(goodput := t1.goodput + 1, chunks := t1.chunks + chunks)
      case Faulty(kind) => t1.(faults := Bump(t1.faults, kind))
  }

  /** One uninterrupted pass over the first n documents. */
  function TallyOf(docs: seq<Outcome>, n: nat): Tally
    requires n <= |docs|
  {
    if n == 0 then ZERO else Absorb(TallyOf(docs, n - 1), docs[n - 1])
  }

  /** Every document is accounted for once: as goodput or as one fault. */
  ghost predicate Balanced(t: Tally, n: nat) { t.goodput + Sum(t.faults) == n }

  lemma AbsorbBalances(t: Tally, o: Outcome, n: nat)
    requires Balanced(t, n)
    ensures Balanced(Absorb(t, o), n + 1)
  {
    match o
    case ParseFault(kind) => BumpAdds(t.faults, "parse:" + kind);
    case EmptyExtraction => BumpAdds(t.faults, "empty_extraction");
    case Processed(suspect, Faulty(kind)) => BumpAdds(t.faults, kind);
    case Processed(suspect, Good(_)) =>
  }

  lemma BumpAdds(faults: map<string, nat>, kind: string)
    ensures Sum(Bump(faults, kind)) == Sum(faults) + 1
  {
    SumUpdates(faults, kind, (if kind in faults then faults[kind] else 0) + 1);
  }

  lemma {:induction false} PassBalances(docs: seq<Outcome>, n: nat)
    requires n <= |docs|
    ensures Balanced(TallyOf(docs, n), n)
  {
    if n > 0 {
      PassBalances(docs, n - 1);
      AbsorbBalances(TallyOf(docs, n - 1), docs[n - 1], n - 1);
    }
  }

  // ----- what each counter says of the documents

  /** The fault a document ends in. */
  ghost function FaultOf(o: Outcome): Option<string> {
    match o
    case ParseFault(kind) => Some("parse:" + kind)
    case EmptyExtraction => Some("empty_extraction")
    case Processed(_, Faulty(kind)) => Some(kind)
    case Processed(_, Good(_)) => None
  }

  ghost predicate IsGood(o: Outcome) { o.Processed? && o.attempt.Good? }

  ghost function GoodDocs(docs: seq<Outcome>, n: nat): set<int>
    requires n <= |docs|
  {
    set i | 0 <= i < n && docs[i].Processed? && docs[i].attempt.Good?
  }

  ghost function SuspectDocs(docs: seq<Outcome>, n: nat): set<int>
    requires n <= |docs|
  {
    set i | 0 <= i < n && docs[i].Processed? && docs[i].suspect
  }

  ghost function DocsWithFault(docs: seq<Outcome>, n: nat, k: string): set<int>
    requires n <= |docs|
  {
    set i | 0 <= i < n && FaultOf(docs[i]) == Some(k)
  }

  /** The chunk counts of the good documents. */
  ghost function ChunksOf(docs: seq<Outcome>, n: nat): map<int, nat>
    requires n <= |docs|
  {
    map i | 0 <= i < n && docs[i].Processed? && docs[i].attempt.Good? :: docs[i].attempt.chunks
  }

  lemma NextDocument(docs: seq<Outcome>, n: nat)
    requires 0 < n <= |docs|
    ensures |GoodDocs(docs, n)| == |GoodDocs(docs, n - 1)| + if IsGood(docs[n - 1]) then 1 else 0
    ensures |SuspectDocs(docs, n)| ==
            |SuspectDocs(docs, n - 1)| + if docs[n - 1].Processed? && docs[n - 1].suspect then 1 else 0
  {
    var o, i := docs[n - 1], n - 1;
    var a, b := GoodDocs(docs, n - 1), SuspectDocs(docs, n - 1);
    assert GoodDocs(docs, n) == if IsGood(o) then a + {i} else a;
    assert SuspectDocs(docs, n) == if o.Processed? && o.suspect then b + {i} else b;
  }

  lemma NextFault(docs: seq<Outcome>, n: nat, k: string)
    requires 0 < n <= |docs|
    ensures |DocsWithFault(docs, n, k)| ==
            |DocsWithFault(docs, n - 1, k)| + if FaultOf(docs[n - 1]) == Some(k) then 1 else 0
  {
    var a := DocsWithFault(docs, n - 1, k);
    assert DocsWithFault(docs, n, k) == if FaultOf(docs[n - 1]) == Some(k) then a + {n - 1} else a;
  }

  lemma NextChunks(docs: seq<Outcome>, n: nat)
    requires 0 < n <= |docs|
    ensures Sum(ChunksOf(docs, n)) ==
            Sum(ChunksOf(docs, n - 1)) + if IsGood(docs[n - 1]) then docs[n - 1].attempt.chunks else 0
  {
    var o, m := docs[n - 1], ChunksOf(docs, n - 1);
    assert n - 1 !in m;
    if IsGood(o) {
      assert ChunksOf(docs, n) == m[n - 1 := o.attempt.chunks];
      SumUpdates(m, n - 1, o.attempt.chunks);
    } else {
      assert ChunksOf(docs, n) == m;
    }
  }

  lemma {:induction false} TallyCounts(docs: seq<Outcome>, n: nat)
    requires n <= |docs|
    ensures TallyOf(docs, n).goodput == |GoodDocs(docs, n)| && TallyOf(docs, n).suspect == |SuspectDocs(docs, n)|
    ensures TallyOf(docs, n).chunks == Sum(ChunksOf(docs, n))
  {
    if n == 0 {
      assert GoodDocs(docs, 0) == {} && SuspectDocs(docs, 0) == {} && ChunksOf(docs, 0) == map[];
    } else {
      TallyCounts(docs, n - 1);
      AbsorbCounts(TallyOf(docs, n - 1), docs[n - 1]);
      NextDocument(docs, n);
      NextChunks(docs, n);
    }
  }

  lemma AbsorbCounts(t: Tally, o: Outcome)
    ensures Absorb(t, o).goodput == t.goodput + if IsGood(o) then 1 else 0
    ensures Absorb(t, o).suspect == t.suspect + if o.Processed? && o.suspect then 1 else 0
    ensures Absorb(t, o).chunks == t.chunks + if IsGood(o) then o.attempt.chunks else 0
  {
  }

  /** Goodput is the number of good documents, chunks the sum of their chunk counts, suspect the number of
      processed suspects. */
  lemma CountersMean(docs: seq<Outcome>, n: nat)
    requires n <= |docs|
    ensures TallyOf(docs, n).goodput == |set i | 0 <= i < n && docs[i].Processed? && docs[i].attempt.Good?|
    ensures TallyOf(docs, n).suspect == |set i | 0 <= i < n && docs[i].Processed? && docs[i].suspect|
    ensures TallyOf(docs, n).chunks == Sum(ChunksOf(docs, n))
  {
    TallyCounts(docs, n);
    assert GoodDocs(docs, n) == set i | 0 <= i < n && docs[i].Processed? && docs[i].attempt.Good?;
    assert SuspectDocs(docs, n) == set i | 0 <= i < n && docs[i].Processed? && docs[i].suspect;
  }

  /** A fault is recorded iff a document ended in it, as often as documents did. */
  lemma {:induction false} FaultsMean(docs: seq<Outcome>, n: nat, k: string)
    requires n <= |docs|
    ensures k in TallyOf(docs, n).faults <==> exists i :: 0 <= i < n && FaultOf(docs[i]) == Some(k)
    ensures k in TallyOf(docs, n).faults ==>
              TallyOf(docs, n).faults[k] == |set i | 0 <= i < n && FaultOf(docs[i]) == Some(k)|
    ensures k !in TallyOf(docs, n).faults ==> DocsWithFault(docs, n, k) == {}
  {
    if n > 0 {
      FaultsMean(docs, n - 1, k);
      NextFault(docs, n, k);
      assert DocsWithFault(docs, n - 1, k) == set i | 0 <= i < n - 1 && FaultOf(docs[i]) == Some(k);
    }
    assert DocsWithFault(docs, n, k) == set i | 0 <= i < n && FaultOf(docs[i]) == Some(k);
  }

  // ----- the checkpoint file

  datatype Stats = Stats(next: nat, tally: Tally, completed: bool)

  /** `Torn` is a file cut short in the middle of a write; it does not parse. */
  datatype File = Absent | Torn | Saved(st: Stats)

  /** What `run_block` starts from. */
  function Loaded(f: File): Stats {
    if f.Saved? then f.st else Stats(0, ZERO, false)
  }

  /** A checkpoint is due behind this document; the two `continue` branches never reach the test. */
  predicate Due(docs: seq<Outcome>, i: nat)
    requires 0 < i <= |docs|
  {
    docs[i - 1].Processed? && i % CKPT_EVERY == 0
  }

  /** The rest of a pass, from document i on. */
  function Continued(t: Tally, docs: seq<Outcome>, i: nat): Tally
    decreases |docs| - i
  {
    if i >= |docs| then t else Continued(Absorb(t, docs[i]), docs, i + 1)
  }

  lemma {:induction false} ContinuedFinishes(docs: seq<Outcome>, i: nat)
    requires i <= |docs|
    ensures Continued(TallyOf(docs, i), docs, i) == TallyOf(docs, |docs|)
    decreases |docs| - i
  {
    if i < |docs| { ContinuedFinishes(docs, i + 1); }
  }

  /** The file holds nothing, or an exact account of a prefix of the documents, at a boundary where
      a checkpoint was due or at the end. */
  ghost predicate Trustworthy(f: File, docs: seq<Outcome>) {
    f.Saved? ==> && f.st.next <= |docs| && f.st.tally == TallyOf(docs, f.st.next)
                 && (if f.st.completed then f.st.next == |docs| else f.st.next > 0 && Due(docs, f.st.next))
  }

  /** The checkpoints written behind the documents from i on. */
  function Saves(t: Tally, docs: seq<Outcome>, i: nat, completed: bool): seq<Stats>
    decreases |docs| - i
  {
    if i >= |docs| then [] else
      var t1 := Absorb(t, docs[i]);
      (if Due(docs, i + 1) then [Stats(i + 1, t1, completed)] else []) + Saves(t1, docs, i + 1, completed)
  }

  /** Continuing an exact account, exactly the due checkpoints are written, each an exact account. */
  lemma {:induction false} SavesAreDue(docs: seq<Outcome>, i: nat, completed: bool, st: Stats)
    requires i <= |docs|
    ensures st in Saves(TallyOf(docs, i), docs, i, completed) <==>
            i < st.next <= |docs| && Due(docs, st.next) && st == Stats(st.next, TallyOf(docs, st.next), completed)
    decreases |docs| - i
  {
    if i < |docs| {
      SavesAreDue(docs, i + 1, completed, st);
    }
  }

  class Block {
    var ck: File
    ghost var writes: seq<Stats>

    constructor (f: File)
      ensures ck == f && writes == []
    {
      ck, writes := f, [];
    }

    /** One call that is not killed.  Whatever the file held, the result continues from it; the due
        checkpoints are written, then the result; and a trustworthy file stays one. */
    method Run(docs: seq<Outcome>) returns (st: Stats)
      modifies this
      ensures st.tally == Continued(Loaded(old(ck)).tally, docs, Loaded(old(ck)).next) && st.completed
      ensures st.next == if Loaded(old(ck)).next <= |docs| then |docs| else Loaded(old(ck)).next
      ensures ck == Saved(st)
      ensures var s := Loaded(old(ck));
              writes == old(writes) + Saves(s.tally, docs, s.next, s.completed) + [st]
      ensures Trustworthy(old(ck), docs) ==> Trustworthy(ck, docs) && st.tally == TallyOf(docs, |docs|)
    {
      st := Loaded(ck);
      var i := st.next;
      ghost var trusted := Trustworthy(ck, docs);
      if trusted { ContinuedFinishes(docs, i); }
      while i < |docs|
        invariant Loaded(old(ck)).next <= i && (i <= |docs| || i == Loaded(old(ck)).next)
        invariant Continued(st.tally, docs, i) == Continued(Loaded(old(ck)).tally, docs, Loaded(old(ck)).next)
        invariant trusted ==> i <= |docs| && st.tally == TallyOf(docs, i) && Trustworthy(ck, docs)
        invariant st.completed == Loaded(old(ck)).completed
        invariant writes + Saves(st.tally, docs, i, st.completed)
                  == old(writes) + Saves(Loaded(old(ck)).tally, docs, Loaded(old(ck)).next, st.completed)
      {
        ghost var ahead := Saves(Absorb(st.tally, docs[i]), docs, i + 1, st.completed);
        st := st.(tally := Absorb(st.tally, docs[i]));
        i := i + 1;
        if Due(docs, i) {
          st := st.(next := i);
          ck := Saved(st);
          Associates(writes, [st], ahead);
          writes := writes + [st];
        }
      }
      st := st.(next := i, completed := true);
      ck := Saved(st);
      writes := writes + [st];
    }
  }

  // ----- kills

  /** A process between two of its steps: not running, in the loop, in the middle of rewriting the
      checkpoint, or returned. */
  datatype Process = Down | Looping(i: nat, tally: Tally) | Writing(st: Stats) | Returned(st: Stats)

  datatype World = World(file: File, p: Process)

  datatype Event = Start | Document | Finish | EndWrite | Kill

  predicate Enabled(s: World, docs: seq<Outcome>, e: Event) {
    match e
    case Start => s.p.Down?
    case Document => s.p.Looping? && s.p.i < |docs|
    case Finish => s.p.Looping? && s.p.i >= |docs|
    case EndWrite => s.p.Writing?
    case Kill => true
  }

  /** A write first truncates the file, then fills it. */
  function Next(s: World, docs: seq<Outcome>, e: Event): World
    requires Enabled(s, docs, e)
  {
    match e
    case Start => s.(p := Looping(Loaded(s.file).next, Loaded(s.file).tally))
    case Document =>
      var i, t := s.p.i + 1, Absorb(s.p.tally, docs[s.p.i]);
      if Due(docs, i) then World(Torn, Writing(Stats(i, t, false))) else s.(p := Looping(i, t))
    case Finish => World(Torn, Writing(Stats(s.p.i, s.p.tally, true)))
    case EndWrite =>
      World(Saved(s.p.st), if s.p.st.completed then Returned(s.p.st) else Looping(s.p.st.next, s.p.st.tally))
    case Kill => s.(p := Down)
  }

  function Play(docs: seq<Outcome>, events: seq<Event>): Option<World> {
    if events == [] then Some(World(Absent, Down)) else
      var s := Play(docs, events[..|events| - 1]);
      var e := events[|events| - 1];
      if s.Some? && Enabled(s.value, docs, e) then Some(Next(s.value, docs, e)) else None
  }

  ghost predicate Inv(s: World, docs: seq<Outcome>) {
    && Trustworthy(s.file, docs)
    && match s.p
       case Down => true
       case Looping(i, t) => i <= |docs| && t == TallyOf(docs, i)
       case Writing(st) => Trustworthy(Saved(st), docs)
       case Returned(st) => st.completed && Trustworthy(Saved(st), docs)
  }

  lemma StepKeeps(s: World, docs: seq<Outcome>, e: Event)
    requires Inv(s, docs) && Enabled(s, docs, e)
    ensures Inv(Next(s, docs, e), docs)
  {
  }

  lemma {:induction false} PlayKeeps(docs: seq<Outcome>, events: seq<Event>)
    requires Play(docs, events).Some?
    ensures Inv(Play(docs, events).value, docs)
  {
    if events != [] {
      PlayKeeps(docs, events[..|events| - 1]);
      StepKeeps(Play(docs, events[..|events| - 1]).value, docs, events[|events| - 1]);
    }
  }

  /** Killed and resumed any number of times, a block that returns has the counts of one
      uninterrupted pass; and whatever readable checkpoint a kill leaves behind accounts for exactly
      the documents before `next`. */
  lemma {:induction false} KillsDoNotShow(docs: seq<Outcome>, events: seq<Event>)
    requires Play(docs, events).Some?
    ensures var s := Play(docs, events).value;
            && (s.p.Returned? ==> s.p.st.tally == TallyOf(docs, |docs|) && s.p.st.next == |docs|)
            && (s.file.Saved? ==> Balanced(s.file.st.tally, s.file.st.next) && s.file.st.next <= |docs|
                                  && s.file.st.tally == TallyOf(docs, s.file.st.next))
  {
    PlayKeeps(docs, events);
    var s := Play(docs, events).value;
    if s.file.Saved? { PassBalances(docs, s.file.st.next); }
  }

  /** Where a readable, unfinished checkpoint can stand: behind a processed document whose number is
      a multiple of the interval. */
  lemma {:induction false} UnfinishedCheckpointsAreDue(docs: seq<Outcome>, events: seq<Event>)
    requires Play(docs, events).Some?
    ensures var f := Play(docs, events).value.file;
            f.Saved? && !f.st.completed ==>
              0 < f.st.next <= |docs| && f.st.next % 100 == 0 && docs[f.st.next - 1].Processed?
  {
    PlayKeeps(docs, events);
  }

  // ----- how much a kill in the loop loses

  /** The last boundary at or before i behind which a checkpoint was due; 0 if there was none. */
  function LastDue(docs: seq<Outcome>, i: nat): (n: nat)
    requires i <= |docs|
    ensures n <= i && (n > 0 ==> Due(docs, n)) && (forall k :: n < k <= i ==> !Due(docs, k))
  {
    if i == 0 then 0 else if Due(docs, i) then i else LastDue(docs, i - 1)
  }

  /** In the loop the file holds the last due checkpoint, or none that is readable if none was due, or
      the finished account. */
  ghost predicate Checkpointed(s: World, docs: seq<Outcome>) {
    && (s.p.Looping? ==>
          && s.p.i <= |docs|
          && (if s.file.Saved? && s.file.st.completed then s.p.i == |docs| && s.file.st.next == |docs|
              else Loaded(s.file).next == LastDue(docs, s.p.i)))
    && (s.p.Writing? && !s.p.st.completed ==> s.p.st.next <= |docs| && LastDue(docs, s.p.st.next) == s.p.st.next)
  }

  lemma StepCheckpoints(s: World, docs: seq<Outcome>, e: Event)
    requires Inv(s, docs) && Checkpointed(s, docs) && Enabled(s, docs, e)
    ensures Checkpointed(Next(s, docs, e), docs)
  {
  }

  lemma {:induction false} PlayCheckpoints(docs: seq<Outcome>, events: seq<Event>)
    requires Play(docs, events).Some?
    ensures Checkpointed(Play(docs, events).value, docs)
  {
    if events != [] {
      var before := events[..|events| - 1];
      PlayKeeps(docs, before);
      PlayCheckpoints(docs, before);
      StepCheckpoints(Play(docs, before).value, docs, events[|events| - 1]);
    }
  }

  /** How many of the documents a looping process has absorbed the next one must run again if this one
      is killed now. */
  function Lost(s: World): int
    requires s.p.Looping?
  {
    s.p.i - Loaded(s.file).next
  }

  /** It is the distance to the last due checkpoint, or nothing once the block is finished. */
  lemma {:induction false} LostSinceLastDue(docs: seq<Outcome>, events: seq<Event>)
    requires Play(docs, events).Some? && Play(docs, events).value.p.Looping?
    ensures var s := Play(docs, events).value;
            && s.p.i <= |docs|
            && Lost(s) == if s.file.Saved? && s.file.st.completed then 0 else s.p.i - LastDue(docs, s.p.i)
  {
    PlayCheckpoints(docs, events);
  }

  /** Every checkpoint the interval calls for is due. */
  ghost predicate NoneSkipped(docs: seq<Outcome>) {
    forall k :: 0 < k <= |docs| && k % CKPT_EVERY == 0 ==> docs[k - 1].Processed?
  }

  lemma {:induction false} LastDueIsNear(docs: seq<Outcome>, i: nat)
    requires i <= |docs| && NoneSkipped(docs)
    ensures i - LastDue(docs, i) == i % CKPT_EVERY
  {
    if i > 0 {
      LastDueIsNear(docs, i - 1);
      NextRemainder(i);
    }
  }

  lemma NextRemainder(i: nat)
    requires i > 0
    ensures i % CKPT_EVERY == if (i - 1) % CKPT_EVERY == CKPT_EVERY - 1 then 0 else (i - 1) % CKPT_EVERY + 1
  {
  }

  lemma SkippedIsFar(docs: seq<Outcome>, k: nat)
    requires 0 < k <= |docs| && k % CKPT_EVERY == 0 && !docs[k - 1].Processed?
    ensures k - LastDue(docs, k) >= CKPT_EVERY
  {
    var n := LastDue(docs, k);
    if n > 0 { MultiplesApart(n, k); }
  }

  lemma MultiplesApart(n: nat, k: nat)
    requires n < k && n % CKPT_EVERY == 0 && k % CKPT_EVERY == 0
    ensures k - n >= CKPT_EVERY
  {
  }

  lemma Extend(docs: seq<Outcome>, events: seq<Event>, e: Event) returns (later: seq<Event>)
    requires Play(docs, events).Some? && Enabled(Play(docs, events).value, docs, e)
    ensures later == events + [e] && Play(docs, later) == Some(Next(Play(docs, events).value, docs, e))
  {
    later := events + [e];
    assert later[..|events|] == events;
  }

  /** How many more steps the process can take before it returns. */
  ghost function StepsLeft(p: Process, docs: seq<Outcome>): int {
    match p
    case Down => 2 * |docs| + 3
    case Looping(i, _) => 2 * (|docs| - i) + 2
    case Writing(st) => if st.completed then 1 else 2 * (|docs| - st.next) + 3
    case Returned(_) => 0
  }

  /** However it was killed, the block can be resumed and run to its end. */
  lemma {:induction false} RunsCanFinish(docs: seq<Outcome>, events: seq<Event>) returns (later: seq<Event>)
    requires Play(docs, events).Some?
    ensures events <= later && Play(docs, later).Some? && Play(docs, later).value.p.Returned?
    decreases StepsLeft(Play(docs, events).value.p, docs)
  {
    var s := Play(docs, events).value;
    PlayKeeps(docs, events);
    if s.p.Returned? {
      later := events;
    } else {
      var e := match s.p
        case Down => Start case Writing(_) => EndWrite
        case Looping(i, _) => if i < |docs| then Document else Finish case Returned(_) => Kill;
      later := Extend(docs, events, e);
      later := RunsCanFinish(docs, later);
    }
  }

  /** A first process gets behind every document. */
  lemma {:induction false} ReachesEvery(docs: seq<Outcome>, i: nat) returns (events: seq<Event>)
    requires i <= |docs|
    ensures Play(docs, events).Some? && Play(docs, events).value.p.Looping? && Play(docs, events).value.p.i == i
    ensures !(Play(docs, events).value.file.Saved? && Play(docs, events).value.file.st.completed)
  {
    if i == 0 {
      events := Extend(docs, [], Start);
    } else {
      events := ReachesEvery(docs, i - 1);
      events := Extend(docs, events, Document);
      if Due(docs, i) { events := Extend(docs, events, EndWrite); }
    }
  }

  /** In every run a kill in the loop costs less than one interval. */
  ghost predicate LossIsBounded(docs: seq<Outcome>) {
    forall events :: Play(docs, events).Some? && Play(docs, events).value.p.Looping? ==>
      Lost(Play(docs, events).value) < CKPT_EVERY
  }

  lemma BoundedIfNoneSkipped(docs: seq<Outcome>)
    requires NoneSkipped(docs)
    ensures LossIsBounded(docs)
  {
    forall events | Play(docs, events).Some? && Play(docs, events).value.p.Looping?
      ensures Lost(Play(docs, events).value) < CKPT_EVERY
    {
      LostSinceLastDue(docs, events);
      LastDueIsNear(docs, Play(docs, events).value.p.i);
    }
  }

  /** A checkpoint skipped for a parse fault or an empty extraction is a run that loses more. */
  lemma SkippedCheckpointLoses(docs: seq<Outcome>, k: nat) returns (events: seq<Event>)
    requires 0 < k <= |docs| && k % CKPT_EVERY == 0 && !docs[k - 1].Processed?
    ensures Play(docs, events).Some? && Play(docs, events).value.p.Looping?
    ensures Lost(Play(docs, events).value) >= CKPT_EVERY
  {
    events := ReachesEvery(docs, k);
    LostSinceLastDue(docs, events);
    SkippedIsFar(docs, k);
  }

  /** In every run a kill in the loop costs less than one interval, exactly when every document whose
      number is a multiple of the interval is processed. */
  lemma LossIsBoundedIff(docs: seq<Outcome>)
    ensures LossIsBounded(docs) <==> NoneSkipped(docs)
  {
    if NoneSkipped(docs) {
      BoundedIfNoneSkipped(docs);
    } else {
      var k :| 0 < k <= |docs| && k % CKPT_EVERY == 0 && !docs[k - 1].Processed?;
      var events := SkippedCheckpointLoses(docs, k);
    }
  }

  /** On a list of n empty extractions no checkpoint is ever due, and a kill can cost all n. */
  lemma {:induction false} EmptiesLoseEverything(n: nat) returns (docs: seq<Outcome>, events: seq<Event>)
    ensures docs == seq(n, _ => EmptyExtraction)
    ensures Play(docs, events).Some? && Play(docs, events).value.p.Looping? && Lost(Play(docs, events).value) == n
  {
    docs := seq(n, _ => EmptyExtraction);
    events := ReachesEvery(docs, n);
    LostSinceLastDue(docs, events);
  }

  /** A kill during a write restarts the block from zero. */
  lemma {:induction false} TornRestartsFromZero(docs: seq<Outcome>, events: seq<Event>)
    requires Play(docs, events).Some? && Play(docs, events).value.p.Writing?
    ensures Play(docs, events + [Kill] + [Start]) == Some(World(Torn, Looping(0, ZERO)))
  {
    WritingIsTorn(docs, events);
    assert (events + [Kill])[..|events|] == events;
    assert (events + [Kill] + [Start])[..|events| + 1] == events + [Kill];
  }

  lemma {:induction false} WritingIsTorn(docs: seq<Outcome>, events: seq<Event>)
    requires Play(docs, events).Some? && Play(docs, events).value.p.Writing?
    ensures Play(docs, events).value.file == Torn
  {
  }
}
