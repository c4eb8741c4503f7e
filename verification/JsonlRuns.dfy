/** Runs of the log: threads that write under a lock, a kill at any byte, reading, rewriting, reopening. */
module JsonlRuns {
  import opened Wrappers
  import opened JsonlStream
  import Json

  /** The thread that holds the lock, the row it writes, and how much of the line is in the file. */
  datatype Inflight = Inflight(thread: nat, row: Record, put: nat)

  datatype Mode = Down | Open(writer: Option<Inflight>) | Rewriting(rows: seq<Record>, tmp: string)

  /** A row whose write a kill interrupted behind `put` characters. */
  datatype Cut = Cut(row: Record, put: nat)

  /** `log` and `cut` are history: the rows written whole since the last rewrite, behind the rows that
      rewrite left, and what a kill cut short.  `rewritten` says that nobody opened the file since. */
  datatype World = World(file: Option<string>, mode: Mode, log: seq<Record>, cut: Option<Cut>, rewritten: bool)

  const START := World(None, Down, [], None, false)

  datatype Event =
    | Reopen | Begin(thread: nat, row: Record) | Put(thread: nat, chars: nat) | End(thread: nat) | Close
    | BeginRewrite(rows: seq<Record>) | PutTmp(chars: nat) | Rename
    | Kill

  predicate HasLock(w: World, thread: nat) {
    w.mode.Open? && w.mode.writer.Some? && w.mode.writer.value.thread == thread
  }

  predicate Enabled(w: World, e: Event) {
    match e
    case Reopen => w.mode.Down?
    case Begin(thread, row) => w.mode == Open(None) && w.file.Some?
    case Put(thread, n) => HasLock(w, thread) && w.mode.writer.value.put + n <= |Line(w.mode.writer.value.row)|
                           && w.file.Some?
    case End(thread) => HasLock(w, thread) && w.mode.writer.value.put == |Line(w.mode.writer.value.row)|
    case Close => w.mode == Open(None)
    case BeginRewrite(rows) => w.mode.Down?
    case PutTmp(n) => w.mode.Rewriting? && |w.mode.tmp| + n <= |Whole(w.mode.rows)|
    case Rename => w.mode.Rewriting? && |w.mode.tmp| == |Whole(w.mode.rows)|
    case Kill => true
  }

  function Next(w: World, e: Event): World
    requires Enabled(w, e)
  {
    match e
    case Reopen => w.(file := Some(w.file.GetOr("")), mode := Open(None), rewritten := false)
    case Begin(thread, row) => w.(mode := Open(Some(Inflight(thread, row, 0))))
    case Put(_, n) =>
      var i := w.mode.writer.value;
      w.(file := Some(w.file.value + Line(i.row)[i.put..i.put + n]), mode := Open(Some(i.(put := i.put + n))))
    case End(_) => w.(mode := Open(None), log := w.log + [w.mode.writer.value.row])
    case Close => w.(mode := Down)
    case BeginRewrite(rows) => w.(mode := Rewriting(rows, ""))
    case PutTmp(n) =>
      var t := |w.mode.tmp|;
      w.(mode := w.mode.(tmp := w.mode.tmp + Whole(w.mode.rows)[t..t + n]))
    case Rename => World(Some(w.mode.tmp), Down, w.mode.rows, None, true)
    case Kill => Killed(w)
  }

  /** A kill loses the process and nothing that is in the file. */
  function Killed(w: World): World {
    if w.mode.Open? && w.mode.writer.Some? then
      var i := w.mode.writer.value;
      if i.put == 0 then w.(mode := Down)
      else if i.put < |Line(i.row)| then w.(mode := Down, cut := Some(Cut(i.row, i.put)))
      else w.(mode := Down, log := w.log + [i.row])
    else w.(mode := Down)
  }

  function Play(events: seq<Event>): Option<World> {
    if events == [] then Some(START) else
      var w := Play(events[..|events| - 1]);
      var e := events[|events| - 1];
      if w.Some? && Enabled(w.value, e) then Some(Next(w.value, e)) else None
  }

  /** A surviving file is rewritten before it is opened again. */
  ghost predicate Careful(events: seq<Event>) {
    events != [] ==>
      var before, e := events[..|events| - 1], events[|events| - 1];
      Careful(before)
      && (e == Reopen && Play(before).Some? ==> Play(before).value.file.None? || Play(before).value.rewritten)
  }

  // ----- the file is the log and a tail

  /** The row in the tail and how much of its line is there. */
  function InTail(w: World): Option<Cut> {
    if w.mode.Open? && w.mode.writer.Some? then Some(Cut(w.mode.writer.value.row, w.mode.writer.value.put)) else w.cut
  }

  function TailText(c: Option<Cut>): string {
    if c.Some? && c.value.put <= |Line(c.value.row)| then Line(c.value.row)[..c.value.put] else ""
  }

  ghost predicate Inv(w: World) {
    && (w.file.None? ==> w.log == [] && w.cut.None? && !w.mode.Open?)
    && (w.file.Some? ==> w.file.value == Whole(w.log) + TailText(InTail(w)))
    && (w.mode.Open? || w.rewritten ==> w.cut.None?) && (w.mode.Open? ==> !w.rewritten)
    && (w.mode.Open? && w.mode.writer.Some? ==> w.mode.writer.value.put <= |Line(w.mode.writer.value.row)|)
    && (w.cut.Some? ==> 0 < w.cut.value.put < |Line(w.cut.value.row)|)
    && (w.mode.Rewriting? ==> w.mode.tmp <= Whole(w.mode.rows))
  }

  lemma PutExtends(log: string, t: string, put: nat, n: nat)
    requires put + n <= |t|
    ensures (log + t[..put]) + t[put..put + n] == log + t[..put + n]
  {
    assert t[..put + n] == t[..put] + t[put..put + n];
  }

  lemma PutKeeps(w: World, thread: nat, n: nat)
    requires Inv(w) && Enabled(w, Put(thread, n))
    ensures Inv(Next(w, Put(thread, n)))
  {
    var i := w.mode.writer.value;
    PutExtends(Whole(w.log), Line(i.row), i.put, n);
  }

  lemma WholeTail(row: Record)
    ensures Line(row)[..|Line(row)|] == Line(row) && Line(row)[..0] == ""
  {
  }

  lemma NoTail(t: string)
    ensures t + "" == t
  {
  }

  lemma LineEntersLog(w: World)
    requires Inv(w) && w.mode.Open? && w.mode.writer.Some?
    requires w.mode.writer.value.put == |Line(w.mode.writer.value.row)|
    ensures w.file.Some? && w.file.value == Whole(w.log + [w.mode.writer.value.row]) + ""
  {
    var row := w.mode.writer.value.row;
    WholeTail(row);
    WholeGrows(w.log, row);
    NoTail(Whole(w.log + [row]));
  }

  lemma WriterStepKeeps(w: World, e: Event)
    requires Inv(w) && Enabled(w, e) && (e.Begin? || e.End? || e.Close?)
    ensures Inv(Next(w, e))
  {
    if e.Begin? { WholeTail(e.row); }
    if e.End? { LineEntersLog(w); }
  }

  lemma KillKeeps(w: World)
    requires Inv(w)
    ensures Inv(Killed(w))
  {
    if w.mode.Open? && w.mode.writer.Some? {
      var i := w.mode.writer.value;
      WholeTail(i.row);
      if i.put == |Line(i.row)| { LineEntersLog(w); }
    }
  }

  lemma TmpGrows(tmp: string, t: string, n: nat)
    requires tmp <= t && |tmp| + n <= |t|
    ensures tmp + t[|tmp|..|tmp| + n] <= t
  {
  }

  lemma RewriteStepKeeps(w: World, e: Event)
    requires Inv(w) && Enabled(w, e) && (e.BeginRewrite? || e.PutTmp? || e.Rename?)
    ensures Inv(Next(w, e))
  {
    if e.Rename? { NoTail(Whole(w.mode.rows)); }
    if e.PutTmp? { TmpGrows(w.mode.tmp, Whole(w.mode.rows), e.chars); }
  }

  lemma ReopenKeeps(w: World)
    requires Inv(w) && w.mode.Down? && (w.file.None? || w.cut.None?)
    ensures Inv(Next(w, Reopen))
  {
    NoTail(Whole(w.log));
  }

  lemma {:induction false} PlayKeeps(events: seq<Event>)
    requires Play(events).Some? && Careful(events)
    ensures Inv(Play(events).value)
  {
    if events != [] {
      PlayKeeps(events[..|events| - 1]);
      var w, e := Play(events[..|events| - 1]).value, events[|events| - 1];
      if e.Put? {
        PutKeeps(w, e.thread, e.chars);
      } else if e.Reopen? {
        ReopenKeeps(w);
      } else if e.Kill? {
        KillKeeps(w);
      } else if e.BeginRewrite? || e.PutTmp? || e.Rename? {
        RewriteStepKeeps(w, e);
      } else {
        WriterStepKeeps(w, e);
      }
    }
  }

  // ----- what reading returns

  /** The rows whose JSON text reached the file whole, in file order. */
  function Complete(w: World): seq<Record> {
    match InTail(w)
    case None => w.log
    case Some(c) => Reached(w.log, c.row, c.put)
  }

  function TornNote(w: World): Option<nat> {
    match InTail(w)
    case None => None
    case Some(c) => Torn(c.row, c.put)
  }

  ghost predicate ReadsExactly(w: World, key: Json.Text) {
    var got, rows := Survived(w.file, key), Complete(w);
    && (got.Ok? <==> AllHashable(rows, key))
    && (got.Ok? ==> got.value == Survivors(Rows(rows), Keys(rows, key), TornNote(w)))
  }

  lemma FileReads(w: World, key: Json.Text)
    requires Inv(w)
    ensures ReadsExactly(w, key)
  {
    if w.file.Some? {
      match InTail(w)
      case None =>
        NoTail(Whole(w.log));
        WholeFileReads(w.log, key);
      case Some(c) => FrontFileReads(w.log, c.row, c.put, key);
    }
  }

  /** In every run in which a surviving file is rewritten before it is opened again, wherever the kills
      fall, reading returns exactly the rows whose JSON text reached the file whole, in file order, and
      raises over nothing but a key that holds a list or a dict. */
  lemma ReadIsExact(events: seq<Event>, key: Json.Text)
    requires Play(events).Some? && Careful(events)
    ensures ReadsExactly(Play(events).value, key)
  {
    PlayKeeps(events);
    FileReads(Play(events).value, key);
  }

  /** So the completed keys are what the rows that reached the file whole hold under the key. */
  lemma CompletedAreExact(events: seq<Event>, key: Json.Text)
    requires Play(events).Some? && Careful(events)
    ensures var got, rows := Survived(Play(events).value.file, key), Complete(Play(events).value);
            && (got.Err? <==> exists r: Record, v :: r in rows && Holds(r, key, v) && (v.Arr? || v.Obj?))
            && (got.Ok? ==> forall v :: v in got.value.done <==> exists r: Record :: r in rows && Holds(r, key, v))
  {
    ReadIsExact(events, key);
    RecordKeysMean(Complete(Play(events).value), key);
  }

  /** A kill, whenever it comes, leaves the file and the complete rows as they are, and nobody writing. */
  lemma KillLosesNothing(events: seq<Event>)
    requires Play(events).Some? && Careful(events)
    ensures var w, w' := Play(events).value, Next(Play(events).value, Kill);
            && w'.mode.Down? && w'.file == w.file && Complete(w') == Complete(w) && TornNote(w') == TornNote(w)
  {
    PlayKeeps(events);
    var w := Play(events).value;
    if w.mode.Open? && w.mode.writer.Some? { BodyIs(w.mode.writer.value.row); }
  }

  /** The lock: what one thread may write no other may, nobody begins while it writes, and the log can only be
      closed, and then is, when nobody does. */
  lemma LockExcludes(w: World, t: nat, n: nat, u: nat, m: nat, row: Record)
    requires Enabled(w, Put(t, n))
    ensures Enabled(w, Put(u, m)) || Enabled(w, End(u)) ==> u == t
    ensures !Enabled(w, Begin(u, row)) && !Enabled(w, Close)
  {
  }

  lemma ClosedIsDown(w: World)
    requires Enabled(w, Close)
    ensures Next(w, Close) == w.(mode := Down) && forall t, n :: !Enabled(w, Put(t, n))
  {
  }

  // ----- reopening without a rewrite

  lemma Extend(events: seq<Event>, w: World, e: Event) returns (later: seq<Event>, w': World)
    requires Play(events) == Some(w) && Enabled(w, e)
    ensures later == events + [e] && w' == Next(w, e) && Play(later) == Some(w')
  {
    later, w' := events + [e], Next(w, e);
    assert later[..|events|] == events;
  }

  /** The file is opened as it is and one more row is written to it. */
  lemma Resumes(events: seq<Event>, thread: nat, next: Record) returns (later: seq<Event>)
    requires Play(events).Some? && Play(events).value.mode.Down? && Play(events).value.file.Some?
    ensures events <= later && Play(later).Some?
    ensures Play(later).value.file == Some(Play(events).value.file.value + Line(next))
    ensures Play(later).value.mode == Open(None)
  {
    var w := Play(events).value;
    later, w := Extend(events, w, Reopen);
    later, w := WritesRow(later, w, thread, next);
  }

  lemma WritesRow(events: seq<Event>, w: World, thread: nat, next: Record) returns (later: seq<Event>, w': World)
    requires Play(events) == Some(w) && w.mode == Open(None) && w.file.Some?
    ensures events <= later && Play(later) == Some(w') && w'.mode == Open(None)
    ensures w'.file == Some(w.file.value + Line(next))
  {
    later, w' := Extend(events, w, Begin(thread, next));
    later, w' := Extend(later, w', Put(thread, |Line(next)|));
    WholeTail(next);
    later, w' := Extend(later, w', End(thread));
  }

  lemma {:induction false} RowsCount(rs: seq<Record>)
    ensures |Rows(rs)| == |rs|
  {
    if rs != [] { RowsCount(rs[..|rs| - 1]); }
  }

  lemma AppendToWhole(log: seq<Record>, next: Record, key: Json.Text)
    requires AllHashable(log + [next], key)
    ensures Survived(Some(Whole(log) + Line(next)), key) ==
            Ok(Survivors(Rows(log + [next]), Keys(log + [next], key), None))
  {
    WholeGrows(log, next);
    WholeFileReads(log + [next], key);
  }

  /** Empty, or ending in a newline: what a caller can look at before opening the file. */
  predicate EndsClean(text: string) { text == "" || text[|text| - 1] == '\n' }

  lemma {:induction false} WholeEndsClean(rs: seq<Record>)
    ensures EndsClean(Whole(rs))
  {
    if rs != [] {
      WholeEndsClean(rs[1..]);
      var rest := Whole(rs[1..]);
      assert rest == "" ==> Whole(rs)[|Whole(rs)| - 1] == Line(rs[0])[|Line(rs[0])| - 1];
    }
  }

  lemma TailEndsOpen(rs: seq<Record>, cut: Cut)
    requires 0 < cut.put < |Line(cut.row)|
    ensures !EndsClean(Whole(rs) + Line(cut.row)[..cut.put])
  {
    TailIs(cut.row, cut.put);
    var t := Tail(cut.row, cut.put);
    assert ' ' <= t[|t| - 1];
  }

  /** A kill left a tail exactly when the file does not end in a newline. */
  lemma EndsCleanIff(events: seq<Event>)
    requires Play(events).Some? && Careful(events)
    requires Play(events).value.mode.Down? && Play(events).value.file.Some?
    ensures EndsClean(Play(events).value.file.value) <==> Play(events).value.cut.None?
  {
    PlayKeeps(events);
    var w := Play(events).value;
    WholeEndsClean(w.log);
    if w.cut.None? { NoTail(Whole(w.log)); } else { TailEndsOpen(w.log, w.cut.value); }
  }

  /** Any front of a line, short of the line, can be what a kill leaves. */
  lemma TailIsReachable(row: Record, n: nat) returns (events: seq<Event>)
    requires 0 < n < |Line(row)|
    ensures Careful(events) && Play(events).Some? && Play(events).value.mode.Down?
    ensures Play(events).value.cut == Some(Cut(row, n)) && Play(events).value.file == Some(Line(row)[..n])
  {
    var w;
    events, w := Extend([], START, Reopen);
    events, w := Extend(events, w, Begin(0, row));
    events, w := Extend(events, w, Put(0, n));
    events, w := Extend(events, w, Kill);
    assert events == [Reopen, Begin(0, row), Put(0, n), Kill];
    assert "" + Line(row)[0..n] == Line(row)[..n];
    FirstOpenIsCareful(events);
  }

  lemma FirstOpenIsCareful(events: seq<Event>)
    requires |events| == 4 && Reopen !in events[1..]
    ensures Careful(events)
  {
    assert events[..3][..2] == events[..2] && events[..2][..1] == events[..1] && events[..1][..0] == [];
    assert events[1..] == [events[1], events[2], events[3]];
    assert Careful(events[..1]) && Careful(events[..2]) && Careful(events[..3]);
  }

  lemma CarefulStep(events: seq<Event>, w: World, e: Event) returns (later: seq<Event>, w': World)
    requires Play(events) == Some(w) && Careful(events) && Enabled(w, e)
    requires e == Reopen ==> w.file.None? || w.rewritten
    ensures later == events + [e] && w' == Next(w, e) && Play(later) == Some(w') && Careful(later)
  {
    later, w' := Extend(events, w, e);
    assert later[..|later| - 1] == events && later[|later| - 1] == e;
  }

  /** Whatever a careful run that is down left, it can go on with the complete rows rewritten and the file
      open again: nothing that reached the file whole is lost, and no tail is left. */
  lemma RewriteResumes(events: seq<Event>) returns (later: seq<Event>)
    requires Play(events).Some? && Careful(events) && Play(events).value.mode.Down?
    ensures events <= later && Careful(later)
    ensures var rows := Complete(Play(events).value);
            Play(later) == Some(World(Some(Whole(rows)), Open(None), rows, None, false))
  {
    var w, rows := Play(events).value, Complete(Play(events).value);
    later, w := WritesTemporary(events, w, rows, Whole(rows));
    later, w := CarefulStep(later, w, Rename);
    later, w := CarefulStep(later, w, Reopen);
  }

  lemma WritesTemporary(events: seq<Event>, w: World, rows: seq<Record>, text: string)
    returns (later: seq<Event>, w': World)
    requires Play(events) == Some(w) && Careful(events) && w.mode.Down? && text == Whole(rows)
    ensures events <= later && Play(later) == Some(w') && Careful(later) && w' == w.(mode := Rewriting(rows, text))
  {
    later, w' := CarefulStep(events, w, BeginRewrite(rows));
    later, w' := CarefulStep(later, w', PutTmp(|text|));
    assert "" + text[0..|text|] == text;
  }

  /** Opening a surviving file without rewriting it is safe exactly when it is empty or ends in a newline:
      only then does reading return what was there and the row written next. */
  lemma ReopenSafeIff(events: seq<Event>, thread: nat, next: Record, key: Json.Text) returns (later: seq<Event>)
    requires Play(events).Some? && Careful(events)
    requires Play(events).value.mode.Down? && Play(events).value.file.Some?
    requires AllHashable(Complete(Play(events).value) + [next], key)
    ensures events <= later && Play(later).Some?
    ensures Play(later).value.file == Some(Play(events).value.file.value + Line(next))
    ensures var w, got := Play(events).value, Survived(Play(later).value.file, key);
            && got.Ok?
            && (got.value.rows == Rows(Complete(w) + [next]) <==> w.cut.None?)
            && (got.value.rows == Rows(Complete(w) + [next]) <==> EndsClean(w.file.value))
  {
    later := Resumes(events, thread, next);
    PlayKeeps(events);
    EndsCleanIff(events);
    var w := Play(events).value;
    RowsCount(Complete(w) + [next]);
    RowsCount(w.log);
    if w.cut.None? {
      NoTail(Whole(w.log));
      AppendToWhole(w.log, next, key);
    } else {
      assert forall r :: r in w.log ==> r in Complete(w) + [next];
      var text := Play(later).value.file.value;
      NoTail(text);
      AppendToTailLoses(text, w.log, w.cut.value.row, w.cut.value.put, next, key);
    }
  }
}
