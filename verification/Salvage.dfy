/** `reconstruct`: service latency recovered from completion times, and what it leaves alone. */
module Salvage {
  import opened Metrics
  import opened PerfRecords
  import opened Seqs
  import opened Sorting
  import opened Totals
  import opened Wrappers

  // ----- reconstruct

  /** `order`: a document's rank by submit stamp; of several rows of one document the last counts. */
  function Rank(sorted: seq<Row>, doc: string): int {
    if sorted == [] then -1
    else if sorted[|sorted| - 1].doc == doc then |sorted| - 1
    else Rank(sorted[..|sorted| - 1], doc)
  }

  /** `r.get("completion_ns")` is truthy. */
  predicate CountsAsCompleted(r: Row) { r.completion.Some? && r.completion.value != 0 }

  function Completions(rows: seq<Row>): seq<int> {
    if rows == [] then [] else
      (if CountsAsCompleted(rows[0]) then [rows[0].completion.value] else []) + Completions(rows[1..])
  }

  function Smaller(a: int, b: int): int { if a <= b then a else b }

  /** Everything `reconstruct` computes from the rows before its loop. */
  datatype Model = Model(order: seq<Row>, comps: seq<int>, t0: int, c: int) {
    /** The document's admission instant can be looked up. */
    predicate Covers(r: Row) { Rank(order, r.doc) < c || comps != [] }

    function Admission(r: Row): int
      requires Covers(r)
    {
      var k := Rank(order, r.doc);
      if k < c then t0 else comps[Smaller(k - c, |comps| - 1)]
    }

    /** The row with its submit stamp replaced, never past its own completion. */
    function Apply(r: Row): Row {
      if Covers(r) then
        var adm := Admission(r);
        r.(submit := Some(Smaller(adm, r.completion.GetOr(adm))))
      else r
    }

    function Modelled(): Row -> Row { r => Apply(r) }

    function ApplyAll(rows: seq<Row>): (out: seq<Row>)
      ensures |out| == |rows| && forall i :: 0 <= i < |rows| ==> out[i] == Apply(rows[i])
    {
      Map(Modelled(), rows)
    }
  }

  function ModelOf(rows: seq<Row>, c: int): Model
    requires Submits(rows) != []
  {
    Model(Sort(rows, SubmitKey), Sort(Completions(rows), Itself), Min(Submits(rows)), c)
  }

  predicate AllSubmitted(rows: seq<Row>) { forall r :: r in rows ==> r.submit.Some? }

  /** No KeyError, no `min` of nothing, no index into an empty list of completions. */
  predicate Reconstructible(rows: seq<Row>, c: int) {
    && rows != [] && AllSubmitted(rows) && Submits(rows) != []
    && forall r :: r in rows ==> ModelOf(rows, c).Covers(r)
  }

  lemma SomeSubmits(rows: seq<Row>)
    requires rows != [] && AllSubmitted(rows)
    ensures Submits(rows) != []
  {
    assert rows[0] in rows;
  }

  method ModelRows(m: Model, rows: seq<Row>) returns (r: Result<seq<Row>>)
    ensures r.Ok? <==> forall x :: x in rows ==> m.Covers(x)
    ensures r.Ok? ==> r.value == m.ApplyAll(rows)
  {
    var out: seq<Row> := [];
    for i := 0 to |rows|
      invariant |out| == i && forall j :: 0 <= j < i ==> out[j] == m.Apply(rows[j])
      invariant forall j :: 0 <= j < i ==> m.Covers(rows[j])
    {
      var k := Rank(m.order, rows[i].doc);
      if k >= m.c && m.comps == [] {
        assert rows[i] in rows && !m.Covers(rows[i]);
        return Err("list index out of range");
      }
      var adm := if k < m.c then m.t0 else m.comps[Smaller(k - m.c, |m.comps| - 1)];
      out := out + [rows[i].(submit := Some(Smaller(adm, rows[i].completion.GetOr(adm))))];
    }
    assert out == m.ApplyAll(rows);
    r := Ok(out);
  }

  method Reconstruct(rows: seq<Row>, c: int) returns (r: Result<seq<Row>>)
    ensures r.Ok? <==> Reconstructible(rows, c)
    ensures r.Ok? ==> r.value == ModelOf(rows, c).ApplyAll(rows)
  {
    if rows == [] || exists x :: x in rows && x.submit.None? {
      return Err("no rows, or a row without submit_ns");
    }
    SomeSubmits(rows);
    r := ModelRows(ModelOf(rows, c), rows);
  }

  // ----- the modelled admission, told from the rows

  /** The last place of a document in the order of submission. */
  ghost predicate RankIs(order: seq<Row>, doc: string, k: int) {
    0 <= k < |order| && order[k].doc == doc && forall j :: k < j < |order| ==> order[j].doc != doc
  }

  lemma {:induction false} RankMeans(order: seq<Row>, doc: string)
    requires exists r :: r in order && r.doc == doc
    ensures RankIs(order, doc, Rank(order, doc))
  {
    var n := |order| - 1;
    if order[n].doc != doc {
      var r :| r in order && r.doc == doc;
      assert order == order[..n] + [order[n]];
      assert r in order[..n];
      RankMeans(order[..n], doc);
    }
  }

  function CompletedUpTo(v: int): Row -> bool { (r: Row) => CountsAsCompleted(r) && r.completion.value <= v }

  lemma {:induction false} CompletionCounts(rows: seq<Row>, v: int)
    ensures |Completions(rows)| == |Places(rows, CountsAsCompleted)|
    ensures CountWhere(Completions(rows), AtMost(v)) == |Places(rows, CompletedUpTo(v))|
  {
    if rows != [] {
      CompletionCounts(rows[1..], v);
      FirstPlace(rows, CountsAsCompleted);
      FirstPlace(rows, CompletedUpTo(v));
      HeadCounts(rows[0], Completions(rows[1..]), v);
    }
  }

  lemma HeadCounts(r: Row, rest: seq<int>, v: int)
    ensures CountWhere((if CountsAsCompleted(r) then [r.completion.value] else []) + rest, AtMost(v)) ==
            (if CompletedUpTo(v)(r) then 1 else 0) + CountWhere(rest, AtMost(v))
  {
    if CountsAsCompleted(r) {
      CountAdds([r.completion.value], rest, AtMost(v));
      assert [r.completion.value][..0] == [];
    } else {
      assert [] + rest == rest;
    }
  }

  ghost predicate Recorded(r: Row) { r.completion.Some? && r.completion.value != 0 }

  /** The instant of the completion that i others precede, of those recorded and not 0. */
  ghost predicate CompletionOfRank(rows: seq<Row>, i: int, v: int) {
    && |set j | 0 <= j < |rows| && Recorded(rows[j]) && rows[j].completion.value <= v| > i
    && |set j | 0 <= j < |rows| && Recorded(rows[j]) && rows[j].completion.value <= v - 1| <= i
  }

  lemma CompsRank(rows: seq<Row>, i: nat)
    requires i < |Completions(rows)|
    ensures CompletionOfRank(rows, i, Sort(Completions(rows), Itself)[i])
  {
    var v := Sort(Completions(rows), Itself)[i];
    RankedCounts(Completions(rows), Sort(Completions(rows), Itself), i);
    CompletionCounts(rows, v);
    CompletionCounts(rows, v - 1);
    assert Places(rows, CompletedUpTo(v)) ==
           set j | 0 <= j < |rows| && Recorded(rows[j]) && rows[j].completion.value <= v;
    assert Places(rows, CompletedUpTo(v - 1)) ==
           set j | 0 <= j < |rows| && Recorded(rows[j]) && rows[j].completion.value <= v - 1;
  }

  /** The instant of the k-th admission: of the first c the least submit stamp of all, otherwise the completion
      of rank k - c, or the last one. */
  ghost predicate AdmittedAt(rows: seq<Row>, c: int, k: int, adm: int) {
    var n := |set j | 0 <= j < |rows| && Recorded(rows[j])|;
    if k < c then (exists x :: x in rows && x.submit == Some(adm)) &&
                  forall x :: x in rows && x.submit.Some? ==> adm <= x.submit.value
    else n > 0 && CompletionOfRank(rows, if k - c < n then k - c else n - 1, adm)
  }

  lemma AdmissionIs(rows: seq<Row>, c: int, r: Row)
    requires Submits(rows) != [] && ModelOf(rows, c).Covers(r)
    ensures AdmittedAt(rows, c, Rank(Sort(rows, SubmitKey), r.doc), ModelOf(rows, c).Admission(r))
  {
    var m, k := ModelOf(rows, c), Rank(Sort(rows, SubmitKey), r.doc);
    if k < c {
      FirstSubmit(rows);
    } else {
      CompletionCounts(rows, 0);
      assert Places(rows, CountsAsCompleted) == set j | 0 <= j < |rows| && Recorded(rows[j]);
      CompsRank(rows, Smaller(k - c, |m.comps| - 1));
    }
  }

  /** A row whose document is k-th in submission order is stamped with the instant of the k-th admission, or
      with its own completion where that is earlier. */
  lemma ModelledAdmission(rows: seq<Row>, c: int, r: Row) returns (k: int, adm: int)
    requires Reconstructible(rows, c) && r in rows
    ensures RankIs(Sort(rows, SubmitKey), r.doc, k) && AdmittedAt(rows, c, k, adm)
    ensures ModelOf(rows, c).Apply(r) ==
            r.(submit := Some(if r.completion.Some? && r.completion.value < adm then r.completion.value else adm))
  {
    SortMembers(rows, SubmitKey, r);
    RankMeans(Sort(rows, SubmitKey), r.doc);
    AdmissionIs(rows, c, r);
    k, adm := Rank(Sort(rows, SubmitKey), r.doc), ModelOf(rows, c).Admission(r);
  }

  // ----- throughput does not move

  predicate NoEarlyCompletion(rows: seq<Row>)
    requires Submits(rows) != []
  {
    forall r :: r in rows && r.completion.Some? ==> Min(Submits(rows)) <= r.completion.value
  }

  ghost predicate DistinctDocs(rows: seq<Row>) {
    forall i, j :: 0 <= i < j < |rows| ==> rows[i].doc != rows[j].doc
  }

  /** Only submit stamps differ. */
  ghost predicate KeepsAllButSubmit(f: Row -> Row) {
    forall r :: f(r) == r.(submit := f(r).submit)
  }

  lemma MapHead(f: Row -> Row, x: Row, rows: seq<Row>)
    ensures Map(f, [x] + rows) == [f(x)] + Map(f, rows)
  {
  }

  lemma {:induction false} FilterMap(f: Row -> Row, rows: seq<Row>, p: Row -> bool)
    requires forall r :: r in rows ==> p(f(r)) == p(r)
    ensures Filter(Map(f, rows), p) == Map(f, Filter(rows, p))
  {
    if rows != [] {
      var x, rest := rows[0], rows[1..];
      assert rows == [x] + rest;
      FilterMap(f, rest, p);
      FilterHead(x, rest, p);
      MapHead(f, x, rest);
      FilterHead(f(x), Map(f, rest), p);
      MapHead(f, x, Filter(rest, p));
    }
  }

  lemma {:induction false} TotalsMap(f: Row -> Row, rows: seq<Row>)
    requires KeepsAllButSubmit(f)
    ensures TotalChunks(Map(f, rows)) == TotalChunks(rows)
    ensures LastCompletion(Map(f, rows)) == LastCompletion(rows)
  {
    if rows != [] {
      TotalsMap(f, rows[..|rows| - 1]);
      assert Map(f, rows)[..|rows| - 1] == Map(f, rows[..|rows| - 1]);
    }
  }

  lemma CompletionOrderMap(f: Row -> Row, rows: seq<Row>)
    requires KeepsAllButSubmit(f)
    ensures ByCompletion(Map(f, rows)) == Map(f, ByCompletion(rows))
  {
    FilterMap(f, rows, HasCompletion);
    SortMap(f, Filter(rows, HasCompletion), CompletionKey, CompletionKey);
  }

  lemma KeyKept(f: Row -> Row, r: Row)
    requires KeepsAllButSubmit(f)
    ensures CompletionKey(f(r)) == CompletionKey(r)
  {
  }

  lemma {:induction false} AfterMap(f: Row -> Row, rows: seq<Row>, b: int)
    requires KeepsAllButSubmit(f)
    ensures After(Map(f, rows), b) == Map(f, After(rows, b))
  {
    if rows != [] {
      AfterMap(f, rows[1..], b);
      KeyKept(f, rows[0]);
      assert Map(f, rows)[1..] == Map(f, rows[1..]);
    }
  }

  lemma KeyAt(f: Row -> Row, rows: seq<Row>, i: nat)
    requires KeepsAllButSubmit(f) && i < |rows|
    ensures CompletionKey(Map(f, rows)[i]) == CompletionKey(rows[i])
  {
    KeyKept(f, rows[i]);
  }

  lemma SameCuts(f: Row -> Row, done: seq<Row>, changed: seq<Row>, warm: nat)
    requires 0 < warm < |done| == |changed|
    requires CompletionKey(changed[warm - 1]) == CompletionKey(done[warm - 1])
    requires CompletionKey(changed[|done| - 1]) == CompletionKey(done[|done| - 1])
    requires After(changed, CompletionKey(done[warm - 1])) == Map(f, After(done, CompletionKey(done[warm - 1])))
    ensures WarmWindow(changed, warm).rows == Map(f, WarmWindow(done, warm).rows)
    ensures WarmWindow(changed, warm).span == WarmWindow(done, warm).span
    ensures WarmWindow(changed, warm).boundary == WarmWindow(done, warm).boundary
  {
  }

  lemma WarmWindowMap(f: Row -> Row, done: seq<Row>, warm: nat)
    requires KeepsAllButSubmit(f) && 0 < warm < |done|
    ensures WarmWindow(Map(f, done), warm)
            == WarmWindow(done, warm).(rows := Map(f, WarmWindow(done, warm).rows))
  {
    KeyAt(f, done, warm - 1);
    KeyAt(f, done, |done| - 1);
    AfterMap(f, done, CompletionKey(done[warm - 1]));
    SameCuts(f, done, Map(f, done), warm);
  }

  lemma ColdWindowIs(rows: seq<Row>)
    requires Submits(rows) != [] && |ByCompletion(rows)| > 0
    ensures var done := ByCompletion(rows);
            PerfWindow(rows, 0) == Ok(Window(done, CompletionKey(done[|done| - 1]) - Min(Submits(rows)), None))
  {
  }

  /** The window of the changed rows is the changed window of the rows. */
  lemma ColdWindowMap(f: Row -> Row, rows: seq<Row>)
    requires KeepsAllButSubmit(f) && Submits(rows) != [] && Submits(Map(f, rows)) != []
    requires Min(Submits(Map(f, rows))) == Min(Submits(rows)) && 0 < |ByCompletion(rows)|
    ensures PerfWindow(rows, 0).Ok?
    ensures var w := PerfWindow(rows, 0).value;
            PerfWindow(Map(f, rows), 0) == Ok(Window(Map(f, w.rows), w.span, w.boundary))
  {
    CompletionOrderMap(f, rows);
    var done := ByCompletion(rows);
    KeyKept(f, done[|done| - 1]);
    ColdWindowIs(rows);
    ColdWindowIs(Map(f, rows));
  }

  lemma SummaryMap(f: Row -> Row, ws: seq<Row>, span: int, warm: nat, t0: Option<int>)
    requires KeepsAllButSubmit(f)
    ensures Summary(Map(f, ws), span, warm, t0) == Summary(ws, span, warm, t0)
  {
    FilterMap(f, ws, Succeeded);
    TotalsMap(f, ws);
    TotalsMap(f, Filter(ws, Succeeded));
  }

  lemma FewCompletionsMap(f: Row -> Row, rows: seq<Row>, warm: nat)
    requires KeepsAllButSubmit(f) && |ByCompletion(rows)| <= warm
    ensures ThroughputOf(Map(f, rows), warm) == ThroughputOf(rows, warm)
  {
    CompletionOrderMap(f, rows);
  }

  lemma WarmThroughputMap(f: Row -> Row, rows: seq<Row>, warm: nat)
    requires KeepsAllButSubmit(f) && 0 < warm < |ByCompletion(rows)|
    ensures ThroughputOf(Map(f, rows), warm) == ThroughputOf(rows, warm)
  {
    CompletionOrderMap(f, rows);
    var done := ByCompletion(rows);
    var w := WarmWindow(done, warm);
    WarmWindowMap(f, done, warm);
    SummaryMap(f, w.rows, w.span, warm, w.boundary);
  }

  lemma ColdThroughputMap(f: Row -> Row, rows: seq<Row>)
    requires KeepsAllButSubmit(f) && Submits(rows) != [] && Submits(Map(f, rows)) != []
    requires Min(Submits(Map(f, rows))) == Min(Submits(rows)) && 0 < |ByCompletion(rows)|
    ensures ThroughputOf(Map(f, rows), 0) == ThroughputOf(rows, 0)
  {
    ColdWindowMap(f, rows);
    var w := PerfWindow(rows, 0).value;
    SummaryMap(f, w.rows, w.span, 0, WindowStart(rows, w));
  }

  lemma AppliedFrom(m: Model, rows: seq<Row>, x: int) returns (r: Row)
    requires x in Submits(m.ApplyAll(rows))
    ensures r in rows && m.Apply(r).submit == Some(x)
  {
    var out := m.ApplyAll(rows);
    SubmitsMembers(out, x);
    var q :| q in out && q.submit == Some(x);
    var i :| 0 <= i < |out| && out[i] == q;
    r := rows[i];
  }

  lemma NoneBeforeOpen(rows: seq<Row>, c: int, x: int)
    requires Reconstructible(rows, c) && NoEarlyCompletion(rows)
    requires x in Submits(ModelOf(rows, c).ApplyAll(rows))
    ensures Min(Submits(rows)) <= x
  {
    var r := AppliedFrom(ModelOf(rows, c), rows, x);
    ModelledNotBeforeOpen(rows, c, r);
  }

  /** Some document is last submitted among the first C, or completes at the batch open. */
  predicate StartsAtOpen(rows: seq<Row>, c: int)
    requires Submits(rows) != []
  {
    exists r :: r in rows && (Rank(ModelOf(rows, c).order, r.doc) < c || r.completion == Some(Min(Submits(rows))))
  }

  lemma AppliedAt(m: Model, rows: seq<Row>, r: Row)
    requires r in rows && m.Covers(r)
    ensures m.Apply(r).submit.Some? && m.Apply(r).submit.value in Submits(m.ApplyAll(rows))
  {
    var i :| 0 <= i < |rows| && rows[i] == r;
    assert m.ApplyAll(rows)[i] in m.ApplyAll(rows);
    SubmitsMembers(m.ApplyAll(rows), m.Apply(r).submit.value);
  }

  /** Then the earliest modelled submit stamp is still the batch open. */
  lemma BatchOpenStays(rows: seq<Row>, c: int)
    requires Reconstructible(rows, c) && NoEarlyCompletion(rows) && StartsAtOpen(rows, c)
    ensures var out := ModelOf(rows, c).ApplyAll(rows);
            Submits(out) != [] && Min(Submits(out)) == Min(Submits(rows))
  {
    var m := ModelOf(rows, c);
    var r :| r in rows && (Rank(m.order, r.doc) < c || r.completion == Some(m.t0));
    AppliedAt(m, rows, r);
    ModelledNotBeforeOpen(rows, c, r);
    forall x | x in Submits(m.ApplyAll(rows)) ensures m.t0 <= x { NoneBeforeOpen(rows, c, x); }
    MinIs(Submits(m.ApplyAll(rows)), m.t0);
  }

  lemma EarlyCompletionShows(rows: seq<Row>, c: int, r: Row)
    requires Reconstructible(rows, c) && r in rows && r.completion.Some?
    ensures var out := ModelOf(rows, c).ApplyAll(rows);
            Submits(out) != [] && Min(Submits(out)) <= r.completion.value
  {
    AppliedAt(ModelOf(rows, c), rows, r);
  }

  /** A row is modelled at the batch open for one of three reasons. */
  lemma AppliedAtOpen(m: Model, r: Row)
    requires m.Covers(r) && m.Apply(r).submit == Some(m.t0)
    ensures Rank(m.order, r.doc) < m.c || r.completion == Some(m.t0) || m.t0 in m.comps
  {
  }

  lemma SomeoneIsAtOpen(rows: seq<Row>, c: int)
    requires Reconstructible(rows, c) && Min(Submits(rows)) in Submits(ModelOf(rows, c).ApplyAll(rows))
    ensures StartsAtOpen(rows, c)
  {
    var m := ModelOf(rows, c);
    var r := AppliedFrom(m, rows, m.t0);
    AppliedAtOpen(m, r);
    if m.t0 in m.comps {
      SortMembers(Completions(rows), Itself, m.t0);
      CompletionsMembers(rows, m.t0);
    }
  }

  /** Nothing else keeps it. */
  lemma BatchOpenStaysIff(rows: seq<Row>, c: int)
    requires Reconstructible(rows, c)
    ensures var out := ModelOf(rows, c).ApplyAll(rows);
            && Submits(out) != []
            && (Min(Submits(out)) == Min(Submits(rows)) <==> NoEarlyCompletion(rows) && StartsAtOpen(rows, c))
  {
    var out := ModelOf(rows, c).ApplyAll(rows);
    AppliedAt(ModelOf(rows, c), rows, rows[0]);
    if NoEarlyCompletion(rows) && StartsAtOpen(rows, c) { BatchOpenStays(rows, c); }
    if Min(Submits(out)) == Min(Submits(rows)) {
      SomeoneIsAtOpen(rows, c);
      forall r | r in rows && r.completion.Some? ensures Min(Submits(rows)) <= r.completion.value {
        EarlyCompletionShows(rows, c, r);
      }
    }
  }

  /** Distinct documents suffice for the second condition. */
  lemma DistinctStartAtOpen(rows: seq<Row>, c: int)
    requires Submits(rows) != [] && rows != [] && DistinctDocs(rows) && c >= 1
    ensures StartsAtOpen(rows, c)
  {
    var first := ModelOf(rows, c).order[0];
    SortMembers(rows, SubmitKey, first);
    RankIsPlace(rows, 0);
  }

  lemma CompletionNotEarly(rows: seq<Row>, x: int)
    requires Submits(rows) != [] && NoEarlyCompletion(rows) && x in Sort(Completions(rows), Itself)
    ensures Min(Submits(rows)) <= x
  {
    SortMembers(Completions(rows), Itself, x);
    CompletionsMembers(rows, x);
  }

  lemma ModelledNotBeforeOpen(rows: seq<Row>, c: int, r: Row)
    requires Submits(rows) != [] && NoEarlyCompletion(rows) && r in rows && ModelOf(rows, c).Covers(r)
    ensures var s := ModelOf(rows, c).Apply(r).submit; s.Some? && s.value >= Min(Submits(rows))
  {
    var m := ModelOf(rows, c);
    if Rank(m.order, r.doc) >= c {
      CompletionNotEarly(rows, m.Admission(r));
    }
  }

  lemma {:induction false} CompletionsMembers(rows: seq<Row>, x: int)
    requires x in Completions(rows)
    ensures exists r :: r in rows && r.completion == Some(x)
  {
    if CountsAsCompleted(rows[0]) && rows[0].completion.value == x {
      assert rows[0] in rows;
    } else {
      CompletionsMembers(rows[1..], x);
      var r :| r in rows[1..] && r.completion == Some(x);
      assert r in rows;
    }
  }

  function DocIs(d: string): Row -> bool { (r: Row) => r.doc == d }

  lemma {:induction false} DistinctCount(rows: seq<Row>, d: string)
    requires DistinctDocs(rows)
    ensures CountWhere(rows, DocIs(d)) <= 1
  {
    if rows != [] {
      var n := |rows| - 1;
      DistinctCount(rows[..n], d);
      if rows[n].doc == d {
        CountBounds(rows[..n], DocIs(d));
      }
    }
  }

  lemma {:induction false} RankOfOnly(s: seq<Row>, k: nat)
    requires k < |s| && CountWhere(s, DocIs(s[k].doc)) <= 1
    ensures Rank(s, s[k].doc) == k
  {
    var n := |s| - 1;
    if k < n {
      assert s[..n][k] == s[k];
      HoldsOne(s[..n], k, DocIs(s[k].doc));
      RankOfOnly(s[..n], k);
    }
  }

  lemma {:induction false} HoldsOne(s: seq<Row>, k: nat, p: Row -> bool)
    requires k < |s| && p(s[k])
    ensures CountWhere(s, p) >= 1
  {
    if k < |s| - 1 { HoldsOne(s[..|s| - 1], k, p); }
  }

  /** With distinct documents a row's rank is its place in submit order. */
  lemma RankIsPlace(rows: seq<Row>, k: nat)
    requires DistinctDocs(rows) && k < |Sort(rows, SubmitKey)|
    ensures Rank(Sort(rows, SubmitKey), Sort(rows, SubmitKey)[k].doc) == k
  {
    var order := Sort(rows, SubmitKey);
    SortCount(rows, SubmitKey, DocIs(order[k].doc));
    DistinctCount(rows, order[k].doc);
    RankOfOnly(order, k);
  }

  lemma ModelKeepsAllButSubmit(m: Model)
    ensures KeepsAllButSubmit(m.Modelled())
  {
  }

  lemma WarmUnmoved(rows: seq<Row>, c: int, warm: nat)
    requires Reconstructible(rows, c) && warm > 0
    ensures ThroughputOf(ModelOf(rows, c).ApplyAll(rows), warm) == ThroughputOf(rows, warm)
  {
    var f := ModelOf(rows, c).Modelled();
    ModelKeepsAllButSubmit(ModelOf(rows, c));
    if |ByCompletion(rows)| <= warm {
      FewCompletionsMap(f, rows, warm);
    } else {
      WarmThroughputMap(f, rows, warm);
    }
  }

  lemma ColdStart(rows: seq<Row>)
    requires Submits(rows) != [] && ByCompletion(rows) != []
    ensures ThroughputOf(rows, 0).Ok? && ThroughputOf(rows, 0).value.t0 == Some(Min(Submits(rows)))
  {
  }

  lemma SameCompletions(rows: seq<Row>, c: int)
    requires Submits(rows) != []
    ensures |ByCompletion(ModelOf(rows, c).ApplyAll(rows))| == |ByCompletion(rows)|
  {
    ModelKeepsAllButSubmit(ModelOf(rows, c));
    CompletionOrderMap(ModelOf(rows, c).Modelled(), rows);
  }

  lemma ColdMeansOpen(rows: seq<Row>, out: seq<Row>)
    requires Submits(rows) != [] && Submits(out) != [] && ByCompletion(rows) != [] && ByCompletion(out) != []
    requires ThroughputOf(out, 0) == ThroughputOf(rows, 0)
    ensures Min(Submits(out)) == Min(Submits(rows))
  {
    ColdStart(rows);
    ColdStart(out);
  }

  lemma ColdUnmovedIff(rows: seq<Row>, c: int)
    requires Reconstructible(rows, c) && ByCompletion(rows) != []
    ensures ThroughputOf(ModelOf(rows, c).ApplyAll(rows), 0) == ThroughputOf(rows, 0)
            <==> NoEarlyCompletion(rows) && StartsAtOpen(rows, c)
  {
    var out := ModelOf(rows, c).ApplyAll(rows);
    BatchOpenStaysIff(rows, c);
    SameCompletions(rows, c);
    if ThroughputOf(out, 0) == ThroughputOf(rows, 0) { ColdMeansOpen(rows, out); }
    if NoEarlyCompletion(rows) && StartsAtOpen(rows, c) {
      ModelKeepsAllButSubmit(ModelOf(rows, c));
      ColdThroughputMap(ModelOf(rows, c).Modelled(), rows);
    }
  }

  lemma NothingCompletedUnmoved(rows: seq<Row>, c: int)
    requires Reconstructible(rows, c) && ByCompletion(rows) == []
    ensures ThroughputOf(ModelOf(rows, c).ApplyAll(rows), 0) == ThroughputOf(rows, 0)
  {
    ModelKeepsAllButSubmit(ModelOf(rows, c));
    FewCompletionsMap(ModelOf(rows, c).Modelled(), rows, 0);
  }

  /** Reconstruction moves no throughput figure behind a warm-up: the submit stamps are never read.
      Without one only the earliest stamp is, and the figures stay exactly if nothing completed, or if
      no completion precedes the batch open and somebody starts at it. */
  lemma ThroughputUnmovedIff(rows: seq<Row>, c: int, warm: nat)
    requires Reconstructible(rows, c)
    ensures ThroughputOf(ModelOf(rows, c).ApplyAll(rows), warm) == ThroughputOf(rows, warm)
            <==> warm > 0 || ByCompletion(rows) == [] || (NoEarlyCompletion(rows) && StartsAtOpen(rows, c))
  {
    if warm > 0 {
      WarmUnmoved(rows, c, warm);
    } else if ByCompletion(rows) == [] {
      NothingCompletedUnmoved(rows, c);
    } else {
      ColdUnmovedIff(rows, c);
    }
  }

  /** In particular when documents are recorded once each and no completion precedes the batch open. */
  lemma ThroughputUnmoved(rows: seq<Row>, c: int, warm: nat)
    requires Reconstructible(rows, c) && c >= 1 && DistinctDocs(rows) && NoEarlyCompletion(rows)
    ensures ThroughputOf(ModelOf(rows, c).ApplyAll(rows), warm) == ThroughputOf(rows, warm)
  {
    DistinctStartAtOpen(rows, c);
    ThroughputUnmovedIff(rows, c, warm);
  }

  lemma OneRow(a: Row)
    requires a.submit.Some? && CountsAsCompleted(a)
    ensures Submits([a]) == [a.submit.value] && Completions([a]) == [a.completion.value]
  {
    assert [a][1..] == [];
  }

  lemma TwoRows(a: Row, b: Row)
    requires a.submit.Some? && b.submit.Some? && CountsAsCompleted(a) && CountsAsCompleted(b)
    ensures Submits([a, b]) == [a.submit.value, b.submit.value]
    ensures Completions([a, b]) == [a.completion.value, b.completion.value]
  {
    assert [a, b][1..] == [b];
    OneRow(b);
  }

  lemma OneSorted<T>(x: T, key: T -> int)
    ensures Sort([x], key) == [x]
  {
    assert [x][1..] == [];
  }

  lemma TwoSorted<T>(x: T, y: T, key: T -> int)
    requires key(x) <= key(y)
    ensures Sort([x, y], key) == [x, y]
  {
    assert [x, y][1..] == [y];
    OneSorted(y, key);
  }

  /** Recording a document twice is enough to move the figure. */
  lemma RepeatedDocumentMovesThroughput(a: Row, b: Row)
    requires a == Row("a", Some(1), Some(10), true, None) && b == Row("a", Some(2), Some(20), true, None)
    ensures Reconstructible([a, b], 1) && NoEarlyCompletion([a, b])
    ensures ThroughputOf(ModelOf([a, b], 1).ApplyAll([a, b]), 0) != ThroughputOf([a, b], 0)
  {
    var rows := [a, b];
    TwoRows(a, b);
    TwoSorted(a, b, SubmitKey);
    TwoSorted(10, 20, Itself);
    MinIs([1, 2], 1);
    assert Rank([a, b], "a") == 1;
    assert !StartsAtOpen(rows, 1);
    assert a in Filter(rows, HasCompletion);
    ThroughputUnmovedIff(rows, 1, 0);
  }
}
