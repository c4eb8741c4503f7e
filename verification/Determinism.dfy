/** The two determinism dialects, and the verdicts that fold the checks together. */
module Determinism {
  import opened GateRecords
  import opened Wrappers

  /** Document name to chunk digests; `None` is a digest that was never recorded. */
  type DigestMap = map<string, Option<seq<Digest>>>

  /** `{r["doc"]: r.get("chunk_sha256") for r in rows if r.get("ok")}`: the last row wins. */
  function Digests(rows: seq<Row>): DigestMap {
    if rows == [] then map[] else
      var r := rows[|rows| - 1];
      var before := Digests(rows[..|rows| - 1]);
      if r.ok then before[r.doc := r.chunks] else before
  }

  /** Both sides recorded the same digests for a document. */
  predicate Proven(a: DigestMap, b: DigestMap, d: string)
    requires d in a && d in b
  {
    a[d].Some? && b[d].Some? && a[d] == b[d]
  }

  // ----- Leela: asymmetry between the runs is a failure

  datatype LeelaReport = LeelaReport(compared: nat, mismatch: set<string>, onlyA: set<string>,
                                     onlyB: set<string>, pass: bool)

  function LeelaDeterminism(rowsA: seq<Row>, rowsB: seq<Row>): LeelaReport {
    var a, b := Digests(rowsA), Digests(rowsB);
    var both := a.Keys * b.Keys;
    var mismatch := set d | d in both && (a[d].None? || b[d].None? || a[d] != b[d]);
    var onlyA, onlyB := a.Keys - b.Keys, b.Keys - a.Keys;
    LeelaReport(|both|, mismatch, onlyA, onlyB,
                both != {} && mismatch == {} && onlyA == {} && onlyB == {})
  }

  // ----- Shashi: the intersection only

  datatype ShashiReport = ShashiReport(compared: nat, identical: set<string>, mismatched: set<string>,
                                       unproven: set<string>, pass: bool)

  /** What Shashi's check requires of two digest maps. */
  ghost predicate ShashiPasses(a: DigestMap, b: DigestMap) {
    a.Keys * b.Keys != {} && forall d :: d in a && d in b ==> Proven(a, b, d)
  }

  method ShashiDeterminism(a: DigestMap, b: DigestMap) returns (r: ShashiReport)
    ensures r.pass <==> ShashiPasses(a, b)
    ensures r.compared == |a.Keys * b.Keys|
    ensures forall d :: d in r.identical <==> d in a && d in b && Proven(a, b, d)
    ensures forall d :: d in r.unproven <==> d in a && d in b && (a[d].None? || b[d].None?)
    ensures forall d :: d in r.mismatched <==> d in a && d in b && a[d].Some? && b[d].Some? && a[d] != b[d]
  {
    var common := a.Keys * b.Keys;
    var rest := common;
    var identical: set<string>, mismatched: set<string>, unproven: set<string> := {}, {}, {};
    while rest != {}
      invariant rest <= common
      invariant forall d :: d in identical <==> d in common && d !in rest && Proven(a, b, d)
      invariant forall d :: d in unproven <==> d in common && d !in rest && (a[d].None? || b[d].None?)
      invariant forall d :: d in mismatched <==>
                  d in common && d !in rest && a[d].Some? && b[d].Some? && a[d] != b[d]
    {
      var k :| k in rest;
      rest := rest - {k};
      if a[k].None? || b[k].None? {
        unproven := unproven + {k};
      } else if a[k] == b[k] {
        identical := identical + {k};
      } else {
        mismatched := mismatched + {k};
      }
    }
    r := ShashiReport(|common|, identical, mismatched, unproven,
                      common != {} && mismatched == {} && unproven == {});
    if ShashiPasses(a, b) {
      forall d ensures d !in mismatched && d !in unproven {}
    } else if common != {} {
      var d :| d in a && d in b && !Proven(a, b, d);
      assert d in mismatched || d in unproven;
    }
  }

  /** Leela passes exactly when Shashi passes on the same digest maps and both runs hold the same
      documents. */
  lemma DeterminismDialects(rowsA: seq<Row>, rowsB: seq<Row>)
    ensures LeelaDeterminism(rowsA, rowsB).pass <==>
            && ShashiPasses(Digests(rowsA), Digests(rowsB))
            && Digests(rowsA).Keys == Digests(rowsB).Keys
  {
    var a, b := Digests(rowsA), Digests(rowsB);
    var r := LeelaDeterminism(rowsA, rowsB);
    assert r.onlyA == {} && r.onlyB == {} <==> a.Keys == b.Keys;
    if r.mismatch == {} {
      forall d | d in a && d in b ensures Proven(a, b, d) { assert d !in r.mismatch; }
    } else {
      var d :| d in r.mismatch;
      assert !Proven(a, b, d);
    }
  }

  /** Row i is the last successful one of its document. */
  ghost predicate LastSuccess(rows: seq<Row>, i: int, d: string) {
    && 0 <= i < |rows| && rows[i].ok && rows[i].doc == d
    && forall j :: i < j < |rows| ==> !(rows[j].ok && rows[j].doc == d)
  }

  /** The map holds the documents with a successful row, each with the digests of the last of them. */
  lemma {:induction false} DigestsHoldSuccesses(rows: seq<Row>, d: string)
    ensures d in Digests(rows) <==> exists r :: r in rows && r.ok && r.doc == d
    ensures forall i :: LastSuccess(rows, i, d) ==> d in Digests(rows) && Digests(rows)[d] == rows[i].chunks
    ensures d in Digests(rows) ==> exists i :: LastSuccess(rows, i, d)
  {
    if rows != [] {
      var before, r := rows[..|rows| - 1], rows[|rows| - 1];
      DigestsHoldSuccesses(before, d);
      assert rows == before + [r];
      assert r in rows;
      if r.ok && r.doc == d {
        assert LastSuccess(rows, |rows| - 1, d);
      } else {
        SuccessStaysLast(before, r, d);
      }
    }
  }

  lemma SuccessStaysLast(before: seq<Row>, r: Row, d: string)
    requires !(r.ok && r.doc == d)
    ensures forall i :: LastSuccess(before + [r], i, d) <==> LastSuccess(before, i, d)
  {
    var rows := before + [r];
    forall i ensures LastSuccess(rows, i, d) <==> LastSuccess(before, i, d) {
      if LastSuccess(rows, i, d) {
        forall j | i < j < |before| ensures !(before[j].ok && before[j].doc == d) { assert rows[j] == before[j]; }
      }
    }
  }

  /** Leela's report, document by document. */
  lemma LeelaReportMeans(rowsA: seq<Row>, rowsB: seq<Row>, d: string)
    ensures var a, b, r := Digests(rowsA), Digests(rowsB), LeelaDeterminism(rowsA, rowsB);
            && r.compared == |set k | k in a && k in b|
            && (d in r.onlyA <==> d in a && d !in b) && (d in r.onlyB <==> d in b && d !in a)
            && (d in r.mismatch <==> d in a && d in b && !(a[d].Some? && a[d] == b[d]))
  {
    var a, b := Digests(rowsA), Digests(rowsB);
    assert a.Keys * b.Keys == set k | k in a && k in b;
  }

  /** What a pass means for the records: a success on either side has one on the other, with
      digests that were recorded, and the digests that were compared are equal. */
  lemma LeelaPassMatchesEveryDocument(rowsA: seq<Row>, rowsB: seq<Row>, r: Row)
    requires LeelaDeterminism(rowsA, rowsB).pass && r in rowsA && r.ok
    ensures exists ra, rb :: ra in rowsA && rb in rowsB && ra.ok && rb.ok
                             && ra.doc == rb.doc == r.doc && ra.chunks == rb.chunks && ra.chunks.Some?
  {
    DeterminismDialects(rowsA, rowsB);
    DigestsHoldSuccesses(rowsA, r.doc);
    DigestsHoldSuccesses(rowsB, r.doc);
    var a, b := Digests(rowsA), Digests(rowsB);
    assert r.doc in a && r.doc in b && Proven(a, b, r.doc);
    var i :| LastSuccess(rowsA, i, r.doc) && rowsA[i].chunks == a[r.doc];
    var j :| LastSuccess(rowsB, j, r.doc) && rowsB[j].chunks == b[r.doc];
    assert rowsA[i] in rowsA && rowsB[j] in rowsB;
  }

  // ----- gate_verdict and three_verdicts

  /** What a report holds under `PASS`: exactly `True`, exactly `None`, or anything else. */
  datatype Pass = True | Nothing | Other

  /** One check handed to a suite; `Absent` is a check that is no report at all. */
  datatype Check = Absent | Report(pass: Pass, notRun: bool)

  predicate NotRun(c: Check) { c.Report? && c.pass == Nothing && c.notRun }

  predicate Passed(c: Check) { c.Report? && c.pass == True }

  predicate GateVerdict(checks: map<string, Check>) {
    forall k :: k in checks ==> Passed(checks[k])
  }

  function Ran(checks: map<string, Check>): map<string, Check> {
    map k | k in checks && !NotRun(checks[k]) :: checks[k]
  }

  /** A suite's verdict over the gates that ran; none at all if every gate is NOT RUN. */
  function Suite(checks: map<string, Check>): Option<bool> {
    if Ran(checks) == map[] then None else Some(GateVerdict(Ran(checks)))
  }

  function Union(shashi: map<string, Check>, leela: map<string, Check>): Option<bool> {
    var s, l := Suite(shashi), Suite(leela);
    if s.Some? && l.Some? then Some(s.value && l.value) else None
  }

  /** A run is union-clean exactly when each suite ran something and every gate that ran in
      either suite passed with exactly `True`. */
  lemma UnionCleanIff(shashi: map<string, Check>, leela: map<string, Check>)
    ensures Union(shashi, leela) == Some(true) <==>
            && (exists k :: k in shashi && !NotRun(shashi[k])) && (exists k :: k in leela && !NotRun(leela[k]))
            && (forall k :: k in shashi && !NotRun(shashi[k]) ==> Passed(shashi[k]))
            && (forall k :: k in leela && !NotRun(leela[k]) ==> Passed(leela[k]))
  {
    SuitePassesIff(shashi);
    SuitePassesIff(leela);
  }

  lemma SuitePassesIff(checks: map<string, Check>)
    ensures Suite(checks) == Some(true) <==>
            && (exists k :: k in checks && !NotRun(checks[k]))
            && (forall k :: k in checks && !NotRun(checks[k]) ==> Passed(checks[k]))
  {
    var ran := Ran(checks);
    assert forall k :: k in ran <==> k in checks && !NotRun(checks[k]);
    if k :| k in checks && !NotRun(checks[k]) { assert k in ran; }
    if ran != map[] { assert ran.Keys != {}; var k :| k in ran; }
  }

  /** A gate ran unless it reports nothing at all and says NOT RUN; it failed if it then does not report
      exactly `True`. */
  ghost predicate RanAt(checks: map<string, Check>, k: string) { k in checks && checks[k] != Report(Nothing, true) }

  ghost predicate FailedAt(checks: map<string, Check>, k: string) {
    RanAt(checks, k) && !(checks[k].Report? && checks[k].pass == True)
  }

  /** A suite has no verdict iff nothing ran in it, and otherwise fails iff a gate that ran failed. */
  lemma SuiteMeans(checks: map<string, Check>)
    ensures Suite(checks).None? <==> forall k :: !RanAt(checks, k)
    ensures Suite(checks) == Some(false) <==> exists k :: FailedAt(checks, k)
  {
    SuitePassesIff(checks);
    var ran := Ran(checks);
    assert forall k :: k in ran <==> RanAt(checks, k);
    if k :| RanAt(checks, k) { assert k in ran; }
    if ran != map[] {
      assert ran.Keys != {};
      var k :| k in ran;
    }
    if k :| FailedAt(checks, k) {
      assert RanAt(checks, k) && k in ran && !Passed(checks[k]);
    } else if ran != map[] {
      forall k | k in checks && !NotRun(checks[k]) ensures Passed(checks[k]) {
        assert RanAt(checks, k) && !FailedAt(checks, k);
      }
    }
  }

  /** There is no union iff one suite ran nothing, and otherwise it fails iff a gate that ran in either
      failed. */
  lemma UnionMeans(shashi: map<string, Check>, leela: map<string, Check>)
    ensures Union(shashi, leela).None? <==>
            (forall k :: !RanAt(shashi, k)) || (forall k :: !RanAt(leela, k))
    ensures Union(shashi, leela) == Some(false) <==>
            && (exists k :: RanAt(shashi, k)) && (exists k :: RanAt(leela, k))
            && ((exists k :: FailedAt(shashi, k)) || (exists k :: FailedAt(leela, k)))
  {
    SuiteMeans(shashi);
    SuiteMeans(leela);
  }

  /** A gate that did not run neither passes nor fails its suite. */
  lemma NotRunChangesNothing(checks: map<string, Check>, name: string, c: Check)
    requires name !in checks && NotRun(c)
    ensures Suite(checks[name := c]) == Suite(checks)
  {
    assert Ran(checks[name := c]) == Ran(checks);
  }
}
