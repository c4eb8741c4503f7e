/** The two census dialects: does the set of records account for the corpus? */
module Census {
  import opened GateRecords
  import opened Seqs
  import opened Wrappers

  function ToSet(xs: seq<string>): set<string> { set x | x in xs }

  /** Names a `Counter` sees more than once. */
  function Repeated(xs: seq<string>): set<string> { set x | x in xs && multiset(xs)[x] > 1 }

  ghost predicate Permutation(xs: seq<string>, ys: seq<string>) { multiset(xs) == multiset(ys) }

  // ----- counting

  lemma SetWithinList(xs: seq<string>)
    ensures multiset(ToSet(xs)) <= multiset(xs) && |ToSet(xs)| <= |xs|
    ensures |ToSet(xs)| == |xs| <==> multiset(ToSet(xs)) == multiset(xs)
  {
    var a, b := multiset(ToSet(xs)), multiset(xs);
    assert a <= b && |a| == |ToSet(xs)| && |b| == |xs|;
    assert b == a + (b - a) && |b| == |a| + |b - a|;
  }

  lemma NoRepeatsIffSet(xs: seq<string>)
    ensures Repeated(xs) == {} <==> multiset(ToSet(xs)) == multiset(xs)
  {
    if Repeated(xs) == {} {
      forall x ensures multiset(xs)[x] == multiset(ToSet(xs))[x] {
        assert x in xs <==> multiset(xs)[x] > 0;
        if x in xs { assert x !in Repeated(xs); }
      }
    } else {
      var x :| x in Repeated(xs);
      assert multiset(ToSet(xs))[x] == 1;
    }
  }

  /** Equal length, equal name sets and no repeats on one side make the other side a permutation
      of it; and a permutation of a list without repeats has all three. */
  lemma SameNamesOnce(exp: seq<string>, seen: seq<string>)
    requires Repeated(seen) == {}
    ensures |exp| == |seen| && ToSet(exp) == ToSet(seen) <==> Permutation(exp, seen)
  {
    NoRepeatsIffSet(seen);
    SetWithinList(exp);
    SetWithinList(seen);
    if Permutation(exp, seen) {
      assert |exp| == |multiset(exp)| == |seen|;
      forall x ensures x in ToSet(exp) <==> x in ToSet(seen) {
        assert x in exp <==> x in multiset(exp);
        assert x in seen <==> x in multiset(seen);
      }
    }
  }

  ghost predicate TwoPlaces(xs: seq<string>, x: string) {
    exists i, j :: 0 <= i < j < |xs| && xs[i] == xs[j] == x
  }

  lemma PushCount(front: seq<string>, last: string, x: string)
    ensures multiset(front + [last])[x] == multiset(front)[x] + if last == x then 1 else 0
    ensures x in front + [last] <==> x in front || last == x
  {
  }

  lemma PushPlaces(front: seq<string>, last: string, x: string)
    ensures TwoPlaces(front + [last], x) <==> TwoPlaces(front, x) || (last == x && x in front)
  {
    var xs := front + [last];
    if TwoPlaces(front, x) {
      var i, j :| 0 <= i < j < |front| && front[i] == front[j] == x;
      assert xs[i] == xs[j] == x;
    } else if last == x && x in front {
      var i :| 0 <= i < |front| && front[i] == x;
      assert xs[i] == xs[|front|] == x;
    }
  }

  lemma {:induction false} CountMeans(xs: seq<string>, x: string)
    ensures multiset(xs)[x] >= 1 <==> x in xs
    ensures multiset(xs)[x] > 1 <==> TwoPlaces(xs, x)
  {
    if xs != [] {
      var front, last := xs[..|xs| - 1], xs[|xs| - 1];
      assert xs == front + [last];
      CountMeans(front, x);
      PushCount(front, last, x);
      PushPlaces(front, last, x);
    }
  }

  /** A repeated name stands at two places. */
  lemma RepeatedMeans(xs: seq<string>, x: string)
    ensures x in Repeated(xs) <==> exists i, j :: 0 <= i < j < |xs| && xs[i] == xs[j] == x
  {
    CountMeans(xs, x);
    assert TwoPlaces(xs, x) <==> exists i, j :: 0 <= i < j < |xs| && xs[i] == xs[j] == x;
  }

  // ----- Shashi's census: keys on document names

  datatype ShashiReport = ShashiReport(expected: nat, recorded: nat, missing: set<string>,
                                       duplicates: set<string>, unexpected: set<string>,
                                       silentEmpty: set<string>, pass: bool)

  function ShashiCensus(exp: seq<string>, seen: seq<string>, allow: set<string>,
                        zeroChunk: seq<string>): ShashiReport
  {
    var missing := ToSet(exp) - ToSet(seen);
    var dupes := Repeated(seen);
    var unexpected := ToSet(seen) - ToSet(exp);
    var emptyBad := set n | n in zeroChunk && n !in allow;
    ShashiReport(|exp|, |seen|, missing, dupes, unexpected, emptyBad,
                 exp != [] && |exp| == |seen| && missing == {} && dupes == {} && unexpected == {}
                 && emptyBad == {})
  }

  /** Shashi's census passes exactly when the recorded names are the expected ones, each once. */
  lemma ShashiPassesIff(exp: seq<string>, seen: seq<string>, allow: set<string>, zeroChunk: seq<string>)
    ensures ShashiCensus(exp, seen, allow, zeroChunk).pass <==>
            && exp != [] && Permutation(exp, seen) && Repeated(seen) == {}
            && forall n :: n in zeroChunk ==> n in allow
  {
    var r := ShashiCensus(exp, seen, allow, zeroChunk);
    if r.duplicates == {} { SameNamesOnce(exp, seen); }
    assert r.missing == {} && r.unexpected == {} <==> ToSet(exp) == ToSet(seen);
    assert r.silentEmpty == {} <==> forall n :: n in zeroChunk ==> n in allow by {
      if n :| n in zeroChunk && n !in allow { assert n in r.silentEmpty; }
    }
  }

  /** The report's lists, name by name. */
  lemma ShashiReportMeans(exp: seq<string>, seen: seq<string>, allow: set<string>, zeroChunk: seq<string>, n: string)
    ensures var r := ShashiCensus(exp, seen, allow, zeroChunk);
            && r.expected == |exp| && r.recorded == |seen|
            && (n in r.missing <==> n in exp && n !in seen) && (n in r.unexpected <==> n in seen && n !in exp)
            && (n in r.duplicates <==> exists i, j :: 0 <= i < j < |seen| && seen[i] == seen[j] == n)
            && (n in r.silentEmpty <==> n in zeroChunk && n !in allow)
  {
    RepeatedMeans(seen, n);
  }

  // ----- Leela's census: keys on the offered count

  const NO_DOCUMENTS := "no_documents"

  /** The text before the first colon. */
  function BeforeColon(s: string): string {
    if s == "" || s[0] == ':' then "" else [s[0]] + BeforeColon(s[1..])
  }

  /** The failure bucket of a row.  An empty reason or error class counts as absent. */
  function Bucket(r: Row): string {
    if r.reason.Some? && r.reason.value != "" then r.reason.value
    else if r.errorClass.Some? && r.errorClass.value != "" then BeforeColon(r.errorClass.value)
    else "unknown"
  }

  predicate Allowed(bucket: string, doc: string, expectedEmpty: set<string>) {
    bucket == NO_DOCUMENTS && doc in expectedEmpty
  }

  predicate UnexpectedFailure(r: Row, expectedEmpty: set<string>) {
    !r.ok && !Allowed(Bucket(r), r.doc, expectedEmpty)
  }

  /** What a row's bucket is: its reason if that says something, or what its error class says before a
      colon, or "unknown". */
  ghost predicate IsBucket(r: Row, b: string) {
    if r.reason.Some? && |r.reason.value| > 0 then b == r.reason.value
    else if r.errorClass.Some? && |r.errorClass.value| > 0 then IsHead(r.errorClass.value, b)
    else b == "unknown"
  }

  ghost predicate IsHead(s: string, head: string) {
    && |head| <= |s| && head == s[..|head|] && ':' !in head
    && (|head| < |s| ==> s[|head|] == ':')
  }

  lemma {:induction false} HeadIsBeforeColon(s: string)
    ensures IsHead(s, BeforeColon(s))
  {
    if s != "" && s[0] != ':' {
      HeadIsBeforeColon(s[1..]);
      assert s == [s[0]] + s[1..];
    }
  }

  lemma NoLonger(s: string, a: string, b: string)
    requires IsHead(s, a) && IsHead(s, b)
    ensures |b| <= |a|
  {
    assert forall i :: 0 <= i < |b| ==> s[i] == b[i] && b[i] in b;
  }

  lemma OneHead(s: string, a: string, b: string)
    requires IsHead(s, a) && IsHead(s, b)
    ensures a == b
  {
    NoLonger(s, a, b);
    NoLonger(s, b, a);
  }

  lemma BucketMeans(r: Row, b: string)
    ensures b == Bucket(r) <==> IsBucket(r, b)
  {
    if r.errorClass.Some? {
      HeadIsBeforeColon(r.errorClass.value);
      if IsHead(r.errorClass.value, b) { OneHead(r.errorClass.value, b, BeforeColon(r.errorClass.value)); }
    }
  }

  /** A failure the allowlist does not cover: for another reason, or of a document not expected empty. */
  ghost predicate FailsUnexpectedly(r: Row, expectedEmpty: set<string>) {
    !r.ok && (r.doc in expectedEmpty ==> !IsBucket(r, "no_documents"))
  }

  /** Failed documents of the rows that fall in one bucket, in record order. */
  function InBucket(rows: seq<Row>, b: string): seq<string> {
    if rows == [] then [] else
      var r := rows[|rows| - 1];
      InBucket(rows[..|rows| - 1], b) + (if !r.ok && Bucket(r) == b then [r.doc] else [])
  }

  /** How many failures of the given buckets are not allowlisted. */
  function UnexpectedCount(rows: seq<Row>, buckets: set<string>, expectedEmpty: set<string>): nat {
    if rows == [] then 0 else
      var r := rows[|rows| - 1];
      UnexpectedCount(rows[..|rows| - 1], buckets, expectedEmpty)
      + (if Bucket(r) in buckets && UnexpectedFailure(r, expectedEmpty) then 1 else 0)
  }

  function NotAllowed(docs: seq<string>, bucket: string, expectedEmpty: set<string>): seq<string> {
    if docs == [] then [] else
      var d := docs[|docs| - 1];
      NotAllowed(docs[..|docs| - 1], bucket, expectedEmpty)
      + (if Allowed(bucket, d, expectedEmpty) then [] else [d])
  }

  function Buckets(rows: seq<Row>): set<string> { set r | r in rows && !r.ok :: Bucket(r) }

  lemma {:induction false} CountOneMoreBucket(rows: seq<Row>, bs: set<string>, b: string, e: set<string>)
    requires b !in bs
    ensures UnexpectedCount(rows, bs + {b}, e)
            == UnexpectedCount(rows, bs, e) + |NotAllowed(InBucket(rows, b), b, e)|
  {
    if rows != [] {
      var n := |rows| - 1;
      CountOneMoreBucket(rows[..n], bs, b, e);
      var r := rows[n];
      if !r.ok && Bucket(r) == b {
        var docs := InBucket(rows[..n], b) + [r.doc];
        assert docs[..|docs| - 1] == InBucket(rows[..n], b);
      } else {
        assert InBucket(rows, b) == InBucket(rows[..n], b);
      }
    }
  }

  lemma {:induction false} NoneCountedIff(rows: seq<Row>, bs: set<string>, e: set<string>)
    ensures UnexpectedCount(rows, bs, e) == 0 <==>
            forall r :: r in rows && Bucket(r) in bs ==> !UnexpectedFailure(r, e)
    ensures bs == {} ==> UnexpectedCount(rows, bs, e) == 0
  {
    if rows != [] {
      var n := |rows| - 1;
      NoneCountedIff(rows[..n], bs, e);
      assert rows == rows[..n] + [rows[n]];
      assert rows[n] in rows;
    }
  }

  function FailsIn(b: string): Row -> bool { (r: Row) => !r.ok && Bucket(r) == b }

  function NotCovered(e: set<string>): Row -> bool { (r: Row) => UnexpectedFailure(r, e) }

  predicate IsOk(r: Row) { r.ok }

  lemma {:induction false} FailureCounts(rows: seq<Row>, all: seq<Row>, b: string, e: set<string>)
    requires forall r :: r in rows ==> r in all
    ensures |InBucket(rows, b)| == |Places(rows, FailsIn(b))|
    ensures UnexpectedCount(rows, Buckets(all), e) == |Places(rows, NotCovered(e))|
    ensures |OkRows(rows)| == |Places(rows, IsOk)|
  {
    if rows != [] {
      var front, r := rows[..|rows| - 1], rows[|rows| - 1];
      FailureCounts(front, all, b, e);
      assert rows == front + [r];
      assert r in all;
      AddPlace(front, r, FailsIn(b));
      AddPlace(front, r, NotCovered(e));
      AddPlace(front, r, IsOk);
    }
  }

  /** The report's counts, told from the rows: successes, failures of one reason, failures that the
      allowlist does not cover; and the reasons are those some row failed for. */
  lemma FailuresMean(rows: seq<Row>, b: string, e: set<string>)
    ensures |OkRows(rows)| == |set i | 0 <= i < |rows| && rows[i].ok|
    ensures b in Buckets(rows) <==> exists r :: r in rows && !r.ok && IsBucket(r, b)
    ensures |InBucket(rows, b)| == |set i | 0 <= i < |rows| && !rows[i].ok && IsBucket(rows[i], b)|
    ensures UnexpectedCount(rows, Buckets(rows), e) == |set i | 0 <= i < |rows| && FailsUnexpectedly(rows[i], e)|
  {
    FailureCounts(rows, rows, b, e);
    FailurePlaces(rows, b, e);
    if r :| r in rows && !r.ok && IsBucket(r, b) { BucketMeans(r, b); }
    if b in Buckets(rows) {
      var r :| r in rows && !r.ok && Bucket(r) == b;
      BucketMeans(r, b);
    }
  }

  lemma FailurePlaces(rows: seq<Row>, b: string, e: set<string>)
    ensures Places(rows, IsOk) == set i | 0 <= i < |rows| && rows[i].ok
    ensures Places(rows, FailsIn(b)) == set i | 0 <= i < |rows| && !rows[i].ok && IsBucket(rows[i], b)
    ensures Places(rows, NotCovered(e)) == set i | 0 <= i < |rows| && FailsUnexpectedly(rows[i], e)
  {
    forall i | 0 <= i < |rows|
      ensures FailsIn(b)(rows[i]) <==> !rows[i].ok && IsBucket(rows[i], b)
      ensures NotCovered(e)(rows[i]) <==> FailsUnexpectedly(rows[i], e)
    {
      BucketMeans(rows[i], b);
      BucketMeans(rows[i], NO_DOCUMENTS);
    }
  }

  datatype LeelaReport = LeelaReport(offered: int, records: nat, silent: int, duplicates: set<string>,
                                     missing: Option<set<string>>, unexpectedDocs: Option<set<string>>,
                                     completed: nat, failedByReason: map<string, nat>,
                                     unexpectedFailures: nat, pass: bool)

  /** What Leela's census requires of the records. */
  ghost predicate LeelaPasses(rows: seq<Row>, offered: int, expected: Option<set<string>>, expectedEmpty: set<string>) {
    && |rows| == offered && Repeated(Docs(rows)) == {}
    && (forall r :: r in rows ==> !UnexpectedFailure(r, expectedEmpty))
    && (expected.Some? ==> ToSet(Docs(rows)) == expected.value)
  }

  lemma BucketGrows(rows: seq<Row>, i: nat, b: string)
    requires i < |rows|
    ensures InBucket(rows[..i + 1], b) ==
            InBucket(rows[..i], b) + if !rows[i].ok && Bucket(rows[i]) == b then [rows[i].doc] else []
  {
    assert rows[..i + 1][..i] == rows[..i];
  }

  lemma BucketsGrow(rows: seq<Row>, i: nat)
    requires i < |rows|
    ensures Buckets(rows[..i + 1]) == Buckets(rows[..i]) + if !rows[i].ok then {Bucket(rows[i])} else {}
  {
    assert rows[..i + 1] == rows[..i] + [rows[i]];
  }

  ghost predicate Groups(byReason: map<string, seq<string>>, rows: seq<Row>) {
    forall b :: InBucket(rows, b) == if b in byReason then byReason[b] else []
  }

  /** `by_reason`: failed documents grouped by bucket. */
  method GroupFailures(rows: seq<Row>) returns (byReason: map<string, seq<string>>)
    ensures byReason.Keys == Buckets(rows)
    ensures forall b :: b in byReason ==> byReason[b] == InBucket(rows, b)
  {
    byReason := map[];
    for i := 0 to |rows|
      invariant byReason.Keys == Buckets(rows[..i])
      invariant Groups(byReason, rows[..i])
    {
      BucketsGrow(rows, i);
      forall b { BucketGrows(rows, i, b); }
      if !rows[i].ok {
        var b := Bucket(rows[i]);
        var bucket := if b in byReason then byReason[b] else [];
        byReason := byReason[b := bucket + [rows[i].doc]];
      }
    }
    assert rows[..|rows|] == rows;
  }

  /** `unexpected`: each group filtered against the allowlist. */
  method CountUnexpected(rows: seq<Row>, byReason: map<string, seq<string>>, expectedEmpty: set<string>)
    returns (unexpected: nat)
    requires byReason.Keys == Buckets(rows)
    requires forall b :: b in byReason ==> byReason[b] == InBucket(rows, b)
    ensures unexpected == UnexpectedCount(rows, Buckets(rows), expectedEmpty)
    ensures unexpected == 0 <==> forall r :: r in rows ==> !UnexpectedFailure(r, expectedEmpty)
  {
    var keys := byReason.Keys;
    var rest := keys;
    unexpected := 0;
    NoneCountedIff(rows, {}, expectedEmpty);
    assert keys - rest == {};
    while rest != {}
      invariant rest <= keys
      invariant unexpected == UnexpectedCount(rows, keys - rest, expectedEmpty)
    {
      var b :| b in rest;
      CountOneMoreBucket(rows, keys - rest, b, expectedEmpty);
      assert keys - (rest - {b}) == (keys - rest) + {b};
      unexpected := unexpected + |NotAllowed(byReason[b], b, expectedEmpty)|;
      rest := rest - {b};
    }
    assert keys - {} == keys;
    NoneCountedIff(rows, keys, expectedEmpty);
  }

  /** Failures are grouped by reason first, then filtered against the allowlist group by group. */
  method LeelaCensus(rows: seq<Row>, offered: int, expected: Option<set<string>>, expectedEmpty: set<string>)
    returns (report: LeelaReport)
    ensures report.pass <==> LeelaPasses(rows, offered, expected, expectedEmpty)
    ensures report.duplicates == Repeated(Docs(rows)) && report.completed == |OkRows(rows)|
    ensures report.failedByReason == map b | b in Buckets(rows) :: |InBucket(rows, b)|
    ensures report.unexpectedFailures == UnexpectedCount(rows, Buckets(rows), expectedEmpty)
    ensures report.offered == offered && report.records == |rows| && report.records + report.silent == offered
    ensures expected.None? ==> report.missing == None && report.unexpectedDocs == None
    ensures expected.Some? ==> report.missing.Some? && report.unexpectedDocs.Some?
    ensures expected.Some? ==>
              forall d :: d in report.missing.value <==> d in expected.value && forall r :: r in rows ==> r.doc != d
    ensures expected.Some? ==>
              forall d :: d in report.unexpectedDocs.value <==>
                            d !in expected.value && exists r :: r in rows && r.doc == d
  {
    DocsAreRecorded(rows);
    var docs := Docs(rows);
    var byReason := GroupFailures(rows);
    var unexpected := CountUnexpected(rows, byReason, expectedEmpty);
    var missing, unexpectedDocs := None, None;
    if expected.Some? {
      var seen := ToSet(docs);
      missing := Some(expected.value - seen);
      unexpectedDocs := Some(seen - expected.value);
    }
    report := LeelaReport(offered, |rows|, offered - |rows|, Repeated(docs), missing, unexpectedDocs,
                          |OkRows(rows)|, map b | b in byReason :: |byReason[b]|, unexpected,
                          |rows| == offered && Repeated(docs) == {} && unexpected == 0
                          && missing.GetOr({}) == {} && unexpectedDocs.GetOr({}) == {});
  }

  /** With the manifest and its size, Leela's census passes exactly when the recorded documents
      are the expected ones, each once, and every failure is an allowlisted empty. */
  lemma LeelaPassesIff(rows: seq<Row>, exp: seq<string>, expectedEmpty: set<string>)
    ensures LeelaPasses(rows, |exp|, Some(ToSet(exp)), expectedEmpty) <==>
            && Permutation(exp, Docs(rows)) && Repeated(Docs(rows)) == {}
            && forall r :: r in rows ==> !UnexpectedFailure(r, expectedEmpty)
  {
    if Repeated(Docs(rows)) == {} { SameNamesOnce(exp, Docs(rows)); }
  }

  /** Leela's census passes exactly when there are as many rows as offered, no two of one document, every
      failure is a documented empty, and the rows are of the expected documents where those are given. */
  lemma LeelaPassMeans(rows: seq<Row>, offered: int, expected: Option<set<string>>, e: set<string>)
    ensures LeelaPasses(rows, offered, expected, e) <==>
            && |rows| == offered && (forall i, j :: 0 <= i < j < |rows| ==> rows[i].doc != rows[j].doc)
            && (forall r :: r in rows ==> !FailsUnexpectedly(r, e))
            && (expected.Some? ==> forall d :: d in expected.value <==> exists r :: r in rows && r.doc == d)
  {
    DocsAreRecorded(rows);
    forall r ensures FailsUnexpectedly(r, e) <==> UnexpectedFailure(r, e) { BucketMeans(r, NO_DOCUMENTS); }
    DistinctDocs(rows);
    assert forall d :: d in ToSet(Docs(rows)) <==> d in Docs(rows);
  }

  lemma DistinctDocs(rows: seq<Row>)
    ensures Repeated(Docs(rows)) == {} <==> forall i, j :: 0 <= i < j < |rows| ==> rows[i].doc != rows[j].doc
  {
    var docs := Docs(rows);
    if i, j :| 0 <= i < j < |rows| && rows[i].doc == rows[j].doc {
      RepeatedMeans(docs, rows[i].doc);
      assert docs[i] == docs[j] == rows[i].doc;
    } else if d :| d in Repeated(docs) {
      RepeatedMeans(docs, d);
    }
  }

  /** On the same records and the same manifest the two dialects differ only in what each adds:
      Leela looks at failure reasons, Shashi at an empty manifest and at silent empties. */
  lemma CensusDialects(rows: seq<Row>, exp: seq<string>, allow: set<string>, zeroChunk: seq<string>)
    ensures LeelaPasses(rows, |exp|, Some(ToSet(exp)), allow)
            && exp != [] && (forall n :: n in zeroChunk ==> n in allow)
            <==>
            ShashiCensus(exp, Docs(rows), allow, zeroChunk).pass
            && (forall r :: r in rows ==> !UnexpectedFailure(r, allow))
  {
    LeelaPassesIff(rows, exp, allow);
    ShashiPassesIff(exp, Docs(rows), allow, zeroChunk);
  }

  /** Without a manifest Leela's census cannot see that the wrong documents were recorded. */
  lemma CountAloneMissesWrongDocuments()
    ensures exists rows: seq<Row>, exp: seq<string> ::
              LeelaPasses(rows, |exp|, None, {}) && !LeelaPasses(rows, |exp|, Some(ToSet(exp)), {})
  {
    var rows := [Row("b", true, None, None, None)];
    assert Docs(rows) == ["b"] && multiset(["b"])["b"] == 1;
    assert "a" in ToSet(["a"]) && "a" !in ToSet(Docs(rows));
    assert LeelaPasses(rows, |["a"]|, None, {}) && !LeelaPasses(rows, |["a"]|, Some(ToSet(["a"])), {});
  }
}
