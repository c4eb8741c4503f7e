/** The per-document timing record. */
module PerfRecords {
  import opened Wrappers

  /** Epoch-nanosecond stamps; `None` is a key the record does not hold. */
  datatype Row = Row(doc: string, submit: Option<int>, completion: Option<int>, ok: bool, chunks: Option<nat>)

  function SubmitKey(r: Row): int { r.submit.GetOr(0) }

  function CompletionKey(r: Row): int { r.completion.GetOr(0) }

  predicate HasCompletion(r: Row) { r.completion.Some? }

  function Filter<T(!new)>(s: seq<T>, p: T -> bool): (r: seq<T>)
    ensures |r| <= |s| && forall x :: x in r <==> x in s && p(x)
  {
    if s == [] then [] else
      assert s == [s[0]] + s[1..];
      (if p(s[0]) then [s[0]] else []) + Filter(s[1..], p)
  }

  /** The stamps the records hold under `submit_ns`. */
  function Submits(rows: seq<Row>): seq<int> {
    if rows == [] then [] else
      (if rows[0].submit.Some? then [rows[0].submit.value] else []) + Submits(rows[1..])
  }

  function Min(xs: seq<int>): (m: int)
    requires xs != []
    ensures m in xs && forall x :: x in xs ==> m <= x
  {
    if |xs| == 1 then xs[0] else
      var rest := Min(xs[1..]);
      assert xs == [xs[0]] + xs[1..];
      if xs[0] <= rest then xs[0] else rest
  }

  lemma MinIs(xs: seq<int>, m: int)
    requires m in xs && forall x :: x in xs ==> m <= x
    ensures Min(xs) == m
  {
  }

  lemma {:induction false} SubmitsMembers(rows: seq<Row>, x: int)
    ensures x in Submits(rows) <==> exists r :: r in rows && r.submit == Some(x)
  {
    if rows != [] {
      SubmitsMembers(rows[1..], x);
      assert rows == [rows[0]] + rows[1..];
      if r :| r in rows && r.submit == Some(x) {
        if r in rows[1..] {} else { assert r == rows[0]; }
      }
      if rows[0].submit == Some(x) { assert rows[0] in rows; }
    }
  }
}
