/** The per-document record the gate suites read. */
module GateRecords {
  import opened Wrappers

  /** A SHA-256 hex digest; the gates only compare digests for equality. */
  type Hash = string

  /** A chunk digest; `None` stands for a chunk whose text could not be hashed. */
  type Digest = Option<Hash>

  /** One record.  `chunks` is the value under `chunk_sha256`, `None` when it is not a list. */
  datatype Row = Row(doc: string, ok: bool, reason: Option<string>, errorClass: Option<string>,
                     chunks: Option<seq<Digest>>)

  function OkRows(rows: seq<Row>): seq<Row> {
    if rows == [] then [] else
      OkRows(rows[..|rows| - 1]) + (if rows[|rows| - 1].ok then [rows[|rows| - 1]] else [])
  }

  function Docs(rows: seq<Row>): (docs: seq<string>)
    ensures |docs| == |rows| && forall i :: 0 <= i < |rows| ==> docs[i] == rows[i].doc
  {
    seq(|rows|, i requires 0 <= i < |rows| => rows[i].doc)
  }

  lemma DocsAreRecorded(rows: seq<Row>)
    ensures forall d :: d in Docs(rows) <==> exists r :: r in rows && r.doc == d
  {
    forall d ensures d in Docs(rows) <==> exists r :: r in rows && r.doc == d {
      if d in Docs(rows) {
        var i :| 0 <= i < |rows| && Docs(rows)[i] == d;
        assert rows[i] in rows;
      }
      if r :| r in rows && r.doc == d {
        var i :| 0 <= i < |rows| && rows[i] == r;
        assert Docs(rows)[i] == d;
      }
    }
  }

  lemma {:induction false} OkRowsMembers(rows: seq<Row>, r: Row)
    ensures r in OkRows(rows) <==> r in rows && r.ok
  {
    if rows == [] {
    } else {
      var n := |rows| - 1;
      OkRowsMembers(rows[..n], r);
      assert rows == rows[..n] + [rows[n]];
    }
  }
}
