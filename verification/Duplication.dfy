/** `repeat_factor` and the two checks built on it: is a document's chunk list emitted more than
    once? */
module Duplication {
  import opened Arith
  import opened GateRecords
  import MapSum
  import opened Words
  import opened Wrappers

  // ----- repeat_factor

  function LargestRepeat(w: seq<Digest>, r: nat): (m: nat)
    requires 1 <= r <= |w|
    ensures 1 <= m <= r
  {
    if r == 1 || IsRepeat(w, r) then r else LargestRepeat(w, r - 1)
  }

  lemma {:induction false} LargestRepeatIsLargest(w: seq<Digest>, r: nat, s: int)
    requires 1 <= r <= |w|
    ensures IsRepeat(w, LargestRepeat(w, r))
    ensures IsRepeat(w, s) && s <= r ==> s <= LargestRepeat(w, r)
  {
    if r == 1 {
      assert w[..|w| / 1] == w && Times(w, 1) == w + Times(w, 0);
    } else if !IsRepeat(w, r) {
      LargestRepeatIsLargest(w, r - 1, s);
    }
  }

  /** What `repeat_factor` returns. */
  function RepeatFactorOf(hashes: seq<Digest>): nat {
    if |hashes| < 2 || None in hashes then 1 else LargestRepeat(hashes, |hashes|)
  }

  lemma NoLongRepeat(w: seq<Digest>, s: int)
    requires |w| > 0 && IsRepeat(w, s)
    ensures s <= |w|
  {
    var p := RepeatBlock(w, s);
    MulAtLeast(s, p);
  }

  lemma ExponentIsUnique(w: seq<Digest>, r: int, s: int)
    requires IsExponent(w, r) && IsExponent(w, s)
    ensures r == s
  {
  }

  /** On a hashable list the factor is the largest exponent of the list. */
  lemma RepeatFactorIsExponent(hashes: seq<Digest>)
    requires |hashes| > 0 && None !in hashes
    ensures IsExponent(hashes, RepeatFactorOf(hashes))
  {
    LargestRepeatIsLargest(hashes, |hashes|, 1);
    forall s | IsRepeat(hashes, s) ensures s <= RepeatFactorOf(hashes) {
      NoLongRepeat(hashes, s);
      LargestRepeatIsLargest(hashes, |hashes|, s);
    }
  }

  /** Largest repeat first; an unhashable chunk makes no claim. */
  method RepeatFactor(hashes: seq<Digest>) returns (r: nat)
    ensures r == RepeatFactorOf(hashes)
  {
    var k := |hashes|;
    if k < 2 || None in hashes {
      return 1;
    }
    r := k;
    while r > 1
      invariant 1 <= r <= k
      invariant RepeatFactorOf(hashes) == LargestRepeat(hashes, r)
    {
      if IsRepeat(hashes, r) { return; }
      r := r - 1;
    }
  }

  /** Every exact block repeat of a hashable list divides the factor, and what is left of the
      list after dividing the factor out repeats nothing. */
  lemma RepeatsDivideFactor(hashes: seq<Digest>, s: int)
    requires |hashes| > 0 && None !in hashes && IsRepeat(hashes, s)
    ensures RepeatFactorOf(hashes) % s == 0
    ensures 0 < |hashes| / RepeatFactorOf(hashes) <= |hashes|
    ensures RepeatFactorOf(hashes[..|hashes| / RepeatFactorOf(hashes)]) == 1
  {
    var r := RepeatFactorOf(hashes);
    RepeatFactorIsExponent(hashes);
    RepeatsDivideExponent(hashes, r, s);
    BlockIsPrimitive(hashes, r);
    var block := hashes[..|hashes| / r];
    RepeatFactorIsExponent(block);
    ExponentIsUnique(block, 1, RepeatFactorOf(block));
  }

  lemma {:induction false} HashableTimes(w: seq<Digest>, n: nat)
    requires None !in w
    ensures None !in Times(w, n)
  {
    if n > 0 { HashableTimes(w, n - 1); }
  }

  /** Emitting a hashable list n times multiplies its factor by n. */
  lemma FactorOfEmission(w: seq<Digest>, n: nat)
    requires |w| > 0 && None !in w && n >= 1
    ensures RepeatFactorOf(Times(w, n)) == n * RepeatFactorOf(w)
  {
    MulAtLeast(n, |w|);
    HashableTimes(w, n);
    RepeatFactorIsExponent(w);
    RepeatFactorIsExponent(Times(w, n));
    ExponentOfPower(w, RepeatFactorOf(w), n, RepeatFactorOf(Times(w, n)));
  }

  // ----- self_duplication

  datatype SelfReport = SelfReport(checked: nat, docs: map<string, nat>, factors: set<nat>,
                                   pass: bool, vacuous: bool)

  /** The row's chunk list is an exact repeat of itself. */
  predicate Flagged(r: Row) {
    r.chunks.Some? && |r.chunks.value| > 1 && RepeatFactorOf(r.chunks.value) > 1
  }

  /** The `dup` dictionary after the rows of a list: a later flagged row overwrites an earlier one. */
  function DupDocs(rows: seq<Row>): map<string, nat> {
    if rows == [] then map[] else
      var r := rows[|rows| - 1];
      var before := DupDocs(rows[..|rows| - 1]);
      if Flagged(r) then before[r.doc := RepeatFactorOf(r.chunks.value)] else before
  }

  method SelfDuplication(rows: seq<Row>) returns (report: SelfReport)
    ensures report.docs == DupDocs(OkRows(rows)) && report.checked == |OkRows(rows)|
    ensures report.factors == report.docs.Values
    ensures report.pass <==>
            (exists r :: r in rows && r.ok) && forall r :: r in rows && r.ok ==> !Flagged(r)
    ensures report.vacuous <==> forall r :: r in rows ==> !r.ok
  {
    var ok: seq<Row> := [];
    for i := 0 to |rows|
      invariant ok == OkRows(rows[..i])
    {
      assert rows[..i + 1][..i] == rows[..i];
      if rows[i].ok { ok := ok + [rows[i]]; }
    }
    assert rows[..|rows|] == rows;
    var dup: map<string, nat> := map[];
    for i := 0 to |ok|
      invariant dup == DupDocs(ok[..i])
    {
      assert ok[..i + 1][..i] == ok[..i];
      var h := ok[i].chunks;
      if h.Some? && |h.value| > 1 {
        var k := RepeatFactor(h.value);
        if k > 1 { dup := dup[ok[i].doc := k]; }
      }
    }
    assert ok[..|ok|] == ok;
    report := SelfReport(|ok|, dup, dup.Values, ok != [] && |dup| == 0, ok == []);
    forall r ensures r in ok <==> r in rows && r.ok { OkRowsMembers(rows, r); }
    if dup == map[] {
      forall r | r in ok ensures !Flagged(r) {
        if Flagged(r) { var i :| 0 <= i < |ok| && ok[i] == r; FlaggedDocIsReported(ok, i); }
      }
    } else {
      var d :| d in dup;
      assert |dup| != 0;
      var _ := ReportedDocIsFlagged(ok, d);
    }
    if ok != [] { assert ok[0] in ok; }
  }

  lemma {:induction false} FlaggedDocIsReported(rows: seq<Row>, i: nat)
    requires i < |rows| && Flagged(rows[i])
    ensures rows[i].doc in DupDocs(rows)
    ensures (forall j :: i < j < |rows| && Flagged(rows[j]) ==> rows[j].doc != rows[i].doc)
            ==> DupDocs(rows)[rows[i].doc] == RepeatFactorOf(rows[i].chunks.value)
  {
    var n := |rows| - 1;
    if i < n {
      assert rows[..n][i] == rows[i];
      FlaggedDocIsReported(rows[..n], i);
    }
  }

  lemma {:induction false} ReportedDocIsFlagged(rows: seq<Row>, d: string) returns (r: Row)
    requires d in DupDocs(rows)
    ensures r in rows && Flagged(r) && r.doc == d
  {
    var n := |rows| - 1;
    if Flagged(rows[n]) && rows[n].doc == d {
      r := rows[n];
    } else {
      r := ReportedDocIsFlagged(rows[..n], d);
    }
  }

  /** Any n-fold emission (n >= 2) of a non-empty hashable chunk list is caught, whatever the
      other rows are; the reported factor is a multiple of n when the document is recorded once. */
  lemma EmissionIsCaught(rows: seq<Row>, i: nat, w: seq<Digest>, n: nat)
    requires i < |rows| && rows[i].ok && n >= 2 && |w| > 0 && None !in w
    requires rows[i].chunks == Some(Times(w, n))
    ensures Flagged(rows[i]) && rows[i].doc in DupDocs(OkRows(rows))
    ensures (forall j :: 0 <= j < |rows| && rows[j].doc == rows[i].doc ==> j == i)
            ==> DupDocs(OkRows(rows))[rows[i].doc] == n * RepeatFactorOf(w)
  {
    FactorOfEmission(w, n);
    MulAtLeast(n, |w|);
    RepeatFactorIsExponent(w);
    MulAtLeast(n, RepeatFactorOf(w));
    OkRowsMembers(rows, rows[i]);
    var ok := OkRows(rows);
    var k :| 0 <= k < |ok| && ok[k] == rows[i];
    FlaggedDocIsReported(ok, k);
    if forall j :: 0 <= j < |rows| && rows[j].doc == rows[i].doc ==> j == i {
      OkRowsKeepUnique(rows, i, k);
    }
  }

  lemma {:induction false} OkRowIndex(rows: seq<Row>, k: nat) returns (j: nat)
    requires k < |OkRows(rows)|
    ensures j < |rows| && rows[j] == OkRows(rows)[k]
  {
    var n := |rows| - 1;
    if k < |OkRows(rows[..n])| {
      j := OkRowIndex(rows[..n], k);
    } else {
      j := n;
    }
  }

  /** A document recorded once is recorded once among the successful rows. */
  lemma {:induction false} OkRowsKeepUnique(rows: seq<Row>, i: nat, k: nat)
    requires i < |rows| && k < |OkRows(rows)| && OkRows(rows)[k] == rows[i]
    requires forall j :: 0 <= j < |rows| && rows[j].doc == rows[i].doc ==> j == i
    ensures forall j :: k < j < |OkRows(rows)| ==> OkRows(rows)[j].doc != rows[i].doc
  {
    var n := |rows| - 1;
    var before := rows[..n];
    if i < n {
      assert rows[n].doc != rows[i].doc;
      assert before[i] == rows[i];
      OkRowsKeepUnique(before, i, k);
    } else if k < |OkRows(before)| {
      var j := OkRowIndex(before, k);
      assert false;
    }
  }

  // ----- duplication_verdict

  datatype DupReport = DupReport(chunks: nat, distinctChunks: nat, chars: nat, charsUnique: nat,
                                 repeatFactor: nat, charFactor: Option<real>, duplicated: bool,
                                 nearDuplicate: bool, overChunkTrigger: bool, overCharProxy: bool)

  const NEAR_DUP_FACTOR := 1.9
  const CHUNK_TRIGGER := 64
  const CHAR_PROXY := 239_800

  function Sum(xs: seq<nat>): nat {
    if xs == [] then 0 else Sum(xs[..|xs| - 1]) + xs[|xs| - 1]
  }

  /** A chunk is kept unless the same digest came before it. */
  predicate Kept(hashes: seq<Digest>, i: nat)
    requires i < |hashes|
  {
    hashes[i] == None || hashes[i] !in hashes[..i]
  }

  function KeptCount(hashes: seq<Digest>, n: nat): nat
    requires n <= |hashes|
  {
    if n == 0 then 0 else KeptCount(hashes, n - 1) + if Kept(hashes, n - 1) then 1 else 0
  }

  /** Characters of the kept chunks among the first `n`. */
  function KeptChars(hashes: seq<Digest>, lengths: seq<nat>, n: nat): nat
    requires n <= |hashes| && n <= |lengths|
  {
    if n == 0 then 0 else
      KeptChars(hashes, lengths, n - 1) + if Kept(hashes, n - 1) then lengths[n - 1] else 0
  }

  ghost function Unhashed(hashes: seq<Digest>): set<int> { set i | 0 <= i < |hashes| && hashes[i] == None }

  ghost function Hashes(hashes: seq<Digest>): set<Digest> { set h | h in hashes && h != None }

  lemma OneMoreUnhashed(front: seq<Digest>, h: Digest)
    ensures |Unhashed(front + [h])| == |Unhashed(front)| + if h == None then 1 else 0
  {
    var a := Unhashed(front);
    assert Unhashed(front + [h]) == if h == None then a + {|front|} else a;
  }

  lemma OneMoreHash(front: seq<Digest>, h: Digest)
    ensures |Hashes(front + [h])| == |Hashes(front)| + if h == None || h in front then 0 else 1
  {
    var b := Hashes(front);
    if h == None || h in front {
      assert Hashes(front + [h]) == b;
    } else {
      assert Hashes(front + [h]) == b + {h} && h !in b;
    }
  }

  /** Kept are the chunks without a digest and one chunk for each digest. */
  lemma {:induction false} KeptCountMeans(hashes: seq<Digest>, n: nat)
    requires n <= |hashes|
    ensures KeptCount(hashes, n) == |Unhashed(hashes[..n])| + |Hashes(hashes[..n])|
  {
    if n == 0 {
      assert Unhashed(hashes[..0]) == {} && Hashes(hashes[..0]) == {};
    } else {
      KeptCountMeans(hashes, n - 1);
      OneMoreUnhashed(hashes[..n - 1], hashes[n - 1]);
      OneMoreHash(hashes[..n - 1], hashes[n - 1]);
      assert hashes[..n] == hashes[..n - 1] + [hashes[n - 1]];
    }
  }

  /** The first chunk of its digest, or one without. */
  ghost predicate FirstOfItsDigest(hashes: seq<Digest>, i: int) {
    0 <= i < |hashes| && (hashes[i] == None || forall j :: 0 <= j < i ==> hashes[j] != hashes[i])
  }

  /** The lengths of such chunks among the first n. */
  ghost function FirstLengths(hashes: seq<Digest>, lengths: seq<nat>, n: nat): map<int, nat>
    requires n <= |hashes| && n <= |lengths|
  {
    map i | 0 <= i < n && FirstOfItsDigest(hashes, i) :: lengths[i]
  }

  /** The unique characters are those of the first chunk of every digest and of the chunks without one. */
  lemma {:induction false} KeptCharsMean(hashes: seq<Digest>, lengths: seq<nat>, n: nat)
    requires n <= |hashes| && n <= |lengths|
    ensures KeptChars(hashes, lengths, n) == MapSum.Sum(FirstLengths(hashes, lengths, n))
  {
    if n == 0 {
      assert FirstLengths(hashes, lengths, n) == map[];
    } else {
      KeptCharsMean(hashes, lengths, n - 1);
      var before, all := FirstLengths(hashes, lengths, n - 1), FirstLengths(hashes, lengths, n);
      assert Kept(hashes, n - 1) <==> FirstOfItsDigest(hashes, n - 1);
      if Kept(hashes, n - 1) {
        MapSum.SameMap(all, before[n - 1 := lengths[n - 1]]);
        MapSum.SumUpdates(before, n - 1, lengths[n - 1]);
      } else {
        MapSum.SameMap(all, before);
      }
    }
  }

  function Min(a: int, b: int): int { if a <= b then a else b }

  /** Equal digests are digests of equally long chunks. */
  ghost predicate LengthsFollowHashes(hashes: seq<Digest>, lengths: seq<nat>) {
    forall i, j :: 0 <= i < j < |hashes| && j < |lengths| && hashes[i] == hashes[j] && hashes[i] != None
                   ==> lengths[i] == lengths[j]
  }

  method DuplicationVerdict(hashes: seq<Digest>, lengths: seq<nat>) returns (v: DupReport)
    ensures v.chunks == |hashes| && v.chars == Sum(lengths)
    ensures v.charsUnique == KeptChars(hashes, lengths, Min(|hashes|, |lengths|))
    ensures v.distinctChunks == KeptCount(hashes, Min(|hashes|, |lengths|))
    ensures v.repeatFactor == RepeatFactorOf(hashes) && (v.duplicated <==> v.repeatFactor >= 2)
    ensures v.charFactor == if v.charsUnique == 0 then None
                            else Some(v.chars as real / v.charsUnique as real)
    ensures v.nearDuplicate <==>
            !v.duplicated && v.charFactor.Some? && v.charFactor.value >= 1.9
    ensures v.overChunkTrigger <==> |hashes| >= 64
    ensures v.overCharProxy <==> v.charsUnique >= 239_800
    ensures |hashes| <= |lengths| && LengthsFollowHashes(hashes, lengths) ==>
            v.chars >= v.repeatFactor * v.charsUnique &&
            (v.charFactor.Some? ==> v.charFactor.value >= v.repeatFactor as real)
  {
    var n := Min(|hashes|, |lengths|);
    var seen: set<Hash>, charsUnique, kept := {}, 0, 0;
    for i := 0 to n
      invariant forall h :: h in seen <==> Some(h) in hashes[..i]
      invariant kept == KeptCount(hashes, i)
      invariant charsUnique == KeptChars(hashes, lengths, i)
    {
      assert hashes[..i + 1] == hashes[..i] + [hashes[i]];
      var h := hashes[i];
      if h.Some? {
        if h.value in seen { continue; }
        seen := seen + {h.value};
      }
      kept := kept + 1;
      charsUnique := charsUnique + lengths[i];
    }
    var chars := 0;
    for i := 0 to |lengths|
      invariant chars == Sum(lengths[..i])
    {
      assert lengths[..i + 1][..i] == lengths[..i];
      chars := chars + lengths[i];
    }
    assert lengths[..|lengths|] == lengths;
    var r := RepeatFactor(hashes);
    var factor := if charsUnique == 0 then None else Some(chars as real / charsUnique as real);
    v := DupReport(|hashes|, kept, chars, charsUnique, r, factor, r >= 2,
                   r < 2 && factor.Some? && factor.value >= NEAR_DUP_FACTOR,
                   |hashes| >= CHUNK_TRIGGER, charsUnique >= CHAR_PROXY);
    if |hashes| <= |lengths| && LengthsFollowHashes(hashes, lengths) {
      CharsCoverRepeats(hashes, lengths);
      if charsUnique != 0 {
        QuotientAtLeast(chars, r, charsUnique);
      }
    }
  }

  lemma QuotientAtLeast(chars: nat, r: nat, unique: nat)
    requires unique > 0 && chars >= r * unique
    ensures chars as real / unique as real >= r as real
  {
    assert chars as real >= (r * unique) as real == r as real * unique as real;
  }

  lemma {:induction false} SumAdds(xs: seq<nat>, ys: seq<nat>)
    ensures Sum(xs + ys) == Sum(xs) + Sum(ys)
  {
    if ys == [] {
      assert xs + ys == xs;
    } else {
      var n := |ys| - 1;
      SumAdds(xs, ys[..n]);
      assert (xs + ys)[..|xs + ys| - 1] == xs + ys[..n];
    }
  }

  lemma {:induction false} SumTimes(xs: seq<nat>, n: nat)
    ensures Sum(Times(xs, n)) == n * Sum(xs)
  {
    if n > 0 {
      SumTimes(xs, n - 1);
      SumAdds(xs, Times(xs, n - 1));
      MulDistribute(1, n - 1, Sum(xs));
    }
  }

  lemma {:induction false} KeptCharsAtMost(hashes: seq<Digest>, lengths: seq<nat>, n: nat)
    requires n <= |hashes| && n <= |lengths|
    ensures KeptChars(hashes, lengths, n) <= Sum(lengths[..n])
  {
    if n > 0 {
      KeptCharsAtMost(hashes, lengths, n - 1);
      assert lengths[..n][..n - 1] == lengths[..n - 1];
    }
  }

  /** Past the first block every digest has been seen. */
  lemma {:induction false} NothingKeptAfterBlock(block: seq<Digest>, r: nat, lengths: seq<nat>, n: nat)
    requires 0 < |block| <= n <= |Times(block, r)| && n <= |lengths| && None !in Times(block, r)
    ensures KeptChars(Times(block, r), lengths, n) == KeptChars(Times(block, r), lengths, |block|)
  {
    if n > |block| {
      NothingKeptAfterBlock(block, r, lengths, n - 1);
      TimesAt(block, r, n - 1 - |block|);
      assert Times(block, r)[n - 1] == Times(block, r)[..n - 1][n - 1 - |block|];
    }
  }

  /** Total characters are never fewer than the exact repeat accounts for. */
  lemma CharsCoverRepeats(hashes: seq<Digest>, lengths: seq<nat>)
    requires |hashes| <= |lengths| && LengthsFollowHashes(hashes, lengths)
    ensures Sum(lengths) >= RepeatFactorOf(hashes) * KeptChars(hashes, lengths, |hashes|)
  {
    var n, r := |hashes|, RepeatFactorOf(hashes);
    assert lengths == lengths[..n] + lengths[n..];
    SumAdds(lengths[..n], lengths[n..]);
    if r == 1 {
      KeptCharsAtMost(hashes, lengths, n);
    } else {
      RepeatFactorIsExponent(hashes);
      var p := RepeatBlock(hashes, r);
      var block := hashes[..p];
      NothingKeptAfterBlock(block, r, lengths, n);
      KeptCharsAtMost(hashes, lengths, p);
      RepeatedLengths(block, r, lengths[..n]);
      assert lengths[..n][..p] == lengths[..p];
      MulMono(r, KeptChars(hashes, lengths, p), Sum(lengths[..p]));
    }
  }

  lemma RepeatedLengths(block: seq<Digest>, r: nat, ls: seq<nat>)
    requires 0 < |block| <= |ls| == |Times(block, r)| && r >= 1
    requires None !in Times(block, r) && LengthsFollowHashes(Times(block, r), ls)
    ensures Sum(ls) == r * Sum(ls[..|block|])
  {
    LengthsArePeriodic(block, r, ls);
    PeriodGivesTimes(ls, |block|, r);
    SumTimes(ls[..|block|], r);
  }

  lemma LengthsArePeriodic(block: seq<Digest>, r: nat, ls: seq<nat>)
    requires 0 < |block| <= |ls| == |Times(block, r)| && r >= 1
    requires None !in Times(block, r) && LengthsFollowHashes(Times(block, r), ls)
    ensures ls[|block|..] == ls[..|ls| - |block|]
  {
    var p := |block|;
    forall i | 0 <= i < |ls| - p ensures ls[p + i] == ls[i] {
      TimesAt(block, r, i);
      assert Times(block, r)[i] in Times(block, r);
    }
  }

  // ----- with lengths missing

  /** The kept chunks' lengths, each as often as its digest occurs in a bag. */
  function Weighted(hashes: seq<Digest>, lengths: seq<nat>, n: nat, bag: multiset<Digest>): nat
    requires n <= |hashes| && n <= |lengths|
  {
    if n == 0 then 0 else
      Weighted(hashes, lengths, n - 1, bag) + if Kept(hashes, n - 1) then lengths[n - 1] * bag[hashes[n - 1]] else 0
  }

  lemma OnceMore(l: nat, k: nat)
    ensures l * (k + 1) == l * k + l
  {
  }

  lemma {:induction false} WeightedGrows(hashes: seq<Digest>, lengths: seq<nat>, n: nat, bag: multiset<Digest>,
                                         x: Digest, l: nat)
    requires n <= |hashes| && n <= |lengths| && None !in hashes
    requires forall i :: 0 <= i < n && hashes[i] == x ==> lengths[i] == l
    ensures Weighted(hashes, lengths, n, bag + multiset{x})
            == Weighted(hashes, lengths, n, bag) + if x in hashes[..n] then l else 0
  {
    if n > 0 {
      WeightedGrows(hashes, lengths, n - 1, bag, x, l);
      assert hashes[..n] == hashes[..n - 1] + [hashes[n - 1]];
      OnceMore(l, bag[x]);
    }
  }

  /** One more chunk adds its own length, whether its digest is new or not. */
  lemma WeightedStep(hashes: seq<Digest>, lengths: seq<nat>, n: nat)
    requires n < |hashes| && n < |lengths| && None !in hashes && LengthsFollowHashes(hashes, lengths)
    ensures Weighted(hashes, lengths, n + 1, multiset(hashes[..n + 1]))
            == Weighted(hashes, lengths, n, multiset(hashes[..n])) + lengths[n]
  {
    var x, bag := hashes[n], multiset(hashes[..n]);
    assert x in hashes;
    WeightedGrows(hashes, lengths, n, bag, x, lengths[n]);
    assert hashes[..n + 1] == hashes[..n] + [x];
    OnceMore(lengths[n], bag[x]);
  }

  /** Weighted by how often they occur, the kept lengths are all the lengths. */
  lemma {:induction false} WeightedIsSum(hashes: seq<Digest>, lengths: seq<nat>, n: nat)
    requires n <= |hashes| && n <= |lengths| && None !in hashes && LengthsFollowHashes(hashes, lengths)
    ensures Weighted(hashes, lengths, n, multiset(hashes[..n])) == Sum(lengths[..n])
  {
    if n > 0 {
      WeightedIsSum(hashes, lengths, n - 1);
      WeightedStep(hashes, lengths, n - 1);
      assert lengths[..n][..n - 1] == lengths[..n - 1];
    }
  }

  lemma {:induction false} WeightedIgnoresRest(hashes: seq<Digest>, lengths: seq<nat>, n: nat, bag: multiset<Digest>)
    requires n <= |hashes| && n <= |lengths|
    ensures Weighted(hashes, lengths, n, bag) == Weighted(hashes, lengths[..n], n, bag)
    ensures KeptChars(hashes, lengths, n) == KeptChars(hashes, lengths[..n], n)
    decreases n
  {
    if n > 0 {
      WeightedIgnoresRest(hashes, lengths, n - 1, bag);
      WeightedIgnoresRest(hashes, lengths[..n], n - 1, bag);
      assert lengths[..n][..n - 1] == lengths[..n - 1];
    }
  }

  lemma AtLeastStep(r: nat, kept: nat, l: nat, times: nat)
    requires times >= r
    ensures r * (kept + l) <= r * kept + l * times
  {
    MulMono(l, r, times);
    assert r * (kept + l) == r * kept + l * r;
  }

  lemma {:induction false} WeightedAtLeast(hashes: seq<Digest>, lengths: seq<nat>, n: nat, bag: multiset<Digest>,
                                           r: nat)
    requires n <= |hashes| && n <= |lengths| && forall i :: 0 <= i < n ==> bag[hashes[i]] >= r
    ensures Weighted(hashes, lengths, n, bag) >= r * KeptChars(hashes, lengths, n)
  {
    if n > 0 {
      WeightedAtLeast(hashes, lengths, n - 1, bag, r);
      AtLeastStep(r, KeptChars(hashes, lengths, n - 1), lengths[n - 1], bag[hashes[n - 1]]);
    }
  }

  /** Length 1 for the chunks of one digest, 0 for the others. */
  function Marks(hashes: seq<Digest>, n: nat, d: Digest): (m: seq<nat>)
    requires n <= |hashes|
    ensures |m| == n && forall i :: 0 <= i < n ==> m[i] == if hashes[i] == d then 1 else 0
  {
    seq(n, i requires 0 <= i < n => if hashes[i] == d then 1 else 0)
  }

  lemma {:induction false} MarksCount(hashes: seq<Digest>, n: nat, d: Digest)
    requires n <= |hashes| && d != None
    ensures Sum(Marks(hashes, n, d)) == multiset(hashes[..n])[d]
    ensures KeptChars(hashes, Marks(hashes, n, d), n) == if d in hashes[..n] then 1 else 0
  {
    if n > 0 {
      var m := Marks(hashes, n, d);
      MarksCount(hashes, n - 1, d);
      assert m[..n - 1] == Marks(hashes, n - 1, d);
      WeightedIgnoresRest(hashes, m, n - 1, multiset{});
      assert hashes[..n] == hashes[..n - 1] + [hashes[n - 1]];
    }
  }

  /** With n lengths, whatever they are, the character bound holds. */
  ghost predicate BoundHolds(hashes: seq<Digest>, n: nat)
    requires n <= |hashes|
  {
    forall lengths: seq<nat> :: |lengths| == n && LengthsFollowHashes(hashes, lengths) ==>
      Sum(lengths) >= RepeatFactorOf(hashes) * KeptChars(hashes, lengths, n)
  }

  /** Every digest among the first n chunks occurs there at least r times. */
  ghost predicate AllOccur(hashes: seq<Digest>, n: nat, r: nat)
    requires n <= |hashes|
  {
    forall i :: 0 <= i < n ==> multiset(hashes[..n])[hashes[i]] >= r
  }

  lemma OccurringBounds(hashes: seq<Digest>, n: nat, lengths: seq<nat>)
    requires n <= |hashes| && n == |lengths| && LengthsFollowHashes(hashes, lengths)
    requires RepeatFactorOf(hashes) == 1 || AllOccur(hashes, n, RepeatFactorOf(hashes))
    ensures Sum(lengths) >= RepeatFactorOf(hashes) * KeptChars(hashes, lengths, n)
  {
    if RepeatFactorOf(hashes) == 1 {
      KeptCharsAtMost(hashes, lengths, n);
      assert lengths[..n] == lengths;
    } else {
      WeightedIsSum(hashes, lengths, n);
      assert lengths[..n] == lengths;
      WeightedAtLeast(hashes, lengths, n, multiset(hashes[..n]), RepeatFactorOf(hashes));
    }
  }

  lemma RareBreaks(hashes: seq<Digest>, n: nat, i: nat)
    requires i < n <= |hashes| && RepeatFactorOf(hashes) != 1
    requires multiset(hashes[..n])[hashes[i]] < RepeatFactorOf(hashes)
    ensures !BoundHolds(hashes, n)
  {
    var m := Marks(hashes, n, hashes[i]);
    assert hashes[i] in hashes && hashes[..n][i] == hashes[i];
    MarksCount(hashes, n, hashes[i]);
    assert |m| == n && LengthsFollowHashes(hashes, m);
  }

  /** With fewer lengths than chunks the bound holds for all lengths exactly when the list repeats
      nothing or every digest that has lengths has at least as many as the list repeats. */
  lemma MissingLengthsIff(hashes: seq<Digest>, n: nat)
    requires n <= |hashes|
    ensures BoundHolds(hashes, n) <==>
            RepeatFactorOf(hashes) == 1 || AllOccur(hashes, n, RepeatFactorOf(hashes))
  {
    var r := RepeatFactorOf(hashes);
    if r == 1 || AllOccur(hashes, n, r) {
      forall lengths: seq<nat> | |lengths| == n && LengthsFollowHashes(hashes, lengths)
        ensures Sum(lengths) >= r * KeptChars(hashes, lengths, n)
      {
        OccurringBounds(hashes, n, lengths);
      }
    } else {
      var i :| 0 <= i < n && multiset(hashes[..n])[hashes[i]] < r;
      RareBreaks(hashes, n, i);
    }
  }

  /** For instance with half of the lengths of a list that repeats once. */
  lemma MissingLengthsBreakTheBound()
    ensures var h := [Some("a"), Some("b"), Some("a"), Some("b")];
            RepeatFactorOf(h) == 2 && Sum([1, 1]) < 2 * KeptChars(h, [1, 1], 2)
  {
    var h: seq<Digest> := [Some("a"), Some("b"), Some("a"), Some("b")];
    var w: seq<Digest> := [Some("a"), Some("b")];
    assert Times(w, 2) == w + (w + Times(w, 0)) == h;
    assert !IsRepeat(w, 2) by {
      assert w[..1] == [Some("a")];
      assert Times(w[..1], 2) == w[..1] + (w[..1] + Times(w[..1], 0));
      assert Times(w[..1], 2)[1] == Some("a");
    }
    assert LargestRepeat(w, 2) == LargestRepeat(w, 1) == 1;
    FactorOfEmission(w, 2);
    assert [1, 1][..1] == [1] && [1][..0] == [];
    assert Sum([1]) == 1 && Sum([1, 1]) == 2;
    assert Kept(h, 0) && Kept(h, 1);
    assert KeptChars(h, [1, 1], 1) == 1;
  }
}
