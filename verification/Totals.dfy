/** The total of a weight over a sequence: what sorting and filtering leave of it, and what it counts. */
module Totals {
  import opened MapSum
  import opened PerfRecords
  import opened Seqs
  import opened Sorting

  ghost function Total<T>(s: seq<T>, f: T -> nat): nat {
    if s == [] then 0 else Total(s[..|s| - 1], f) + f(s[|s| - 1])
  }

  /** The weight, of the elements with a property only. */
  function Only<T>(p: T -> bool, f: T -> nat): T -> nat { x => if p(x) then f(x) else 0 }

  function One<T>(x: T): nat { 1 }

  lemma {:induction false} TotalAdds<T>(a: seq<T>, b: seq<T>, f: T -> nat)
    ensures Total(a + b, f) == Total(a, f) + Total(b, f)
  {
    if b == [] {
      assert a + b == a;
    } else {
      TotalAdds(a, b[..|b| - 1], f);
      assert (a + b)[..|a + b| - 1] == a + b[..|b| - 1];
    }
  }

  lemma TotalOfOne<T>(x: T, f: T -> nat)
    ensures Total([x], f) == f(x)
  {
    assert [x][..0] == [];
  }

  lemma TotalTakes<T>(s: seq<T>, f: T -> nat)
    requires s != []
    ensures Total(s, f) == f(s[0]) + Total(s[1..], f)
  {
    TotalAdds([s[0]], s[1..], f);
    TotalOfOne(s[0], f);
    assert [s[0]] + s[1..] == s;
  }

  lemma {:induction false} TotalSame<T>(s: seq<T>, f: T -> nat, g: T -> nat)
    requires forall x :: x in s ==> f(x) == g(x)
    ensures Total(s, f) == Total(s, g)
  {
    if s != [] { TotalSame(s[..|s| - 1], f, g); }
  }

  lemma {:induction false} InsertTotal<T>(x: T, s: seq<T>, key: T -> int, f: T -> nat)
    ensures Total(Insert(x, s, key), f) == f(x) + Total(s, f)
  {
    TotalTakes(Insert(x, s, key), f);
    if s == [] || key(x) <= key(s[0]) {
      assert Insert(x, s, key)[1..] == s;
    } else {
      InsertTotal(x, s[1..], key, f);
      TotalTakes(s, f);
      assert Insert(x, s, key)[1..] == Insert(x, s[1..], key);
    }
  }

  lemma {:induction false} SortTotal<T>(s: seq<T>, key: T -> int, f: T -> nat)
    ensures Total(Sort(s, key), f) == Total(s, f)
  {
    if s != [] {
      SortTotal(s[1..], key, f);
      InsertTotal(s[0], Sort(s[1..], key), key, f);
      TotalTakes(s, f);
    }
  }

  lemma {:induction false} FilterTotal<T(!new)>(s: seq<T>, p: T -> bool, f: T -> nat)
    ensures Total(Filter(s, p), f) == Total(s, Only(p, f))
  {
    if s != [] {
      FilterTotal(s[1..], p, f);
      TotalTakes(s, Only(p, f));
      TotalAdds(if p(s[0]) then [s[0]] else [], Filter(s[1..], p), f);
      TotalOfOne(s[0], f);
    }
  }

  lemma {:induction false} LengthIsTotal<T>(s: seq<T>)
    ensures |s| == Total(s, One)
  {
    if s != [] { LengthIsTotal(s[..|s| - 1]); }
  }

  /** Counting the places of elements with a property. */
  lemma {:induction false} PlacesTotal<T>(s: seq<T>, p: T -> bool)
    ensures |Places(s, p)| == Total(s, Only(p, One))
  {
    if s != [] {
      var front, x := s[..|s| - 1], s[|s| - 1];
      PlacesTotal(front, p);
      AddPlace(front, x, p);
      assert s == front + [x];
    }
  }

  /** The weights of the elements with a property, by place. */
  ghost function Weights<T>(s: seq<T>, p: T -> bool, f: T -> nat): map<int, nat> {
    map i | 0 <= i < |s| && p(s[i]) :: f(s[i])
  }

  lemma {:induction false} WeightsTotal<T>(s: seq<T>, p: T -> bool, f: T -> nat)
    ensures Sum(Weights(s, p, f)) == Total(s, Only(p, f))
  {
    if s == [] {
      assert Weights(s, p, f) == map[];
    } else {
      var n := |s| - 1;
      WeightsTotal(s[..n], p, f);
      WeightsGrow(s[..n], s[n], p, f);
      assert s == s[..n] + [s[n]];
    }
  }

  lemma WeightsGrow<T>(s: seq<T>, x: T, p: T -> bool, f: T -> nat)
    ensures Sum(Weights(s + [x], p, f)) == Sum(Weights(s, p, f)) + if p(x) then f(x) else 0
  {
    var m, n := Weights(s, p, f), Weights(s + [x], p, f);
    if p(x) {
      SameMap(n, m[|s| := f(x)]);
      SumUpdates(m, |s|, f(x));
    } else {
      SameMap(n, m);
    }
  }

  function WithKey<T>(key: T -> int, k: int): T -> bool { x => key(x) == k }

  lemma FilterHead<T(!new)>(x: T, s: seq<T>, p: T -> bool)
    ensures Filter([x] + s, p) == (if p(x) then [x] else []) + Filter(s, p)
  {
    assert ([x] + s)[1..] == s;
  }

  lemma FilterJoinsHead<T(!new)>(x: T, rest: seq<T>, b: seq<T>, p: T -> bool)
    requires Filter(rest + b, p) == Filter(rest, p) + Filter(b, p)
    ensures Filter(([x] + rest) + b, p) == Filter([x] + rest, p) + Filter(b, p)
  {
    FilterHead(x, rest, p);
    FilterHead(x, rest + b, p);
    Associates([x], rest, b);
    Associates(if p(x) then [x] else [], Filter(rest, p), Filter(b, p));
  }

  lemma {:induction false} FilterJoins<T(!new)>(a: seq<T>, b: seq<T>, p: T -> bool)
    ensures Filter(a + b, p) == Filter(a, p) + Filter(b, p)
  {
    if a == [] {
      assert a + b == b && Filter(a, p) == [];
    } else {
      FilterJoins(a[1..], b, p);
      FilterJoinsHead(a[0], a[1..], b, p);
      assert [a[0]] + a[1..] == a;
    }
  }

  lemma {:induction false} InsertIsStable<T(!new)>(x: T, s: seq<T>, key: T -> int, k: int)
    requires SortedBy(s, key)
    ensures Filter(Insert(x, s, key), WithKey(key, k)) == Filter([x] + s, WithKey(key, k))
  {
    if s != [] && key(x) > key(s[0]) {
      TailSorted(s, key);
      InsertIsStable(x, s[1..], key, k);
      var p := WithKey(key, k);
      assert Insert(x, s, key) == [s[0]] + Insert(x, s[1..], key) && s == [s[0]] + s[1..];
      FilterJoins([s[0]], Insert(x, s[1..], key), p);
      FilterJoins([x], s, p);
      FilterJoins([s[0]], s[1..], p);
      FilterJoins([x], s[1..], p);
      OneOfTwo(x, s[0], p);
    }
  }

  lemma OneOfTwo<T(!new)>(x: T, y: T, p: T -> bool)
    ensures !p(x) ==> Filter([x], p) == []
    ensures !p(y) ==> Filter([y], p) == []
  {
  }

  /** Sorting keeps elements of one key in their order. */
  lemma {:induction false} SortIsStable<T(!new)>(s: seq<T>, key: T -> int, k: int)
    ensures Filter(Sort(s, key), WithKey(key, k)) == Filter(s, WithKey(key, k))
  {
    if s != [] {
      var p, rest := WithKey(key, k), Sort(s[1..], key);
      SortIsStable(s[1..], key, k);
      SortOrder(s[1..], key);
      InsertIsStable(s[0], rest, key, k);
      FilterJoins([s[0]], rest, p);
      FilterJoins([s[0]], s[1..], p);
      assert s == [s[0]] + s[1..];
    }
  }
}
