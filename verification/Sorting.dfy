/** Python's stable `sorted(xs, key=...)`, with the facts its callers rely on. */
module Sorting {

  predicate SortedBy<T>(s: seq<T>, key: T -> int) {
    forall i, j :: 0 <= i < j < |s| ==> key(s[i]) <= key(s[j])
  }

  function Insert<T>(x: T, s: seq<T>, key: T -> int): (r: seq<T>)
    ensures |r| == |s| + 1
  {
    if s == [] || key(x) <= key(s[0]) then [x] + s else [s[0]] + Insert(x, s[1..], key)
  }

  function Sort<T>(s: seq<T>, key: T -> int): (r: seq<T>)
    ensures |r| == |s|
  {
    if s == [] then [] else Insert(s[0], Sort(s[1..], key), key)
  }

  function Map<T, U>(f: T -> U, s: seq<T>): (r: seq<U>)
    ensures |r| == |s| && forall i :: 0 <= i < |s| ==> r[i] == f(s[i])
  {
    seq(|s|, i requires 0 <= i < |s| => f(s[i]))
  }

  function CountWhere<T>(s: seq<T>, p: T -> bool): nat {
    if s == [] then 0 else CountWhere(s[..|s| - 1], p) + if p(s[|s| - 1]) then 1 else 0
  }

  function Itself(x: int): int { x }

  function AtMost(v: int): int -> bool { (x: int) => x <= v }

  // ----- order and contents

  lemma {:induction false} InsertContents<T>(x: T, s: seq<T>, key: T -> int)
    ensures multiset(Insert(x, s, key)) == multiset(s) + multiset{x}
  {
    if s == [] || key(x) <= key(s[0]) {
    } else {
      InsertContents(x, s[1..], key);
      assert s == [s[0]] + s[1..];
    }
  }

  lemma {:induction false} InsertOrder<T>(x: T, s: seq<T>, key: T -> int)
    requires SortedBy(s, key)
    ensures SortedBy(Insert(x, s, key), key)
  {
    if s == [] || key(x) <= key(s[0]) {
    } else {
      InsertOrder(x, s[1..], key);
      InsertContents(x, s[1..], key);
      var r := Insert(x, s[1..], key);
      forall j | 0 <= j < |r| ensures key(s[0]) <= key(r[j]) {
        assert r[j] in multiset(r);
        if r[j] != x { assert r[j] in s[1..]; }
      }
    }
  }

  lemma {:induction false} SortContents<T>(s: seq<T>, key: T -> int)
    ensures multiset(Sort(s, key)) == multiset(s)
  {
    if s != [] {
      SortContents(s[1..], key);
      InsertContents(s[0], Sort(s[1..], key), key);
      assert s == [s[0]] + s[1..];
    }
  }

  lemma {:induction false} SortOrder<T>(s: seq<T>, key: T -> int)
    ensures SortedBy(Sort(s, key), key)
  {
    if s != [] {
      SortOrder(s[1..], key);
      InsertOrder(s[0], Sort(s[1..], key), key);
    }
  }

  lemma SortMembers<T>(s: seq<T>, key: T -> int, x: T)
    ensures x in Sort(s, key) <==> x in s
  {
    SortContents(s, key);
    assert x in Sort(s, key) <==> x in multiset(Sort(s, key));
    assert x in s <==> x in multiset(s);
  }

  ghost predicate TellsApart<T>(key: T -> int, s: seq<T>) {
    forall x, y :: x in s && y in s && key(x) == key(y) ==> x == y
  }

  lemma SmallestFirst<T>(a: seq<T>, b: seq<T>, key: T -> int)
    requires SortedBy(a, key) && a != [] && b != [] && multiset(a) == multiset(b)
    ensures key(a[0]) <= key(b[0])
  {
    assert b[0] in multiset(a);
    var i :| 0 <= i < |a| && a[i] == b[0];
  }

  lemma TailContents<T>(a: seq<T>)
    requires a != []
    ensures multiset(a) == multiset{a[0]} + multiset(a[1..])
  {
    assert a == [a[0]] + a[1..];
  }

  lemma SameTail<T>(a: seq<T>, b: seq<T>)
    requires a != [] && b != [] && a[0] == b[0] && multiset(a) == multiset(b)
    ensures multiset(a[1..]) == multiset(b[1..])
  {
    TailContents(a);
    TailContents(b);
    assert multiset(a[1..]) == multiset(a) - multiset{a[0]};
  }

  lemma SameLength<T>(a: seq<T>, b: seq<T>)
    requires multiset(a) == multiset(b)
    ensures |a| == |b|
  {
    assert |a| == |multiset(a)| && |b| == |multiset(b)|;
  }

  lemma TailSorted<T>(a: seq<T>, key: T -> int)
    requires SortedBy(a, key) && a != []
    ensures SortedBy(a[1..], key)
  {
  }

  lemma TailToldApart<T>(a: seq<T>, key: T -> int)
    requires TellsApart(key, a) && a != []
    ensures TellsApart(key, a[1..])
  {
  }

  lemma SameHead<T>(a: seq<T>, b: seq<T>, key: T -> int)
    requires SortedBy(a, key) && SortedBy(b, key) && multiset(a) == multiset(b) && a != [] && b != []
    requires TellsApart(key, a)
    ensures a[0] == b[0]
  {
    SmallestFirst(a, b, key);
    SmallestFirst(b, a, key);
    assert b[0] in multiset(a);
  }

  /** Two sorted lists of the same elements agree when the key tells the elements apart. */
  lemma {:induction false} SortedIsUnique<T>(a: seq<T>, b: seq<T>, key: T -> int)
    requires SortedBy(a, key) && SortedBy(b, key) && multiset(a) == multiset(b)
    requires TellsApart(key, a)
    ensures a == b
  {
    SameLength(a, b);
    if a != [] {
      SameHead(a, b, key);
      SameTail(a, b);
      TailSorted(a, key);
      TailSorted(b, key);
      TailToldApart(a, key);
      SortedIsUnique(a[1..], b[1..], key);
      assert a == [a[0]] + a[1..] && b == [b[0]] + b[1..];
    }
  }

  /** Sorting a list that is a permutation of a sorted one, distinct by key, recovers it. */
  lemma SortRecovers<T>(s: seq<T>, sorted: seq<T>, key: T -> int)
    requires multiset(s) == multiset(sorted) && SortedBy(sorted, key) && TellsApart(key, sorted)
    ensures Sort(s, key) == sorted
  {
    SortContents(s, key);
    SortOrder(s, key);
    SortedIsUnique(sorted, Sort(s, key), key);
  }

  // ----- mapping and counting

  lemma {:induction false} InsertMap<T, U>(f: T -> U, x: T, s: seq<T>, key: T -> int, key': U -> int)
    requires key'(f(x)) == key(x) && forall y :: y in s ==> key'(f(y)) == key(y)
    ensures Insert(f(x), Map(f, s), key') == Map(f, Insert(x, s, key))
  {
    if s == [] || key(x) <= key(s[0]) {
    } else {
      InsertMap(f, x, s[1..], key, key');
      assert Map(f, s)[1..] == Map(f, s[1..]);
    }
  }

  /** Sorting commutes with a change of elements that keeps their keys. */
  lemma {:induction false} SortMap<T, U>(f: T -> U, s: seq<T>, key: T -> int, key': U -> int)
    requires forall y :: y in s ==> key'(f(y)) == key(y)
    ensures Sort(Map(f, s), key') == Map(f, Sort(s, key))
  {
    if s != [] {
      SortMap(f, s[1..], key, key');
      assert Map(f, s)[1..] == Map(f, s[1..]);
      forall y | y in Sort(s[1..], key) ensures key'(f(y)) == key(y) {
        SortMembers(s[1..], key, y);
      }
      InsertMap(f, s[0], Sort(s[1..], key), key, key');
    }
  }

  lemma {:induction false} CountAdds<T>(a: seq<T>, b: seq<T>, p: T -> bool)
    ensures CountWhere(a + b, p) == CountWhere(a, p) + CountWhere(b, p)
  {
    if b == [] {
      assert a + b == a;
    } else {
      CountAdds(a, b[..|b| - 1], p);
      assert (a + b)[..|a + b| - 1] == a + b[..|b| - 1];
    }
  }

  lemma {:induction false} InsertCount<T>(x: T, s: seq<T>, key: T -> int, p: T -> bool)
    ensures CountWhere(Insert(x, s, key), p) == CountWhere(s, p) + if p(x) then 1 else 0
  {
    if s == [] || key(x) <= key(s[0]) {
      CountAdds([x], s, p);
    } else {
      InsertCount(x, s[1..], key, p);
      CountAdds([s[0]], s[1..], p);
      assert s == [s[0]] + s[1..];
      CountAdds([s[0]], Insert(x, s[1..], key), p);
    }
  }

  lemma {:induction false} SortCount<T>(s: seq<T>, key: T -> int, p: T -> bool)
    ensures CountWhere(Sort(s, key), p) == CountWhere(s, p)
  {
    if s != [] {
      SortCount(s[1..], key, p);
      InsertCount(s[0], Sort(s[1..], key), key, p);
      assert s == [s[0]] + s[1..];
      CountAdds([s[0]], s[1..], p);
    }
  }

  lemma {:induction false} CountBounds<T>(s: seq<T>, p: T -> bool)
    ensures CountWhere(s, p) <= |s|
    ensures (forall x :: x in s ==> p(x)) ==> CountWhere(s, p) == |s|
    ensures (forall x :: x in s ==> !p(x)) ==> CountWhere(s, p) == 0
  {
    if s != [] {
      CountBounds(s[..|s| - 1], p);
      assert s[|s| - 1] in s;
    }
  }

  lemma {:induction false} CountImplies<T>(s: seq<T>, p: T -> bool, q: T -> bool)
    requires forall x :: x in s && p(x) ==> q(x)
    ensures CountWhere(s, p) <= CountWhere(s, q)
  {
    if s != [] {
      CountImplies(s[..|s| - 1], p, q);
      assert s[|s| - 1] in s;
    }
  }

  /** At position k of a sorted list, k + 1 elements are at most it and at most k are below it. */
  lemma SortedCounts(s: seq<int>, k: nat)
    requires SortedBy(s, Itself) && k < |s|
    ensures CountWhere(s, AtMost(s[k])) >= k + 1 && CountWhere(s, AtMost(s[k] - 1)) <= k
  {
    var p, q := AtMost(s[k]), AtMost(s[k] - 1);
    assert s == s[..k + 1] + s[k + 1..] && s == s[..k] + s[k..];
    CountAdds(s[..k + 1], s[k + 1..], p);
    forall x | x in s[..k + 1] ensures p(x) {
      var i :| 0 <= i <= k && s[i] == x;
      if i < k { assert Itself(s[i]) <= Itself(s[k]); }
    }
    CountBounds(s[..k + 1], p);
    CountAdds(s[..k], s[k..], q);
    CountBounds(s[..k], q);
    forall x | x in s[k..] ensures !q(x) {
      var i :| k <= i < |s| && s[i] == x;
      if k < i { assert Itself(s[k]) <= Itself(s[i]); }
    }
    CountBounds(s[k..], q);
  }
}
