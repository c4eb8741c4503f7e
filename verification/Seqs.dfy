/** Facts about sequences that several modules need. */
module Seqs {

  lemma Associates<T>(a: seq<T>, b: seq<T>, c: seq<T>)
    ensures (a + b) + c == a + (b + c)
  {
  }

  lemma DropsAdd<T>(s: seq<T>, k: nat)
    requires k < |s|
    ensures s[1..][k..] == s[k + 1..]
  {
  }

  /** The places of a sequence whose element has a property. */
  ghost function Places<T>(s: seq<T>, p: T -> bool): set<int> { set i | 0 <= i < |s| && p(s[i]) }

  lemma AddPlace<T>(s: seq<T>, x: T, p: T -> bool)
    ensures |Places(s + [x], p)| == |Places(s, p)| + if p(x) then 1 else 0
  {
    var a, b := Places(s, p), Places(s + [x], p);
    assert b == if p(x) then a + {|s|} else a;
  }

  lemma {:induction false} PlacesJoin<T>(a: seq<T>, b: seq<T>, p: T -> bool)
    ensures |Places(a + b, p)| == |Places(a, p)| + |Places(b, p)|
  {
    if b == [] {
      assert a + b == a;
    } else {
      var front, x := b[..|b| - 1], b[|b| - 1];
      PlacesJoin(a, front, p);
      AddPlace(a + front, x, p);
      AddPlace(front, x, p);
      assert a + b == (a + front) + [x] && b == front + [x];
    }
  }

  lemma FirstPlace<T>(s: seq<T>, p: T -> bool)
    requires s != []
    ensures |Places(s, p)| == |Places(s[1..], p)| + if p(s[0]) then 1 else 0
  {
    PlacesJoin([s[0]], s[1..], p);
    AddPlace([], s[0], p);
    assert [] + [s[0]] == [s[0]] && [s[0]] + s[1..] == s;
  }

  lemma {:induction false} PlacesOfAll<T>(s: seq<T>, p: T -> bool)
    ensures |Places(s, p)| <= |s|
    ensures (forall x :: x in s ==> p(x)) ==> |Places(s, p)| == |s|
    ensures (forall x :: x in s ==> !p(x)) ==> |Places(s, p)| == 0
  {
    if s != [] {
      var front, x := s[..|s| - 1], s[|s| - 1];
      assert s == front + [x];
      PlacesOfAll(front, p);
      AddPlace(front, x, p);
    }
  }
}
