/** Repetition in words: the theory under `repeat_factor`.

    A word that is an exact r-fold block repeat is a word fixed by the rotation through one
    block.  Rotations that fix a word are closed under subtraction, so the subtractive Euclidean
    algorithm turns two block lengths into a common one.  On the divisors of the length this does
    the work of the Fine and Wilf periodicity theorem. */
module Words {
  import opened Arith

  /** The list `b * n` of Python. */
  function Times<T>(b: seq<T>, n: nat): (w: seq<T>)
    ensures |w| == n * |b|
  {
    if n == 0 then [] else b + Times(b, n - 1)
  }

  /** `w` is one block repeated exactly `r` times. */
  predicate IsRepeat<T(==)>(w: seq<T>, r: int) {
    r >= 1 && |w| % r == 0 && w == Times(w[..|w| / r], r)
  }

  /** `r` is the largest exponent of `w`. */
  ghost predicate IsExponent<T>(w: seq<T>, r: int) {
    IsRepeat(w, r) && forall s :: IsRepeat(w, s) ==> s <= r
  }

  function Rotate<T>(w: seq<T>, k: nat): (r: seq<T>)
    requires k <= |w|
    ensures |r| == |w|
  {
    w[k..] + w[..k]
  }

  // ----- blocks and rotations

  lemma {:induction false} TimesShiftsBlock<T>(b: seq<T>, n: nat)
    ensures b + Times(b, n) == Times(b, n) + b
  {
    if n == 0 {
    } else {
      TimesShiftsBlock(b, n - 1);
      assert b + (Times(b, n - 1) + b) == (b + Times(b, n - 1)) + b;
    }
  }

  lemma {:induction false} TimesAdds<T>(b: seq<T>, m: nat, n: nat)
    ensures Times(b, m) + Times(b, n) == Times(b, m + n)
  {
    if m == 0 {
    } else {
      TimesAdds(b, m - 1, n);
      assert Times(b, m) + Times(b, n) == b + (Times(b, m - 1) + Times(b, n));
    }
  }

  lemma {:induction false} TimesTimes<T>(b: seq<T>, m: nat, n: nat)
    ensures Times(Times(b, m), n) == Times(b, m * n)
  {
    if n == 0 {
    } else {
      TimesTimes(b, m, n - 1);
      TimesAdds(b, m, m * (n - 1));
      assert m + m * (n - 1) == m * n;
    }
  }

  lemma FirstBlock<T>(b: seq<T>, n: nat)
    requires n >= 1
    ensures |b| <= |Times(b, n)| && Times(b, n)[..|b|] == b
  {
    assert Times(b, n) == b + Times(b, n - 1);
  }

  lemma TimesAt<T>(b: seq<T>, n: nat, i: nat)
    requires i + |b| < |Times(b, n)|
    ensures Times(b, n)[i] == Times(b, n)[i + |b|]
  {
    TimesShiftsBlock(b, n - 1);
    assert Times(b, n) == b + Times(b, n - 1);
    assert Times(b, n)[i + |b|] == Times(b, n - 1)[i];
  }

  /** Any exact repeat is fixed by the rotation through its block. */
  lemma BlockRotates<T>(b: seq<T>, n: nat)
    requires n >= 1
    ensures |b| <= |Times(b, n)| && Rotate(Times(b, n), |b|) == Times(b, n)
  {
    TimesShiftsBlock(b, n - 1);
    assert Times(b, n)[|b|..] == Times(b, n - 1);
    FirstBlock(b, n);
  }

  /** Shifting `w` by `g` places changes nothing where both copies are defined. */
  ghost predicate HasPeriod<T>(w: seq<T>, g: nat) {
    g <= |w| && w[g..] == w[..|w| - g]
  }

  lemma {:induction false} PeriodGivesTimes<T>(w: seq<T>, g: nat, m: nat)
    requires |w| == m * g && m >= 1 && HasPeriod(w, g)
    ensures w == Times(w[..g], m)
  {
    MulDistribute(m - 1, 1, g);
    if m == 1 {
      assert Times(w[..g], 1) == w[..g] + Times(w[..g], 0);
    } else {
      MulDistribute(m - 2, 1, g);
      var v := w[g..];
      assert v == w[..|w| - g];
      assert v[g..] == w[g..][..|v| - g] == v[..|v| - g];
      PeriodGivesTimes(v, g, m - 1);
      assert v[..g] == w[..g];
      assert w == w[..g] + v;
    }
  }

  /** Conversely, a rotation that fixes `w` and divides its length is a block of it. */
  lemma RotationGivesRepeat<T>(w: seq<T>, g: nat, m: nat)
    requires 0 < g && m >= 1 && |w| == m * g && g <= |w| && Rotate(w, g) == w
    ensures IsRepeat(w, m)
  {
    assert Rotate(w, g)[..|w| - g] == w[g..];
    PeriodGivesTimes(w, g, m);
    DivExact(|w|, m, g);
  }

  lemma RotationsCompose<T>(w: seq<T>, a: nat, b: nat)
    requires a + b <= |w|
    ensures Rotate(Rotate(w, a), b) == Rotate(w, a + b)
  {
  }

  lemma RotateInjective<T>(x: seq<T>, y: seq<T>, k: nat)
    requires |x| == |y| && k <= |x| && Rotate(x, k) == Rotate(y, k)
    ensures x == y
  {
    assert Rotate(x, k)[..|x| - k] == x[k..] && Rotate(y, k)[..|x| - k] == y[k..];
    assert Rotate(x, k)[|x| - k..] == x[..k] && Rotate(y, k)[|x| - k..] == y[..k];
    assert x == x[..k] + x[k..] && y == y[..k] + y[k..];
  }

  /** If two rotations fix `w`, so does their difference. */
  lemma RotationsSubtract<T>(w: seq<T>, p: nat, q: nat)
    requires q < p <= |w| && Rotate(w, p) == w && Rotate(w, q) == w
    ensures Rotate(w, p - q) == w
  {
    RotationsCompose(w, p - q, q);
    RotateInjective(Rotate(w, p - q), w, q);
  }

  lemma SumOfMultiples(p: int, q: int, a: int, b: int, g: int)
    requires p - q == a * g && q == b * g
    ensures p == (a + b) * g
  {
    MulDistribute(a, b, g);
  }

  /** Euclid on rotations: two that fix `w` are multiples of a third that fixes it. */
  lemma {:induction false} CommonRotation<T>(w: seq<T>, p: nat, q: nat) returns (g: nat, a: nat, b: nat)
    requires 0 < p <= |w| && 0 < q <= |w|
    requires Rotate(w, p) == w && Rotate(w, q) == w
    ensures 0 < g <= |w| && a >= 1 && b >= 1 && p == a * g && q == b * g && Rotate(w, g) == w
    decreases p + q
  {
    if p == q {
      g, a, b := p, 1, 1;
    } else if p > q {
      RotationsSubtract(w, p, q);
      g, a, b := CommonRotation(w, p - q, q);
      SumOfMultiples(p, q, a, b, g);
      a := a + b;
    } else {
      RotationsSubtract(w, q, p);
      g, a, b := CommonRotation(w, p, q - p);
      SumOfMultiples(q, p, b, a, g);
      b := b + a;
    }
  }

  // ----- the structure of the exponents of a word

  lemma RepeatBlock<T>(w: seq<T>, r: int) returns (p: nat)
    requires |w| > 0 && IsRepeat(w, r)
    ensures 0 < p <= |w| && |w| == r * p && p == |w| / r && Rotate(w, p) == w
    ensures w == Times(w[..p], r)
  {
    p := |w| / r;
    assert |w| == r * p;
    FactorPositive(r, p);
    MulAtLeast(r, p);
    BlockRotates(w[..p], r);
  }

  lemma CommonBlockCount(n: nat, r: nat, q: nat, s: nat, p: nat, g: nat, a: nat, b: nat)
    requires n > 0 && r >= 1 && n == r * q && n == s * p && p == a * g && q == b * g && g > 0 && b >= 1
    ensures r * b >= r && n == (r * b) * g
    ensures b == 1 && s >= 1 ==> r == s * a && r % s == 0
  {
    MulAssoc(r, b, g);
    MulAtLeast(r, b);
    if b == 1 && s >= 1 {
      MulAssoc(s, a, g);
      MulCancel(r, s * a, g);
      DivExact(r, s, a);
    }
  }

  /** Every exact repeat count of a word divides the largest one. */
  lemma RepeatsDivideExponent<T>(w: seq<T>, r: int, s: int)
    requires |w| > 0 && IsExponent(w, r) && IsRepeat(w, s)
    ensures r % s == 0
  {
    var p := RepeatBlock(w, s);
    var q := RepeatBlock(w, r);
    var g, a, b := CommonRotation(w, p, q);
    CommonBlockCount(|w|, r, q, s, p, g, a, b);
    RotationGivesRepeat(w, g, r * b);
    MulLeCancel(r, b, 1);
  }

  lemma RepeatOfRepeat<T>(b: seq<T>, m: int, n: nat)
    requires |b| > 0 && n >= 1 && IsRepeat(b, m)
    ensures IsRepeat(Times(b, n), n * m)
  {
    var p := RepeatBlock(b, m);
    var c := b[..p];
    TimesTimes(c, m, n);
    MulAtLeast(n, m);
    FirstBlock(c, n * m);
    MulAssoc(n, m, p);
    DivExact(|Times(b, n)|, n * m, p);
  }

  /** The block left after dividing out the exponent is primitive. */
  lemma BlockIsPrimitive<T>(w: seq<T>, r: int)
    requires |w| > 0 && IsExponent(w, r)
    ensures 0 < |w| / r <= |w| && IsExponent(w[..|w| / r], 1)
  {
    var p := RepeatBlock(w, r);
    var b := w[..p];
    assert b[..p] == b && Times(b, 1) == b + Times(b, 0);
    forall m | IsRepeat(b, m) ensures m <= 1 {
      RepeatOfRepeat(b, m, r);
      MulLeCancel(r, m, 1);
    }
  }

  /** An exponent of an n-fold power that is n * m makes m an exact repeat count of the root. */
  lemma RootRepeats<T>(w: seq<T>, n: nat, m: int)
    requires |w| > 0 && n >= 1 && m >= 1 && IsRepeat(Times(w, n), n * m)
    ensures IsRepeat(w, m)
  {
    var v := Times(w, n);
    MulAtLeast(n, |w|);
    var p := RepeatBlock(v, n * m);
    MulAssoc(n, m, p);
    MulCancel(|w|, m * p, n);
    var c := v[..p];
    TimesTimes(c, m, n);
    FirstBlock(Times(c, m), n);
    FirstBlock(w, n);
    assert w == Times(c, m);
    FirstBlock(c, m);
    DivExact(|w|, m, p);
  }

  lemma PowerRepeats<T>(w: seq<T>, n: nat)
    requires |w| > 0 && n >= 1
    ensures IsRepeat(Times(w, n), n)
  {
    FirstBlock(w, n);
    DivExact(|Times(w, n)|, n, |w|);
  }

  lemma ExponentOfPowerAtLeast<T>(w: seq<T>, e: int, n: nat, r: int)
    requires |w| > 0 && n >= 1 && IsExponent(w, e) && IsExponent(Times(w, n), r)
    ensures n * e <= r
  {
    RepeatOfRepeat(w, e, n);
  }

  lemma ExponentOfPowerAtMost<T>(w: seq<T>, e: int, n: nat, r: int)
    requires |w| > 0 && n >= 1 && IsExponent(w, e) && IsExponent(Times(w, n), r)
    ensures r <= n * e
  {
    MulAtLeast(n, |w|);
    PowerRepeats(w, n);
    RepeatsDivideExponent(Times(w, n), r, n);
    var m := r / n;
    DivBack(n, r);
    FactorPositive(n, m);
    RootRepeats(w, n, m);
    MulMono(n, m, e);
  }

  /** Repeating a word n times multiplies its exponent by n. */
  lemma ExponentOfPower<T>(w: seq<T>, e: int, n: nat, r: int)
    requires |w| > 0 && n >= 1 && IsExponent(w, e) && IsExponent(Times(w, n), r)
    ensures r == n * e
  {
    ExponentOfPowerAtLeast(w, e, n, r);
    ExponentOfPowerAtMost(w, e, n, r);
  }
}
