/** Small shared vocabulary: optional values, results, and sums of reals. */
module Common {

  datatype Option<+T> = None | Some(value: T)

  datatype Result<+T> = Success(value: T) | Failure(error: string)

  function Min(x: real, y: real): real { if x <= y then x else y }

  function Max(x: real, y: real): real { if x >= y then x else y }

  function Abs(x: real): real { if x >= 0.0 then x else -x }

  function Sum(xs: seq<real>): real {
    if xs == [] then 0.0 else Sum(xs[..|xs| - 1]) + xs[|xs| - 1]
  }

  function Pow2(n: nat): real { if n == 0 then 1.0 else 2.0 * Pow2(n - 1) }

  ghost predicate NonNegative(xs: seq<real>) { forall i :: 0 <= i < |xs| ==> xs[i] >= 0.0 }

  lemma SumAppend(xs: seq<real>, x: real)
    ensures Sum(xs + [x]) == Sum(xs) + x
  {
    assert (xs + [x])[..|xs|] == xs;
  }

  lemma {:induction false} SumConcat(xs: seq<real>, ys: seq<real>)
    ensures Sum(xs + ys) == Sum(xs) + Sum(ys)
  {
    if ys == [] {
      assert xs + ys == xs;
    } else {
      var n := |ys| - 1;
      assert xs + ys == (xs + ys[..n]) + [ys[n]];
      SumAppend(xs + ys[..n], ys[n]);
      SumConcat(xs, ys[..n]);
    }
  }

  lemma {:induction false} SumUpdate(xs: seq<real>, i: nat, x: real)
    requires i < |xs|
    ensures Sum(xs[i := x]) == Sum(xs) - xs[i] + x
  {
    var n := |xs| - 1;
    if i == n {
      assert xs[i := x][..n] == xs[..n];
    } else {
      assert xs[i := x][..n] == xs[..n][i := x];
      SumUpdate(xs[..n], i, x);
    }
  }

  lemma {:induction false} SumZero(xs: seq<real>)
    requires forall i :: 0 <= i < |xs| ==> xs[i] == 0.0
    ensures Sum(xs) == 0.0
  {
    if xs != [] {
      SumZero(xs[..|xs| - 1]);
    }
  }

  lemma {:induction false} SumNonNegative(xs: seq<real>)
    requires forall i :: 0 <= i < |xs| ==> xs[i] >= 0.0
    ensures Sum(xs) >= 0.0
    ensures forall i :: 0 <= i < |xs| ==> xs[i] <= Sum(xs)
  {
    if xs != [] {
      SumNonNegative(xs[..|xs| - 1]);
      assert forall i :: 0 <= i < |xs| - 1 ==> xs[i] == xs[..|xs| - 1][i];
    }
  }

  lemma {:induction false} SumConstant(n: nat, x: real)
    ensures Sum(seq(n, _ => x)) == n as real * x
  {
    if n > 0 {
      assert seq(n, _ => x)[..n - 1] == seq(n - 1, _ => x);
      SumConstant(n - 1, x);
    }
  }

  lemma {:induction false} SumAtLeast(s: seq<real>, m: real, n: real)
    requires n == |s| as real && forall i :: 0 <= i < |s| ==> s[i] >= m
    ensures Sum(s) >= n * m
  {
    if s != [] {
      SumAtLeast(s[..|s| - 1], m, n - 1.0);
      assert (n - 1.0) * m == n * m - m;
    }
  }

  lemma {:induction false} SumAtMost(s: seq<real>, m: real, n: real)
    requires n == |s| as real && forall i :: 0 <= i < |s| ==> s[i] <= m
    ensures Sum(s) <= n * m
  {
    if s != [] {
      SumAtMost(s[..|s| - 1], m, n - 1.0);
      assert (n - 1.0) * m == n * m - m;
    }
  }

  lemma SignOfProduct(x: real, t: real)
    requires t > 0.0
    ensures x * t >= 0.0 <==> x >= 0.0
  {
    if x < 0.0 { assert x * t < 0.0; }
  }

  lemma MulLess(a: real, b: real, d: real)
    requires d > 0.0
    ensures a <= b <==> a * d <= b * d
    ensures a < b <==> a * d < b * d
  {
    assert (b - a) * d == b * d - a * d;
    if a < b { assert (b - a) * d > 0.0; }
    if a > b { assert (b - a) * d < 0.0; }
  }

  lemma DivTimes(q: real, d: real)
    requires d != 0.0
    ensures (q / d) * d == q
  {
  }

  lemma DivSelf(d: real)
    requires d != 0.0
    ensures d / d == 1.0
  {
    var q := d / d;
    DivTimes(d, d);
    assert (q - 1.0) * d == q * d - d;
    if q != 1.0 { NonZeroProduct(q - 1.0, d); }
  }

  lemma NonZeroProduct(x: real, y: real)
    requires x != 0.0 && y != 0.0
    ensures x * y != 0.0
  {
    if (x > 0.0) == (y > 0.0) { assert x * y > 0.0; } else { assert x * y < 0.0; }
  }

  // The whole part of q / d, scaled back, leaves a remainder below d.
  lemma FloorTimes(q: real, d: real)
    requires d > 0.0 && q >= 0.0
    ensures (q / d).Floor >= 0
    ensures 0.0 <= q - (q / d).Floor as real * d < d
    ensures q >= d ==> (q / d).Floor >= 1
  {
    var x := q / d;
    DivTimes(q, d);
    Bracket(x.Floor as real, x, d, q);
    MulLess(0.0, x, d);
    MulLess(1.0, x, d);
  }

  lemma Bracket(f: real, x: real, d: real, q: real)
    requires d > 0.0 && f <= x < f + 1.0 && x * d == q
    ensures f * d <= q < f * d + d
    ensures 0.0 <= q - f * d < d
  {
    var g := f + 1.0;
    MulLess(f, x, d);
    MulLess(x, g, d);
    assert q < g * d;
    assert (g - f) * d == g * d - f * d;
  }
}
